/**
  The entity model of ChainWatch: users and their roles, batches with their
  five-valued status, checkpoints, temperature logs and file attachments.
  Temperatures are real numbers; timestamps and GPS texts are opaque strings.
 */
module Domain {
  import opened Wrappers

  datatype UserRole = Admin | Manufacturer | Distributor | Retailer | Inspector | Customer

  datatype BatchStatus = Registered | InTransit | CheckpointReached | Delivered | Issue

  datatype AttachmentKind = Bill | Invoice | Image | Other

  datatype FileAttachment = FileAttachment(name: string, url: string, kind: AttachmentKind)

  datatype Checkpoint = Checkpoint(
    id: string,
    locationName: string,
    gpsCoordinates: string,
    timestamp: string,
    temperatureCelsius: Option<real>,
    notes: Option<string>,
    handlerRole: UserRole)

  datatype TemperatureLog = TemperatureLog(
    timestamp: string,
    temperatureCelsius: real,
    locationGps: Option<string>)

  /**
    A tracked batch. The optional `attachments` list of the source is a plain
    sequence here: an absent list and an empty one behave the same everywhere.
   */
  datatype Batch = Batch(
    id: string,
    productName: string,
    origin: string,
    destination: string,
    currentLocationGps: string,
    temperatureLimitCelsius: real,
    status: BatchStatus,
    creationDate: string,
    qrCodeUrl: Option<string>,
    attachments: seq<FileAttachment>,
    checkpoints: seq<Checkpoint>,
    temperatureLogs: seq<TemperatureLog>)

  datatype User = User(id: string, email: string, role: UserRole, name: string)

  /** The icons of the lucide set that the core hands to the UI. */
  datatype Icon =
    | Package | Thermometer | AlertTriangle | CheckCircle2 | Truck | MapPin
    | Factory | Warehouse | Store | ShieldCheck | UserCircle
    | LayoutDashboard | PackagePlus | SearchCheck | AlertCircle | Users | BarChart3 | Settings

  /** The status text stored in a batch record. */
  function StatusLabel(s: BatchStatus): string {
    match s
    case Registered => "Registered"
    case InTransit => "In Transit"
    case CheckpointReached => "CheckpointReached"
    case Delivered => "Delivered"
    case Issue => "Issue"
  }

  /** The five texts a status is stored as. */
  lemma StatusLabelValues()
    ensures forall u: BatchStatus :: StatusLabel(u) in ["Registered", "In Transit", "CheckpointReached", "Delivered", "Issue"]
  {
    forall u: BatchStatus
      ensures StatusLabel(u) in ["Registered", "In Transit", "CheckpointReached", "Delivered", "Issue"]
    {
      match u
      case Registered =>
      case InTransit =>
      case CheckpointReached =>
      case Delivered =>
      case Issue =>
    }
  }

  /** Distinct statuses are stored as distinct texts. */
  lemma StatusLabelInjective(s: BatchStatus, t: BatchStatus)
    ensures StatusLabel(s) == StatusLabel(t) <==> s == t
  {
  }
}
