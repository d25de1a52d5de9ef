/**
  The sample data set, the role-dependent dashboard cards and the icon tables.

  The sample batches' timestamps are computed from the page-load time in the
  application; here they are texts naming that offset.
 */
module MockData {
  import opened Wrappers
  import opened Domain
  import opened BatchList

  const Roles: seq<UserRole> := [Admin, Manufacturer, Distributor, Retailer, Inspector, Customer]

  const SampleBatches: seq<Batch> := [
    Batch("BATCH001", "PharmaX Vaccine", "Factory A, Berlin", "Central Pharmacy, Munich",
      "50.1109,8.6821", 5.0, InTransit, "load time - 2 days",
      Some("https://placehold.co/150x150.png/E0E0E0/B0B0B0?text=QR+BATCH001"),
      [ FileAttachment("Invoice_001.pdf", "#", Invoice),
        FileAttachment("Product_Image.jpg", "https://placehold.co/300x200.png/E0E0E0/B0B0B0?text=Product_Image", Image) ],
      [ Checkpoint("CP001", "Factory A Loading Dock", "52.5200,13.4050", "load time - 2 days - 1 hour",
          Some(3.0), None, Manufacturer),
        Checkpoint("CP002", "Distributor Hub Leipzig", "51.3397,12.3731", "load time - 1 day",
          Some(4.0), Some("Transferred to refrigerated truck."), Distributor) ],
      [ TemperatureLog("load time - 2 days - 50 minutes", 3.2, Some("52.5200,13.4050")),
        TemperatureLog("load time - 1 day - 10 minutes", 4.1, Some("51.3397,12.3731")),
        TemperatureLog("load time - 10 minutes", 4.5, Some("50.1109,8.6821")) ]),
    Batch("BATCH002", "MediChill Gel", "Lab B, Hamburg", "Retailer X, Cologne",
      "53.5511,9.9937", 8.0, Registered, "load time - 1 day",
      Some("https://placehold.co/150x150.png/E0E0E0/B0B0B0?text=QR+BATCH002"),
      [],
      [ Checkpoint("CP003", "Lab B Storage", "53.5511,9.9937", "load time - 1 day + 1 hour",
          Some(6.0), None, Manufacturer) ],
      [ TemperatureLog("load time - 1 day + 70 minutes", 6.5, None) ]),
    Batch("BATCH003", "Sensitive Reagents", "Research Institute, Stuttgart", "Hospital Y, Berlin",
      "52.5200,13.4050", 2.0, Delivered, "load time - 5 days",
      Some("https://placehold.co/150x150.png/E0E0E0/B0B0B0?text=QR+BATCH003"),
      [],
      [ Checkpoint("CP004", "Research Institute", "48.7758,9.1829", "load time - 5 days",
          Some(1.5), None, Manufacturer),
        Checkpoint("CP005", "Logistics Partner Hub", "50.1109,8.6821", "load time - 4 days",
          Some(1.8), None, Distributor),
        Checkpoint("CP006", "Hospital Y Receiving", "52.5200,13.4050", "load time - 3 days",
          Some(1.9), Some("Delivered and stored."), Retailer) ],
      [ TemperatureLog("load time - 5 days", 1.5, None),
        TemperatureLog("load time - 4 days", 1.8, None),
        TemperatureLog("load time - 3 days", 1.9, None) ])
  ]

  /** `getMockBatchById`: the first sample batch with that id. */
  function GetMockBatchById(id: string): (r: Option<Batch>)
    ensures r.Some? <==> id in {"BATCH001", "BATCH002", "BATCH003"}
    ensures r.Some? ==> r.value.id == id && r.value in SampleBatches
  {
    assert SampleBatches[0].id == "BATCH001";
    assert SampleBatches[1].id == "BATCH002";
    assert SampleBatches[2].id == "BATCH003";
    FindById(SampleBatches, id)
  }

  // ---------------------------------------------------------------------------
  // Dashboard cards

  /** A dashboard overview card; trend texts and colour classes are left out. */
  datatype Card = Card(title: string, value: nat, icon: Icon)

  predicate IsInTransit(b: Batch) { b.status == InTransit }
  predicate IsDelivered(b: Batch) { b.status == Delivered }
  predicate HasIssue(b: Batch) { b.status == Issue }

  predicate HandledBy(b: Batch, role: UserRole) {
    exists i | 0 <= i < |b.checkpoints| :: b.checkpoints[i].handlerRole == role
  }

  /** `b.checkpoints[0]?.handlerRole === 'Manufacturer'`. */
  predicate CreatedByManufacturer(b: Batch) {
    |b.checkpoints| > 0 && b.checkpoints[0].handlerRole == Manufacturer
  }

  predicate HandledByDistributor(b: Batch) { HandledBy(b, Distributor) }

  predicate ReceivedByRetailer(b: Batch) { b.status == Delivered && HandledBy(b, Retailer) }

  /** Total, In Transit, Completed and Active Alerts, in that order. */
  function BaseCards(bs: seq<Batch>): seq<Card> {
    [ Card("Total Batches", |bs|, Package),
      Card("Deliveries In Transit", CountIf(bs, IsInTransit), Truck),
      Card("Completed Deliveries", CountIf(bs, IsDelivered), CheckCircle2),
      Card("Active Alerts", CountIf(bs, HasIssue), AlertTriangle) ]
  }

  /**
    `mockDashboardCards(role, batches)`. Admin sees the four base cards and
    two static ones; Manufacturer, Distributor and Retailer see one
    role-specific count before In Transit (and Completed); Inspector and
    Customer see Total and In Transit.
   */
  function DashboardCards(role: UserRole, bs: seq<Batch>): (r: seq<Card>)
    ensures |r| == match role
      case Admin => 6
      case Manufacturer => 3
      case Distributor => 3
      case _ => 2
    ensures role == Admin ==> r[4].value == 25 && r[5].value == 152
    ensures role == Admin ==> r[1].value + r[2].value + r[3].value <= r[0].value
    ensures role != Admin ==> forall i | 0 <= i < |r| :: r[i].value <= |bs|
  {
    var base := BaseCards(bs);
    CountDisjoint3(bs, IsInTransit, IsDelivered, HasIssue);
    match role
    case Admin =>
      base + [ Card("Registered Users", 25, UserCircle), Card("Smart Contract Txs", 152, ShieldCheck) ]
    case Manufacturer =>
      var r := [Card("Batches Created", CountIf(bs, CreatedByManufacturer), Factory)] + base[1..3];
      assert r[1] == base[1] && r[2] == base[2];
      r
    case Distributor =>
      var r := [Card("Batches Handled", CountIf(bs, HandledByDistributor), Warehouse)] + base[1..3];
      assert r[1] == base[1] && r[2] == base[2];
      r
    case Retailer =>
      var r := [Card("Batches Received", CountIf(bs, ReceivedByRetailer), Store)] + base[1..2];
      assert r[1] == base[1];
      r
    case _ =>
      var r := base[0..2];
      assert r[0] == base[0] && r[1] == base[1];
      r
  }

  /** The card titles each role sees, in order. */
  lemma DashboardCardTitles(role: UserRole, bs: seq<Batch>)
    ensures var titles := seq(|DashboardCards(role, bs)|, i requires 0 <= i < |DashboardCards(role, bs)| => DashboardCards(role, bs)[i].title);
      titles == match role
        case Admin => ["Total Batches", "Deliveries In Transit", "Completed Deliveries", "Active Alerts",
                       "Registered Users", "Smart Contract Txs"]
        case Manufacturer => ["Batches Created", "Deliveries In Transit", "Completed Deliveries"]
        case Distributor => ["Batches Handled", "Deliveries In Transit", "Completed Deliveries"]
        case Retailer => ["Batches Received", "Deliveries In Transit"]
        case _ => ["Total Batches", "Deliveries In Transit"]
  {
    var r, base := DashboardCards(role, bs), BaseCards(bs);
    match role
    case Admin =>
      assert r[..4] == base;
    case Manufacturer =>
      assert r[1] == base[1] && r[2] == base[2];
    case Distributor =>
      assert r[1] == base[1] && r[2] == base[2];
    case Retailer =>
      assert r[1] == base[1];
    case _ =>
      assert r[0] == base[0] && r[1] == base[1];
  }

  /**
    Every dynamic card counts the positions of the batches its condition
    selects: In Transit, Delivered and Issue by status, and the role cards by
    the checkpoint handler (first checkpoint only for Manufacturer).
   */
  lemma DashboardCardsCountPositions(role: UserRole, bs: seq<Batch>)
    ensures var r := DashboardCards(role, bs);
      && (role == Admin || role == Inspector || role == Customer ==> r[0].value == |bs|)
      && (role == Admin ==>
            r[1].value == |Positions(bs, IsInTransit)|
            && r[2].value == |Positions(bs, IsDelivered)|
            && r[3].value == |Positions(bs, HasIssue)|)
      && (role == Manufacturer ==>
            r[0].value == |Positions(bs, CreatedByManufacturer)|
            && r[1].value == |Positions(bs, IsInTransit)|
            && r[2].value == |Positions(bs, IsDelivered)|)
      && (role == Distributor ==>
            r[0].value == |Positions(bs, HandledByDistributor)|
            && r[1].value == |Positions(bs, IsInTransit)|
            && r[2].value == |Positions(bs, IsDelivered)|)
      && (role == Retailer ==>
            r[0].value == |Positions(bs, ReceivedByRetailer)|
            && r[1].value == |Positions(bs, IsInTransit)|)
      && (role == Inspector || role == Customer ==> r[1].value == |Positions(bs, IsInTransit)|)
  {
    var r, base := DashboardCards(role, bs), BaseCards(bs);
    CountIfIsPositions(bs, IsInTransit);
    match role {
      case Admin =>
        CountIfIsPositions(bs, IsDelivered);
        CountIfIsPositions(bs, HasIssue);
        assert r[0] == base[0] && r[1] == base[1] && r[2] == base[2] && r[3] == base[3];
      case Manufacturer =>
        CountIfIsPositions(bs, IsDelivered);
        CountIfIsPositions(bs, CreatedByManufacturer);
        assert r[1] == base[1] && r[2] == base[2];
      case Distributor =>
        CountIfIsPositions(bs, IsDelivered);
        CountIfIsPositions(bs, HandledByDistributor);
        assert r[1] == base[1] && r[2] == base[2];
      case Retailer =>
        CountIfIsPositions(bs, ReceivedByRetailer);
        assert r[1] == base[1];
      case _ =>
        assert r[0] == base[0] && r[1] == base[1];
    }
  }

  /** Appending a batch never lowers any card of any role. */
  lemma DashboardCardsMonotone(role: UserRole, bs: seq<Batch>, b: Batch)
    ensures var before, after := DashboardCards(role, bs), DashboardCards(role, bs + [b]);
      |before| == |after| && forall i | 0 <= i < |before| :: before[i].value <= after[i].value
  {
    CountIfAppend(bs, [b], IsInTransit);
    CountIfAppend(bs, [b], IsDelivered);
    CountIfAppend(bs, [b], HasIssue);
    CountIfAppend(bs, [b], CreatedByManufacturer);
    CountIfAppend(bs, [b], HandledByDistributor);
    CountIfAppend(bs, [b], ReceivedByRetailer);
  }

  /** A Retailer's received batches are among the completed deliveries. */
  lemma RetailerReceivedWithinCompleted(bs: seq<Batch>)
    ensures CountIf(bs, ReceivedByRetailer) <= CountIf(bs, IsDelivered)
  {
    CountIfMonotone(bs, ReceivedByRetailer, IsDelivered);
  }

  // ---------------------------------------------------------------------------
  // Icons

  /** The `checkpointIcons` record. */
  function CheckpointIcon(role: UserRole): (r: Icon)
    ensures r == MapPin <==> role == Customer
    ensures r == ShieldCheck <==> role == Admin || role == Inspector
  {
    match role
    case Admin => ShieldCheck
    case Manufacturer => Factory
    case Distributor => Warehouse
    case Retailer => Store
    case Inspector => ShieldCheck
    case Customer => MapPin
  }

  /** `getIconForRole(role?)`: the table icon, or MapPin when no role is given. */
  function IconForRole(role: Option<UserRole>): (r: Icon)
    ensures role.Some? ==> r == CheckpointIcon(role.value)
    ensures role.None? ==> r == MapPin
  {
    if role.Some? then CheckpointIcon(role.value) else MapPin
  }

  /** Admin and Inspector share an icon, so the role icon does not identify the role. */
  lemma IconForRoleNotInjective()
    ensures IconForRole(Some(Admin)) == IconForRole(Some(Inspector))
    ensures IconForRole(Some(Customer)) == IconForRole(None)
  {
  }

  /** `getIconForStatus` applied to a stored status text; unknown texts get Package. */
  function IconForStatusText(text: string): (r: Icon)
    ensures r == Package <==> forall u: BatchStatus :: text != StatusLabel(u)
  {
    StatusLabelValues();
    assert StatusLabel(Registered) == "Registered" && StatusLabel(InTransit) == "In Transit";
    assert StatusLabel(CheckpointReached) == "CheckpointReached";
    assert StatusLabel(Delivered) == "Delivered" && StatusLabel(Issue) == "Issue";
    if text == "Registered" then Factory
    else if text == "In Transit" then Truck
    else if text == "CheckpointReached" then MapPin
    else if text == "Delivered" then CheckCircle2
    else if text == "Issue" then AlertTriangle
    else Package
  }

  function IconForStatus(s: BatchStatus): (r: Icon)
    ensures r != Package
  {
    IconForStatusText(StatusLabel(s))
  }

  /** The five statuses get five distinct icons; any other text falls back to Package. */
  lemma IconForStatusDistinct(s: BatchStatus, t: BatchStatus, text: string)
    ensures IconForStatus(s) == IconForStatus(t) <==> s == t
    ensures (forall u: BatchStatus :: text != StatusLabel(u)) ==> IconForStatusText(text) == Package
  {
    if forall u: BatchStatus :: text != StatusLabel(u) {
      assert text != StatusLabel(Registered) && text != StatusLabel(InTransit);
      assert text != StatusLabel(CheckpointReached) && text != StatusLabel(Delivered);
      assert text != StatusLabel(Issue);
    }
  }
}
