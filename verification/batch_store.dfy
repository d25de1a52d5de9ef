/**
  The batch store behind `useBatchManager`: loading from and persisting to
  the `chainwatch_batches` storage key, and the add, lookup, delete and update
  operations, each a pure function from the old list to the new one.

  Every mutation that changes the list writes the whole list back to storage.
  Object URLs of uploaded files are tracked as a ghost set of live handles:
  adding a batch creates one per uploaded file, deleting a batch revokes the
  `blob:` URLs of its attachments.
 */
module BatchStore {
  import opened Wrappers
  import opened Text
  import opened Domain
  import opened Storage
  import opened BatchList
  import MockData
  import BatchDetails

  type BatchHost = Host<seq<Batch>>

  /** The store's state: the in-memory list and the storage medium it mirrors to. */
  datatype Manager = Manager(batches: seq<Batch>, host: BatchHost)

  // ---------------------------------------------------------------------------
  // Persistence

  /** The stored list is readable: a browser, storage accessible, a parseable non-empty text. */
  predicate HoldsList(host: BatchHost) {
    host.Browser? && !host.medium.accessFails && host.medium.slot.Encoded?
  }

  /** Nothing (or the empty string) is stored and storage is accessible. */
  predicate NeedsSeed(host: BatchHost) {
    host.Browser? && !host.medium.accessFails && (host.medium.slot.Missing? || host.medium.slot.Blank?)
  }

  /**
    `getStoredBatches`: never fails. A stored list is returned as stored;
    an empty slot is seeded with the sample list; any read or parse error,
    and server rendering, give the sample list.
   */
  function GetStoredBatches(host: BatchHost): (r: (seq<Batch>, BatchHost))
    ensures HoldsList(host) ==> r.0 == host.medium.slot.value && r.1 == host
    ensures !HoldsList(host) ==> r.0 == MockData.SampleBatches
    ensures NeedsSeed(host) && !host.medium.writeFails
      ==> r.1 == Browser(host.medium.(slot := Encoded(MockData.SampleBatches)))
    ensures !(NeedsSeed(host) && !host.medium.writeFails) ==> r.1 == host
  {
    match host
    case Server => (MockData.SampleBatches, host)
    case Browser(m) =>
      match GetItem(m)
      case Failure(_) => (MockData.SampleBatches, host)
      case Success(slot) =>
        match slot
        case Encoded(bs) => (bs, host)
        case Malformed => (MockData.SampleBatches, host)
        case _ =>
          match SetItem(m, MockData.SampleBatches)
          case Success(m') => (MockData.SampleBatches, Browser(m'))
          case Failure(_) => (MockData.SampleBatches, host)
  }

  /** `storeBatches`: overwrite the stored list; a failing write is swallowed. */
  function StoreBatches(host: BatchHost, bs: seq<Batch>): (h: BatchHost)
    ensures host.Browser? && !host.medium.accessFails && !host.medium.writeFails
      ==> h == Browser(host.medium.(slot := Encoded(bs)))
    ensures !(host.Browser? && !host.medium.accessFails && !host.medium.writeFails) ==> h == host
  {
    match host
    case Server => host
    case Browser(m) =>
      match SetItem(m, bs)
      case Success(m') => Browser(m')
      case Failure(_) => host
  }

  /** The store as the hook initialises it. */
  function Open(host: BatchHost): (st: Manager)
    ensures |st.batches| > 0 || HoldsList(host)
  {
    var (bs, h) := GetStoredBatches(host);
    Manager(bs, h)
  }

  /** On a working medium, what is persisted is what the next page load reads. */
  lemma PersistThenLoad(m: Medium<seq<Batch>>, bs: seq<Batch>)
    requires !m.accessFails && !m.writeFails
    ensures Open(StoreBatches(Browser(m), bs)).batches == bs
  {
  }

  /** Loading twice gives the list the first load gave, whatever the medium. */
  lemma LoadIsStable(host: BatchHost)
    ensures Open(Open(host).host).batches == Open(host).batches
  {
  }

  /** When storage cannot be read the store still starts with the non-empty sample list. */
  lemma LoadFallsBackToSample(host: BatchHost)
    requires host.Server? || host.medium.accessFails || host.medium.slot.Malformed?
    ensures Open(host).batches == MockData.SampleBatches && |Open(host).batches| == 3
  {
  }

  // ---------------------------------------------------------------------------
  // Registration

  /** A file picked in the form, with the object URL the browser issued for it. */
  datatype UploadedFile = UploadedFile(name: string, mimeType: string, objectUrl: string)

  /** The `attachments` field: absent, a `FileList`, or already shaped attachment records. */
  datatype AttachmentInput = NoAttachments | Files(files: seq<UploadedFile>) | Shaped(items: seq<FileAttachment>)

  datatype RegistrationValues = RegistrationValues(
    batchId: Option<string>,
    productName: string,
    origin: string,
    destination: string,
    initialGps: string,
    temperatureLimit: real,
    attachments: AttachmentInput)

  /** One reading of the clock: milliseconds since the epoch and its ISO text. */
  datatype Clock = Clock(millis: nat, iso: string)

  const QrPlaceholderPrefix: string := "https://placehold.co/150x150.png/E0E0E0/B0B0B0?text=QR+"

  function KindOfMime(mimeType: string): (k: AttachmentKind)
    ensures k == Image <==> StartsWith(mimeType, "image/")
    ensures k != Image ==> k == Other
  {
    if StartsWith(mimeType, "image/") then Image else Other
  }

  function FileToAttachment(f: UploadedFile): FileAttachment {
    FileAttachment(f.name, f.objectUrl, KindOfMime(f.mimeType))
  }

  /**
    Uploaded files become one attachment each, in order, typed `image` for an
    `image/` MIME type and `other` otherwise; shaped records pass through.
   */
  function ProcessAttachments(input: AttachmentInput): (r: seq<FileAttachment>)
    ensures input.NoAttachments? ==> r == []
    ensures input.Shaped? ==> r == input.items
    ensures input.Files? ==> |r| == |input.files| && forall i | 0 <= i < |r| ::
      r[i].name == input.files[i].name && r[i].url == input.files[i].objectUrl
      && (r[i].kind == Image <==> StartsWith(input.files[i].mimeType, "image/"))
      && (r[i].kind == Image || r[i].kind == Other)
  {
    match input
    case NoAttachments => []
    case Files(files) => seq(|files|, i requires 0 <= i < |files| => FileToAttachment(files[i]))
    case Shaped(items) => items
  }

  /** The object URLs `URL.createObjectURL` issued while processing the input. */
  function MintedHandles(input: AttachmentInput): (r: seq<string>)
    ensures forall u | u in r :: exists a | a in ProcessAttachments(input) :: a.url == u
  {
    match input
    case Files(files) =>
      var r := seq(|files|, i requires 0 <= i < |files| => files[i].objectUrl);
      assert forall i | 0 <= i < |files| :: ProcessAttachments(input)[i].url == r[i];
      r
    case _ => []
  }

  /** `formData.batchId || "BATCH" + last six digits of the clock`. */
  function NewBatchId(batchId: Option<string>, clock: Clock): (id: string)
    ensures batchId.Some? && batchId.value != "" ==> id == batchId.value
    ensures !(batchId.Some? && batchId.value != "") ==> id == TimeSuffixId("BATCH", clock.millis, 6)
  {
    if batchId.Some? && batchId.value != "" then batchId.value else TimeSuffixId("BATCH", clock.millis, 6)
  }

  /** The QR placeholder of the store embeds only the first ten characters of the id. */
  function StoreQrCodeUrl(id: string): string {
    QrPlaceholderPrefix + Take(id, 10)
  }

  /** The batch `addBatch` builds from the form values. */
  function NewBatch(values: RegistrationValues, clock: Clock): (b: Batch)
    ensures b.id == NewBatchId(values.batchId, clock) && b.id != ""
    ensures b.status == Registered
    ensures b.productName == values.productName && b.origin == values.origin && b.destination == values.destination
    ensures b.currentLocationGps == values.initialGps
    ensures b.temperatureLimitCelsius == values.temperatureLimit
    ensures b.creationDate == clock.iso
    ensures b.temperatureLogs == []
    ensures b.attachments == ProcessAttachments(values.attachments)
    ensures |b.checkpoints| == 1
    ensures b.checkpoints[0].locationName == values.origin
    ensures b.checkpoints[0].gpsCoordinates == values.initialGps
    ensures b.checkpoints[0].handlerRole == Manufacturer
    ensures b.checkpoints[0].notes == Some("Batch Registered")
    ensures b.checkpoints[0].temperatureCelsius.None?
  {
    var id := NewBatchId(values.batchId, clock);
    Batch(
      id,
      values.productName,
      values.origin,
      values.destination,
      values.initialGps,
      values.temperatureLimit,
      Registered,
      clock.iso,
      Some(StoreQrCodeUrl(id)),
      ProcessAttachments(values.attachments),
      [ Checkpoint(TimeSuffixId("CP", clock.millis, 7), values.origin, values.initialGps, clock.iso,
          None, Some("Batch Registered"), Manufacturer) ],
      [])
  }

  /** A freshly registered batch carries no reading, so it is never flagged as breached. */
  lemma NewBatchNotBreached(values: RegistrationValues, clock: Clock)
    ensures !BatchDetails.IsTemperatureBreached(NewBatch(values, clock))
  {
    var b := NewBatch(values, clock);
    assert !BatchDetails.AnyLogAbove(b.temperatureLogs, b.temperatureLimitCelsius);
    assert !BatchDetails.CheckpointReadingAbove(b.checkpoints[0], b.temperatureLimitCelsius);
  }

  /**
    A generated id is `BATCH` and six digits once the clock has six digits,
    and those digits are the clock reading modulo one million.
   */
  lemma GeneratedIdShape(clock: Clock)
    requires clock.millis >= 100000
    ensures var id := NewBatchId(None, clock);
      && |id| == 11 && StartsWith(id, "BATCH")
      && AllDigits(id[5..]) && DigitsValue(id[5..]) == clock.millis % 1000000
  {
    TimeSuffixIdShape("BATCH", clock.millis, 6);
  }

  /** Two ids that agree on their first ten characters get the same QR placeholder. */
  lemma StoreQrCodeTruncates(a: string, b: string)
    requires |a| >= 10 && |b| >= 10 && a[..10] == b[..10]
    ensures StoreQrCodeUrl(a) == StoreQrCodeUrl(b)
  {
  }

  /** Append a batch at the end of the list and persist the whole list. */
  function Append(st: Manager, b: Batch): (r: Manager)
    ensures |r.batches| == |st.batches| + 1
    ensures forall i | 0 <= i < |st.batches| :: r.batches[i] == st.batches[i]
    ensures r.batches[|st.batches|] == b
    ensures r.host == StoreBatches(st.host, r.batches)
  {
    var bs := st.batches + [b];
    Manager(bs, StoreBatches(st.host, bs))
  }

  /** `addBatch`: build the batch from the form values, append it, and return it. */
  function AddBatch(st: Manager, values: RegistrationValues, clock: Clock): (r: (Manager, Batch))
    ensures r.1 == NewBatch(values, clock)
    ensures r.0 == Append(st, r.1)
  {
    var b := NewBatch(values, clock);
    (Append(st, b), b)
  }

  /**
    After appending, a lookup by any id finds the batch it found before; only
    an id that was not yet present finds the new batch. Registering an id
    that already exists therefore leaves lookups unchanged.
   */
  lemma AddThenGet(st: Manager, b: Batch, id: string)
    ensures GetBatchById(Append(st, b), id) ==
      if HasId(st.batches, id) then GetBatchById(st, id)
      else if id == b.id then Some(b)
      else None
  {
    var bs, bs' := st.batches, Append(st, b).batches;
    if HasId(bs, id) {
      var k := FirstIndexOfId(bs, id).value;
      assert bs'[k] == bs[k];
      var k' := FirstIndexOfId(bs', id).value;
      assert k' == k;
    } else if id == b.id {
      assert bs'[|bs|].id == id;
      var k' := FirstIndexOfId(bs', id).value;
      assert k' == |bs|;
    } else {
      assert !HasId(bs', id) by {
        forall i | 0 <= i < |bs'| ensures bs'[i].id != id {
          if i < |bs| { assert bs'[i] == bs[i]; }
        }
      }
    }
  }

  /** No duplicate-id check: appending an id already present yields two batches with that id. */
  lemma AddAllowsDuplicateIds(st: Manager, b: Batch)
    requires HasId(st.batches, b.id)
    ensures var bs' := Append(st, b).batches;
      exists i, j | 0 <= i < j < |bs'| :: bs'[i].id == bs'[j].id
  {
    var bs' := Append(st, b).batches;
    var i := FirstIndexOfId(st.batches, b.id).value;
    assert bs'[i].id == bs'[|st.batches|].id;
  }
  // ---------------------------------------------------------------------------
  // Lookup, delete, update

  /** `getBatchById`: the first batch with that id, or nothing. */
  function GetBatchById(st: Manager, id: string): (r: Option<Batch>)
    ensures r.Some? <==> HasId(st.batches, id)
    ensures r.Some? ==> r.value.id == id
    ensures r.Some? ==> exists i | 0 <= i < |st.batches| ::
      st.batches[i] == r.value && forall j | 0 <= j < i :: st.batches[j].id != id
  {
    FindById(st.batches, id)
  }

  /** The `blob:` URLs among the attachments, in order: the ones delete revokes. */
  function BlobUrls(atts: seq<FileAttachment>): (r: seq<string>)
    ensures forall u | u in r :: StartsWith(u, "blob:")
    ensures forall u | u in r :: exists i | 0 <= i < |atts| :: atts[i].url == u
    ensures forall i | 0 <= i < |atts| && StartsWith(atts[i].url, "blob:") :: atts[i].url in r
    ensures |r| <= |atts|
  {
    if atts == [] then []
    else
      var rest := BlobUrls(atts[1..]);
      assert forall i | 1 <= i < |atts| :: atts[i] == atts[1..][i - 1];
      if StartsWith(atts[0].url, "blob:") then [atts[0].url] + rest else rest
  }

  /**
    `deleteBatch`: drop every batch with that id, revoke the `blob:` URLs of
    the first such batch, and persist the list (also when nothing was removed).
    The second component lists the revoked URLs in revocation order.
   */
  function DeleteBatch(st: Manager, id: string): (r: (Manager, seq<string>))
    ensures !HasId(r.0.batches, id)
    ensures forall b | b in st.batches && b.id != id :: b in r.0.batches
    ensures forall b | b in r.0.batches :: b in st.batches
    ensures !HasId(st.batches, id) ==> r.0.batches == st.batches && r.1 == []
    ensures r.0.host == StoreBatches(st.host, r.0.batches)
    ensures HasId(st.batches, id) ==> r.1 == BlobUrls(FindById(st.batches, id).value.attachments)
  {
    var bs := RemoveId(st.batches, id);
    RemoveIdSpec(st.batches, id);
    var revoked := match FindById(st.batches, id)
      case Some(b) => BlobUrls(b.attachments)
      case None => [];
    (Manager(bs, StoreBatches(st.host, bs)), revoked)
  }

  /** Deleting keeps the surviving batches in their original relative order. */
  lemma DeleteKeepsOrder(a: seq<Batch>, b: seq<Batch>, host: BatchHost, id: string)
    ensures DeleteBatch(Manager(a + b, host), id).0.batches
      == DeleteBatch(Manager(a, host), id).0.batches + DeleteBatch(Manager(b, host), id).0.batches
  {
    RemoveIdAppend(a, b, id);
  }

  /** After a delete the id is gone, and every other id is found exactly as before. */
  lemma {:induction false} DeleteThenGet(bs: seq<Batch>, host: BatchHost, id: string, other: string)
    ensures var st' := DeleteBatch(Manager(bs, host), id).0;
      GetBatchById(st', id).None?
      && (other != id ==> GetBatchById(st', other) == GetBatchById(Manager(bs, host), other))
  {
    if bs != [] && other != id {
      DeleteThenGet(bs[1..], host, id, other);
      RemoveIdCons(bs[0], bs[1..], id);
      assert bs == [bs[0]] + bs[1..];
      FindByIdCons(bs[0], bs[1..], other);
      if bs[0].id != id {
        FindByIdCons(bs[0], RemoveId(bs[1..], id), other);
      }
    }
  }

  lemma FindByIdCons(x: Batch, bs: seq<Batch>, id: string)
    ensures FindById([x] + bs, id) == if x.id == id then Some(x) else FindById(bs, id)
  {
    var xs := [x] + bs;
    assert xs[1..] == bs;
    if x.id != id {
      if HasId(bs, id) {
        var k := FirstIndexOfId(bs, id).value;
        assert xs[k + 1] == bs[k];
        var k' := FirstIndexOfId(xs, id).value;
        assert k' == k + 1;
      } else {
        assert !HasId(xs, id) by {
          forall i | 0 <= i < |xs| ensures xs[i].id != id {
            if i > 0 { assert xs[i] == bs[i - 1]; }
          }
        }
      }
    }
  }

  /**
    `updateBatch`: replace the first batch whose id matches and persist; an
    unknown id leaves the list and the medium untouched.
   */
  function UpdateBatch(st: Manager, b: Batch): (r: Manager)
    ensures !HasId(st.batches, b.id) ==> r == st
    ensures HasId(st.batches, b.id) ==>
      var k := FirstIndexOfId(st.batches, b.id).value;
      && |r.batches| == |st.batches|
      && r.batches[k] == b
      && (forall j | 0 <= j < |st.batches| && j != k :: r.batches[j] == st.batches[j])
      && r.host == StoreBatches(st.host, r.batches)
  {
    match FirstIndexOfId(st.batches, b.id)
    case None => st
    case Some(k) =>
      var bs := st.batches[k := b];
      Manager(bs, StoreBatches(st.host, bs))
  }

  /** Updating twice with the same batch is the same as updating once. */
  lemma UpdateIdempotent(st: Manager, b: Batch)
    ensures UpdateBatch(UpdateBatch(st, b), b) == UpdateBatch(st, b)
  {
    if HasId(st.batches, b.id) {
      var k := FirstIndexOfId(st.batches, b.id).value;
      var st1 := UpdateBatch(st, b);
      assert FirstIndexOfId(st1.batches, b.id).value == k;
      assert st1.batches[k := b] == st1.batches;
    }
  }

  /** After an update, looking up the batch's id finds the new version. */
  lemma UpdateThenGet(st: Manager, b: Batch)
    requires HasId(st.batches, b.id)
    ensures GetBatchById(UpdateBatch(st, b), b.id) == Some(b)
  {
    var k := FirstIndexOfId(st.batches, b.id).value;
    var st1 := UpdateBatch(st, b);
    assert FirstIndexOfId(st1.batches, b.id).value == k;
  }

  function Ids(bs: seq<Batch>): (r: seq<string>)
    ensures |r| == |bs| && forall i | 0 <= i < |bs| :: r[i] == bs[i].id
  {
    seq(|bs|, i requires 0 <= i < |bs| => bs[i].id)
  }

  /** An update never changes which ids are stored, nor where. */
  lemma UpdateKeepsIds(st: Manager, b: Batch)
    ensures Ids(UpdateBatch(st, b).batches) == Ids(st.batches)
  {
  }

  // ---------------------------------------------------------------------------
  // Object URL handles

  /** The live handles after registering: every issued object URL is live. */
  ghost function LiveAfterAdd(live: set<string>, values: RegistrationValues): set<string> {
    live + set u | u in MintedHandles(values.attachments)
  }

  /** The live handles after a delete revoked the given URLs. */
  ghost function LiveAfterDelete(live: set<string>, revoked: seq<string>): set<string> {
    live - set u | u in revoked
  }

  /**
    Deleting a batch releases only `blob:` handles of that batch: a handle
    that is not a `blob:` URL, or belongs to no attachment of the first
    batch with that id, stays live.
   */
  lemma DeleteReleasesOnlyItsBlobs(st: Manager, id: string, live: set<string>, u: string)
    requires u in live
    requires !StartsWith(u, "blob:") || !HasId(st.batches, id)
      || forall a | a in FindById(st.batches, id).value.attachments :: a.url != u
    ensures u in LiveAfterDelete(live, DeleteBatch(st, id).1)
  {
  }

  /**
    Registering a batch under a fresh id and deleting it again restores the
    list, and every object URL the registration issued (all `blob:` URLs) is
    released again.
   */
  lemma AddThenDeleteReleasesHandles(st: Manager, values: RegistrationValues, clock: Clock, live: set<string>)
    requires !HasId(st.batches, NewBatch(values, clock).id)
    requires forall u | u in MintedHandles(values.attachments) :: StartsWith(u, "blob:")
    ensures var (st1, b) := AddBatch(st, values, clock);
      var (st2, revoked) := DeleteBatch(st1, b.id);
      && st2.batches == st.batches
      && forall u | u in MintedHandles(values.attachments) :: u !in LiveAfterDelete(LiveAfterAdd(live, values), revoked)
  {
    var (st1, b) := AddBatch(st, values, clock);
    var (st2, revoked) := DeleteBatch(st1, b.id);
    RemoveIdAppend(st.batches, [b], b.id);
    RemoveIdSpec(st.batches, b.id);
    assert st1.batches == st.batches + [b];
    assert RemoveId([b], b.id) == [];
    AddThenGet(st, b, b.id);
    assert FindById(st1.batches, b.id) == Some(b);
    forall u | u in MintedHandles(values.attachments)
      ensures u in revoked
    {
      var files := values.attachments.files;
      var i :| 0 <= i < |files| && files[i].objectUrl == u;
      assert b.attachments[i].url == u;
    }
  }

  /**
    Delete revokes the handles of the first batch with the id only: with a
    duplicate id, the blob handles of a later batch with that id are removed
    from the list but not revoked.
   */
  lemma DeleteSkipsLaterDuplicates(first: Batch, later: Batch, host: BatchHost, live: set<string>, u: string)
    requires first.id == later.id && u in live
    requires StartsWith(u, "blob:") && forall a | a in first.attachments :: a.url != u
    requires exists a | a in later.attachments :: a.url == u
    ensures var (st', revoked) := DeleteBatch(Manager([first, later], host), first.id);
      st'.batches == [] && u in LiveAfterDelete(live, revoked)
  {
    var st := Manager([first, later], host);
    RemoveIdCons(first, [later], first.id);
    RemoveIdCons(later, [], first.id);
    assert [first] + [later] == st.batches && [later] + [] == [later];
    assert FirstIndexOfId(st.batches, first.id) == Some(0);
    DeleteReleasesOnlyItsBlobs(st, first.id, live, u);
  }
}
