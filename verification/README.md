# ChainWatch core in Dafny

ChainWatch is a supply-chain dashboard. It registers product batches and
records checkpoints and temperature readings along each batch's route. It
shows dashboards and navigation that depend on the user's role. This project
models the sequential logic underneath the user interface and proves
properties of it.

- **Batch store** (`BatchStore`, over `BatchList`, `Storage`). Loading from
  and persisting to the `chainwatch_batches` storage key, plus add, lookup,
  delete and update, each as a pure function from the old list to the new one.
  - Storage is an abstract one-key cell. It may be absent (server rendering),
    unreadable, unwritable, empty or malformed.
  - The object URLs of uploaded files are a ghost set of live handles.
- **Derived views** (`BatchDetails`, `MockData`).
  - The temperature-breach predicate, the chart points, the status badge,
    and the map markers and route of a batch.
  - The role-dependent dashboard cards, the role and status icon tables, and
    the lookup in the sample batches.
- **Navigation** (`Navigation`). `getNavItems(role)`: the admin merge that
  de-duplicates by href, the role filter, and the sort by a fixed href order.
- **Registration form** (`GpsFormat`, `Registration`).
  - The validation schema of the form, which reports every failing rule.
  - The `"lat,lng"` pattern, written out as a grammar (`GpsPattern`) and as a
    hand-written scanner (`ParseGps`) proved to decide it.
  - The form's default values and its QR placeholder.
- **Simulated session** (`Auth`). Login, lookup and logout over one stored
  user record, and the display name derived from an email address.

`Domain` holds the entity types of `src/types/index.ts`. `Text` holds the
string helpers: decimal digits, `slice(-k)`, `indexOf`, `split(c)[0]`.
`Wrappers` holds `Option` and `Result`.

Clocks are parameters (`Clock`, `now`). Each uploaded file arrives with the
object URL the browser issued for it. Storage failures are flags on the
storage medium.

Four behaviours of the code are easy to miss, and the model keeps each:
- `addBatch` does not check for a duplicate batch id. It appends the batch
  anyway (`BatchStore.AddAllowsDuplicateIds`). Lookup then finds the first of
  the two, and delete removes both.
- The form's schema asks for at least three characters in each text field.
  It does not trim, so three spaces pass.
- A missing batch id is replaced by an auto-generated one. An empty id is
  replaced too, because `||` treats `""` as missing.
- The store validates nothing (GPS, ranges). Only the registration form's
  schema does.

## Model

| member | source | states |
|---|---|---|
| BatchStore.GetStoredBatches | src/hooks/use-batch-manager.ts:11-25 | loading never fails: a stored list comes back as stored; an empty or missing slot is seeded with the sample list, which is returned; a read error, a parse error or server rendering gives the sample list |
| BatchStore.StoreBatches | src/hooks/use-batch-manager.ts:28-36 | on a working browser medium the slot afterwards holds exactly the given list; otherwise (server, failing access or write) nothing changes and no error escapes |
| BatchStore.Open | src/hooks/use-batch-manager.ts:52 | the initial list is non-empty unless a stored list was read back |
| BatchStore.PersistThenLoad | src/hooks/use-batch-manager.ts:11-36 | what a working medium persisted is what the next load returns |
| BatchStore.LoadIsStable | src/hooks/use-batch-manager.ts:11-25 | loading again after a load gives the same list, whatever the medium |
| BatchStore.LoadFallsBackToSample | src/hooks/use-batch-manager.ts:12-23 | on the server, or with unreadable or unparsable storage, the store starts with the three sample batches |
| BatchStore.KindOfMime | src/hooks/use-batch-manager.ts:67 | an attachment is an image exactly when its MIME type starts with `image/`, and otherwise is `other` |
| BatchStore.ProcessAttachments | src/hooks/use-batch-manager.ts:59-74 | no attachments give none; pre-shaped attachments pass through unchanged; a file list gives one attachment per file, in order, with the file's name and object URL |
| BatchStore.MintedHandles | src/hooks/use-batch-manager.ts:62-66 | every object URL issued during registration is the URL of one of the new batch's attachments |
| BatchStore.NewBatchId | src/hooks/use-batch-manager.ts:57 | the supplied id if it is a non-empty string, otherwise `BATCH` followed by the last six digits of the clock |
| BatchStore.GeneratedIdShape | src/hooks/use-batch-manager.ts:57 | from 100000 ms on, a generated id is 11 characters long: `BATCH` and six digits whose value is the clock modulo 10^6 |
| BatchStore.NewBatch | src/hooks/use-batch-manager.ts:77-100 | the new batch: status Registered; the form's name, origin, destination, GPS and limit; no temperature logs; the processed attachments; exactly one checkpoint, at the origin and initial GPS, handled by Manufacturer, noted "Batch Registered", without a temperature |
| BatchStore.NewBatchNotBreached | src/hooks/use-batch-manager.ts:94-99 | a freshly registered batch is never flagged as breached, whatever its limit |
| BatchStore.StoreQrCodeTruncates | src/hooks/use-batch-manager.ts:86 | the store's QR placeholder uses only the first ten characters of the id, so ids that share them share the image |
| BatchStore.Append | src/hooks/use-batch-manager.ts:102-106 | exactly one batch is added, at the end; every earlier batch keeps its value and position; the new list is persisted |
| BatchStore.AddBatch | src/hooks/use-batch-manager.ts:56-108 | add returns the batch built from the form values and appends that batch to the list |
| BatchStore.AddThenGet | src/hooks/use-batch-manager.ts:102-116 | after an add, a lookup of an id that was already present still returns the earlier batch; the new id returns the new batch; every other id is unaffected |
| BatchStore.AddAllowsDuplicateIds | src/hooks/use-batch-manager.ts:56-106 | adding a batch whose id is already stored succeeds and leaves two batches with that id |
| BatchStore.GetBatchById | src/hooks/use-batch-manager.ts:114-116 | a batch is found exactly when some batch has the id; the result is the first such batch |
| BatchStore.BlobUrls | src/hooks/use-batch-manager.ts:123-128 | exactly the attachment URLs that start with `blob:`, all of them and nothing else |
| BatchStore.DeleteBatch | src/hooks/use-batch-manager.ts:118-133 | afterwards no batch has the id; every other batch survives and nothing new appears; an unknown id leaves the list unchanged and revokes nothing; the list is persisted either way; the revoked URLs are the `blob:` URLs of the first batch with the id |
| BatchStore.DeleteKeepsOrder | src/hooks/use-batch-manager.ts:120 | the survivors keep their relative order: deleting from a concatenation deletes from each part |
| BatchStore.DeleteThenGet | src/hooks/use-batch-manager.ts:114-120 | after a delete the id is not found, and every other id is found exactly as before |
| BatchStore.UpdateBatch | src/hooks/use-batch-manager.ts:135-145 | an unknown id returns the store unchanged and unpersisted; otherwise only the first batch with that id is replaced, the length and every other entry stay the same, and the list is persisted |
| BatchStore.UpdateIdempotent | src/hooks/use-batch-manager.ts:135-145 | the same update applied twice gives the result of applying it once |
| BatchStore.UpdateThenGet | src/hooks/use-batch-manager.ts:114-145 | after an update, looking up the id returns the new batch |
| BatchStore.UpdateKeepsIds | src/hooks/use-batch-manager.ts:137-141 | an update does not change which ids are stored or their positions |
| BatchStore.DeleteReleasesOnlyItsBlobs | src/hooks/use-batch-manager.ts:122-129 | a delete never releases a live handle that is not a `blob:` URL, and releases nothing when the id is unknown |
| BatchStore.AddThenDeleteReleasesHandles | src/hooks/use-batch-manager.ts:62-66 | deleting a freshly added batch with a new id releases every `blob:` handle issued for its files |
| BatchStore.DeleteSkipsLaterDuplicates | src/hooks/use-batch-manager.ts:120-128 | with a duplicated id, delete removes both batches but releases only the first batch's handles |
| BatchList.FindById | src/hooks/use-batch-manager.ts:115 | `find`: a batch is found exactly when some batch has the id; it carries that id, and no earlier batch has it |
| BatchList.RemoveId | src/hooks/use-batch-manager.ts:120 | `filter(b => b.id !== id)`, written as a recursion over the list; RemoveIdSpec and DeleteKeepsOrder state what it keeps |
| BatchList.RemoveIdSpec | src/hooks/use-batch-manager.ts:120 | filtering out an id keeps exactly the batches with another id, and never grows the list |
| BatchList.CountIf | src/data/mock-data.ts:80-83 | `filter(p).length` is never more than the number of batches |
| BatchList.CountIfIsPositions | src/data/mock-data.ts:80-83 | a filtered count equals the number of positions whose batch satisfies the condition |
| BatchList.CountDisjoint3 | src/data/mock-data.ts:80-83 | counts of three pairwise-exclusive conditions add up to at most the list length |
| MockData.GetMockBatchById | src/data/mock-data.ts:75 | a sample batch is found exactly for the three sample ids, and it carries that id |
| MockData.DashboardCards | src/data/mock-data.ts:77-113 | six cards for Admin (the last two are 25 and 152), three for Manufacturer and Distributor, two otherwise; for Admin, In Transit + Completed + Active Alerts is at most Total; every other role's counts are at most the number of batches |
| MockData.DashboardCardTitles | src/data/mock-data.ts:78-112 | the card titles each role sees, in order |
| MockData.DashboardCardsCountPositions | src/data/mock-data.ts:78-112 | each card's value is the number of batches its condition selects: total, status In Transit, Delivered or Issue, first checkpoint handled by Manufacturer, some Distributor checkpoint, Delivered with some Retailer checkpoint |
| MockData.DashboardCardsMonotone | src/data/mock-data.ts:77-113 | adding a batch never lowers any card of any role |
| MockData.RetailerReceivedWithinCompleted | src/data/mock-data.ts:107 | a Retailer's received batches are at most the completed deliveries |
| MockData.IconForRole | src/data/mock-data.ts:115-129 | every defined role gets its table icon; an undefined role gets MapPin |
| MockData.IconForRoleNotInjective | src/data/mock-data.ts:116-121 | Admin and Inspector share an icon, and Customer's icon is the fallback's |
| MockData.CheckpointIcon | src/data/mock-data.ts:115-122 | the `checkpointIcons` table: only Customer gets MapPin, and exactly Admin and Inspector get ShieldCheck |
| MockData.IconForStatus | src/data/mock-data.ts:131-146 | every status gets an icon other than the Package fallback |
| MockData.IconForStatusText | src/data/mock-data.ts:131-146 | the `switch` on a status text: the Package default exactly for a text that is no status |
| MockData.IconForStatusDistinct | src/data/mock-data.ts:131-146 | the five statuses get five distinct icons, and any other status text gets Package |
| BatchDetails.IsTemperatureBreached | src/components/verify-batch/batch-details.tsx:42-43 | breached exactly when some log reading is above the limit or some checkpoint has a truthy reading above it |
| BatchDetails.AnyLogAbove | src/components/verify-batch/batch-details.tsx:42 | true exactly when some log reading is strictly above the limit |
| BatchDetails.AnyCheckpointAbove | src/components/verify-batch/batch-details.tsx:43 | true exactly when some checkpoint has a non-zero reading strictly above the limit |
| BatchDetails.BreachedIffReadingAboveLimit | src/components/verify-batch/batch-details.tsx:42-43 | a batch is breached exactly when one of its counted readings is strictly above the limit: every log reading, and every non-zero checkpoint reading |
| BatchDetails.ReorderingKeepsBreach | src/components/verify-batch/batch-details.tsx:42-43 | reordering logs or checkpoints does not change the verdict |
| BatchDetails.AddingLogKeepsBreach | src/components/verify-batch/batch-details.tsx:42 | adding a log to a breached batch keeps it breached |
| BatchDetails.AddingCheckpointKeepsBreach | src/components/verify-batch/batch-details.tsx:43 | adding a checkpoint to a breached batch keeps it breached |
| BatchDetails.ZeroReadingQuirk | src/components/verify-batch/batch-details.tsx:42-43 | with a negative limit, a checkpoint reading of 0 never causes a breach, but a log reading of 0 does |
| BatchDetails.ChartData | src/components/verify-batch/batch-details.tsx:45-49 | one chart point per temperature log, in order, each carrying the log's reading and the batch's limit |
| BatchDetails.ChartShowsLogBreach | src/components/verify-batch/batch-details.tsx:42-49 | some log reading is above the limit exactly when some chart point lies above its limit line |
| BatchDetails.StatusBadge | src/components/verify-batch/batch-details.tsx:66 | destructive exactly when breached; otherwise default exactly when Delivered, and secondary for any other status |
| BatchDetails.MapMarkers | src/components/verify-batch/batch-details.tsx:123-127 | \|checkpoints\| + 2 markers: the origin (at the first checkpoint's GPS, or the current GPS when that is missing or empty), one per checkpoint in order, then the destination |
| BatchDetails.DropEmpty | src/components/verify-batch/batch-details.tsx:128 | `filter(Boolean)`: an entry is kept exactly when it is non-empty; the result is never longer, and a list without empty entries is kept whole |
| BatchDetails.DropEmptyAppend | src/components/verify-batch/batch-details.tsx:128 | dropping empty entries distributes over concatenation, so the kept entries stay in their order |
| BatchDetails.RoutePolyline | src/components/verify-batch/batch-details.tsx:128 | the route's points are exactly the non-empty GPS texts of the checkpoints and of the current location |
| BatchDetails.RoutePolylineShape | src/components/verify-batch/batch-details.tsx:128 | the route has no empty entry and at most \|checkpoints\| + 2 points; it starts with the first checkpoint's GPS twice and ends at the current GPS when these are non-empty; with no empty GPS it is exactly first, every checkpoint, current |
| Navigation.FilterOutHref | src/components/dashboard/sidebar-nav.tsx:32 | `filter(item => item.href !== href)`: an item is kept exactly when its href differs |
| Navigation.Candidates | src/components/dashboard/sidebar-nav.tsx:28-37 | the table a role starts from: the merged base and admin tables for Admin, the base table otherwise; AdminCandidates states the Admin case |
| Navigation.MergeByHref | src/components/dashboard/sidebar-nav.tsx:34-36 | the merge has pairwise-distinct hrefs, takes every item from the input, and is never longer |
| Navigation.MapSetHrefs | src/components/dashboard/sidebar-nav.tsx:35 | setting an item adds its href to the keys and removes none |
| Navigation.MergeKeepsHrefs | src/components/dashboard/sidebar-nav.tsx:34-36 | the merge's hrefs are exactly the input's hrefs |
| Navigation.MergeDistinctIsIdentity | src/components/dashboard/sidebar-nav.tsx:34-36 | merging a list whose hrefs are already distinct returns it unchanged |
| Navigation.FilterVisible | src/components/dashboard/sidebar-nav.tsx:40 | the role filter, written as a recursion over the items; FilterVisibleSpec states what it keeps |
| Navigation.FilterVisibleSpec | src/components/dashboard/sidebar-nav.tsx:40 | an item is kept exactly when it is unrestricted, or the role is defined and listed in the item's roles; the result is a sub-multiset of the input |
| Navigation.Rank | src/components/dashboard/sidebar-nav.tsx:42-43 | a non-negative rank is a position of the href in the fixed order of eight |
| Navigation.RankAbsent | src/components/dashboard/sidebar-nav.tsx:42-43 | the rank is -1 exactly when the href is not in the fixed order |
| Navigation.SortBy | src/components/dashboard/sidebar-nav.tsx:41-44 | the output is sorted by rank and is a permutation of the input |
| Navigation.SortSortedIsIdentity | src/components/dashboard/sidebar-nav.tsx:41-44 | a list already in rank order is returned unchanged |
| Navigation.GetNavItems | src/components/dashboard/sidebar-nav.tsx:13-45 | the candidates filtered by role and sorted by rank; GetNavItemsSpec and GetNavItemsByRole state the result |
| Navigation.GetNavItemsSpec | src/components/dashboard/sidebar-nav.tsx:13-45 | the menu is sorted by the href order, and holds exactly the visible candidate items, each at most as often as it is a candidate |
| Navigation.UnrestrictedAlwaysShown | src/components/dashboard/sidebar-nav.tsx:15-18 | Dashboard and Verify Batch appear for every role, including no role |
| Navigation.RestrictedShownIffListed | src/components/dashboard/sidebar-nav.tsx:16-40 | a role-restricted item appears exactly when the role is in its list |
| Navigation.AdminItemsOnlyForAdmin | src/components/dashboard/sidebar-nav.tsx:22-37 | User Management, System Analytics and Settings appear for no role but Admin |
| Navigation.NoRoleOnlyUnrestricted | src/components/dashboard/sidebar-nav.tsx:40 | with no role, every item shown is unrestricted |
| Navigation.GetNavItemsByRole | src/components/dashboard/sidebar-nav.tsx:13-45 | the exact menu of every role: all eight items for Admin; five for Manufacturer; four for Distributor; Dashboard and Verify Batch for the rest and for no role |
| Navigation.AdminMenu | src/components/dashboard/sidebar-nav.tsx:13-45 | Admin's menu is exactly the eight items of both tables, in the fixed order |
| Navigation.AdminHrefsDistinct | src/components/dashboard/sidebar-nav.tsx:32-36 | Admin's menu has pairwise-distinct hrefs |
| Navigation.AdminSeesAll | src/components/dashboard/sidebar-nav.tsx:14-26 | every item of both tables either has no role list or lists Admin |
| GpsFormat.ParseGpsExact | src/components/batches/batch-registration-form.tsx:31 | the scanner accepts a text exactly when the GPS regular expression matches it |
| GpsFormat.ParseGps | src/components/batches/batch-registration-form.tsx:31 | an accepted latitude lies in [-90, 90] and an accepted longitude in [-180, 180] |
| GpsFormat.LatitudeExact | src/components/batches/batch-registration-form.tsx:31 | the latitude scanner accepts exactly an optional sign and then `[1-8]?\d(\.\d+)?` or `90(\.0+)?` |
| GpsFormat.LongitudeExact | src/components/batches/batch-registration-form.tsx:31 | the longitude scanner accepts exactly an optional sign and then `180(\.0+)?` or `(1[0-7]\d\|[1-9]?\d)(\.\d+)?` |
| GpsFormat.FractionValue | src/components/batches/batch-registration-form.tsx:31 | a fraction lies in [0, 1), and an all-zero fraction is 0 |
| GpsFormat.NinetyAccepted | src/components/batches/batch-registration-form.tsx:31 | `90` and `90.000` are accepted as exactly 90 |
| GpsFormat.LatitudeBoundaryRejected | src/components/batches/batch-registration-form.tsx:31 | `90.5`, `91` and `05` are rejected as latitudes |
| GpsFormat.LongitudeBoundary | src/components/batches/batch-registration-form.tsx:31 | `180.0` is accepted as exactly 180; `180.5` and `181` are rejected |
| GpsFormat.MessageExampleAccepted | src/components/batches/batch-registration-form.tsx:31 | the example in the field's error message, `40.7128, -74.0060`, matches |
| GpsFormat.PlaceholderExampleAccepted | src/components/batches/batch-registration-form.tsx:154 | the example in the field's placeholder, `52.5200, 13.4050`, matches |
| GpsFormat.NoSpaceAccepted | src/components/batches/batch-registration-form.tsx:31 | `52.5200,13.4050` matches |
| GpsFormat.WhitespaceBeforeCommaRejected | src/components/batches/batch-registration-form.tsx:31 | any white-space character directly in front of the comma is rejected, since `\s*` is admitted only after it |
| GpsFormat.SpacedExampleRejected | src/components/batches/batch-registration-form.tsx:31 | `52.5200 ,13.4050` is rejected |
| Registration.Valid | src/components/batches/batch-registration-form.tsx:26-34 | the acceptance condition, field by field: three characters per text field, a GPS text the pattern matches, a number in [-100, 100] |
| Registration.Issues | src/components/batches/batch-registration-form.tsx:26-34 | every failing rule, in the schema's field order; IssuesSpec and NoIssuesIffValid state what it reports |
| Registration.IssuesSpec | src/components/batches/batch-registration-form.tsx:26-34 | each issue is reported exactly when its rule fails: an id, name, origin or destination shorter than 3 characters; a GPS text outside the pattern; a limit that is not a number, below -100 or above 100 |
| Registration.TemperatureIssuesSpec | src/components/batches/batch-registration-form.tsx:32 | the limit is reported as not a number, below the minimum or above the maximum, exactly when it is |
| Registration.NoIssuesIffValid | src/components/batches/batch-registration-form.tsx:26-34 | no issue is reported exactly when every field satisfies its rule |
| Registration.Validate | src/components/batches/batch-registration-form.tsx:26-34 | the form is accepted, unchanged, exactly when valid; a rejection lists at least one issue |
| Registration.ValidHasCoordinates | src/components/batches/batch-registration-form.tsx:31 | an accepted form's GPS text denotes coordinates within the latitude and longitude ranges |
| Registration.DefaultBatchIdShape | src/components/batches/batch-registration-form.tsx:46 | the pre-filled id is `BATCH` and at most six digits denoting the clock modulo 10^6; exactly six once the clock reaches 100000 |
| Registration.DefaultValues | src/components/batches/batch-registration-form.tsx:45-52 | the pre-filled form: the generated id, four empty texts and a limit of 5; DefaultValuesIssues states how it is judged |
| Registration.DefaultValuesIssues | src/components/batches/batch-registration-form.tsx:45-52 | an untouched form fails on exactly the product name, origin, destination and GPS fields, in that order |
| Registration.BlankFormIssues | src/components/batches/batch-registration-form.tsx:26-34 | with a long enough id and a limit in range, blank text fields fail exactly those four rules |
| Registration.QrCodeUrl | src/components/batches/batch-registration-form.tsx:64 | the placeholder URL starts with its fixed prefix and is exactly one id longer |
| Registration.BatchIdOfQrCodeUrl | src/components/batches/batch-registration-form.tsx:64 | a batch id is read back exactly from urls carrying the placeholder prefix |
| Registration.QrCodeRoundTrip | src/components/batches/batch-registration-form.tsx:64 | the form's QR placeholder embeds the whole batch id, which reads back unchanged |
| Registration.QrCodeUrlInjective | src/components/batches/batch-registration-form.tsx:64 | different batch ids get different QR placeholders |
| Registration.Submit | src/components/batches/batch-registration-form.tsx:55-64 | a QR code is produced exactly for a valid form; otherwise every issue is reported |
| Registration.SubmitNamesBatch | src/components/batches/batch-registration-form.tsx:64 | a valid form is submitted, and its QR code names its batch id |
| Auth.NameFromEmail | src/lib/auth.ts:19 | the name is never empty; it is `User`, or a prefix of the email without `@` that stops at the first `@`; an empty email or one starting with `@` gives `User` |
| Auth.NameIsLocalPart | src/lib/auth.ts:19 | when the first `@` follows a non-empty prefix, that prefix is the name |
| Auth.NameWithoutAt | src/lib/auth.ts:19 | a non-empty email without `@` is its own name |
| Auth.SimulateLogin | src/lib/auth.ts:14-25 | the user carries the clock's digits as id, the given email and role, and the derived name; login fails only when the browser's storage cannot be accessed or written |
| Auth.GetSimulatedUser | src/lib/auth.ts:8-12 | no user on the server; a user exactly when one is stored and storage is readable, and then exactly the stored user; failure exactly on unreadable storage or unparsable content |
| Auth.SimulateLogout | src/lib/auth.ts:27-31 | fails only when browser storage cannot be accessed |
| Auth.LoginKeepsEmailAndRole | src/lib/auth.ts:14-20 | the logged-in user has exactly the given email and role |
| Auth.LoginThenGet | src/lib/auth.ts:8-23 | after a login in the browser, the same user is read back |
| Auth.SecondLoginOverwrites | src/lib/auth.ts:21-23 | a second login leaves the same state as if the first had not happened |
| Auth.NothingStoredIsNoUser | src/lib/auth.ts:10-11 | with nothing or the empty string stored, no user is read back |
| Auth.LogoutThenGet | src/lib/auth.ts:27-31 | after a logout no user is read back |
| Auth.LogoutIdempotent | src/lib/auth.ts:27-31 | logging out twice is the same as logging out once |
| Auth.ServerForgets | src/lib/auth.ts:9-23 | on the server a login succeeds but is never read back |
| Storage.GetItem | src/hooks/use-batch-manager.ts:14 | a read fails exactly when storage access throws, and otherwise returns the slot |
| Storage.SetItem | src/hooks/use-batch-manager.ts:31 | a write fails exactly when access or the write throws, and otherwise the slot holds the value |
| Storage.RemoveItem | src/lib/auth.ts:29 | a removal fails exactly when access throws, and otherwise the slot is empty |
| Storage.SetThenGet | src/hooks/use-batch-manager.ts:14-31 | what a working medium stored is what it reads back |
| Domain.StatusLabelInjective | src/types/index.ts:18 | the five status texts are distinct |

## Left out

- React plumbing (`useState`, `useCallback`, functional updates), the `SidebarNav` component and every other presentational component: they only render.
- The `useEffect` cleanup in `src/hooks/use-batch-manager.ts:148-160`: it revokes the `blob:` URLs of the previous list whenever the list changes. It is React lifecycle and is not modelled. Delete is therefore not the only place where handles are released.
- `URL.createObjectURL` and `URL.revokeObjectURL` are browser calls. Each uploaded file carries the URL the browser issued, and live handles are a ghost set.
- `JSON.stringify` and `JSON.parse`: serialisation is taken to round-trip. Stored text that parses to something other than a list or a user is not distinguished from a malformed slot.
- `Date.now()` and `toISOString()`: the clock is a parameter read once per operation. The source reads it up to four times in `addBatch`, which can in principle give the batch id and the checkpoint id different instants.
- Floating point: temperatures and coordinates are reals. Only the strict `>` comparison and the falsiness of a 0 reading are modelled.
- The coercion `z.coerce.number()` is not modelled from the raw input text. The coerced outcome (a number, or NaN) is the input. Infinite values are not represented; they fail the range rules anyway.
- Registration.IssuesSpec: zod's issue messages and paths are not modelled, only which rules fail.
- Registration.IssuesSpec: text lengths are counted in characters, whereas `min(3)` counts UTF-16 code units. The two differ only for characters outside the Basic Multilingual Plane.
- Registration.Submit: the simulated delay and the toast are not modelled. The form does not call the batch store.
- The chart's time label (`toLocaleTimeString`) is locale-dependent formatting and is left out. Chart points carry the log's timestamp instead.
- The AI flows and the risk-prediction form: prompt templates handed to an external model service.
- The sample batches are written out field by field. Their timestamps, which the application computes from the page-load time, are texts naming the offset from load time.
