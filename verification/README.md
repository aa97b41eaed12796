# Verified model of the personal gateway

The repository runs a personal cloud gateway: products report their state to a
signing worker, a public gateway worker verifies the signed documents, a local
control center shows everything on a desktop page, and a PC-side agent mirrors
local data to the cloud. This project models the parts whose correctness rests on
state, time or agreement between two programs, and proves what they keep.

**Signed product status** (`cloud/authority`, `cloud`). `Json` is the data both
workers parse. `CanonicalJson` is the text they hash and sign, and
`CanonicalParser` inverts it: two values print the same text exactly when they
are equal with objects taken as maps. `AuthorityShape` holds both validators;
`AuthorityReport` and `AuthorityLetter` say in terms of typed reports and
letters what the two admit. `AuthorityProtocol` holds the signer and the gateway
with their durable checkpoints (specification functions, and the classes
`AuthorityIssuer` and `AuthorityCheckpoint` that carry them out step by step).
`AuthorityAgreement` proves what the two agree on for one document.
`AuthoritySystem` is the whole chain as a step machine with a history: any
number of environments and products, any observations, any clocks, failing
platform services, lost answers, and a network that loses, delays, reorders,
duplicates and invents documents. `AuthorityComposition` proves where accepted
truth comes from and which documents get through, and `AuthorityWitness` builds
accepting runs on every platform with suitable timestamps, and exhibits such a
platform.

**The dashboard's own gate** (`admin/dashboard.py`). `AuthorityGate` verifies
status documents, keeps the revision table that the SQL upsert maintains, and
projects products. `AuthoritySummaries` lets any number of fetches overlap, upsert
by upsert; the gate fails closed in every run.

**In-place rendering** (`desktop.js`). `RenderTree` and `Reconcile` model keyed
reconciliation on heap nodes, with its matching rules, node reuse, moving cursor
and recursion. `RenderLaws` says which nodes keep their identity.

**The encrypted profile** (`dashboard-profile.js`). `ProfileNormal`,
`ProfileOutbox` and `ProfileLaws`: normalisation, the replacement outbox,
acknowledgements, tombstones, and associated data that binds a ciphertext to its
revision.

**Idempotency claims** (`idempotency_store.py`). `Idempotency` interleaves the
single statements of any number of callers.

**Sync bookkeeping** (`fleet/cloud_sync.py`, `dashboard.py`). `SyncStatus` is one
project over many runs and the freshness shown for it, `SyncAgent` all projects
over many passes with one status file, `JournalPaging` the nested paging loops.

**Desktop persistence and polling.** `LayoutUnits` (elastic layout units),
`WindowState` (stored window state) and `GatewayClient` (retry backoff and the
last good snapshot).

Conventions. A number in JSON is an integer, or a decimal that is represented by
the text that stands for it; strings are sequences of UTF-16 code units. Times
are integers: milliseconds in the workers, microseconds in `AuthorityGate`,
seconds elsewhere. SHA-256 is an arbitrary function from texts to texts; where a
result needs it to tell two texts apart, it says "or these two different texts
share a digest" in place of assuming injectivity, which no function into 64
hexadecimal digits can have. Ed25519 is ideal in the step machine: a text
verifies under a public key exactly when the signer has signed it with the
matching private key. `Date.parse`, `toISOString` and the `new URL` test are
parameters.

Some properties one might expect do not hold of the code, and their exact
conditions are proved:

- The freshness test compares `String(value)`, so besides the five labels it admits
  whatever wraps one of them in arrays of one element, and nothing else
  (`AuthorityShape.FreshnessExactly`, with `AuthorityShape.FreshnessAdmitsArray` as
  the concrete input). Among the values that print as "fresh", the string is the
  only one for which every run accepts young truth only
  (`AuthorityWitness.FreshAgeExactly`).
- A stored profile can be read back exactly when its revision is still a safe
  integer (`ProfileLaws.LoadAfterUpdate`, `ProfileLaws.RunReadableExactly`), and the
  other case is within reach (`ProfileLaws.OverflowReachable`).
- Splitting remote changes over two responses is immaterial for the stored profile
  exactly when both responses are acceptable, or neither is, or the only acceptable
  one carries nothing newer than what is stored (`ProfileLaws.SplittingExactly`,
  `ProfileLaws.ExchangeBatching`, with `ProfileLaws.RefusedTogether` as the concrete
  input).
- A later summary goes back to a lower revision exactly when the revisions differ and
  its upsert came before the other's (`AuthoritySummaries.ShownOrderExactly`), which
  takes overlapping calls (`AuthoritySummaries.SummariesNeverGoBack`,
  `AuthoritySummaries.OverlapGoesBack`).
- Pushed and skipped items add up exactly when no tool is configured twice
  (`SyncStatus.CountsAddUp`), and the status file holds each project's own history
  exactly when no two projects share an id (`SyncAgent.HistoriesApart`).
- The default window state is not a fixed point of saving and loading; whatever is
  loaded from an object is (`WindowState.LoadedIsFixedPoint`). Saved layout units
  drift exactly when a clamp is active and they are not what the clamp itself is
  saved as (`LayoutUnits.DriftExactly`).

## Model

| member | source | states |
|---|---|---|
| CanonicalJson.PrintPlain | cloud/src/index.ts:164-174 | whatever the value, its canonical text consists of printable ASCII only |
| CanonicalParser.UnitRoundTrip | cloud/src/index.ts:164-166 | every one of the 65 536 code units is escaped so that reading it back gives the unit, and no escape begins with a quote |
| CanonicalParser.EscapeShortest | cloud/src/index.ts:164-166 | of all printable texts that stand for a code unit inside a string, the printed escape is the shortest, and the only one of its length |
| CanonicalParser.WordsWritten | cloud/src/index.ts:168-174 | `null`, `true` and `false` are written as such, numbers without leading zeros and with a minus sign in front |
| CanonicalParser.ListsWritten | cloud/src/index.ts:170 | lists have square brackets and commas, and nothing else around their items |
| CanonicalParser.ObjectsWritten | cloud/src/index.ts:171-173 | objects have braces, and a colon after each quoted key |
| CanonicalParser.ValueRoundTrip | cloud/src/index.ts:168-174 | the parser undoes the printer inside any larger text, up to sorting members |
| CanonicalParser.RoundTrip | cloud/authority/src/index.ts:220-230 | canonical text is parsed back completely, to a value equal with objects taken as maps |
| CanonicalParser.SortKeysCanonical | cloud/src/index.ts:172-173 | key lists with the same members are sorted to the same list, so insertion order is invisible |
| CanonicalParser.SortKeysSorted | cloud/src/index.ts:173 | the printed keys are ascending by code unit and a permutation of the object's keys |
| CanonicalParser.PrintInjective | cloud/authority/src/index.ts:224-230 | two values print the same text if and only if they are equal with objects taken as maps |
| AuthorityShape.SortedKeysMembers | cloud/authority/src/index.ts:106-110 | passing the exact-key test means having precisely the expected keys, each once |
| AuthorityShape.SameByProps | cloud/authority/src/index.ts:106-110 | two objects that pass the same exact-key test and agree in every named property are equal as maps |
| AuthorityShape.FreshnessExactly | cloud/authority/src/index.ts:163 | a value passes the freshness test if and only if it is one of the five labels or wraps one in arrays of one element |
| AuthorityShape.FreshnessAdmitsArray | cloud/src/index.ts:237 | the one-element array of "fresh" passes the freshness test although it is not the label |
| AuthorityReport.ReportAdmitted | cloud/authority/src/index.ts:141-180 | the signer admits the JSON of every proper report, described by typed fields and literal bounds |
| AuthorityReport.AdmittedExactly | cloud/authority/src/index.ts:381-386 | a value is admitted if and only if it is the JSON of some proper report, with members in any order |
| AuthorityLetter.ShapeExactly | cloud/src/index.ts:216-252 | a value passes the gateway's shape test if and only if it is the JSON of some legible letter, with members in any order |
| AuthorityProtocol.FollowsTransitive | cloud/src/index.ts:858-872 | the successor test is transitive over recognised records, so acceptance chains across lost documents |
| AuthorityProtocol.SignerAcceptsFollowers | cloud/authority/src/index.ts:416-435 | the signer's transaction accepts a candidate if and only if it follows the stored record, stores exactly the accepted one, and leaves storage alone otherwise |
| AuthorityProtocol.GatewayAcceptsFollowers | cloud/src/index.ts:846-874 | the gateway's transaction enforces the very same order |
| AuthorityProtocol.SignExactly | cloud/authority/src/index.ts:381-466 | a document is issued if and only if the observation is admissible, a key is configured, the platform works, nothing or a record it follows is held, and its source outlives the issue; a rollback is answered exactly for the same subject with a record that does not follow; and what is stored, in every case |
| AuthorityProtocol.WindowExactly | cloud/src/index.ts:456-475 | the eleven time tests as chains: verified before observed, the document within the life of its source, alive and not from the future, and young enough |
| AuthorityProtocol.ExamineExactly | cloud/src/index.ts:454-519 | which answer each defect of a document gets, and that nothing but the five tests stands between a document and the checkpoint |
| AuthorityProtocol.AuthorityIssuer.Fetch | cloud/authority/src/index.ts:381-466 | the stateful issuer ends in the checkpoint and answer of the specification that all results below are about, including an unusable key, a failed storage transaction and a failed signature; when it issues is stated by `AuthorityProtocol.SignExactly` |
| AuthorityProtocol.AuthorityIssuer.Transact | cloud/authority/src/index.ts:416-435 | the signer's branch-by-branch transaction meets its specification |
| AuthorityProtocol.AuthorityCheckpoint.Accept | cloud/src/index.ts:842-880 | the gateway's branch-by-branch transaction meets its specification, also when storage fails |
| AuthorityAgreement.SignThenVerify | cloud/authority/src/index.ts:398-462 | for every observation a document is issued for: the document is well shaped for the gateway, the reconstructed observation is the validated one and has the hashed text, and the gateway checks the signature over the very text that was signed |
| AuthorityAgreement.ReconstructSame | cloud/src/index.ts:476-486 | the observation rebuilt from an issued document equals the original as a map and prints the same text |
| AuthorityAgreement.SignerTruthIsGatewayTruth | cloud/src/index.ts:233-251 | every truth the signer's validator admits is admitted by the gateway's |
| AuthorityAgreement.RecordsAgree | cloud/src/index.ts:521-533 | the gateway's checkpoint record of a document is the signer's record of the observation, up to environment and key |
| AuthorityAgreement.FiveWayTestCollapses | cloud/authority/src/index.ts:422-428 | without a collision of the two printed observations, the five-way comparison at an equal revision holds exactly when the observation hashes are equal, and exactly when the observations are equal |
| AuthorityAgreement.SignerRecordRecognised | cloud/authority/src/index.ts:182-201 | whatever the signer stores, its own record test recognises next time |
| AuthorityAgreement.GatewayRecordRecognised | cloud/src/index.ts:181-204 | what the gateway submits after a successful examination is never called malformed by its own checkpoint |
| AuthorityAgreement.IssuedTimes | cloud/authority/src/index.ts:442-455 | every issued document satisfies the time relations of validation and issue, and reads back the instant of issue |
| AuthorityAgreement.WindowExact | cloud/src/index.ts:456-475 | every gateway clock from 60 s before issue up to expiry passes all time tests if and only if the document's whole life fits into the maximum age |
| AuthorityAgreement.WindowComplete | cloud/src/index.ts:456-475 | a maximum age of 600 s suffices for every such clock; truth labelled fresh needs the delay between validation and issue on top |
| AuthorityAgreement.WindowSound | cloud/src/index.ts:456-475 | inside its window a genuine document speaks of an observation younger than the maximum age and than ten minutes, and is at most five minutes past issue |
| AuthoritySystem.VerifyParts | cloud/src/index.ts:454-543 | a document is verified exactly when its record commits and the answer arrives; the answer then hands on the document's truth with its digest and the key's; committing implies a genuine signature, a passed examination and a record that follows the one held; without it the checkpoint does not move |
| AuthoritySystem.VerifyExactly | cloud/src/index.ts:454-543 | a document is verified if and only if it passes examination, the checkpoint answers, and nothing or a record it follows is held; a rollback is answered exactly for the same subject with a record that does not follow; and what is stored, in every case |
| AuthoritySystem.GatewayHistory | cloud/src/index.ts:845-874 | in every run, and for each environment and product by itself, the committed records form a chain of the successor order and the checkpoint holds the end of it, even where answers were lost |
| AuthoritySystem.GatewaySafety | cloud/src/index.ts:845-874 | in every run, of two documents committed for one product (so of two accepted ones) the later keeps environment, product, audience and key, has no lower revision and no earlier source times, and at an equal revision carries the same truth or there is a collision |
| AuthoritySystem.SignerHistory | cloud/authority/src/index.ts:415-435 | in every run all issued documents carry validated observations, and those of one product form a chain that ends at its stored checkpoint or before it |
| AuthoritySystem.SignerStepExactly | cloud/authority/src/index.ts:381-466 | in every run a posted observation adds exactly one document if it is admissible, the platform works, its source outlives the issue, and nothing, the very same record, or one of the same subject and key with a lower revision and no later times is held; and none otherwise |
| AuthoritySystem.SignerSafety | cloud/authority/src/index.ts:415-435 | for one product a signer never issues a lower revision or an earlier time after a higher one, nor one revision for two different observations without a collision |
| AuthorityComposition.SignedObservation | cloud/src/index.ts:476-513 | a document whose signed text is that of an issued one rebuilds to the validated observation, however its members were reordered on the way |
| AuthorityComposition.Provenance | cloud/src/index.ts:433-543 | in every run, with the documents of all products on one network and possibly under one key, each committed document carries an observation that a signer validated and checkpointed for that very product, with the signer's record; and an accepted one hands on the truth of that observation |
| AuthorityComposition.OneObservationPerRevision | cloud/src/index.ts:861-868 | in every run a committed document and whatever its signer issued for that product under the same revision carry the same observation, or there is a collision |
| AuthorityComposition.AcceptedIsRecent | cloud/src/index.ts:470-472 | in every run, at acceptance the observation behind a document was younger than the configured maximum age and than ten minutes; and if the freshness is the string "fresh", the verification was younger than the maximum age too |
| AuthorityComposition.IssuedGenuine | cloud/src/index.ts:490-509 | every document issued in a run passes the ideal signature check of whoever holds the matching public key |
| AuthorityComposition.DeliveryAccepted | cloud/src/index.ts:433-543 | delivering an issued document that follows what the gateway holds, inside its window, makes the next step of the run commit and accept it with the truth that was signed as its answer, and nothing else changes |
| AuthorityComposition.InOrderAccepted | cloud/src/index.ts:845-874 | extending any run by delivering, in order, any subsequence with repetitions of the documents signed for a product accepts them all, if the gateway holds nothing or an earlier one |
| AuthorityComposition.NewestAccepted | cloud/src/index.ts:845-874 | after any run in which the product had one signing environment and one pinned key, the newest document signed for it is accepted inside its window, whatever was committed before and whichever answers were lost |
| AuthorityComposition.RefusalKeepsCheckpoint | cloud/src/index.ts:433-543 | a refused document leaves the checkpoint unchanged, unless the answer was lost after committing a record that follows the one held |
| AuthorityComposition.RetryAfterLostAnswer | cloud/src/index.ts:535-541 | after a lost answer the same document, presented again while it passes examination, is verified with its truth and the checkpoint stays as it is |
| AuthorityWitness.SomeRunAccepts | cloud/src/index.ts:433-543 | the assumptions are consistent: some platform meets them all, and on every platform with hexadecimal digests and timestamps that read back there is a run in which an observation is signed, delivered and accepted |
| AuthorityWitness.FreshAgeExactly | cloud/src/index.ts:470-472 | on every such platform, and for every freshness that prints as "fresh": in all runs each committed document with it reports a verification younger than the maximum age, if and only if it is the string itself and not a wrapping of it |
| AuthorityGate.VerifiedMeansCurrent | src/personal_mcp_gateway/admin/dashboard.py:254-348 | for a valid, correctly signed document the tests on arrival pass if and only if the resulting status is current for that instant and product |
| AuthorityGate.IssuesExactly | src/personal_mcp_gateway/admin/dashboard.py:254-348 | which issue each defect of a document gets: an invalid or badly signed one before product, product before time |
| AuthorityGate.LeastRevision | src/personal_mcp_gateway/admin/dashboard.py:330-334 | a least revision refuses exactly the verified documents below it |
| AuthorityGate.RevisionCheckpoints.AcceptRevision | src/personal_mcp_gateway/admin/dashboard.py:981-1019 | the upsert and the comparison of what it returned change the table as specified, and not at all when the database is down or the row may not be replaced |
| AuthorityGate.RevisionCheckpoints.FetchTruths | src/personal_mcp_gateway/admin/dashboard.py:951-979 | undisturbed, the loop over all results leaves table, statuses and issues as the specification folds them; `AuthoritySummaries` interleaves its rounds with those of other calls |
| AuthoritySummaries.RevisionsNeverDecrease | src/personal_mcp_gateway/admin/dashboard.py:986-1019 | over every interleaving of any number of fetches the accepted revisions of a product never decrease and no revision is accepted with two truth hashes |
| AuthoritySummaries.RowsOnlyGrow | src/personal_mcp_gateway/admin/dashboard.py:951-979 | no step of any interleaving, with the database up or down, lowers a row's revision or changes its truth at an equal revision |
| AuthoritySummaries.RoundExactly | src/personal_mcp_gateway/admin/dashboard.py:966-979 | one round keeps a verified status if and only if the database answers and the row may be replaced, and otherwise notes why not |
| AuthoritySummaries.SummariesNeverGoBack | src/personal_mcp_gateway/admin/dashboard.py:822-843 | a call that begins after another has ended never shows a lower revision of a product, nor the same one with another truth, whatever further calls do meanwhile |
| AuthoritySummaries.ShownOrderExactly | src/personal_mcp_gateway/admin/dashboard.py:951-1019 | of two summaries whose calls overlap in any way, the second shows a lower revision than the first if and only if the revisions differ and its own upsert came first; equal revisions carry one truth |
| AuthoritySummaries.OverlapGoesBack | src/personal_mcp_gateway/admin/dashboard.py:966-976 | any two current statuses of one product with different revisions can be shown the wrong way round by two overlapping calls, both accepted |
| AuthoritySummaries.OneTruthShown | src/personal_mcp_gateway/admin/dashboard.py:966-1019 | two summaries that show a product at one revision show the same truth, unless two truths share a digest |
| AuthoritySummaries.ShownFields | src/personal_mcp_gateway/admin/dashboard.py:679-758 | every field of a shown product is that of the kept status while it is current, and the literal values of an unknown product otherwise |
| AuthoritySummaries.AloneIsFetch | src/personal_mcp_gateway/admin/dashboard.py:965-979 | a call that no other interrupts ends with the table, statuses and issues of the undisturbed loop |
| AuthoritySummaries.KeyMayChange | src/personal_mcp_gateway/admin/dashboard.py:986-1000 | after any interleaving a status is accepted if and only if all statuses accepted before for its product had lower revisions, or the same with the same truth, whatever the keys |
| AuthoritySummaries.StatusesVouched | src/personal_mcp_gateway/admin/dashboard.py:966-979 | in every interleaving each status a call keeps comes from one of its own results for that target, and stands in the common sequence of accepted statuses |
| AuthoritySummaries.FailsClosed | src/personal_mcp_gateway/admin/dashboard.py:822-843 | in every interleaving a product is projected as anything but unknown only if some result of the call carries a valid document for it, signed under the pinned key, accepted by the checkpoint and still current at the moment of generation; it is then projected field by field as that document says, and what is shown makes sense |
| RenderTree.InsertBefore | src/personal_mcp_gateway/desktop/static/desktop.js:540 | inserting takes the child from its former parent, which may be the container, to just before the cursor or to the end, and duplicates nothing |
| Reconcile.SyncAttributes | src/personal_mcp_gateway/desktop/static/desktop.js:404-421 | afterwards the attributes are exactly the wanted ones |
| Reconcile.IndexKeys | src/personal_mcp_gateway/desktop/static/desktop.js:490-497 | the index lists, for each render key, exactly the children carrying it, in document order |
| Reconcile.PickExisting | src/personal_mcp_gateway/desktop/static/desktop.js:511-527 | the three lookups together choose by one rule: some free child of the same key and shape if there is one, at the same position if unkeyed and possible, else the first |
| Reconcile.PlaceChildren | src/personal_mcp_gateway/desktop/static/desktop.js:536-543 | the moving cursor brings the resolved nodes to the front in order, loses and repeats no node, and takes the new ones out of the parent they came from |
| Reconcile.RemoveUnused | src/personal_mcp_gateway/desktop/static/desktop.js:545-549 | after the removal loop the children are exactly the resolved nodes |
| Reconcile.PatchRenderNode | src/personal_mcp_gateway/desktop/static/desktop.js:458-481 | a reused node keeps its identity and ends structurally equal to the wanted subtree, whose new nodes it takes over; at every level below it the children that are kept are those the matching rules choose |
| Reconcile.MatchChildren | src/personal_mcp_gateway/desktop/static/desktop.js:498-534 | every wanted child is served by a distinct node that looks like it, patching one never disturbs another, and the used set is exactly what was chosen |
| Reconcile.ReconcileRenderChildren | src/personal_mcp_gateway/desktop/static/desktop.js:489-549 | for any existing and any wanted trees the container ends with a child list structurally equal to the wanted one, recursively; at every level each child is the one the matching rules choose or else the new node, which has left its former parent; the recursion ends |
| RenderLaws.ChoicesDetermined | src/personal_mcp_gateway/desktop/static/desktop.js:510-534 | the matching rules leave no freedom: the reused nodes are determined by the two child lists |
| RenderLaws.ReusableMeans | src/personal_mcp_gateway/desktop/static/desktop.js:303-313 | nodes may stand in for each other exactly if type, namespace and name agree and both have the same `data-render-key` or none |
| RenderLaws.NewOnlyWhenNeeded | src/personal_mcp_gateway/desktop/static/desktop.js:516-533 | a new node enters only if every existing child that fits already serves an earlier wanted one |
| RenderLaws.FittingDescendantSurvives | src/personal_mcp_gateway/desktop/static/desktop.js:510-534 | a descendant at any depth keeps its node if at every level above and including it the existing child alone fits the wanted one, and fits no other |
| RenderLaws.KeyedDescendantSurvives | src/personal_mcp_gateway/desktop/static/desktop.js:513-515 | with unique keys on both sides along the way, a keyed descendant at any depth whose element names are unchanged keeps its node, wherever it moves |
| RenderLaws.RerenderKeepsNodes | src/personal_mcp_gateway/desktop/static/desktop.js:517-521 | rendering a tree of the same shapes and keys again keeps every node of the whole tree in its place |
| ProfileNormal.CleanIdsLoop | src/personal_mcp_gateway/admin/static/dashboard-profile.js:53-62 | the loop computes the specified list of ids |
| ProfileNormal.CleanIdsMeaning | src/personal_mcp_gateway/admin/static/dashboard-profile.js:53-62 | the kept ids are distinct, well formed and taken from the list, at most as many as the limit; below the limit they are all of them |
| ProfileNormal.GoodTilesMembers | src/personal_mcp_gateway/admin/static/dashboard-profile.js:66-71 | a tile size is kept if and only if its id is well formed and the size is one of the three |
| ProfileNormal.ThemeAndDensity | src/personal_mcp_gateway/admin/static/dashboard-profile.js:74-75 | "dark" stays dark and any other theme is "light"; "compact" and "minimal" stay and any other density is "full" |
| ProfileNormal.ChoiceKept | src/personal_mcp_gateway/admin/static/dashboard-profile.js:64-80 | every profile a user can choose, described by typed fields, is kept exactly as it is |
| ProfileNormal.NormalizeIdempotent | src/personal_mcp_gateway/admin/static/dashboard-profile.js:64-80 | normalising twice is normalising once, including the order of members |
| ProfileNormal.NormalizeSame | src/personal_mcp_gateway/admin/static/dashboard-profile.js:64-80 | profiles that are equal as maps normalise to profiles that are equal as maps |
| ProfileNormal.StoredProfileReadsBack | src/personal_mcp_gateway/admin/static/dashboard-profile.js:194-229 | printing a normalised profile, parsing the text and normalising again gives the normalised profile |
| ProfileOutbox.DashboardProfileStore.UpdateProfile | src/personal_mcp_gateway/admin/static/dashboard-profile.js:245-292 | the stateful update ends in the store and answer of the specification: unchanged, too large, or one replacement mutation under the next revision; what that means is stated by `ProfileLaws.LoadsTheChoice`, `QueuedIsStored` and `SecondUpdateUnchanged` |
| ProfileOutbox.DashboardProfileStore.ApplyResponse | src/personal_mcp_gateway/admin/static/dashboard-profile.js:329-387 | the three loops over changes, stored entity and acknowledgements end in the specified store, and a refused change leaves it untouched |
| ProfileLaws.AadInjective | src/personal_mcp_gateway/admin/static/dashboard-profile.js:124-134 | the associated data of two revisions has the same text only if the revisions are equal |
| ProfileLaws.RevisionBinds | src/personal_mcp_gateway/admin/static/dashboard-profile.js:211-229 | a profile that opens under its revision opens under no other, whatever hash is stored beside it |
| ProfileLaws.OpensExactly | src/personal_mcp_gateway/admin/static/dashboard-profile.js:211-229 | an entity opens if and only if it is an upsert at a proper revision, sealed under this key with its own nonce and the associated data of that revision, with the digest of that data and the text of a profile of at most 32 768 units |
| ProfileLaws.LoadAfterUpdate | src/personal_mcp_gateway/admin/static/dashboard-profile.js:231-292 | after a queued update the stored profile is readable if and only if the new revision is a safe integer, and loading it then returns the normalised profile |
| ProfileLaws.LoadsTheChoice | src/personal_mcp_gateway/admin/static/dashboard-profile.js:231-292 | whatever was stored before, a choice that fits and gets a safe revision is loaded as it was given |
| ProfileLaws.SecondUpdateUnchanged | src/personal_mcp_gateway/admin/static/dashboard-profile.js:251-253 | choosing again what is stored queues nothing and changes nothing |
| ProfileLaws.OtherDeviceShows | src/personal_mcp_gateway/admin/static/dashboard-profile.js:245-387 | a choice queued on one device and received on another above its revision is loaded there as it was given |
| ProfileLaws.DeletionShows | src/personal_mcp_gateway/admin/static/dashboard-profile.js:333-366 | a deletion above the stored revision is taken, keeps no ciphertext, and shows the defaults |
| ProfileLaws.DefaultsShown | src/personal_mcp_gateway/admin/static/dashboard-profile.js:231-243 | with nothing stored, or a deletion, the light theme, full density and empty lists are shown |
| ProfileLaws.OverflowReachable | src/personal_mcp_gateway/admin/static/dashboard-profile.js:245-292 | the failing store is within reach: from a new store, a remote tombstone at the last safe revision and one local edit leave a queued profile that loads as the defaults |
| ProfileLaws.LoadAfterUnchanged | src/personal_mcp_gateway/admin/static/dashboard-profile.js:251-253 | an update answered "not queued" changes nothing, and the store already loads a profile equal as a map to the normalised new one |
| ProfileLaws.ExchangeKeeps | src/personal_mcp_gateway/admin/static/dashboard-profile.js:329-387 | an exchange never lowers the revision, keeps the outbox invariant, and keeps a readable store readable |
| ProfileLaws.RunKeeps | src/personal_mcp_gateway/admin/static/dashboard-profile.js:245-387 | over every serialized run of updates and exchanges the revision never decreases and at most one mutation waits, with base revision + 1 no higher than the entity's |
| ProfileLaws.RunReadableExactly | src/personal_mcp_gateway/admin/static/dashboard-profile.js:194-292 | a run keeps every stored upsert readable under its own revision if and only if no local edit is queued on top of the last safe revision |
| ProfileLaws.QueuedIsStored | src/personal_mcp_gateway/admin/static/dashboard-profile.js:262-292 | a queued update leaves exactly one waiting mutation, whose content is the stored entity one revision on; sent up, it opens to the normalised profile if that revision is a safe integer, and not at all otherwise; cursor and conflicts stay |
| ProfileLaws.RunMutationsOpen | src/personal_mcp_gateway/admin/static/dashboard-profile.js:245-387 | over every run each waiting mutation opens under base revision + 1 if and only if that is a safe integer |
| ProfileLaws.EveryRun | src/personal_mcp_gateway/admin/static/dashboard-profile.js:245-387 | all of this holds of every run from a new store |
| ProfileLaws.MutationLeaves | src/personal_mcp_gateway/admin/static/dashboard-profile.js:367-378 | a mutation leaves only by an acknowledgement of its own id at its own revision, or replaced by a later update |
| ProfileLaws.SettledExactly | src/personal_mcp_gateway/admin/static/dashboard-profile.js:367-378 | an accepted response removes a waiting mutation if and only if it acknowledges its id at base revision + 1 and the entity is at least there |
| ProfileLaws.LateAcknowledgement | src/personal_mcp_gateway/admin/static/dashboard-profile.js:367-378 | acknowledgements of superseded ids remove nothing |
| ProfileLaws.AcknowledgementSettles | src/personal_mcp_gateway/admin/static/dashboard-profile.js:367-378 | the acknowledgement of the waiting mutation empties the outbox |
| ProfileLaws.ExchangeTakesNewest | src/personal_mcp_gateway/admin/static/dashboard-profile.js:333-383 | an accepted response leaves the entity with the highest revision among stored and received, and the stored one wins a tie; conflicts are added, the cursor moves and no mutation is in flight |
| ProfileLaws.ExchangeOrderIrrelevant | src/personal_mcp_gateway/admin/static/dashboard-profile.js:333-366 | responses with the same changes, in any order and multiplicity and with distinct revisions, are both refused or lead to the same entity |
| ProfileLaws.ExchangeBatching | src/personal_mcp_gateway/admin/static/dashboard-profile.js:329-387 | two responses joined in one are accepted if and only if each is acceptable, and otherwise the joined one changes nothing; accepted, they lead to the same entity, conflicts and cursor as one after the other; under the outbox invariant the whole stores are equal, outbox included, if both are acceptable or neither is |
| ProfileLaws.SplittingExactly | src/personal_mcp_gateway/admin/static/dashboard-profile.js:329-366 | the entity is the same whether two responses come joined or one after the other, if and only if both are acceptable, or neither is, or the only acceptable one carries nothing newer than the stored entity |
| ProfileLaws.RefusedTogether | src/personal_mcp_gateway/admin/static/dashboard-profile.js:334-344 | where a change is refused batching matters: a good and a refused response keep the good change one after the other, and nothing when joined |
| Idempotency.IdempotencyStore.Claim | src/personal_mcp_gateway/storage/idempotency_store.py:21-67 | an undisturbed claim ends with the table and answer of its specification, in every branch |
| Idempotency.IdempotencyStore.Complete | src/personal_mcp_gateway/storage/idempotency_store.py:69-74 | the outcome of an existing record is overwritten, and nothing else changes |
| Idempotency.IdempotencyStore.Fail | src/personal_mcp_gateway/storage/idempotency_store.py:76-87 | likewise for a failure |
| Idempotency.InsertCount | src/personal_mcp_gateway/storage/idempotency_store.py:27-34 | an INSERT that takes effect adds one inserter for its own key and none for any other |
| Idempotency.RunKeepsInv | src/personal_mcp_gateway/storage/idempotency_store.py:21-87 | over every interleaving the effective INSERTs of a key number its deletions, plus one while the record exists |
| Idempotency.AtMostOnce | src/personal_mcp_gateway/storage/idempotency_store.py:21-67 | over every interleaving only callers whose own INSERT took effect are told to execute, at most once more than the record was deleted |
| Idempotency.RowPersists | src/personal_mcp_gateway/storage/idempotency_store.py:26-34 | no interleaving of other calls changes a record before it expires, unless its outcome is recorded |
| Idempotency.ReplaysLatest | src/personal_mcp_gateway/storage/idempotency_store.py:35-67 | after an outcome is recorded, and until expiry or another outcome, every reading claim gets that outcome for the original payload and CONFLICT for any other |
| Idempotency.AloneIsThreeSteps | src/personal_mcp_gateway/storage/idempotency_store.py:21-67 | the undisturbed claim is the interleaved machine's three steps in a row |
| Idempotency.ClaimExactly | src/personal_mcp_gateway/storage/idempotency_store.py:21-67 | an undisturbed claim executes if and only if no record of its key expires at `now` or later; a live one is answered for by payload and outcome and kept; precisely the live records stay |
| Idempotency.AbandonedExpires | src/personal_mcp_gateway/storage/idempotency_store.py:26-34 | an unfinished claim blocks its key until more than its lifetime has passed, for every payload |
| Idempotency.CleanupExactly | src/personal_mcp_gateway/storage/idempotency_store.py:26 | a cleanup leaves exactly the records that expire at `now` or later |
| Idempotency.ClaimLifecycle | src/personal_mcp_gateway/storage/idempotency_store.py:21-74 | claim, repeat, complete, repeat, other payload: execute, in progress, replay, conflict |
| SyncStatus.SyncProject | fleet/cloud_sync.py:332-450 | the tool loop and the four outcomes end in the specified observation |
| SyncStatus.CountsAddUp | fleet/cloud_sync.py:332-450 | pushed + skipped = total in every outcome of every run, if and only if no tool is configured twice |
| SyncStatus.ObservedItems | fleet/cloud_sync.py:54-71 | after one run each item carries that run's push time if its tool was really pushed, and else the time it had |
| SyncStatus.ObservationMeaning | fleet/cloud_sync.py:332-450 | result, times, counts and reason of an observation, and success and reason of each item, from the answers of the tools and the cloud; also when a tool is configured twice |
| SyncStatus.ItemsAreHonest | fleet/cloud_sync.py:332-450 | after any sequence of runs each item carries the time of the last run that really pushed its tool |
| SyncStatus.CompletionIsHonest | fleet/cloud_sync.py:332-450 | after any sequence of runs the completion time is that of the last run in which every tool answered and the cloud took everything |
| SyncStatus.OldestPush | src/personal_mcp_gateway/admin/dashboard.py:515-523 | the count and the minimum of the recorded pushes |
| SyncStatus.SnapshotStateOf | src/personal_mcp_gateway/admin/dashboard.py:508-530 | comparing the oldest push with the threshold decides the specified state |
| SyncStatus.FreshMeansPushed | src/personal_mcp_gateway/admin/dashboard.py:508-530 | after any runs: "fresh" if and only if something is configured and every tool was really pushed at most the threshold ago; "never_synced" and "incomplete" if and only if none, or only some, ever were; and "stale" otherwise |
| SyncAgent.StatusFile.RunAgent | fleet/cloud_sync.py:453-475 | one pass over all projects leaves the status file as the specified fold, or as it was when it cannot be written |
| SyncAgent.FoldOwn | fleet/cloud_sync.py:462-469 | with distinct ids one pass treats every project by its own previous status alone |
| SyncAgent.DiskIsHistory | fleet/cloud_sync.py:453-475 | after any passes the file holds for each project its own history over the passes that left a trace: those written since the file was last unreadable |
| SyncAgent.HistoriesApart | fleet/cloud_sync.py:453-475 | that holds for all passes if and only if no two projects share an id |
| SyncAgent.JournalIsHonest | fleet/cloud_sync.py:236-328 | a journal's status says how the last pass went and when the cloud last took it |
| SyncAgent.FreshIsNeverInvented | src/personal_mcp_gateway/admin/dashboard.py:508-530 | whatever became of the file, "fresh" means that for every configured tool some written pass really pushed it within the threshold |
| JournalPaging.ReadBody | fleet/cloud_sync.py:257-271 | the offset loop ends and joins the chunks to the full text |
| JournalPaging.ReadPage | fleet/cloud_sync.py:253-285 | one entry for each dated item of a page, in order, with the fields stated below, and none for the others |
| JournalPaging.CollectEntries | fleet/cloud_sync.py:246-289 | against any source that pages and cuts with increasing offsets the nested loops end with exactly one entry for each dated item, in listing order: its date and source key, its full text, and revision and title from the last piece, else from the item, else 1 and nothing |
| JournalPaging.CollectFromBoth | fleet/cloud_sync.py:246-289 | run against two servers with the same items and texts, the loops return the same entries however the servers page and cut |
| LayoutUnits.UnitsReadBack | src/personal_mcp_gateway/desktop/static/desktop.js:2792-2810 | a pixel value within a twentieth of where integer units put it is read back as those units at every viewport wider than 100 |
| LayoutUnits.NoDrift | src/personal_mcp_gateway/desktop/static/desktop.js:2434-2444 | with the clamps inactive a coordinate survives drawing and saving unchanged |
| LayoutUnits.DriftExactly | src/personal_mcp_gateway/desktop/static/desktop.js:2397-2444 | a coordinate survives if and only if it is inside the clamps or is the one value a clamp itself is saved as |
| LayoutUnits.SettlesAtOnce | src/personal_mcp_gateway/desktop/static/desktop.js:2434-2444 | whatever was saved, a second drawing and saving changes nothing any more |
| LayoutUnits.ApplyProjectLayout | src/personal_mcp_gateway/desktop/static/desktop.js:2742-2778 | every tile ends drawn at its saved geometry and stacking order, or at the default ones where nothing is saved, independently of the others; nothing changes while the page has no size |
| LayoutUnits.DrawnAtSaved | src/personal_mcp_gateway/desktop/static/desktop.js:2434-2453 | a tile stands within a twentieth of a pixel of its saved thousandths of the viewport, one above its saved order, unless a clamp is active |
| LayoutUnits.DefaultsApart | src/personal_mcp_gateway/desktop/static/desktop.js:2401-2409 | default places do not cover each other among the known tiles, nor among the others, and the known ones fit the screen |
| LayoutUnits.RanksMeaning | src/personal_mcp_gateway/desktop/static/desktop.js:2797-2798 | saved orders number the tiles from 0 without gaps or repetitions, lower exactly for the tile that is stacked lower |
| LayoutUnits.TileLayoutFromDom | src/personal_mcp_gateway/desktop/static/desktop.js:2792-2810 | the saved layout has exactly the tiles of the page, each with its own rectangle in units and its place in the stacking order |
| LayoutUnits.ApplyThenPersist | src/personal_mcp_gateway/desktop/static/desktop.js:2711-2810 | drawing a layout and saving the page returns the saved rectangle of every tile that has one, and the default of every other, at every viewport of at least 120 by 260 where no clamp is active, with the orders renumbered as the tiles were stacked |
| LayoutUnits.PersistedOrdersStay | src/personal_mcp_gateway/desktop/static/desktop.js:2711-2810 | what was saved so is drawn the same the next time, and for up to a thousand tiles a second round changes no order either |
| WindowState.NormalizeProjectLayout | src/personal_mcp_gateway/desktop/window_state.py:93-149 | the loop computes the specified layout |
| WindowState.NormalizeCardLayout | src/personal_mcp_gateway/desktop/window_state.py:152-180 | the loop computes the specified card layout |
| WindowState.FreeTileStable | src/personal_mcp_gateway/desktop/window_state.py:106-138 | a freely placed tile that is within bounds is kept as it is |
| WindowState.GridTileStable | src/personal_mcp_gateway/desktop/window_state.py:140-148 | so is a tile of the old grid |
| WindowState.FreeTileClamped | src/personal_mcp_gateway/desktop/window_state.py:106-138 | what becomes of every coordinate of a free tile: the nearest one in bounds, or the default |
| WindowState.GridTileClamped | src/personal_mcp_gateway/desktop/window_state.py:140-148 | the same of a grid tile |
| WindowState.CardClamped | src/personal_mcp_gateway/desktop/window_state.py:163-179 | the same of a card |
| WindowState.KeptExactly | src/personal_mcp_gateway/desktop/window_state.py:93-180 | the tiles kept are exactly the objects under ids of 1 to 64 units, the cards those with four numbers |
| WindowState.LayoutsIdempotent | src/personal_mcp_gateway/desktop/window_state.py:83-180 | both layout normalisers are idempotent on every JSON value, however the decimals in it are truncated |
| WindowState.LoadedIsBounded | src/personal_mcp_gateway/desktop/window_state.py:207-254 | whatever the stored document holds, the loaded window, theme, version, tiles and cards are in bounds |
| WindowState.WindowClamped | src/personal_mcp_gateway/desktop/window_state.py:207-254 | position, size, theme, flags and layout version of the loaded window from what the document says |
| WindowState.EmptyIsDefault | src/personal_mcp_gateway/desktop/window_state.py:207-254 | without a usable document the state is that of an empty one, but for the project layout |
| WindowState.KeptHidden | src/personal_mcp_gateway/desktop/window_state.py:183-191 | the hidden list keeps exactly the known ids that are mentioned |
| WindowState.MigrationKeepsVisible | src/personal_mcp_gateway/desktop/window_state.py:228-240 | a card is visible after migration if and only if the old desktop mode was on and it was not hidden |
| WindowState.VisibilityReadsBack | src/personal_mcp_gateway/desktop/window_state.py:194-204 | saved visibility flags are loaded as they were |
| WindowState.FlagDecides | src/personal_mcp_gateway/desktop/window_state.py:194-204 | a card is visible exactly if its flag is true to Python, once the document has flags |
| WindowState.LoadedIsFixedPoint | src/personal_mcp_gateway/desktop/window_state.py:207-287 | what is loaded survives saving and loading unchanged if and only if the document was an object; the defaults come back with an empty project layout in place of none |
| WindowState.ScreenComesBack | src/personal_mcp_gateway/desktop/window_state.py:207-287 | every arrangement within bounds, described by typed fields, is loaded back exactly as it was saved |
| GatewayClient.Client.Fetch | src/personal_mcp_gateway/desktop/client.py:298-333 | one poll ends in the specified state, and returns the snapshot it stores |
| GatewayClient.Client.Failure | src/personal_mcp_gateway/desktop/client.py:256-283 | a failure counts, schedules the next attempt and falls back to the last good data as specified |
| GatewayClient.ValidExactly | src/personal_mcp_gateway/desktop/client.py:59-107 | a payload counts as valid if and only if the page can render it |
| GatewayClient.CountsExactly | src/personal_mcp_gateway/desktop/client.py:59-107 | a payload with nothing but counts is valid exactly if they are non-negative and fit the total; its status is then the worst there is |
| GatewayClient.SavedIsLoaded | src/personal_mcp_gateway/desktop/client.py:110-161 | what was saved as last good is what the next start loads |
| GatewayClient.LoadExactly | src/personal_mcp_gateway/desktop/client.py:110-127 | exactly what the next start takes from the cache file |
| GatewayClient.RunStaysHonest | src/personal_mcp_gateway/desktop/client.py:298-333 | over every run the last good data is absent or valid, and every snapshot marked connected carries valid data |
| GatewayClient.RunRemembers | src/personal_mcp_gateway/desktop/client.py:256-333 | over every run the client refines a memory of the last valid payload, the cached one, the failures in a row and the delay they call for |
| GatewayClient.ShownExactly | src/personal_mcp_gateway/desktop/client.py:256-333 | what each poll shows after any run: a valid answer as it is, and otherwise the last valid data as degraded and stale with the reason, or nothing |
| GatewayClient.StartIsHonest | src/personal_mcp_gateway/desktop/client.py:110-127 | that holds at the start whatever the cache file contains |
| GatewayClient.WaitFromStart | src/personal_mcp_gateway/desktop/client.py:30 | the delays of the first n >= 4 failures add up to 58 + 60 (n - 4) seconds |
| GatewayClient.BackoffBound | src/personal_mcp_gateway/desktop/client.py:275-303 | while every poll fails and none is forced, the first n >= 5 attempts span at least 58 + 60 (n - 5) seconds, however often the page polls |

## Left out

- HTTP, service bindings, bounded stream reading, OAuth, readiness probes and the capability checks on response bodies: I/O. Documents and bodies are modelled after they have been received and parsed.
- SHA-256, Ed25519, AES-GCM, `Date.parse`, `toISOString` and `new URL`: platform functions, taken as parameters.
- The configuration parser `parseAuthorityConfig` and the gateway's summary of four products: formatting around `verifyAuthority`. A freshness object with a `toString` of its own makes `String` throw; the model answers "TypeError" for that document and does not follow the exception, which the summary does not catch, so that it rejects all four products.
- Floating point in the layout code: layout arithmetic is exact.
- CanonicalParser.RoundTrip: the parser reads canonical text; general JSON text with white space is not parsed, and -0 is not told apart from 0, which prints the same.
- ProfileOutbox.DashboardProfileStore.ApplyResponse: opens a ciphertext with that parser in place of `JSON.parse`, so a remote profile whose plaintext is not canonical counts as unreadable.
- Reconcile.IndexKeys: the index holds positions of the existing children in place of the nodes themselves.
- Reconcile.ReconcileRenderChildren: motion is off, wanted trees hold elements and text only, and attributes are a map without order.
- Idempotency.IdempotencyStore.Claim: status and stored JSON of a record are one value, the payload is represented by its digest, and error details are a string.
- The profile store's `prepareExchange` (sorting at most one waiting mutation), response shape checks, `updatedAt` and `deletedAt`, diagnostics, and several tabs on one database. Server convergence is not claimed: two unsent edits collapse into one mutation.
- JournalPaging.CollectEntries: failed tool calls end the run with an exception and are not modelled; tags, mood and update time are copied along and left out.
- SyncAgent.StatusFile.RunAgent: alias table and normalisation of project ids, and the size limit of the status file, which appears as an unreadable file.
- The dashboard's snapshot cache, local probes, `_sync_truth`, and the parsing of status documents by pydantic: the gate starts from parsed documents.
- AuthoritySummaries.SummariesNeverGoBack: the moment at which a finished call generates its summary is a parameter of what it shows.
- AuthorityGate.RevisionCheckpoints.AcceptRevision: a database failure is taken to leave the row as it was.
- LayoutUnits.ApplyProjectLayout: covers layouts of the current version; the migration of the two older ones, card mode and the canvas size are left out. Coordinates are integers, as the normaliser of the window state leaves them.
- LayoutUnits.TileLayoutFromDom: the library sort behind the orders is taken as the number of tiles that come before in a stable sort.
- WindowState.NormalizeProjectLayout: decimals are truncated by an arbitrary function, which stands for `int` on finite floats; a number that overflows to infinity, or NaN, makes Python raise and is not modelled.
- WindowState.NormalizeCardLayout: the same.
- WindowState.LoadedIsBounded: the same; the document holds finite numbers only.
- WindowState.LoadedIsFixedPoint: the same; and a stored theme that is an array or an object makes loading raise a TypeError, which is the None of `Load`; file writing is not modelled, and identifier length counts code units.
- GatewayClient.SavedIsLoaded: a schema version stored as a decimal equal to one, which the client never writes, is not recognised.
- GatewayClient.Client.Fetch: lock contention between two polls and the startup snapshot are left out; reading and writing the cache file appear as the file's content and two flags.
- Settings, the command line, widgets, Windows integration, tray, capture, logging, redaction, the circuit breaker and the repair leases: formatting, foreign calls and small machines that would add easy members only.
