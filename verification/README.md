# A verified model of the artifact ledger

The ledger stores immutable records of seven kinds (artifacts, versions, content roots, blobs, manifests,
provenance links, import receipts), the bytes of its blobs, and one operation record for every successful
write. Writes are idempotent: a request is bound to a triple of scope, kind and key, and to a fingerprint of
its content. A ledger can be exported as a portable bundle, imported elsewhere, sealed as a snapshot
generation on a file system, and restored from one. A second implementation ("B" below, under
`implementations/independent_b`) serves the same contract with other loops.

The project models these parts and proves what they promise:

| part | files |
|---|---|
| JSON grammar, reader, UTF-8, canonical encoding | `JsonText`, `JsonReading`, `Utf8`, `Canonical`, `CanonicalIdentity`, `Shortest`, `Parsing` |
| depth and node scanners of both implementations | `ScanSpec`, `ScanTheory`, `Scanners` |
| walks with explicit stacks over shared or cyclic object graphs | `ObjectGraph`, `Walks` |
| records, their JSON, requests, fingerprints and timestamps | `Records`, `RecordJson`, `Requests`, `Layout`, `Time` |
| validity of metadata and both validators | `Validity`, `ParentGraph`, `Validation`, `ContractB` |
| the stored state, its three writes, merge of two ledgers, whole runs | `LedgerState`, `Merge`, `LedgerTheory`, `Replay`, `Written`, `Order`, `IdOrder` |
| `execute` over a store whose calls may fail | `Store`, `Reading`, `CallChecks`, `Appending`, `Importing`, `Replaying`, `Inserting`, `Service` |
| implementation B's writes, replays, `execute` and bundle transport | `LedgerB`, `HistoryB`, `ServiceB`, `TransportB` |
| portable bundles | `Base64`, `Base64Bits`, `Content`, `Bundles`, `Export`, `ExportOrder`, `Packing`, `BundleSizes`, `ExportSizes`, `Portable`, `Transfer` |
| sealing, publishing and restoring snapshots | `Volume`, `Publication`, `PublicationInvariant`, `PublicationRuns`, `PublicationNames`, `Snapshots`, `Progress`, `Reports`, `Copying` |

Modelling choices a reader should know:

- SHA-256 is some fixed function from byte strings to digests. It is not taken to be injective, which no function
  to 64 digits is. A statement that needs the absence of a collision says so for the two byte strings at hand
  (`Requests.NoCollision`, `LedgerB.NoKnownCollision`).
- The clock, the decoded bundle of an import and the fingerprint that a caller claims are fields of a `Call`. The
  clock gives a well-formed time of an ordinary minute (`Time.Moment`), as `datetime.now` does.
- A record that is announced by a request has no time yet; its `recordedAt` is empty.
- A JSON value and a typed value correspond if they are equal JSON values in the sense of `Canonical.Same`: the
  order of fields does not matter, the order of items does.
- The store is a handle with durable and pending tables and a scripted fault for every coming call: it works, it
  raises before or after its effect, or it raises and the database rolls back by itself.
- The snapshot protocol is a transition system. Its state is a disk with current, certain and possible directory
  entries and with synchronized or unsynchronized file bytes; any number of operations take steps in any order.

What the proofs brought to light about the source:

- `_create` does not validate the combined metadata, unlike `_append` and `_import`. It need not:
  `LedgerTheory.CreateSound`. The last `validate_metadata` of `_import` can never fail either:
  `LedgerTheory.ImportDecidedByConflicts`.
- That the union of two valid ledgers is acyclic needs only that each is closed under parents and that they agree
  on shared identities (`Merge.UnionAcyclic`). Equal complete histories are needed for something else: that an
  import never adds to a stored artifact (`LedgerTheory.ImportKeepsHistories`).
- The two implementations do not accept the same timestamps. A's `_time` accepts a leap second and the year 0, as
  RFC 3339 allows; B's `timestamp` asks a library calendar that knows neither. So a document with such a time is
  valid for A and refused by B (`ContractB.OnlyAAccepts`), and a ledger of B could not even read it back. On every
  other document, request and bundle they agree: `ContractB.ValidatorsAgree`, `TransportB.UnpackersAgree` and the
  comparisons of `LedgerB` have exactly this condition. B itself never stores such a time
  (`LedgerB.AppendKeepsPlain`, `LedgerB.ImportKeepsPlain`, `LedgerB.CreateKeepsPlain`).
- B leaves out A's byte bound on the content of a version when it unpacks a bundle. It may: the bound follows from the
  limit on all payloads (`TransportB.PayloadsBoundClosures`).
- B's `_preflight` reads beyond the text exactly on the texts that end within an escape of an unterminated string and
  have kept the limits up to there (`Scanners.PreflightFaults`). All of them end in an odd number of backslashes, and
  none is JSON; on JSON texts the two scanners always agree.
- "Target exists" does not mean that nothing was written: `create` has by then written a whole copy of the database
  into a private directory beside the target. That the caller has never written inside the target is not true of
  every such report either: a random private name that is taken is reported in the same words, also by an operation
  that has already made and filled its own target (`Snapshots.CollisionMeetsOwnTarget`). The exact condition is that
  the operation's own exclusive mkdir has not succeeded: it has left the directory under the name alone, in all its
  steps, if and only if that is so; otherwise the directory is its own (`Snapshots.LeftAloneIff`).
- The order of code points and the order of UTF-16 code units differ outside ASCII keys
  (`CanonicalIdentity.KeyOrdersDiffer`), which is why keys have to be ASCII.
- B checks that the stored bytes of a blob known before an import are intact; A also compares them with the
  supplied ones. The two agree unless two byte strings collide (`LedgerB.IntactMeansEqual`).

## Model

| member | source | states |
|---|---|---|
| JsonReading.ReadTextIsValue | src/infra_artifact_ledger/validation.py:210-252 | on every text of the JSON grammar the recursive reader returns exactly the value that the grammar gives it, so a text denotes at most one value |
| Canonical.ReadDump | src/infra_artifact_ledger/fingerprint.py:37-39 | reading back the compact text of any value yields that value |
| CanonicalIdentity.CanonicalBytesIdentify | src/infra_artifact_ledger/fingerprint.py:15-41 | two accepted values have equal canonical bytes if and only if they are the same JSON value |
| CanonicalIdentity.KeyOrderIsUtf16Order | src/infra_artifact_ledger/fingerprint.py:26-39 | on ASCII keys the sorting by code points is the order by UTF-16 code units of RFC 8785, section 3.2.3 |
| CanonicalIdentity.KeyOrdersDiffer | src/infra_artifact_ledger/fingerprint.py:26-27 | outside ASCII the two orders differ, on a concrete pair of keys |
| CanonicalIdentity.LessMeans | src/infra_artifact_ledger/fingerprint.py:37-39 | the order of keys compares the first characters that differ by code point; a beginning comes first |
| Shortest.DumpIsShortest | src/infra_artifact_ledger/fingerprint.py:37-39 | of all JSON texts of a value, with any blanks, escapes and spellings of numbers, the compact one is the shortest; of those with lowercase hexadecimal digits every other one is longer |
| Shortest.CanonicalTextIs | src/infra_artifact_ledger/fingerprint.py:15-41 | the canonical text is the only shortest text of the same JSON value with ascending keys and lowercase digits |
| Shortest.CharactersByTable | src/infra_artifact_ledger/fingerprint.py:37-39 | section 3.2.2.2 of RFC 8785: two-character escapes, lowercase \u00xx for other control characters, everything else stands for itself |
| Shortest.DecimalDigits | src/infra_artifact_ledger/fingerprint.py:37-39 | the text of a number consists of its decimal digits |
| CanonicalIdentity.EscapedUnitsDenote | src/infra_artifact_ledger/validation.py:210-252 | a string written as \u escapes of its UTF-16 code units, surrogate pairs included, is read as that string |
| CanonicalIdentity.GClef | src/infra_artifact_ledger/validation.py:210-252 | the surrogate pair of section 7 of RFC 8259 is read as U+1D11E |
| CanonicalIdentity.EscapesByTable | src/infra_artifact_ledger/validation.py:210-252 | hexadecimal digits of either case and short escapes are read by their tables |
| Utf8.EncodeInjective | src/infra_artifact_ledger/fingerprint.py:38-39 | different texts have different bytes |
| Utf8.DecodedEncodes | src/infra_artifact_ledger/validation.py:217-220 | strict decoding accepts only the bytes that encode its result |
| Utf8.DecodeEncode | src/infra_artifact_ledger/validation.py:217-220 | every encoded text decodes to itself |
| Utf8.CharByTable | src/infra_artifact_ledger/fingerprint.py:38-39 | section 3 of RFC 3629: leading and continuation bytes, and the shortest form that holds the code point |
| Utf8.EncodedAt | src/infra_artifact_ledger/fingerprint.py:38-39 | every character of a text is encoded at its own place |
| Parsing.ParseDump | src/infra_artifact_ledger/validation.py:210-264 | the bytes of a dumped value parse back to it exactly if they keep the byte, depth, node and integer limits and its keys are distinct |
| ScanTheory.QuoteCloses | src/infra_artifact_ledger/validation.py:170-190 | a quote after quote-free text closes the string if and only if the run of backslashes before it is even |
| ScanTheory.ScanDecides | src/infra_artifact_ledger/validation.py:159-207 | on every JSON text either scanner refuses exactly what exceeds the recursive depth or node measure |
| Scanners.ClosingQuote | src/infra_artifact_ledger/validation.py:178-190 | the jump from quote to quote finds the end that the forward escape automaton finds, or neither finds one |
| Scanners.ScanLimits | src/infra_artifact_ledger/validation.py:159-207 | the index loop computes the scanning function on every text, JSON or not, for any limits |
| Scanners.Preflight | implementations/independent_b/src/infra_artifact_ledger/contract.py:106-140 | B's index loop computes its scanning function on every text, including where it runs off the end |
| Scanners.ScannersAgree | src/infra_artifact_ledger/snapshot_format.py:127-170 | on every JSON text both loops return the verdict of the recursive measures |
| Scanners.FaultIsDangling | implementations/independent_b/src/infra_artifact_ledger/contract.py:106-140 | for any limits and any position, B's scanning faults if and only if what is left ends within an escape of an unterminated string and no limit stops it before |
| Scanners.PreflightFaults | implementations/independent_b/src/infra_artifact_ledger/contract.py:106-140 | so B's loop runs off the text exactly on such texts; every one of them ends in an odd number of backslashes |
| Scanners.JsonNeverDangles | implementations/independent_b/src/infra_artifact_ledger/contract.py:106-140 | no JSON text is such a text |
| Scanners.SecondScannerFaults | implementations/independent_b/src/infra_artifact_ledger/contract.py:106-140 | on the shortest such text A's scanner gives a verdict |
| Walks.Walk | src/infra_artifact_ledger/snapshot_format.py:54-99 | over any finite object graph, shared or cyclic, the loop ends and accepts if and only if the unfolding is finite with at most 1024 nodes and depth 8 |
| Walks.CanonicalWalk | src/infra_artifact_ledger/fingerprint.py:15-36 | the walk with per-path ancestor sets accepts if and only if the unfolding is finite with depth at most 16 |
| ObjectGraph.BoundedIsFits | src/infra_artifact_ledger/snapshot_format.py:54-99 | having a bounded unfolding and fitting the limits step by step are the same |
| ObjectGraph.CycleDoesNotFit | src/infra_artifact_ledger/snapshot_format.py:70-82 | an object on a cycle fits no limit |
| Walks.FitsIsDepth | src/infra_artifact_ledger/fingerprint.py:15-36 | what the canonical walk decides is a finite unfolding of bounded depth |
| RecordJson.RecordJsonIdentifies | src/infra_artifact_ledger/validation.py:267-349 | records of one kind with the same JSON are equal |
| RecordJson.OperationJsonIdentifies | src/infra_artifact_ledger/validation.py:293-296 | operation records with the same JSON are equal |
| RecordJson.DocumentJsonIdentifies | src/infra_artifact_ledger/validation.py:409-432 | metadata documents with the same JSON have the same collections and operations in the same order |
| Requests.FingerprintsMatch | src/infra_artifact_ledger/fingerprint.py:50-62 | for any JSON bodies, unless they collide, fingerprints match if and only if version, scope, kind and body match |
| Requests.FingerprintIdentifies | src/infra_artifact_ledger/fingerprint.py:50-62 | for typed requests, unless they collide, fingerprints match if and only if scope, kind and body match |
| Layout.FingerprintLayout | src/infra_artifact_ledger/fingerprint.py:50-62 | the fingerprint is the hash of an object of exactly body, contract version, scope and kind, under these names |
| Layout.BodyLayout | src/infra_artifact_ledger/fingerprint.py:50-62 | the collections of the body that is hashed for a creation, an append and an import |
| Layout.NewRecordLayout | src/infra_artifact_ledger/validation.py:295-296 | a new record is written as a stored one without its time |
| Layout.ManifestDigestLayout | src/infra_artifact_ledger/fingerprint.py:65-66 | the digest of a manifest covers key and blob of every entry, in order, and nothing else |
| Layout.ArtifactLayout | src/infra_artifact_ledger/validation.py:267-271 | the canonical JSON of an artifact: names, values and order of its fields |
| Layout.VersionLayout | src/infra_artifact_ledger/validation.py:272-275 | the same for a version without a principal |
| Layout.AttributedVersionLayout | src/infra_artifact_ledger/validation.py:272-275 | and with one |
| Layout.BlobRootLayout | src/infra_artifact_ledger/validation.py:276-279 | for the root of one blob |
| Layout.ManifestRootLayout | src/infra_artifact_ledger/validation.py:276-279 | for the root of a manifest |
| Layout.BlobLayout | src/infra_artifact_ledger/validation.py:280-281 | for a blob |
| Layout.ManifestLayout | src/infra_artifact_ledger/validation.py:282-283 | for a manifest |
| Layout.ProvenanceLayout | src/infra_artifact_ledger/validation.py:284-286 | for a provenance link |
| Layout.ObjectKinds | src/infra_artifact_ledger/validation.py:339-340 | for the kinds of objects of a link |
| Layout.ReceiptLayout | src/infra_artifact_ledger/validation.py:287-288 | for an import receipt |
| Layout.OperationLayout | src/infra_artifact_ledger/validation.py:289-292 | for an operation |
| Layout.DocumentLayout | src/infra_artifact_ledger/validation.py:409-420 | for a metadata document: which records stand under which name |
| Layout.CollectionLayout | src/infra_artifact_ledger/validation.py:421-432 | and the items of its collections |
| Time.CheckTime | src/infra_artifact_ledger/validation.py:110-142 | a timestamp is accepted if and only if its parts are in range and a second 60 falls into the last UTC minute of a month, counted by day numbers |
| Time.ReadWritten | src/infra_artifact_ledger/validation.py:26-29 | every permitted spelling of a timestamp, with any fraction and zone, is read as the parts that were written |
| Time.ReadOnlyWritten | src/infra_artifact_ledger/validation.py:26-29 | and nothing else is read: a text that is accepted is one of the spellings of its parts |
| Time.CheckTimestamp | src/infra_artifact_ledger/validation.py:110-142 | the same decision from the text on |
| Time.CheckTimeB | implementations/independent_b/src/infra_artifact_ledger/contract.py:180-189 | B accepts what A accepts, without second 60 and without the year 0 |
| Time.CheckTimestampB | implementations/independent_b/src/infra_artifact_ledger/contract.py:180-189 | the same decision from the text on |
| Time.LeapSecond | src/infra_artifact_ledger/validation.py:127-142 | the leap second at the end of 2016 is accepted by A and refused by B |
| Time.ShiftedDay | src/infra_artifact_ledger/validation.py:130-140 | shifting a date over month, year and leap-February borders moves its day number by exactly the shift |
| Time.NextDayBeginsMonth | src/infra_artifact_ledger/validation.py:130-141 | a date is the last of its month if and only if the next day number begins some month |
| Time.LeapInLocalTime | src/infra_artifact_ledger/validation.py:127-142 | the place of a second 60 in local time, for every offset: by its minute and the first or last day of the month, without day numbers |
| Time.MonthTable | src/infra_artifact_ledger/validation.py:110-142 | the lengths of the months, with the rule for leap years |
| Time.GregorianCycle | src/infra_artifact_ledger/validation.py:110-142 | the calendar repeats after 146097 days |
| Time.PacificLeapSecond | src/infra_artifact_ledger/validation.py:127-142 | the example of section 5.8 of RFC 3339 is accepted, and with the other sign refused |
| ParentGraph.CountVisitedFifo | src/infra_artifact_ledger/validation.py:464-475 | the queue loop visits every version if and only if the parent graph has no cycle |
| ParentGraph.CountVisitedLifo | implementations/independent_b/src/infra_artifact_ledger/contract.py:346-356 | the stack loop visits every version if and only if the parent graph has no cycle |
| ParentGraph.OrderedIsAcyclic | src/infra_artifact_ledger/validation.py:464-475 | a graph whose nodes can be listed after all their parents has no cycle |
| ParentGraph.StuckIsCyclic | src/infra_artifact_ledger/validation.py:474-475 | if some versions remain and each has a parent among them, there is a cycle |
| Validation.CheckRecord | src/infra_artifact_ledger/validation.py:267-349 | accepts exactly the records whose identifiers, texts, lists, lengths, digests and time are well formed |
| Validation.CollectOwned | src/infra_artifact_ledger/validation.py:418-432 | succeeds if and only if identities are unique across all kinds and every record is well formed by itself |
| Validation.ResolveVersions | src/infra_artifact_ledger/validation.py:450-463 | succeeds if and only if all references of versions resolve, with parents in the same artifact, and turns the parent graph around |
| Validation.SetsDecideUse | src/infra_artifact_ledger/validation.py:488-490 | comparing three sets decides whether any content lacks a user |
| Validation.BoundClosures | src/infra_artifact_ledger/validation.py:491-495 | decides the byte bound on the distinct blobs of every version |
| Validation.ValidateMetadata | src/infra_artifact_ledger/validation.py:409-509 | accepts if and only if the document is valid: unique identities and triples, resolving references, no parent cycle, no unused content, bounded closures, results of the right kind |
| ContractB.Graph | implementations/independent_b/src/infra_artifact_ledger/contract.py:315-361 | B's single pass with one set of used identities accepts if and only if the graph conditions hold |
| ContractB.CheckRecordB | implementations/independent_b/src/infra_artifact_ledger/contract.py:205-267 | B's own check of a record accepts what A's accepts, unless the time is a leap second or lies in the year 0 |
| ContractB.Metadata | implementations/independent_b/src/infra_artifact_ledger/contract.py:291-312 | B's document check accepts exactly the documents that fulfil A's conditions without the byte bound, and have no such time |
| ContractB.ValidatorsAgree | implementations/independent_b/src/infra_artifact_ledger/contract.py:291-361 | B accepts and every version keeps the byte bound if and only if A accepts and no time is a leap second or lies in the year 0 |
| ContractB.OnlyAAccepts | src/infra_artifact_ledger/validation.py:110-142 | two documents with one artifact that A accepts and B refuses |
| Merge.UnionAcyclic | src/infra_artifact_ledger/service.py:565-613 | the union of two agreeing ledgers, each closed under references and acyclic, is acyclic |
| Merge.MergeValid | src/infra_artifact_ledger/service.py:565-613 | the union of two agreeing valid ledgers is valid, byte bound included |
| Merge.ClosureStays | src/infra_artifact_ledger/validation.py:393-406 | the content of a version and its size are the same in every larger ledger |
| LedgerTheory.CreateSound | src/infra_artifact_ledger/service.py:493-497 | creating an artifact keeps a stored ledger valid although nothing is validated again |
| LedgerTheory.AppendSound | src/infra_artifact_ledger/service.py:499-555 | an accepted append inserts new rows under new keys and the right bytes for exactly the new blobs |
| LedgerTheory.NewBlobsGiven | src/infra_artifact_ledger/service.py:541-555 | exactly the new blobs of an accepted append get bytes, and these have their length and digest |
| LedgerTheory.ImportMergeIsValid | src/infra_artifact_ledger/service.py:565-613 | if stored metadata and bundle are valid and nothing conflicts, the union with receipt and historical operations is valid |
| LedgerTheory.ImportDecidedByConflicts | src/infra_artifact_ledger/service.py:565-613 | so an import is accepted if and only if its conflict and byte checks pass |
| LedgerTheory.ImportKeepsHistories | src/infra_artifact_ledger/service.py:571-575 | an import never adds a version or provenance to an artifact that is already stored |
| LedgerTheory.ApplyKeeps | src/infra_artifact_ledger/service.py:376-401 | carrying out a sound plan keeps valid metadata, the derived index, exact payload coverage with matching bytes, resolving operations, and every existing row |
| LedgerTheory.PlanIsSound | src/infra_artifact_ledger/service.py:376-388 | every plan that a call on a stored state yields is sound |
| LedgerTheory.StepKeeps | src/infra_artifact_ledger/service.py:311-401 | every undisturbed call keeps the ledger invariant and alters or drops nothing |
| Written.CreateStores | src/infra_artifact_ledger/service.py:493-497 | what a creation stores, field by field with the time of the call, and that it stores nothing else |
| Written.AppendStores | src/infra_artifact_ledger/service.py:499-555 | what an append stores of the version and of every new provenance link, field by field with the time of the call, the content as given, and its operation |
| Written.AppendStoresNoMore | src/infra_artifact_ledger/service.py:499-555 | it stores no other record and changes none; new bytes are exactly the supplied bytes of blobs that were not stored |
| Written.ImportStores | src/infra_artifact_ledger/service.py:565-613 | an import stores the records of the bundle as they are, and a receipt that names its artifacts in ascending order and has the time of the call |
| Written.ImportStoresOperations | src/infra_artifact_ledger/service.py:583-593 | it stores the operations of the bundle and its own, and keeps the stored ones |
| Written.ImportStoresBytes | src/infra_artifact_ledger/service.py:594-603 | it stores the bytes of blobs that were not stored, and keeps the stored ones |
| Written.IndexAnswers | src/infra_artifact_ledger/sqlite_store.py:107-129 | in a stored state the index has a row exactly where a stored record refers to something by that field |
| Replay.RunKeeps | src/infra_artifact_ledger/service.py:191-220 | every run of writes, including ones with an unknown outcome, keeps the invariant and every row |
| Replay.RunFromEmpty | src/infra_artifact_ledger/service.py:191-220 | whatever is reached from an empty ledger satisfies the invariant |
| Replay.CommitRecorded | src/infra_artifact_ledger/service.py:441-491 | a commit leaves everything that a later replay of the same request looks for |
| Replay.ReplayAfterAnyRun | src/infra_artifact_ledger/service.py:358-375 | after any further run the same request, with any part of its payloads, can only return the original operation as a replay and change nothing |
| Replay.ReplayIsAnswered | src/infra_artifact_ledger/service.py:441-491 | and that answer is possible |
| Written.ConfirmedFields | src/infra_artifact_ledger/service.py:441-491 | a replay demands every field of the stored record but its time |
| Replay.OtherFingerprintRefused | src/infra_artifact_ledger/service.py:365-366 | the same triple with another fingerprint is refused after any run and changes nothing |
| Replay.OtherBodyRefused | src/infra_artifact_ledger/service.py:365-366 | the same triple with another body is refused, unless the two requests collide |
| Replay.RetryWritesOnce | src/infra_artifact_ledger/service.py:424-438 | if an attempt reported as unknown took effect, a retry after any run finds it and never writes twice |
| Store.Handle.Begin | src/infra_artifact_ledger/sqlite_store.py:271-272 | starts a transaction on the durable state, or is refused without effect inside one; state and answer are exactly those of the scripted fault |
| Store.Handle.Statement | src/infra_artifact_ledger/sqlite_store.py:268-269 | changes the pending tables only as the constraints permit, and never the durable ones inside a transaction |
| Store.Handle.Commit | src/infra_artifact_ledger/sqlite_store.py:274-275 | success means the pending tables are durable; a failure has committed exactly if its fault comes after the effect |
| Store.Handle.Rollback | src/infra_artifact_ledger/sqlite_store.py:277-278 | never changes the durable tables |
| Reading.LoadRecords | src/infra_artifact_ledger/sqlite_store.py:321-331 | the loaded rows are exactly the stored ones, each under its own identity, or the load fails |
| Reading.Current | src/infra_artifact_ledger/service.py:191-220 | succeeds, without store failures, if and only if metadata, derived index and payload coverage are consistent |
| CallChecks.CheckSupplied | src/infra_artifact_ledger/service.py:325-340 | accepts exactly the payload mappings within the limits per blob and per call |
| CallChecks.CheckCall | src/infra_artifact_ledger/service.py:316-352 | accepts exactly the calls that may open a transaction |
| Inserting.PlannedRowFits | src/infra_artifact_ledger/sqlite_store.py:27-37 | every derived reference of a sound plan is new and joins stored records, so no table constraint is violated |
| Inserting.InsertReferences | src/infra_artifact_ledger/sqlite_store.py:354-356 | inserts exactly the rows derived from one record |
| Inserting.InsertPlan | src/infra_artifact_ledger/service.py:389-398 | success means the pending tables are those of the whole plan; a sound plan succeeds unless a store call fails |
| Appending.Append | src/infra_artifact_ledger/service.py:499-555 | returns the specified plan or refuses; without store failures it refuses only what the specification refuses |
| Importing.CheckHistories | src/infra_artifact_ledger/service.py:557-575 | decides whether every repeated artifact has the same complete history |
| Importing.CombinedIsValid | src/infra_artifact_ledger/service.py:605-612 | without conflicts the combined document is valid |
| Importing.Import | src/infra_artifact_ledger/service.py:565-613 | returns the specified plan or refuses; without store failures it refuses only what the specification refuses |
| Replaying.CheckReplay | src/infra_artifact_ledger/service.py:441-491 | confirms, rejects the input or reports damage exactly as the stored rows and bytes demand; a failing read counts as damage |
| Service.Answer | src/infra_artifact_ledger/service.py:358-375 | a repeated request changes nothing durable; its commit is known once the stored operation passes its own check and is the one of this request, and from then on only its replay is checked |
| Service.Write | src/infra_artifact_ledger/service.py:376-401 | a success is the specified step; before COMMIT nothing durable changes |
| Service.Recover | src/infra_artifact_ledger/service.py:402-439 | reports committed exactly if known, and "unknown" exactly if an active transaction cannot be rolled back or COMMIT was tried and none is active |
| Service.Execute | src/infra_artifact_ledger/service.py:311-439 | with any store call failing before or after its effect: a success is durable and as specified, "not committed" and "committed" errors changed nothing, everything else is unknown, and the write happened whole or not at all |
| LedgerB.UsedByKind | implementations/independent_b/src/infra_artifact_ledger/ledger.py:334-337 | one membership test in the closure equals A's three tests by kind |
| LedgerB.Closure | implementations/independent_b/src/infra_artifact_ledger/contract.py:364-379 | succeeds exactly if root, target and blobs resolve, and returns the content of the version |
| LedgerB.GraphDecides | implementations/independent_b/src/infra_artifact_ledger/ledger.py:366-368 | B's graph check without a byte bound decides the full validity of the combined records |
| LedgerB.ReadTables | implementations/independent_b/src/infra_artifact_ledger/ledger.py:89-113 | over a state that A accepts, B's reading refuses exactly if some stored time is a leap second or lies in the year 0 |
| LedgerB.CreateLikeA | implementations/independent_b/src/infra_artifact_ledger/ledger.py:313-317 | from any stored state without such a time B accepts the same creations as A and would store the same record |
| LedgerB.AppendLikeA | implementations/independent_b/src/infra_artifact_ledger/ledger.py:318-345 | from any stored state without such a time B accepts the same append requests and payload maps as A and would store the same records and bytes; from others it refuses |
| LedgerB.IntactMeansEqual | implementations/independent_b/src/infra_artifact_ledger/ledger.py:352-356 | unless stored and supplied bytes collide, B's check of known blobs equals A's comparison |
| LedgerB.ImportLikeA | implementations/independent_b/src/infra_artifact_ledger/ledger.py:346-368 | without such collisions, from any stored state and for any decoded bundle, B accepts what A accepts and would store the same records, operations and bytes, unless a time in the state or the bundle is a leap second or lies in the year 0 |
| LedgerB.AppendKeepsPlain | implementations/independent_b/src/infra_artifact_ledger/ledger.py:318-345 | what B appends adds no such time |
| LedgerB.ImportKeepsPlain | implementations/independent_b/src/infra_artifact_ledger/ledger.py:346-368 | nor does what B imports |
| LedgerB.CheckReplayRecords | implementations/independent_b/src/infra_artifact_ledger/ledger.py:439-470 | accepts exactly when the stored records and operations are those that the original request wrote |
| LedgerB.ReplayedBlobs | implementations/independent_b/src/infra_artifact_ledger/ledger.py:292-297 | the blobs whose bytes B compares on a replay are those that A compares |
| LedgerB.ReplayLikeA | implementations/independent_b/src/infra_artifact_ledger/ledger.py:274-309 | from any stored state: if the time of the stored operation itself is a leap second or lies in the year 0, B refuses without taking the commit as known; else if some stored time does, it reports damage; otherwise its answer is one that A may give |
| HistoryB.History | implementations/independent_b/src/infra_artifact_ledger/ledger.py:473-479 | the loops over sorted identities compute the two lists of an artifact |
| HistoryB.ListsDecide | implementations/independent_b/src/infra_artifact_ledger/ledger.py:473-479 | B's sorted lists of two ledgers are equal if and only if the complete histories, as maps, are |
| HistoryB.ConvergeIncoming | implementations/independent_b/src/infra_artifact_ledger/ledger.py:351-357 | B's loop over everything that comes in accepts exactly if repeated records and complete histories agree and the bytes of repeated blobs are intact |
| ServiceB.SameSteps | implementations/independent_b/src/infra_artifact_ledger/ledger.py:217-368 | over a stored state without leap seconds and year 0, the specified steps of B are those of A |
| ServiceB.InsertPlanB | implementations/independent_b/src/infra_artifact_ledger/ledger.py:369-375 | one row for every new object and operation turns the tables into those of the whole plan, and no constraint is violated |
| ServiceB.AnswerB | implementations/independent_b/src/infra_artifact_ledger/ledger.py:276-309 | a repeated request changes nothing durable, and bad input takes the known commit back |
| ServiceB.WriteB | implementations/independent_b/src/infra_artifact_ledger/ledger.py:310-381 | a success is the specified step; before COMMIT nothing durable changes |
| ServiceB.RecoverB | implementations/independent_b/src/infra_artifact_ledger/ledger.py:382-431 | reports committed exactly if known, and "unknown" exactly if an active transaction cannot be rolled back or COMMIT was tried and none is active |
| ServiceB.ExecuteB | implementations/independent_b/src/infra_artifact_ledger/ledger.py:217-431 | the promises of A's `execute` hold of B's own flags: with any store call failing before or after its effect, a success is durable and as specified, "not committed" and "committed" errors changed nothing, everything else is unknown, and the write happened whole or not at all |
| Base64.DecodeEncode | src/infra_artifact_ledger/portable.py:84-90 | the canonical text of any bytes is well-formed and decodes to them |
| Base64.DecodedLengthIs | src/infra_artifact_ledger/portable.py:104-114 | the length computed from text and padding is the length of the decoded bytes, for every well-formed text |
| Base64.PatternedIs | src/infra_artifact_ledger/portable.py:111-112 | the pattern accepts a text if and only if everything before its counted padding is in the alphabet |
| Base64Bits.EncodeByBits | src/infra_artifact_ledger/portable.py:84-90 | section 4 of RFC 4648: every character before the padding is the one that the alphabet lists for six bits of the bytes |
| Base64Bits.DecodeByBits | src/infra_artifact_ledger/portable.py:117-126 | bit for bit, what is decoded is what the characters stand for in the alphabet |
| Base64Bits.DecodedBitsHaveCodes | src/infra_artifact_ledger/portable.py:117-126 | every decoded bit comes from a character of the alphabet |
| Content.Header | src/infra_artifact_ledger/portable.py:93-114 | accepts exactly the well-formed texts whose decoded length is declared and within the limit |
| Content.DecodeEntryA | src/infra_artifact_ledger/portable.py:93-126 | accepts exactly the canonical entries of some byte string within the limit, and returns that string |
| Content.DecodeEntryB | implementations/independent_b/src/infra_artifact_ledger/transport.py:43-57 | the same, whatever the library decoder makes of malformed text |
| Content.EntriesAgree | implementations/independent_b/src/infra_artifact_ledger/transport.py:43-57 | for every limit both implementations accept the same entries with the same bytes |
| Bundles.PackageSame | src/infra_artifact_ledger/portable.py:202-213 | the JSON of a package determines its metadata entry and payload entries |
| Layout.ContentLayout | src/infra_artifact_ledger/portable.py:84-90 | the canonical JSON of a content entry |
| Layout.PayloadLayout | src/infra_artifact_ledger/portable.py:172-175 | of a payload entry |
| Layout.DescriptorLayout | src/infra_artifact_ledger/portable.py:179-183 | of a descriptor |
| Bundles.ReadPayloads | src/infra_artifact_ledger/portable.py:210-242 | accepts exactly the entries that are the canonical ones of all blobs within the limits, and returns their bytes |
| Bundles.UnpackPayloads | implementations/independent_b/src/infra_artifact_ledger/transport.py:28-40 | B's loop with a moving limit accepts the same entries and returns the same bytes |
| Order.AscendingUnique | src/infra_artifact_ledger/portable.py:150-157 | a set has only one ascending listing |
| Export.PackageText | src/infra_artifact_ledger/portable.py:164-180 | the chunks written one after the other add up to the text of the package JSON |
| Packing.WritePackage | src/infra_artifact_ledger/portable.py:162-180 | the bounded buffer holds the bytes of the package, and is refused exactly if these exceed the limit |
| Packing.EncodeBundle | src/infra_artifact_ledger/portable.py:129-185 | returns the bundle of a valid document with its bytes if and only if all limits are kept |
| ExportOrder.OperationsListed | src/infra_artifact_ledger/portable.py:154-157 | the exported operations are listed by scope, then kind, then key |
| ExportOrder.RecordsListed | src/infra_artifact_ledger/portable.py:150-153 | the records of every collection are listed by identity |
| ExportOrder.PayloadsListed | src/infra_artifact_ledger/portable.py:172-175 | the payload entries are listed by blob |
| BundleSizes.PackageMeasures | src/infra_artifact_ledger/portable.py:162-180 | a package of n payloads has exactly 11 + 8n values and depth at most 4 |
| BundleSizes.TenPerBlob | src/infra_artifact_ledger/validation.py:488-490 | since every blob is in use, the metadata of n blobs has at least 10n values |
| BundleSizes.SortedSame | src/infra_artifact_ledger/portable.py:70-81 | a value with sorted keys is the same JSON value |
| Portable.PackageFits | src/infra_artifact_ledger/portable.py:158-160 | the node limit, checked on the metadata alone, also holds for the package |
| Portable.ExportIgnoresOrder | src/infra_artifact_ledger/portable.py:150-157 | the exported bytes depend only on which records, operations and payloads there are |
| Portable.OrderedIsSame | src/infra_artifact_ledger/portable.py:149-157 | ordering the collections changes neither content nor validity |
| Portable.ExportIsImportable | src/infra_artifact_ledger/portable.py:188-242 | whatever export returns, import accepts through all layers, with the same payloads and the ordered metadata |
| Portable.ExportReadsBack | src/infra_artifact_ledger/portable.py:188-242 | nothing else can be read from an exported bundle |
| Portable.UnpackedIsOk | src/infra_artifact_ledger/portable.py:188-242 | whatever is unpacked is valid metadata with the right bytes of exactly its blobs |
| TransportB.PayloadsBoundClosures | src/infra_artifact_ledger/validation.py:491-495 | if the bytes of all blobs keep the payload limit, so does the content of every version |
| TransportB.BundlesAgree | implementations/independent_b/src/infra_artifact_ledger/transport.py:8-40 | B lets a decoded bundle through if and only if A does and no time in it is a leap second or lies in the year 0 |
| TransportB.UnpackersAgree | implementations/independent_b/src/infra_artifact_ledger/transport.py:8-40 | through all layers B reads from a bundle the same metadata and payloads as A, under the same condition |
| ExportSizes.SameLength | src/infra_artifact_ledger/service.py:290-293 | the length checked early, on metadata in stored order, is the length of the exported metadata |
| Transfer.ExportLedger | src/infra_artifact_ledger/service.py:286-297 | exports nothing but the bundle of the consistent state that the transaction sees, and without store failures succeeds if and only if that state is consistent and fits into a bundle |
| Transfer.ImportIntoEmpty | src/infra_artifact_ledger/service.py:565-613 | importing into an empty ledger stores exactly the content of the bundle, one receipt and one operation |
| Transfer.ImportTwice | src/infra_artifact_ledger/service.py:565-613 | importing the same complete history again adds only a receipt and an operation |
| Transfer.ExportCarriesAll | src/infra_artifact_ledger/service.py:286-297 | importing the export of a ledger into an empty one yields that ledger, one receipt and one operation |
| PublicationInvariant.EffectInPlace | src/infra_artifact_ledger/recovery.py:224-254 | every call of creating, publishing or restoring keeps members, bytes, private directories and synchronization in the order of the protocol |
| PublicationInvariant.EffectConfined | src/infra_artifact_ledger/snapshot_storage.py:280-305 | a call changes only what its operation has made itself, and in the root no public name |
| PublicationInvariant.OwnNamesAreFree | src/infra_artifact_ledger/snapshot_storage.py:508-518 | exclusive creation of a member and the publishing link never find their name taken; only the target's name or a random private name can be |
| PublicationRuns.StepKeeps | src/infra_artifact_ledger/recovery.py:39-93 | so does every step, also one that fails before or after its effect, finds a name taken, loses an acknowledgement, writes foreign bytes or cleans up |
| PublicationRuns.RunKeepsInv | src/infra_artifact_ledger/recovery.py:224-254 | the invariant of all operations together holds in every state of every interleaving |
| PublicationNames.RunKeepsNamed | src/infra_artifact_ledger/snapshot_storage.py:280-305 | in every state of every interleaving, what an operation has made is named only in its own directories, under its target or its private names, and a target that was found taken is still taken |
| Volume.CrashMayGarble | src/infra_artifact_ledger/recovery.py:236-244 | the crashes that are considered can give a file that is not synchronized any bytes |
| Volume.CrashMayForget | src/infra_artifact_ledger/recovery.py:236-244 | lose every directory entry that is not certain, and bring back every one that is possible |
| Snapshots.SealedGenerationIsSafe | src/infra_artifact_ledger/recovery.py:156-173 | after a crash at any moment a generation is not found, or incomplete, or has its marker and verifies |
| Snapshots.PublishedSurvives | src/infra_artifact_ledger/recovery.py:245-254 | what was reported as published verifies after any crash |
| Snapshots.RestoredDatabaseIsSafe | src/infra_artifact_ledger/recovery.py:337-362 | after a crash the public database of a restore target is absent or has the declared bytes, and is there if published was reported |
| Snapshots.PublishedMeansVerified | src/infra_artifact_ledger/recovery.py:61-93 | over whole runs: a reported publication verifies against the manifest expected at the start, then and after any crash |
| Snapshots.NotPublishedIsNotThere | src/infra_artifact_ledger/recovery.py:46-60 | an operation that has made its target and reports "not published", or that a private name was taken, has not published in it, and no crash makes the link appear |
| Snapshots.AmbiguousAfterLink | src/infra_artifact_ledger/recovery.py:76-81 | once the link may have taken effect, a failure is reported as unknown |
| Snapshots.AtMostOnePublishes | src/infra_artifact_ledger/snapshot_storage.py:280-305 | in every interleaving of any number of operations on one name at most one publishes |
| Snapshots.OwnTargetIff | src/infra_artifact_ledger/recovery.py:258-287 | an operation that reports "target exists" owns the directory under the name if and only if it had made it and then a private name was taken |
| Snapshots.TakenIsForeign | src/infra_artifact_ledger/recovery.py:258-287 | before its own exclusive mkdir an operation has touched only the root and what it has made itself, which is neither a directory under the target's name nor any file in it |
| Snapshots.LeftAloneIff | src/infra_artifact_ledger/recovery.py:224-287 | over whole runs: an operation that reports "target exists" has, in all its steps, left alone the directory under the name and the files in it if and only if its own exclusive mkdir has not succeeded; otherwise the directory is its own |
| Snapshots.CollisionMeetsOwnTarget | src/infra_artifact_ledger/snapshot_storage.py:475-480 | that second case arises: from every state in which a sealing operation is to draw a private name inside the root, a name that is taken leads to this report about its own target |
| Snapshots.StepTouches | src/infra_artifact_ledger/snapshot_storage.py:280-305 | what an operation is recorded to have touched leaves out nothing that it changed |
| Snapshots.SealChecksSucceed | src/infra_artifact_ledger/recovery.py:230-253 | read-back and final check never refuse what the operation itself has built |
| Snapshots.RestoreChecksSucceed | src/infra_artifact_ledger/recovery.py:337-362 | neither do those of a restore |
| Progress.CanStillPublish | src/infra_artifact_ledger/recovery.py:61-74 | whatever has happened so far, an operation that has not failed and whose target is free or its own can go on and report "published" |
| Progress.UndisturbedPublishes | src/infra_artifact_ledger/recovery.py:61-74 | in particular one that is started on a disk without its target and that nothing disturbs: creating, publishing or restoring |
| Progress.RunCanPublish | src/infra_artifact_ledger/recovery.py:61-74 | and one in any run with any competitors |
| Progress.CanPublishIff | src/infra_artifact_ledger/recovery.py:61-93 | that condition is exact |
| Progress.CanCleanUp | src/infra_artifact_ledger/snapshot_storage.py:475-505 | an operation that has failed can remove all it has put into its private directory, and its name |
| Reports.PublishedDidAll | src/infra_artifact_ledger/recovery.py:224-254 | over whole runs: an operation that reports "published" has gone through all calls of its program in their order, read-back and final check included |
| Reports.PublishedHasTidied | src/infra_artifact_ledger/snapshot_storage.py:475-505 | and has removed its staged member, private directories and private copy |
| Reports.FailureReports | src/infra_artifact_ledger/recovery.py:39-60 | "not published" is possible up to the link, for the link itself only on a local file system; "unknown" exactly from the link on |
| Reports.VerifiedIff | src/infra_artifact_ledger/recovery.py:156-173 | a name verifies exactly if it has the three members alone, with the expected digest, the marker that names it, and the declared database |
| Copying.CopyFile | src/infra_artifact_ledger/snapshot_storage.py:538-585 | whatever blocks a changing source gives, the copy has the expected length and digest or is refused; a source that is left alone is copied exactly if it has them |
| Copying.ReadManifest | src/infra_artifact_ledger/recovery.py:156-173 | the manifest has the expected digest and the marker names it, even if the source changes between the two reads; a fitting source that is left alone is accepted |
| Copying.ValidatedSnapshot | src/infra_artifact_ledger/recovery.py:177-214 | captured manifest, marker and database fit together even if the source never did; a source that fits and is left alone is captured as it is |
| Copying.Begin | src/infra_artifact_ledger/recovery.py:292-306 | from a changing source to a verified target: in every run, with any competitors, faults and crashes, a reported publication of what was captured verifies against the expected digest, and a restored database is the one declared by the manifest of that digest |

## Left out

- Error codes, messages and details: only acceptance and the reported commit or publication state are modelled.
- Storage configurations, and the fields of snapshot manifests and markers: settled by reading one branch.
- Time.CheckTimestampB: digits other than 0 to 9, which B's pattern lets through to its library, and an hour of 24, which recent versions of that library read, are not modelled.
- Reading the JSON of a document into records is modelled as a relation between JSON values and documents, not as code; a document whose optional `import_receipts` collection is absent is not distinguished from one where it is empty.
- Numbers with a fraction or an exponent: the scanners count them, but they have no value in the model.
- Interruptions that are not exceptions of the program, time budgets and progress handlers: a budget that runs out is one more call that fails.
- `get_record`, `get_history`, `get_operation`, `read_blob` and `verify`: they read what `Reading` already models.
- B's JSON reader apart from the scanner: a document denotes the same values for both implementations.
- ServiceB.ExecuteB: starts from a state whose metadata A accepts. B does not check a byte bound on stored versions and keeps no derived index, so on other states it does something that is not compared with A; and the number of rows that it reads for blobs is not fixed.
- Service.Execute: the order in which the blobs of a replay are looked at is not fixed, so when supplied bytes of one blob and stored bytes of another are both wrong either error may be reported, as in the source, where a set is iterated.
- SQLite itself, its schema checks, initialization of a database file, and the semantic validation of a database file inside a snapshot: a database is the bytes that its manifest declares by length and digest.
- Mounts, file system kinds, descriptors, link counts and path aliases: a directory handle denotes one directory.
- The scratch copy in which a snapshot is validated: `Copying` models what is read into it, not the files it consists of.
- Snapshots.RestoredDatabaseIsSafe: private names left behind in a restore target by a crash are allowed.
- Command lines and the audits of recorded evidence.
