/** The stored state of a ledger and what each of the three write operations does to it. */
module LedgerState {
  import opened Records
  import opened Validity
  import opened Requests
  import opened IdOrder
  import Time

  // ---------- Tables ----------

  /** The field a derived reference comes from. */
  datatype RefField =
    | ArtifactField | RootField | ParentField(index: nat) | BlobField | ManifestField | EntryField(index: nat)
    | SubjectField | AboutField | ImportedField(index: nat)

  datatype RefRow = RefRow(source: Id, field: RefField, target: Id)

  function Enumerated(source: Id, ids: seq<Id>, field: nat -> RefField): (rows: seq<RefRow>)
    ensures |rows| == |ids| && forall i :: 0 <= i < |rows| ==> rows[i] == RefRow(source, field(i), ids[i])
  {
    seq(|ids|, i requires 0 <= i < |ids| => RefRow(source, field(i), ids[i]))
  }

  function EntryBlobs(entries: seq<Entry>): (ids: seq<Id>)
    ensures |ids| == |entries| && forall i :: 0 <= i < |ids| ==> ids[i] == entries[i].blobRef
  {
    seq(|entries|, i requires 0 <= i < |entries| => entries[i].blobRef)
  }

  /** The query index derived from one record. */
  function ReferenceRows(r: Record): seq<RefRow> {
    match r
    case Version(id, artifactId, root, parents, _, _, _, _, _) =>
      [RefRow(id, ArtifactField, artifactId), RefRow(id, RootField, root)] + Enumerated(id, parents, (i: nat) => ParentField(i))
    case ContentRoot(id, target) => [RefRow(id, if target.BlobTarget? then BlobField else ManifestField, target.ref)]
    case Manifest(id, _, entries) => Enumerated(id, EntryBlobs(entries), (i: nat) => EntryField(i))
    case Provenance(id, subject, _, about, _) =>
      [RefRow(id, SubjectField, subject)]
      + if about.kind.ArtifactVersionObject? then [RefRow(id, AboutField, Id(about.ref))] else []
    case Receipt(id, imported, _) => Enumerated(id, imported, (i: nat) => ImportedField(i))
    case _ => []
  }

  datatype Db = Db(records: RecordMap, refs: set<RefRow>, payloads: map<Id, Bytes>, operations: OperationMap)

  const EMPTY := Db(map[], {}, map[], map[])

  predicate Matches(blob: Record, data: Bytes) {
    blob.Blob? && |data| == blob.byteLength && Sha256(data) == blob.digest
  }

  function BlobIds(records: RecordMap): set<Id> {
    set id | id in records && records[id].Blob?
  }

  function AllReferences(records: RecordMap): set<RefRow> {
    set id, row | id in records && row in ReferenceRows(records[id]) :: row
  }

  /** What every transaction checks before it relies on the stored state: valid metadata, an index
      equal to the derived one, and a payload row for exactly the blobs. */
  ghost predicate Stored(db: Db) {
    && Valid(db.records)
    && OperationsOk(db.records, db.operations)
    && db.refs == AllReferences(db.records)
    && db.payloads.Keys == BlobIds(db.records)
  }

  predicate BlobIntact(db: Db, id: Id) {
    id in db.records && id in db.payloads && Matches(db.records[id], db.payloads[id])
  }

  ghost predicate PayloadsIntact(db: Db) {
    forall id :: id in db.payloads ==> BlobIntact(db, id)
  }

  /** The invariant of a ledger. */
  ghost predicate Consistent(db: Db) { Stored(db) && PayloadsIntact(db) }

  /** Nothing stored is altered or dropped. */
  predicate Extends(db: Db, db': Db) {
    && (forall id :: id in db.records ==> id in db'.records && db'.records[id] == db.records[id])
    && db.refs <= db'.refs
    && (forall id :: id in db.payloads ==> id in db'.payloads && db'.payloads[id] == db.payloads[id])
    && (forall t :: t in db.operations ==> t in db'.operations && db'.operations[t] == db.operations[t])
  }

  // ---------- Calls ----------

  /** One call of `execute`: the request, the payloads, for an import the decoded bundle, the
      fingerprint computed from request and bundle, the one claimed by the caller, and the clock. */
  datatype Call = Call(request: Request, supplied: map<Id, Bytes>, bundle: Document, fingerprint: Digest,
                       claimed: Option<Digest>, now: Time.Moment)

  ghost function TotalSize(data: map<Id, Bytes>, ids: set<Id>): nat
    requires ids <= data.Keys
  {
    if ids == {} then 0 else var id :| id in ids; |data[id]| + TotalSize(data, ids - {id})
  }

  /** The payload mapping of one call stays within its limits. */
  ghost predicate SuppliedBounded(data: map<Id, Bytes>) {
    (forall id :: id in data ==> |data[id]| <= MAX_BLOB) && TotalSize(data, data.Keys) <= MAX_PAYLOAD
  }

  /** A decoded bundle: a valid document with exactly the bytes of its blobs. */
  ghost predicate BundleOk(bundle: Document, data: map<Id, Bytes>) {
    && ValidDocument(bundle)
    && data.Keys == BlobIds(Index(bundle.records))
    && (forall id :: id in data ==> Matches(Index(bundle.records)[id], data[id]))
    && SuppliedBounded(data)
  }

  predicate AllShaped(records: seq<Record>) { forall i :: 0 <= i < |records| ==> Shape(records[i]) }

  /** The fingerprint is the one of this request and bundle. */
  ghost predicate Honest(call: Call) {
    Shaped(call.request.body) && call.fingerprint == Fingerprint(call.request, call.bundle)
  }

  /** The identity of the operation, and of the receipt that an import asks for. */
  predicate NamesOk(call: Call) {
    TripleOk(call.request.Triple()) && (call.request.body.ImportBody? ==> StableId(call.request.body.receiptId))
  }

  /** What is checked before a transaction begins. */
  ghost predicate CallOk(call: Call) {
    && Shaped(call.request.body) && NamesOk(call)
    && (match call.request.body
        case CreateBody(artifact) => Shape(artifact) && call.supplied == map[]
        case AppendBody(version, roots, blobs, manifests, links) =>
          && Shape(version) && AllShaped(roots) && AllShaped(blobs) && AllShaped(manifests) && AllShaped(links)
          && (forall i :: 0 <= i < |links| ==> links[i].subject == version.id)
          && SuppliedBounded(call.supplied)
          && forall id :: id in call.supplied && id in Index(blobs) ==> Matches(Index(blobs)[id], call.supplied[id])
        case ImportBody(_) => BundleOk(call.bundle, call.supplied))
    && (call.claimed.Some? ==> call.claimed.value == call.fingerprint)
  }

  // ---------- Plans ----------

  /** What a write would insert. */
  datatype Plan = Plan(additions: seq<Record>, payloads: map<Id, Bytes>, history: seq<Operation>, resultRef: Id)

  /** The record with another time; kinds without a time stay as they are. */
  function WithTime(r: Record, time: string): (s: Record)
    ensures s.id == r.id && s.Kind() == r.Kind()
  {
    match r
    case Artifact(id, namespaceRef, typeRef, _) => Artifact(id, namespaceRef, typeRef, time)
    case Version(id, artifactId, root, parents, sources, captures, principal, policies, _) =>
      Version(id, artifactId, root, parents, sources, captures, principal, policies, time)
    case Provenance(id, subject, relation, about, _) => Provenance(id, subject, relation, about, time)
    case _ => r
  }

  function Stamped(r: Record, now: string): (s: Record)
    requires Untimed(r)
    ensures s.id == r.id && s.Kind() == r.Kind()
    ensures WithTime(s, "") == r
  {
    WithTime(r, now)
  }

  function StampedAll(rs: seq<Record>, now: string): (s: seq<Record>)
    requires forall i :: 0 <= i < |rs| ==> Untimed(rs[i])
    ensures |s| == |rs| && forall i :: 0 <= i < |s| ==> s[i] == Stamped(rs[i], now)
  {
    seq(|rs|, i requires 0 <= i < |rs| => Stamped(rs[i], now))
  }

  /** The records that are not stored yet, in their order. */
  function Fresh(db: Db, records: seq<Record>): (r: seq<Record>)
    ensures forall x :: x in r <==> x in records && x.id !in db.records
  {
    if records == [] then []
    else
      var last := records[|records| - 1];
      assert records == records[..|records| - 1] + [last];
      Fresh(db, records[..|records| - 1]) + if last.id in db.records then [] else [last]
  }

  function FreshOperations(db: Db, operations: seq<Operation>): (r: seq<Operation>)
    ensures forall x :: x in r <==> x in operations && x.triple !in db.operations
  {
    if operations == [] then []
    else
      var last := operations[|operations| - 1];
      assert operations == operations[..|operations| - 1] + [last];
      FreshOperations(db, operations[..|operations| - 1]) + if last.triple in db.operations then [] else [last]
  }

  function CreatePlan(db: Db, call: Call): Option<Plan>
    requires call.request.body.CreateBody? && Shaped(call.request.body)
  {
    var r := Stamped(call.request.body.artifact, call.now);
    if r.id in db.records then None else Some(Plan([r], map[], [], r.id))
  }

  /** Everything an append announces, stamped with the time of the call. */
  function Announced(call: Call): seq<Record>
    requires call.request.body.AppendBody? && Shaped(call.request.body)
  {
    var b := call.request.body;
    [Stamped(b.version, call.now)] + b.roots + b.blobs + b.manifests + StampedAll(b.links, call.now)
  }

  function AppendRecords(db: Db, call: Call): RecordMap
    requires call.request.body.AppendBody? && Shaped(call.request.body)
  {
    db.records + Index(Fresh(db, Announced(call)))
  }

  function AppendRefs(db: Db, call: Call): set<Id>
    requires call.request.body.AppendBody? && Shaped(call.request.body)
  {
    ClosureBlobs(AppendRecords(db, call), Stamped(call.request.body.version, call.now))
  }

  /** A stored record may be announced again only if it is content and unchanged. */
  predicate Reusable(db: Db, r: Record) {
    r.id in db.records ==> !r.Version? && !r.Provenance? && db.records[r.id] == r
  }

  predicate RootTargets(db: RecordMap, root: Id, manifest: Id) {
    root in db && db[root].ContentRoot? && db[root].target == ManifestTarget(manifest)
  }

  /** The bytes of one blob of the new version: right if given, stored and intact if known, given if new. */
  predicate BytesAvailable(db: Db, combined: RecordMap, supplied: map<Id, Bytes>, ref: Id) {
    && (ref in supplied ==> ref in combined && Matches(combined[ref], supplied[ref]))
    && (if ref in db.records then BlobIntact(db, ref) else ref in supplied)
  }

  /** The conditions under which an append is accepted. */
  ghost predicate AppendAllowed(db: Db, call: Call)
    requires call.request.body.AppendBody? && Shaped(call.request.body)
  {
    var b := call.request.body;
    var combined := AppendRecords(db, call);
    var refs := AppendRefs(db, call);
    && Resolves(db.records, b.version.artifactId, ArtifactKind)
    && (forall i :: 0 <= i < |b.links| ==> b.links[i].subject == b.version.id)
    && UniqueIds(Announced(call))
    && (forall r :: r in Announced(call) ==> Reusable(db, r))
    && Valid(combined) && OperationsOk(combined, db.operations)
    && (forall r :: r in b.roots ==> r.id == b.version.contentRootRef)
    && (forall r :: r in b.manifests ==> RootTargets(combined, b.version.contentRootRef, r.id))
    && (forall r :: r in b.blobs ==> r.id in refs)
    && call.supplied.Keys <= refs
    && TotalLength(combined, refs) <= MAX_PAYLOAD
    && (forall ref :: ref in refs ==> BytesAvailable(db, combined, call.supplied, ref))
  }

  /** The bytes that are not stored yet. */
  function NewPayloads(db: Db, supplied: map<Id, Bytes>): map<Id, Bytes> {
    map id | id in supplied && id !in db.records :: supplied[id]
  }

  ghost function AppendPlan(db: Db, call: Call): Option<Plan>
    requires call.request.body.AppendBody? && Shaped(call.request.body)
  {
    if AppendAllowed(db, call) then
      Some(Plan(Fresh(db, Announced(call)), NewPayloads(db, call.supplied), [], call.request.body.version.id))
    else None
  }

  /** The complete history of an artifact: its versions and the provenance of those versions. */
  datatype History = History(versions: RecordMap, provenance: RecordMap)

  function HistoryOf(records: RecordMap, artifact: Id): History {
    var versions := map v | v in records && records[v].Version? && records[v].artifactId == artifact :: records[v];
    History(versions, map p | p in records && records[p].Provenance? && records[p].subject in versions :: records[p])
  }

  function ArtifactIds(records: seq<Record>): (ids: seq<Id>)
    ensures forall id :: id in ids <==> exists r :: r in records && r.Artifact? && r.id == id
  {
    if records == [] then []
    else
      var last := records[|records| - 1];
      assert records == records[..|records| - 1] + [last];
      ArtifactIds(records[..|records| - 1]) + if last.Artifact? then [last.id] else []
  }

  /** The receipt of an import: the imported artifacts in ascending order. */
  function ImportReceipt(call: Call): Record
    requires call.request.body.ImportBody?
  {
    Receipt(call.request.body.receiptId, SortIds(ArtifactIds(call.bundle.records)), call.now)
  }

  /** No identity, history or operation of the bundle disagrees with what is stored. */
  ghost predicate NoConflict(db: Db, call: Call)
    requires call.request.body.ImportBody?
  {
    var incoming := Index(call.bundle.records);
    && call.request.body.receiptId !in db.records && call.request.body.receiptId !in incoming
    && (forall a :: a in incoming && incoming[a].Artifact? && a in db.records ==>
          db.records[a] == incoming[a] && HistoryOf(db.records, a) == HistoryOf(incoming, a))
    && (forall id :: id in incoming && id in db.records ==> db.records[id] == incoming[id])
    && (forall o :: o in call.bundle.operations ==>
          o.triple != call.request.Triple() && (o.triple in db.operations ==> db.operations[o.triple] == o))
  }

  /** Known blobs are intact and have the bytes that the bundle brings. */
  predicate KnownBytesAgree(db: Db, supplied: map<Id, Bytes>) {
    forall id :: id in supplied && id in db.records ==> BlobIntact(db, id) && db.payloads[id] == supplied[id]
  }

  function ImportAdditions(db: Db, call: Call): seq<Record>
    requires call.request.body.ImportBody?
  {
    Fresh(db, call.bundle.records) + [ImportReceipt(call)]
  }

  function ImportRecords(db: Db, call: Call): RecordMap
    requires call.request.body.ImportBody?
  {
    db.records + Index(ImportAdditions(db, call))
  }

  function ImportOperations(db: Db, call: Call): OperationMap {
    db.operations + OperationIndex(FreshOperations(db, call.bundle.operations))
  }

  ghost predicate ImportAllowed(db: Db, call: Call)
    requires call.request.body.ImportBody?
  {
    && NoConflict(db, call)
    && KnownBytesAgree(db, call.supplied)
    && Valid(ImportRecords(db, call)) && OperationsOk(ImportRecords(db, call), ImportOperations(db, call))
  }

  ghost function ImportPlan(db: Db, call: Call): Option<Plan>
    requires call.request.body.ImportBody?
  {
    if ImportAllowed(db, call) then
      Some(Plan(ImportAdditions(db, call), NewPayloads(db, call.supplied),
                FreshOperations(db, call.bundle.operations), call.request.body.receiptId))
    else None
  }

  ghost function PlanOf(db: Db, call: Call): Option<Plan>
    requires Shaped(call.request.body)
  {
    match call.request.body
    case CreateBody(_) => CreatePlan(db, call)
    case AppendBody(_, _, _, _, _) => AppendPlan(db, call)
    case ImportBody(_) => ImportPlan(db, call)
  }

  function OperationOf(call: Call, plan: Plan): Operation
  {
    Operation(call.request.Triple(), call.fingerprint, plan.resultRef, call.now)
  }

  function RowsOf(records: seq<Record>): set<RefRow> {
    set r, row | r in records && row in ReferenceRows(r) :: row
  }

  /** The state after all rows of a plan and its operation have been inserted. */
  function Apply(db: Db, plan: Plan, op: Operation): Db {
    Db(db.records + Index(plan.additions), db.refs + RowsOf(plan.additions), db.payloads + plan.payloads,
       (db.operations + OperationIndex(plan.history))[op.triple := op])
  }

  // ---------- Replays ----------

  datatype ReplayVerdict = Confirmed | BadInput | Damaged

  predicate HasRecord(db: Db, r: Record) { r.id in db.records && db.records[r.id] == r }

  /** The stored record equals the requested one up to its time. */
  predicate HasUntimed(db: Db, r: Record)
    requires Untimed(r)
  {
    r.id in db.records && db.records[r.id].Kind() == r.Kind() && WithTime(db.records[r.id], "") == r
  }

  /** The stored records are those that the original request asked for. */
  ghost predicate RequestStored(db: Db, call: Call, op: Operation)
    requires Shaped(call.request.body)
  {
    && op.triple == call.request.Triple()
    && match call.request.body
       case CreateBody(artifact) => op.resultRef == artifact.id && HasUntimed(db, artifact)
       case AppendBody(version, roots, blobs, manifests, links) =>
         && op.resultRef == version.id && HasUntimed(db, version)
         && (forall r :: r in roots + blobs + manifests ==> HasRecord(db, r))
         && (forall i :: 0 <= i < |links| ==> HasUntimed(db, links[i]))
       case ImportBody(receiptId) =>
         && op.resultRef == receiptId && Resolves(db.records, receiptId, ReceiptKind)
         && db.records[receiptId].importedArtifacts == SortIds(ArtifactIds(call.bundle.records))
         && (forall r :: r in call.bundle.records ==> HasRecord(db, r))
         && (forall o :: o in call.bundle.operations ==> o.triple in db.operations && db.operations[o.triple] == o)
  }

  ghost predicate HistoryMatches(db: Db, call: Call, op: Operation)
    requires Shaped(call.request.body)
  {
    Stored(db) && Resolves(db.records, op.resultRef, op.triple.kind.ResultKind()) && RequestStored(db, call, op)
  }

  /** The blobs whose bytes a replay looks at. */
  function ReplayRefs(db: Db, call: Call, op: Operation): set<Id> {
    match call.request.body
    case CreateBody(_) => {}
    case AppendBody(_, _, _, _, _) => if op.resultRef in db.records then ClosureBlobs(db.records, db.records[op.resultRef]) else {}
    case ImportBody(_) => BlobIds(Index(call.bundle.records))
  }

  predicate SuppliedWrong(db: Db, supplied: map<Id, Bytes>, ref: Id) {
    ref in supplied && !(ref in db.records && Matches(db.records[ref], supplied[ref]))
  }

  /** What a replay may answer. When both the bytes supplied for one blob and the stored bytes of
      another are wrong, the answer depends on which blob is looked at first. */
  ghost predicate MayAnswer(db: Db, call: Call, op: Operation, verdict: ReplayVerdict)
    requires Shaped(call.request.body)
  {
    if !HistoryMatches(db, call, op) then verdict == Damaged
    else
      var refs := ReplayRefs(db, call, op);
      if !(call.supplied.Keys <= refs) then verdict == BadInput
      else match verdict
        case BadInput => exists ref :: ref in refs && SuppliedWrong(db, call.supplied, ref)
        case Damaged => exists ref :: ref in refs && !BlobIntact(db, ref)
        case Confirmed => forall ref :: ref in refs ==> !SuppliedWrong(db, call.supplied, ref) && BlobIntact(db, ref)
  }

  // ---------- Outcomes ----------

  datatype CommitState = NotCommitted | AlreadyCommitted | Unknown

  /** A success carries the committed operation; an error carries what is known about the commit. */
  datatype Outcome = Success(operation: Operation, replayed: bool) | Failure(state: CommitState)

  /** One undisturbed call: its outcome and the state it leaves. */
  ghost predicate Step(db: Db, call: Call, outcome: Outcome, db': Db) {
    if !CallOk(call) then outcome == Failure(NotCommitted) && db' == db
    else if call.request.Triple() in db.operations then
      db' == db &&
      var op := db.operations[call.request.Triple()];
      if !OperationShape(op) || op.triple != call.request.Triple() || op.fingerprint != call.fingerprint then
        outcome == Failure(NotCommitted)
      else match outcome
        case Success(operation, replayed) => MayAnswer(db, call, op, Confirmed) && operation == op && replayed
        case Failure(AlreadyCommitted) => MayAnswer(db, call, op, Damaged)
        case Failure(NotCommitted) => MayAnswer(db, call, op, BadInput)
        case Failure(Unknown) => false
    else if Stored(db) && PlanOf(db, call).Some? then
      var op := OperationOf(call, PlanOf(db, call).value);
      outcome == Success(op, false) && db' == Apply(db, PlanOf(db, call).value, op)
    else outcome == Failure(NotCommitted) && db' == db
  }
}
