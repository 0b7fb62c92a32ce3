/** When a set of records and operations is a consistent ledger. */
module Validity {
  import opened Records
  import opened ParentGraph
  import RecordJson
  import Time

  // ---------- Single fields ----------

  predicate IsAlphanumeric(c: char) { '0' <= c <= '9' || 'A' <= c <= 'Z' || 'a' <= c <= 'z' }

  predicate IsIdCharacter(c: char) { IsAlphanumeric(c) || c in "._:/-" }

  predicate StableId(id: Id) {
    && 3 <= |id.text| <= 256 && IsAlphanumeric(id.text[0])
    && forall i :: 0 <= i < |id.text| ==> IsIdCharacter(id.text[i])
  }

  predicate TextOk(s: string, longest: nat) { 1 <= |s| <= longest }

  /** An opaque reference: no control characters. */
  predicate OpaqueOk(s: string) {
    TextOk(s, 512) && forall i :: 0 <= i < |s| ==> s[i] >= 32 as char && s[i] != 127 as char
  }

  predicate TypeOk(t: TypeRef) { TextOk(t.namespace, 128) && TextOk(t.typeId, 128) && TextOk(t.typeVersion, 64) }

  predicate AllStable(ids: seq<Id>) { forall i :: 0 <= i < |ids| ==> StableId(ids[i]) }

  predicate AllOpaque(refs: seq<string>) { forall i :: 0 <= i < |refs| ==> OpaqueOk(refs[i]) }

  predicate EntriesOk(entries: seq<Entry>) {
    forall i :: 0 <= i < |entries| ==> TextOk(entries[i].entryKey, 512) && StableId(entries[i].blobRef)
  }

  /** The fields of a record one by one. */
  predicate FieldsOk(r: Record) {
    StableId(r.id) &&
    match r
    case Artifact(_, namespaceRef, typeRef, _) => OpaqueOk(namespaceRef) && TypeOk(typeRef)
    case Version(_, artifactId, root, parents, sources, captures, principal, policies, _) =>
      && StableId(artifactId) && StableId(root) && AllStable(parents)
      && AllOpaque(sources) && AllOpaque(captures) && AllOpaque(policies)
      && (principal.Some? ==> OpaqueOk(principal.value))
    case ContentRoot(_, target) => StableId(target.ref)
    case Blob(_, _, byteLength) => byteLength <= MAX_BLOB
    case Manifest(_, _, entries) => EntriesOk(entries)
    case Provenance(_, subject, relation, about, _) => StableId(subject) && TypeOk(relation) && OpaqueOk(about.ref)
    case Receipt(_, imported, _) => AllStable(imported)
  }

  predicate TripleOk(t: Triple) { OpaqueOk(t.scope.text) && TextOk(t.key.text, 256) }

  // ---------- Single records ----------

  predicate DistinctKeys(entries: seq<Entry>) {
    forall i, j :: 0 <= i < j < |entries| ==> entries[i].entryKey != entries[j].entryKey
  }

  /** What a record has to satisfy by itself. */
  predicate Shape(r: Record) {
    FieldsOk(r) &&
    match r
    case Version(_, _, _, parents, sources, captures, _, policies, _) =>
      Distinct(parents) && Distinct(sources) && Distinct(captures) && Distinct(policies)
    case Manifest(_, digest, entries) =>
      entries != [] && DistinctKeys(entries) && digest == RecordJson.ManifestDigest(entries)
    case Receipt(_, imported, _) => Distinct(imported)
    case _ => true
  }

  predicate Timed(r: Record) { r.Artifact? || r.Version? || r.Provenance? || r.Receipt? }

  /** What a stored or transported record has to satisfy by itself: unlike a new one it carries a time. */
  ghost predicate RecordOk(r: Record) { Shape(r) && (Timed(r) ==> Time.TimeOk(r.recordedAt)) }

  predicate Resolves(db: RecordMap, id: Id, kind: Kind) {
    id in db && db[id].Kind() == kind
  }

  /** Every reference of the record resolves to the right kind; parents belong to the same artifact. */
  predicate RefsResolve(db: RecordMap, r: Record) {
    match r
    case Version(_, artifactId, root, parents, _, _, _, _, _) =>
      && Resolves(db, artifactId, ArtifactKind)
      && Resolves(db, root, ContentRootKind)
      && forall p :: p in parents ==> Resolves(db, p, VersionKind) && db[p].artifactId == artifactId
    case ContentRoot(_, target) => Resolves(db, target.ref, target.TargetKind())
    case Manifest(_, _, entries) => forall e :: e in entries ==> Resolves(db, e.blobRef, BlobKind)
    case Provenance(_, subject, _, about, _) =>
      Resolves(db, subject, VersionKind) && (about.kind.ArtifactVersionObject? ==> Resolves(db, Id(about.ref), VersionKind))
    case Receipt(_, imported, _) => forall a :: a in imported ==> Resolves(db, a, ArtifactKind)
    case _ => true
  }

  predicate IsContent(r: Record) { r.ContentRoot? || r.Manifest? || r.Blob? }

  /** Does the record keep the content `id` in use? */
  predicate Uses(r: Record, id: Id) {
    match r
    case Version(_, _, root, _, _, _, _, _, _) => root == id
    case ContentRoot(_, target) => target.ref == id
    case Manifest(_, _, entries) => exists e :: e in entries && e.blobRef == id
    case _ => false
  }

  ghost predicate Used(db: RecordMap, id: Id) { exists u :: u in db && Uses(db[u], id) }

  /** No content without a user. */
  ghost predicate AllUsed(db: RecordMap) {
    forall id :: id in db && IsContent(db[id]) ==> Used(db, id)
  }

  function VersionParents(db: RecordMap): Parents {
    map v | v in db && db[v].Version? :: db[v].parents
  }

  /** The blobs that make up the content of a version. */
  function ClosureBlobs(db: RecordMap, version: Record): set<Id> {
    if version.Version? && Resolves(db, version.contentRootRef, ContentRootKind) then
      match db[version.contentRootRef].target
      case BlobTarget(ref) => {ref}
      case ManifestTarget(ref) =>
        if Resolves(db, ref, ManifestKind) then set e | e in db[ref].entries :: e.blobRef else {}
    else {}
  }

  function Length(db: RecordMap, id: Id): nat {
    if Resolves(db, id, BlobKind) then db[id].byteLength else 0
  }

  ghost function TotalLength(db: RecordMap, ids: set<Id>): nat {
    if ids == {} then 0 else var id :| id in ids; Length(db, id) + TotalLength(db, ids - {id})
  }

  /** The distinct blobs of every version stay within the payload limit. */
  ghost predicate ClosuresBounded(db: RecordMap) {
    forall v :: v in db && db[v].Version? ==> TotalLength(db, ClosureBlobs(db, db[v])) <= MAX_PAYLOAD
  }

  /** Records stored under their own identities, each well shaped. */
  ghost predicate WellShaped(db: RecordMap) {
    forall id :: id in db ==> db[id].id == id && RecordOk(db[id])
  }

  predicate AllResolve(db: RecordMap) {
    forall id :: id in db ==> RefsResolve(db, db[id])
  }

  /** The graph conditions without the byte bound. */
  ghost predicate GraphOk(db: RecordMap) {
    AllResolve(db) && !HasCycle(VersionParents(db)) && AllUsed(db)
  }

  ghost predicate Valid(db: RecordMap) {
    WellShaped(db) && GraphOk(db) && ClosuresBounded(db)
  }

  /** The operation by itself. */
  ghost predicate OperationShape(o: Operation) { TripleOk(o.triple) && StableId(o.resultRef) && Time.TimeOk(o.recordedAt) }

  /** It is well shaped, and has a result of its kind. */
  ghost predicate OperationOk(db: RecordMap, o: Operation) {
    OperationShape(o) && Resolves(db, o.resultRef, o.triple.kind.ResultKind())
  }

  ghost predicate OperationsOk(db: RecordMap, operations: OperationMap) {
    forall t :: t in operations ==> operations[t].triple == t && OperationOk(db, operations[t])
  }

  /** A metadata document that `validate_metadata` has to accept. */
  ghost predicate ValidDocument(d: Document) {
    && UniqueIds(d.records)
    && UniqueTriples(d.operations)
    && Valid(Index(d.records))
    && OperationsOk(Index(d.records), OperationIndex(d.operations))
  }

  lemma {:induction false} TotalLengthRemove(db: RecordMap, ids: set<Id>, id: Id)
    requires id in ids
    ensures TotalLength(db, ids) == Length(db, id) + TotalLength(db, ids - {id})
    decreases |ids|
  {
    var pick :| pick in ids && TotalLength(db, ids) == Length(db, pick) + TotalLength(db, ids - {pick});
    if pick != id {
      TotalLengthRemove(db, ids - {pick}, id);
      TotalLengthRemove(db, ids - {id}, pick);
      assert ids - {pick} - {id} == ids - {id} - {pick};
    }
  }

  /** The total depends only on the lengths of the blobs counted. */
  lemma {:induction false} TotalLengthSame(db: RecordMap, db': RecordMap, ids: set<Id>)
    requires forall id :: id in ids ==> Length(db, id) == Length(db', id)
    ensures TotalLength(db, ids) == TotalLength(db', ids)
    decreases |ids|
  {
    if ids != {} {
      var id :| id in ids;
      TotalLengthRemove(db, ids, id);
      TotalLengthRemove(db', ids, id);
      TotalLengthSame(db, db', ids - {id});
    }
  }

  lemma ParentsResolve(db: RecordMap, r: Record)
    requires r.Version? && RefsResolve(db, r)
    ensures forall p :: p in r.parents ==> p in db && db[p].Version?
  {
  }

  lemma ParentsWellFormed(db: RecordMap)
    requires WellShaped(db) && AllResolve(db)
    ensures WellFormed(VersionParents(db))
  {
    hide FieldsOk, Time.TimeOk, RefsResolve;
    var g := VersionParents(db);
    forall v | v in g
      ensures Distinct(g[v]) && forall p :: p in g[v] ==> p in g
    {
      assert Shape(db[v]) && RefsResolve(db, db[v]);
      ParentsResolve(db, db[v]);
    }
  }
}
