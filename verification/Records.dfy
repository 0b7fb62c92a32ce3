/** The immutable records of a ledger, the operations that created them, and the
    document that carries a whole ledger between stores. */
module Records {

  /** The identity of a record. */
  datatype Id = Id(text: string)

  /** An opaque reference or key, compared character by character. */
  datatype Opaque = Opaque(text: string)

  newtype byte = x: int | 0 <= x < 0x100

  type Bytes = seq<byte>

  datatype Option<+T> = None | Some(value: T)

  // Limits of the bounded-local profile, in bytes.
  const MAX_BLOB := 64 * 1024 * 1024
  const MAX_PAYLOAD := 256 * 1024 * 1024

  predicate IsLowerHex(c: char) { '0' <= c <= '9' || 'a' <= c <= 'f' }

  /** The text of a digest: 64 lowercase hexadecimal characters. */
  type Hex = s: string | |s| == 64 && forall i :: 0 <= i < 64 ==> IsLowerHex(s[i])
    witness seq(64, i => '0')

  datatype Digest = Digest(hex: Hex)

  /** SHA-256: some fixed function of the bytes, of which nothing else is used. What needs the
      absence of collisions says so for the two byte strings at hand. */
  const Sha256: Bytes -> Digest

  datatype Kind = ArtifactKind | VersionKind | ContentRootKind | BlobKind | ManifestKind | ProvenanceKind | ReceiptKind

  datatype TypeRef = TypeRef(namespace: string, typeId: string, typeVersion: string)

  /** A content root names either one blob or one manifest. */
  datatype Target = BlobTarget(ref: Id) | ManifestTarget(ref: Id) {
    function TargetKind(): Kind {
      if BlobTarget? then BlobKind else ManifestKind
    }
  }

  datatype Entry = Entry(entryKey: string, blobRef: Id)

  datatype ObjectKind = ArtifactVersionObject | ExternalSource | Capture | Principal | Policy | RuntimeRef | OtherObject

  datatype ProvenanceObject = ProvenanceObject(kind: ObjectKind, ref: string)

  /** One record of any of the seven kinds that share a single identity space.
      A record of a write request carries no time yet; its `recordedAt` is "". */
  datatype Record =
    | Artifact(id: Id, namespaceRef: string, typeRef: TypeRef, recordedAt: string)
    | Version(id: Id, artifactId: Id, contentRootRef: Id, parents: seq<Id>, externalSources: seq<string>,
              captures: seq<string>, principal: Option<string>, handlingPolicies: seq<string>, recordedAt: string)
    | ContentRoot(id: Id, target: Target)
    | Blob(id: Id, digest: Digest, byteLength: nat)
    | Manifest(id: Id, digest: Digest, entries: seq<Entry>)
    | Provenance(id: Id, subject: Id, relation: TypeRef, about: ProvenanceObject, recordedAt: string)
    | Receipt(id: Id, importedArtifacts: seq<Id>, recordedAt: string)
  {
    function Kind(): Kind {
      match this
      case Artifact(_, _, _, _) => ArtifactKind
      case Version(_, _, _, _, _, _, _, _, _) => VersionKind
      case ContentRoot(_, _) => ContentRootKind
      case Blob(_, _, _) => BlobKind
      case Manifest(_, _, _) => ManifestKind
      case Provenance(_, _, _, _, _) => ProvenanceKind
      case Receipt(_, _, _) => ReceiptKind
    }
  }

  datatype OperationKind = CreateArtifact | AppendVersion | ImportBundle {
    function ResultKind(): Kind {
      match this
      case CreateArtifact => ArtifactKind
      case AppendVersion => VersionKind
      case ImportBundle => ReceiptKind
    }
  }

  /** The idempotency identity of a write. */
  datatype Triple = Triple(scope: Opaque, kind: OperationKind, key: Opaque)

  /** The durable trace of one successful write. */
  datatype Operation = Operation(triple: Triple, fingerprint: Digest, resultRef: Id, recordedAt: string)

  /** A portable metadata document: its record collections in one sequence, in which only the order
      within a collection means anything, and its successful operations. */
  datatype Document = Document(records: seq<Record>, operations: seq<Operation>)

  type RecordMap = map<Id, Record>
  type OperationMap = map<Triple, Operation>

  predicate Distinct<T(==)>(s: seq<T>) {
    forall i, j :: 0 <= i < j < |s| ==> s[i] != s[j]
  }

  predicate UniqueIds(records: seq<Record>) {
    forall i, j :: 0 <= i < j < |records| ==> records[i].id != records[j].id
  }

  predicate UniqueTriples(operations: seq<Operation>) {
    forall i, j :: 0 <= i < j < |operations| ==> operations[i].triple != operations[j].triple
  }

  /** The identity index of a sequence of records; a later record wins. */
  function Index(records: seq<Record>): (m: RecordMap)
    ensures forall id :: id in m <==> exists r :: r in records && r.id == id
    ensures forall id :: id in m ==> m[id] in records && m[id].id == id
  {
    if records == [] then map[]
    else
      var last := records[|records| - 1];
      var m := Index(records[..|records| - 1])[last.id := last];
      assert records == records[..|records| - 1] + [last];
      assert last in records;
      m
  }

  function OperationIndex(operations: seq<Operation>): (m: OperationMap)
    ensures forall t :: t in m <==> exists o :: o in operations && o.triple == t
    ensures forall t :: t in m ==> m[t] in operations && m[t].triple == t
  {
    if operations == [] then map[]
    else
      var last := operations[|operations| - 1];
      var m := OperationIndex(operations[..|operations| - 1])[last.triple := last];
      assert operations == operations[..|operations| - 1] + [last];
      assert last in operations;
      m
  }

  lemma IndexMore(records: seq<Record>, r: Record)
    ensures Index(records + [r]) == Index(records)[r.id := r]
  {
    var s := records + [r];
    assert s[..|s| - 1] == records && s[|s| - 1] == r;
  }

  /** With unique identities nothing is lost in the index. */
  lemma IndexAt(records: seq<Record>, r: Record)
    requires UniqueIds(records) && r in records
    ensures r.id in Index(records) && Index(records)[r.id] == r
  {
    assert r.id in Index(records);
    var i :| 0 <= i < |records| && records[i] == r;
    var j :| 0 <= j < |records| && records[j] == Index(records)[r.id];
    assert records[i].id == records[j].id;
    assert i == j;
  }

  lemma OperationIndexAt(operations: seq<Operation>, o: Operation)
    requires UniqueTriples(operations) && o in operations
    ensures o.triple in OperationIndex(operations) && OperationIndex(operations)[o.triple] == o
  {
    assert o.triple in OperationIndex(operations);
    var i :| 0 <= i < |operations| && operations[i] == o;
    var j :| 0 <= j < |operations| && operations[j] == OperationIndex(operations)[o.triple];
    assert operations[i].triple == operations[j].triple;
    assert i == j;
  }
}
