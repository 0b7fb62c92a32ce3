/** The JSON form of records, documents and requests. */
module RecordJson {
  import opened Records
  import opened JsonText
  import opened Canonical
  import Utf8

  // ---------- Objects with fixed names ----------

  function Object(names: seq<string>, values: seq<Json>): (j: Json)
    requires |names| == |values|
    ensures j.JObject? && |j.fields| == |names|
  {
    JObject(seq(|names|, i requires 0 <= i < |names| => Field(names[i], values[i])))
  }

  /** Equal objects over the same distinct names have equal values, name by name. */
  lemma ObjectsSame(names: seq<string>, xs: seq<Json>, ys: seq<Json>)
    requires Distinct(names) && |names| == |xs| == |ys|
    requires Same(Object(names, xs), Object(names, ys))
    ensures forall i :: 0 <= i < |names| ==> Same(xs[i], ys[i])
  {
    var a, b := Object(names, xs), Object(names, ys);
    forall i | 0 <= i < |names|
      ensures Same(xs[i], ys[i])
    {
      assert IsAmong(a.fields[i], b.fields);
      var k :| 0 <= k < |b.fields| && a.fields[i].key == b.fields[k].key && Same(a.fields[i].value, b.fields[k].value);
      assert names[i] == names[k];
    }
  }

  lemma SameObjects(names: seq<string>, xs: seq<Json>, ys: seq<Json>)
    requires |names| == |xs| == |ys| && forall i :: 0 <= i < |names| ==> Same(xs[i], ys[i])
    ensures Same(Object(names, xs), Object(names, ys))
  {
    var a, b := Object(names, xs), Object(names, ys);
    forall i | 0 <= i < |a.fields|
      ensures IsAmong(a.fields[i], b.fields)
    {
      assert a.fields[i].key == b.fields[i].key && Same(a.fields[i].value, b.fields[i].value);
    }
  }

  function Texts(ss: seq<string>): Json {
    JArray(seq(|ss|, i requires 0 <= i < |ss| => JString(ss[i])))
  }

  lemma TextsSame(a: seq<string>, b: seq<string>)
    requires Same(Texts(a), Texts(b))
    ensures a == b
  {
    forall i | 0 <= i < |a|
      ensures a[i] == b[i]
    {
      assert Same(Texts(a).items[i], Texts(b).items[i]);
    }
  }

  function IdTexts(ids: seq<Id>): (ss: seq<string>)
    ensures |ss| == |ids| && forall i :: 0 <= i < |ss| ==> ss[i] == ids[i].text
  {
    seq(|ids|, i requires 0 <= i < |ids| => ids[i].text)
  }

  function Refs(ids: seq<Id>): Json { Texts(IdTexts(ids)) }

  lemma RefsSame(a: seq<Id>, b: seq<Id>)
    requires Same(Refs(a), Refs(b))
    ensures a == b
  {
    TextsSame(IdTexts(a), IdTexts(b));
    forall i | 0 <= i < |a|
      ensures a[i] == b[i]
    {
      assert IdTexts(a)[i] == IdTexts(b)[i];
    }
  }

  // ---------- Records ----------

  const DIGEST_NAMES := ["algorithm", "value"]

  function DigestJson(d: Digest): Json { Object(DIGEST_NAMES, [JString("sha256"), JString(d.hex)]) }

  const TYPE_NAMES := ["namespace", "type_id", "type_version"]
  const RELATION_NAMES := ["namespace", "relation_id", "relation_version"]

  function TypeJson(names: seq<string>, t: TypeRef): Json
    requires |names| == 3
  {
    Object(names, [JString(t.namespace), JString(t.typeId), JString(t.typeVersion)])
  }

  function ObjectKindText(k: ObjectKind): string {
    match k
    case ArtifactVersionObject => "artifact_version"
    case ExternalSource => "external_source"
    case Capture => "capture"
    case Principal => "principal"
    case Policy => "policy"
    case RuntimeRef => "runtime_ref"
    case OtherObject => "other"
  }

  const ENTRY_NAMES := ["entry_key", "blob_ref"]

  function EntryJson(e: Entry): Json { Object(ENTRY_NAMES, [JString(e.entryKey), JString(e.blobRef.text)]) }

  function EntriesJson(es: seq<Entry>): Json {
    JArray(seq(|es|, i requires 0 <= i < |es| => EntryJson(es[i])))
  }

  const ENTRIES_NAMES := ["entries"]

  /** The digest of a manifest covers its entries alone, in their order. */
  function ManifestDigest(es: seq<Entry>): Digest {
    Sha256(Utf8.Encode(CanonicalText(Object(ENTRIES_NAMES, [EntriesJson(es)]))))
  }

  const ARTIFACT_NAMES := ["artifact_id", "namespace_ref", "type_ref", "recorded_at"]
  const VERSION_NAMES :=
    ["version_id", "artifact_id", "content_root_ref", "parent_version_refs", "external_source_refs", "capture_refs",
     "handling_policy_refs", "recorded_at"]
  const ATTRIBUTED_VERSION_NAMES := VERSION_NAMES + ["principal_ref"]
  const BLOB_ROOT_NAMES := ["content_root_ref", "kind", "blob_ref"]
  const MANIFEST_ROOT_NAMES := ["content_root_ref", "kind", "manifest_ref"]
  const BLOB_NAMES := ["blob_ref", "digest", "byte_length", "payload_availability"]
  const MANIFEST_NAMES := ["manifest_ref", "digest", "entries"]
  const PROVENANCE_NAMES := ["provenance_id", "subject_version_ref", "relation_ref", "object", "recorded_at"]
  const PROVENANCE_OBJECT_NAMES := ["kind", "ref"]
  const RECEIPT_NAMES := ["import_receipt_id", "imported_artifact_refs", "recorded_at"]

  function Names(r: Record): seq<string> {
    match r
    case Artifact(_, _, _, _) => ARTIFACT_NAMES
    case Version(_, _, _, _, _, _, _, _, _) => if r.principal.Some? then ATTRIBUTED_VERSION_NAMES else VERSION_NAMES
    case ContentRoot(_, target) => if target.BlobTarget? then BLOB_ROOT_NAMES else MANIFEST_ROOT_NAMES
    case Blob(_, _, _) => BLOB_NAMES
    case Manifest(_, _, _) => MANIFEST_NAMES
    case Provenance(_, _, _, _, _) => PROVENANCE_NAMES
    case Receipt(_, _, _) => RECEIPT_NAMES
  }

  function Values(r: Record): (vs: seq<Json>)
    ensures |vs| == |Names(r)|
  {
    match r
    case Artifact(id, namespaceRef, typeRef, recordedAt) =>
      [JString(id.text), JString(namespaceRef), TypeJson(TYPE_NAMES, typeRef), JString(recordedAt)]
    case Version(id, artifactId, root, parents, sources, captures, principal, policies, recordedAt) =>
      [JString(id.text), JString(artifactId.text), JString(root.text), Refs(parents), Texts(sources), Texts(captures),
       Texts(policies), JString(recordedAt)]
      + (if principal.Some? then [JString(principal.value)] else [])
    case ContentRoot(id, target) =>
      [JString(id.text), JString(if target.BlobTarget? then "blob" else "manifest"), JString(target.ref.text)]
    case Blob(id, digest, byteLength) =>
      [JString(id.text), DigestJson(digest), JInt(byteLength), JString("available")]
    case Manifest(id, digest, entries) =>
      [JString(id.text), DigestJson(digest), EntriesJson(entries)]
    case Provenance(id, subject, relation, about, recordedAt) =>
      [JString(id.text), JString(subject.text), TypeJson(RELATION_NAMES, relation),
       Object(PROVENANCE_OBJECT_NAMES, [JString(ObjectKindText(about.kind)), JString(about.ref)]), JString(recordedAt)]
    case Receipt(id, imported, recordedAt) =>
      [JString(id.text), Refs(imported), JString(recordedAt)]
  }

  function RecordJson(r: Record): Json { Object(Names(r), Values(r)) }

  const OPERATION_NAMES :=
    ["idempotency_scope_ref", "operation_kind", "idempotency_key", "request_fingerprint", "result_ref", "recorded_at"]

  function OperationKindText(k: OperationKind): string {
    match k
    case CreateArtifact => "create_artifact"
    case AppendVersion => "append_version"
    case ImportBundle => "import_bundle"
  }

  function OperationValues(o: Operation): (vs: seq<Json>)
    ensures |vs| == |OPERATION_NAMES|
  {
    [JString(o.triple.scope.text), JString(OperationKindText(o.triple.kind)), JString(o.triple.key.text),
     DigestJson(o.fingerprint), JString(o.resultRef.text), JString(o.recordedAt)]
  }

  function OperationJson(o: Operation): Json { Object(OPERATION_NAMES, OperationValues(o)) }

  // ---------- Documents ----------

  function RecordsJson(records: seq<Record>): (j: Json)
    ensures j.JArray? && |j.items| == |records|
  {
    JArray(seq(|records|, i requires 0 <= i < |records| => RecordJson(records[i])))
  }

  function OperationsJson(operations: seq<Operation>): (j: Json)
    ensures j.JArray? && |j.items| == |operations|
  {
    JArray(seq(|operations|, i requires 0 <= i < |operations| => OperationJson(operations[i])))
  }

  /** The records of one kind, in their order. */
  function Collection(records: seq<Record>, kind: Kind): (r: seq<Record>)
    ensures forall i :: 0 <= i < |r| ==> r[i].Kind() == kind && r[i] in records
  {
    if records == [] then []
    else (if records[0].Kind() == kind then [records[0]] else []) + Collection(records[1..], kind)
  }

  const BASELINE_NAMES := ["repository", "commit"]
  const BASELINE := Object(BASELINE_NAMES,
    [JString("kongbu0621/code-driver-theory"), JString("9e2bc8217f05d5b604e24fa56dad2525f35983f1")])

  const DOCUMENT_NAMES :=
    ["contract_version", "contract_status", "schema_id", "theory_baseline", "artifacts", "versions", "content_roots",
     "blobs", "manifests", "provenance_links", "import_receipts", "idempotency_records"]

  function DocumentValues(d: Document): (vs: seq<Json>)
    ensures |vs| == |DOCUMENT_NAMES|
  {
    [JString("0.1.0"), JString("candidate"), JString("urn:code-driver-theory:artifact-ledger:v0.1:candidate"), BASELINE,
     RecordsJson(Collection(d.records, ArtifactKind)), RecordsJson(Collection(d.records, VersionKind)),
     RecordsJson(Collection(d.records, ContentRootKind)), RecordsJson(Collection(d.records, BlobKind)),
     RecordsJson(Collection(d.records, ManifestKind)), RecordsJson(Collection(d.records, ProvenanceKind)),
     RecordsJson(Collection(d.records, ReceiptKind)), OperationsJson(d.operations)]
  }

  function DocumentJson(d: Document): Json { Object(DOCUMENT_NAMES, DocumentValues(d)) }

  /** Two documents that carry the same collections and the same operations. */
  ghost predicate SameDocument(a: Document, b: Document) {
    a.operations == b.operations && forall kind: Kind :: Collection(a.records, kind) == Collection(b.records, kind)
  }

  // ---------- Different records have different JSON ----------

  lemma NamesDistinct(r: Record)
    ensures Distinct(Names(r))
  {
  }

  lemma SmallNamesDistinct()
    ensures Distinct(DIGEST_NAMES) && Distinct(TYPE_NAMES) && Distinct(RELATION_NAMES) && Distinct(ENTRY_NAMES)
    ensures Distinct(PROVENANCE_OBJECT_NAMES) && Distinct(OPERATION_NAMES) && Distinct(DOCUMENT_NAMES)
  {
  }

  lemma DigestSame(a: Digest, b: Digest)
    requires Same(DigestJson(a), DigestJson(b))
    ensures a == b
  {
    SmallNamesDistinct();
    var xs, ys := [JString("sha256"), JString(a.hex)], [JString("sha256"), JString(b.hex)];
    ObjectsSame(DIGEST_NAMES, xs, ys);
    assert xs[1] == ys[1];
  }

  lemma TypeSame(names: seq<string>, a: TypeRef, b: TypeRef)
    requires |names| == 3 && Distinct(names) && Same(TypeJson(names, a), TypeJson(names, b))
    ensures a == b
  {
    var xs := [JString(a.namespace), JString(a.typeId), JString(a.typeVersion)];
    var ys := [JString(b.namespace), JString(b.typeId), JString(b.typeVersion)];
    ObjectsSame(names, xs, ys);
    assert xs[0] == ys[0] && xs[1] == ys[1] && xs[2] == ys[2];
  }

  lemma EntriesSame(a: seq<Entry>, b: seq<Entry>)
    requires Same(EntriesJson(a), EntriesJson(b))
    ensures a == b
  {
    forall i | 0 <= i < |a|
      ensures a[i] == b[i]
    {
      assert Same(EntriesJson(a).items[i], EntriesJson(b).items[i]);
      SmallNamesDistinct();
      var xs := [JString(a[i].entryKey), JString(a[i].blobRef.text)];
      var ys := [JString(b[i].entryKey), JString(b[i].blobRef.text)];
      ObjectsSame(ENTRY_NAMES, xs, ys);
      assert xs[0] == ys[0] && xs[1] == ys[1];
    }
  }

  lemma AboutSame(a: ProvenanceObject, b: ProvenanceObject)
    requires Same(Object(PROVENANCE_OBJECT_NAMES, [JString(ObjectKindText(a.kind)), JString(a.ref)]),
                  Object(PROVENANCE_OBJECT_NAMES, [JString(ObjectKindText(b.kind)), JString(b.ref)]))
    ensures a == b
  {
    var xs, ys := [JString(ObjectKindText(a.kind)), JString(a.ref)], [JString(ObjectKindText(b.kind)), JString(b.ref)];
    SmallNamesDistinct();
    ObjectsSame(PROVENANCE_OBJECT_NAMES, xs, ys);
    assert xs[0] == ys[0] && xs[1] == ys[1];
  }

  /** The values of a record, one by one, determine it. */
  lemma ValuesSame(a: Record, b: Record)
    requires a.Kind() == b.Kind() && Names(a) == Names(b)
    requires forall i :: 0 <= i < |Names(a)| ==> Same(Values(a)[i], Values(b)[i])
    ensures a == b
  {
    var n := |Names(a)|;
    assert Same(Values(a)[0], Values(b)[0]) && Same(Values(a)[1], Values(b)[1]) && Same(Values(a)[2], Values(b)[2]);
    SmallNamesDistinct();
    match a
    case Artifact(_, _, _, _) =>
      TypeSame(TYPE_NAMES, a.typeRef, b.typeRef);
      assert Same(Values(a)[3], Values(b)[3]);
    case Version(_, _, _, _, _, _, _, _, _) =>
      VersionValuesSame(a, b);
    case ContentRoot(_, _) =>
    case Blob(_, _, _) =>
      DigestSame(a.digest, b.digest);
    case Manifest(_, _, _) =>
      DigestSame(a.digest, b.digest);
      EntriesSame(a.entries, b.entries);
    case Provenance(_, _, _, _, _) =>
      TypeSame(RELATION_NAMES, a.relation, b.relation);
      assert Same(Values(a)[3], Values(b)[3]) && Same(Values(a)[4], Values(b)[4]);
      AboutSame(a.about, b.about);
    case Receipt(_, _, _) =>
      RefsSame(a.importedArtifacts, b.importedArtifacts);
  }

  lemma VersionValuesSame(a: Record, b: Record)
    requires a.Version? && b.Version? && Names(a) == Names(b)
    requires forall i :: 0 <= i < |Names(a)| ==> Same(Values(a)[i], Values(b)[i])
    ensures a == b
  {
    hide Same;
    assert a.principal.Some? <==> |Names(a)| == 9;
    assert b.principal.Some? <==> |Names(b)| == 9;
    forall i | 0 <= i < |Names(a)|
      ensures Values(a)[i].JString? ==> Values(a)[i] == Values(b)[i]
    {
      ScalarSame(Values(a)[i], Values(b)[i]);
    }
    assert Values(a)[0] == Values(b)[0] && Values(a)[1] == Values(b)[1] && Values(a)[2] == Values(b)[2] && Values(a)[7] == Values(b)[7];
    RefsSame(a.parents, b.parents) by { assert Same(Values(a)[3], Values(b)[3]); }
    TextsSame(a.externalSources, b.externalSources) by { assert Same(Values(a)[4], Values(b)[4]); }
    TextsSame(a.captures, b.captures) by { assert Same(Values(a)[5], Values(b)[5]); }
    TextsSame(a.handlingPolicies, b.handlingPolicies) by { assert Same(Values(a)[6], Values(b)[6]); }
    if a.principal.Some? {
      assert Values(a)[8] == Values(b)[8];
    }
  }

  lemma ScalarSame(x: Json, y: Json)
    requires Same(x, y)
    ensures x.JString? ==> x == y
  {
  }

  /** Same JSON and same kind, same record. */
  lemma RecordJsonIdentifies(a: Record, b: Record)
    requires a.Kind() == b.Kind() && Same(RecordJson(a), RecordJson(b))
    ensures a == b
  {
    NamesAgree(a, b);
    NamesDistinct(a);
    ObjectsSame(Names(a), Values(a), Values(b));
    ValuesSame(a, b);
  }

  lemma NamesAgree(a: Record, b: Record)
    requires a.Kind() == b.Kind() && Same(RecordJson(a), RecordJson(b))
    ensures Names(a) == Names(b)
  {
    assert |Names(a)| == |Names(b)|;
    if a.ContentRoot? {
      var x, y := RecordJson(a), RecordJson(b);
      assert x.fields[2].key == Names(a)[2];
      assert IsAmong(x.fields[2], y.fields);
      var k :| 0 <= k < |y.fields| && x.fields[2].key == y.fields[k].key;
      assert Names(b)[k] == Names(a)[2];
    }
  }

  lemma OperationJsonIdentifies(a: Operation, b: Operation)
    requires Same(OperationJson(a), OperationJson(b))
    ensures a == b
  {
    SmallNamesDistinct();
    var xs, ys := OperationValues(a), OperationValues(b);
    ObjectsSame(OPERATION_NAMES, xs, ys);
    assert xs[0] == ys[0] && xs[1] == ys[1] && xs[2] == ys[2] && xs[4] == ys[4] && xs[5] == ys[5];
    assert Same(xs[3], ys[3]);
    DigestSame(a.fingerprint, b.fingerprint);
  }

  lemma RecordsSame(a: seq<Record>, b: seq<Record>, kind: Kind)
    requires Same(RecordsJson(Collection(a, kind)), RecordsJson(Collection(b, kind)))
    ensures Collection(a, kind) == Collection(b, kind)
  {
    var x, y := Collection(a, kind), Collection(b, kind);
    forall i | 0 <= i < |x|
      ensures x[i] == y[i]
    {
      assert Same(RecordsJson(x).items[i], RecordsJson(y).items[i]);
      RecordJsonIdentifies(x[i], y[i]);
    }
  }

  lemma OperationsSame(a: seq<Operation>, b: seq<Operation>)
    requires Same(OperationsJson(a), OperationsJson(b))
    ensures a == b
  {
    forall i | 0 <= i < |a|
      ensures a[i] == b[i]
    {
      assert Same(OperationsJson(a).items[i], OperationsJson(b).items[i]);
      OperationJsonIdentifies(a[i], b[i]);
    }
  }

  /** Same JSON, same collections and operations in the same order. */
  lemma DocumentJsonIdentifies(a: Document, b: Document)
    requires Same(DocumentJson(a), DocumentJson(b))
    ensures SameDocument(a, b)
  {
    hide Same;
    SmallNamesDistinct();
    var xs, ys := DocumentValues(a), DocumentValues(b);
    ObjectsSame(DOCUMENT_NAMES, xs, ys);
    assert Same(xs[4], ys[4]) && Same(xs[5], ys[5]) && Same(xs[6], ys[6]) && Same(xs[7], ys[7]);
    assert Same(xs[8], ys[8]) && Same(xs[9], ys[9]) && Same(xs[10], ys[10]) && Same(xs[11], ys[11]);
    RecordsSame(a.records, b.records, ArtifactKind);
    RecordsSame(a.records, b.records, VersionKind);
    RecordsSame(a.records, b.records, ContentRootKind);
    RecordsSame(a.records, b.records, BlobKind);
    RecordsSame(a.records, b.records, ManifestKind);
    RecordsSame(a.records, b.records, ProvenanceKind);
    RecordsSame(a.records, b.records, ReceiptKind);
    OperationsSame(a.operations, b.operations);
    forall kind: Kind
      ensures Collection(a.records, kind) == Collection(b.records, kind)
    {
      match kind
      case ArtifactKind =>
      case VersionKind =>
      case ContentRootKind =>
      case BlobKind =>
      case ManifestKind =>
      case ProvenanceKind =>
      case ReceiptKind =>
    }
  }
}
