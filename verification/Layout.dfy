/** The JSON that is hashed and exported, written out: the names, values and order of its fields. */
module Layout {
  import opened Records
  import opened JsonText
  import opened Canonical
  import opened CanonicalIdentity
  import opened RecordJson
  import opened Requests
  import opened Content
  import opened Bundles
  import Utf8

  // ---------- Sorting an object ----------

  /** These fields, in this order, are what sorting an object leaves. */
  lemma SortedObject(names: seq<string>, values: seq<Json>, fields: seq<Field>)
    requires Distinct(names) && |names| == |values| == |fields| && InOrder(fields)
    requires forall i :: 0 <= i < |names| ==> Field(names[i], Sorted(values[i])) in fields
    ensures Sorted(Object(names, values)) == JObject(fields)
  {
    hide Less, Sorted, SortedFields;
    var o := Object(names, values).fields;
    forall i, j | 0 <= i < j < |o|
      ensures o[i].key != o[j].key
    {
      assert names[i] != names[j];
    }
    SortedFieldsAscending(o);
    SortedFieldsContent(o);
    InOrderAscends(fields);
    AscendingInside(SortedFields(o), fields);
    SortsFields(o);
  }

  lemma SortsFields(fields: seq<Field>)
    ensures Sorted(JObject(fields)) == JObject(SortedFields(fields))
  {
  }

  /** Each key is less than the next one. */
  ghost predicate InOrder(fields: seq<Field>) {
    forall i :: 0 <= i < |fields| - 1 ==> Less(fields[i].key, fields[i + 1].key)
  }

  lemma {:induction false} InOrderAscends(fields: seq<Field>)
    requires InOrder(fields)
    ensures Ascending(fields)
  {
    hide Less;
    forall i, j | 0 <= i < j < |fields|
      ensures Less(fields[i].key, fields[j].key)
    {
      LessChain(fields, i, j);
    }
  }

  lemma {:induction false} LessChain(fields: seq<Field>, i: nat, j: nat)
    requires InOrder(fields) && i < j < |fields|
    ensures Less(fields[i].key, fields[j].key)
  {
    hide Less;
    if i + 1 < j {
      LessChain(fields, i, j - 1);
      LessTransitive(fields[i].key, fields[j - 1].key, fields[j].key);
    }
  }

  /** The first difference is at place `k`. */
  lemma LessAt(a: string, b: string, k: nat)
    requires k < |a| && k < |b| && a[..k] == b[..k] && a[k] < b[k]
    ensures Less(a, b)
  {
    LessMeans(a, b);
  }

  lemma SortedStrings(ss: seq<string>)
    ensures Sorted(Texts(ss)) == JArray(seq(|ss|, i requires 0 <= i < |ss| => JString(ss[i])))
  {
    var items := Texts(ss).items;
    forall i | 0 <= i < |items|
      ensures SortedItems(items)[i] == items[i]
    {
      SortedItemsAt(items, i);
    }
    assert SortedItems(items) == items;
  }

  // Keys that begin alike.

  lemma TypeKeys()
    ensures Less("type_id", "type_version") && Less("namespace", "type_id")
  {
    LessAt("type_id", "type_version", 5);
    assert Less("namespace", "type_id");
    hide Less;
  }

  lemma RelationKeys()
    ensures Less("relation_id", "relation_version") && Less("namespace", "relation_id")
  {
    assert Less("namespace", "relation_id");
    hide Less;
    LessAt("relation_id", "relation_version", 9);
  }

  lemma ReceiptKeys()
    ensures Less("import_receipt_id", "imported_artifact_refs") && Less("imported_artifact_refs", "recorded_at")
  {
    assert Less("imported_artifact_refs", "recorded_at");
    hide Less;
    LessAt("import_receipt_id", "imported_artifact_refs", 6);
  }

  lemma OperationKeys()
    ensures Less("idempotency_key", "idempotency_scope_ref") && Less("idempotency_scope_ref", "operation_kind")
    ensures Less("operation_kind", "recorded_at") && Less("recorded_at", "request_fingerprint")
        && Less("request_fingerprint", "result_ref")
  {
    assert Less("idempotency_scope_ref", "operation_kind") && Less("operation_kind", "recorded_at");
    hide Less;
    LessAt("recorded_at", "request_fingerprint", 2);
    LessAt("request_fingerprint", "result_ref", 2);
    LessAt("idempotency_key", "idempotency_scope_ref", 12);
  }

  lemma SortedIds(ids: seq<Id>)
    ensures Sorted(Refs(ids)) == JArray(seq(|ids|, i requires 0 <= i < |ids| => JString(ids[i].text)))
  {
    SortedStrings(IdTexts(ids));
  }

  lemma Scalars()
    ensures forall s :: Sorted(JString(s)) == JString(s)
    ensures forall n :: Sorted(JInt(n)) == JInt(n)
  {
  }

  lemma ArraySorted(items: seq<Json>)
    ensures Sorted(JArray(items)).JArray? && |Sorted(JArray(items)).items| == |items|
    ensures forall i :: 0 <= i < |items| ==> Sorted(JArray(items)).items[i] == Sorted(items[i])
  {
    forall i | 0 <= i < |items|
      ensures SortedItems(items)[i] == Sorted(items[i])
    {
      SortedItemsAt(items, i);
    }
  }

  // ---------- Parts of records ----------

  lemma DigestLayout(d: Digest)
    ensures Sorted(DigestJson(d)) == JObject([Field("algorithm", JString("sha256")), Field("value", JString(d.hex))])
  {
    SortedObject(DIGEST_NAMES, [JString("sha256"), JString(d.hex)], [Field("algorithm", JString("sha256")),
                                                                     Field("value", JString(d.hex))]);
  }

  lemma TypeLayout(t: TypeRef)
    ensures Sorted(TypeJson(TYPE_NAMES, t)) ==
            JObject([Field("namespace", JString(t.namespace)), Field("type_id", JString(t.typeId)),
                     Field("type_version", JString(t.typeVersion))])
    ensures Sorted(TypeJson(RELATION_NAMES, t)) ==
            JObject([Field("namespace", JString(t.namespace)), Field("relation_id", JString(t.typeId)),
                     Field("relation_version", JString(t.typeVersion))])
  {
    Scalars();
    TypeKeys();
    RelationKeys();
    hide Sorted, Less;
    SortedObject(TYPE_NAMES, [JString(t.namespace), JString(t.typeId), JString(t.typeVersion)],
      [Field("namespace", JString(t.namespace)), Field("type_id", JString(t.typeId)),
       Field("type_version", JString(t.typeVersion))]);
    SortedObject(RELATION_NAMES, [JString(t.namespace), JString(t.typeId), JString(t.typeVersion)],
      [Field("namespace", JString(t.namespace)), Field("relation_id", JString(t.typeId)),
       Field("relation_version", JString(t.typeVersion))]);
  }

  lemma EntryLayout(e: Entry)
    ensures Sorted(EntryJson(e)) == JObject([Field("blob_ref", JString(e.blobRef.text)),
                                             Field("entry_key", JString(e.entryKey))])
  {
    Scalars();
    hide Sorted;
    SortedObject(ENTRY_NAMES, [JString(e.entryKey), JString(e.blobRef.text)],
      [Field("blob_ref", JString(e.blobRef.text)), Field("entry_key", JString(e.entryKey))]);
  }

  lemma EntriesLayout(es: seq<Entry>)
    ensures Sorted(EntriesJson(es)) ==
            JArray(seq(|es|, i requires 0 <= i < |es| =>
              JObject([Field("blob_ref", JString(es[i].blobRef.text)), Field("entry_key", JString(es[i].entryKey))])))
  {
    hide Sorted;
    ArraySorted(EntriesJson(es).items);
    forall i | 0 <= i < |es|
      ensures Sorted(EntriesJson(es).items[i]) ==
              JObject([Field("blob_ref", JString(es[i].blobRef.text)), Field("entry_key", JString(es[i].entryKey))])
    {
      EntryLayout(es[i]);
    }
  }

  // ---------- Records ----------

  lemma ArtifactLayout(r: Record)
    requires r.Artifact?
    ensures Sorted(RecordJson.RecordJson(r)) ==
            JObject([Field("artifact_id", JString(r.id.text)),
                     Field("namespace_ref", JString(r.namespaceRef)),
                     Field("recorded_at", JString(r.recordedAt)),
                     Field("type_ref", JObject([Field("namespace", JString(r.typeRef.namespace)),
                                                Field("type_id", JString(r.typeRef.typeId)),
                                              Field("type_version", JString(r.typeRef.typeVersion))]))])
  {
    TypeLayout(r.typeRef);
    Scalars();
    hide Sorted, DigestJson, TypeJson, EntriesJson, Texts, Refs, IdTexts;
    SortedObject(ARTIFACT_NAMES, Values(r),
      [Field("artifact_id", JString(r.id.text)),
       Field("namespace_ref", JString(r.namespaceRef)),
       Field("recorded_at", JString(r.recordedAt)),
       Field("type_ref", Sorted(TypeJson(TYPE_NAMES, r.typeRef)))]);
  }

  /** A version without a principal has no field for it. */
  lemma VersionLayout(r: Record)
    requires r.Version? && r.principal.None?
    ensures Sorted(RecordJson.RecordJson(r)) ==
            JObject([Field("artifact_id", JString(r.artifactId.text)),
                     Field("capture_refs", JArray(seq(|r.captures|, i requires 0 <= i < |r.captures| =>
                       JString(r.captures[i])))),
                     Field("content_root_ref", JString(r.contentRootRef.text)),
                     Field("external_source_refs", JArray(seq(|r.externalSources|, i requires 0 <= i < |r.externalSources| =>
                       JString(r.externalSources[i])))),
                     Field("handling_policy_refs", JArray(seq(|r.handlingPolicies|, i requires 0 <= i < |r.handlingPolicies| =>
                       JString(r.handlingPolicies[i])))),
                     Field("parent_version_refs", JArray(seq(|r.parents|, i requires 0 <= i < |r.parents| =>
                       JString(r.parents[i].text)))),
                     Field("recorded_at", JString(r.recordedAt)),
                     Field("version_id", JString(r.id.text))])
  {
    SortedStrings(r.captures);
    SortedStrings(r.externalSources);
    SortedStrings(r.handlingPolicies);
    SortedIds(r.parents);
    var v := [JString(r.id.text), JString(r.artifactId.text), JString(r.contentRootRef.text),
              Refs(r.parents), Texts(r.externalSources),
              Texts(r.captures), Texts(r.handlingPolicies), JString(r.recordedAt)];
    assert RecordJson.RecordJson(r) == Object(VERSION_NAMES, v);
    Scalars();
    hide RecordJson.RecordJson, VERSION_NAMES, Sorted, Texts, Refs, IdTexts, Object;
    PlainVersionSorted(v);
  }

  /** The sorted fields of a version without a principal. */
  lemma PlainVersionSorted(v: seq<Json>)
    requires |v| == 8
    ensures |VERSION_NAMES| == 8
    ensures Sorted(Object(VERSION_NAMES, v)) ==
            JObject([Field("artifact_id", Sorted(v[1])), Field("capture_refs", Sorted(v[5])),
                     Field("content_root_ref", Sorted(v[2])),
                     Field("external_source_refs", Sorted(v[4])), Field("handling_policy_refs", Sorted(v[6])),
                     Field("parent_version_refs", Sorted(v[3])), Field("recorded_at", Sorted(v[7])),
                         Field("version_id", Sorted(v[0]))])
  {
    hide Sorted;
    SortedObject(VERSION_NAMES, v,
      [Field("artifact_id", Sorted(v[1])), Field("capture_refs", Sorted(v[5])), Field("content_root_ref", Sorted(v[2])),
       Field("external_source_refs", Sorted(v[4])), Field("handling_policy_refs", Sorted(v[6])),
       Field("parent_version_refs", Sorted(v[3])), Field("recorded_at", Sorted(v[7])), Field("version_id", Sorted(v[0]))]);
  }

  lemma AttributedVersionLayout(r: Record)
    requires r.Version? && r.principal.Some?
    ensures Sorted(RecordJson.RecordJson(r)) ==
            JObject([Field("artifact_id", JString(r.artifactId.text)),
                     Field("capture_refs", JArray(seq(|r.captures|, i requires 0 <= i < |r.captures| =>
                       JString(r.captures[i])))),
                     Field("content_root_ref", JString(r.contentRootRef.text)),
                     Field("external_source_refs", JArray(seq(|r.externalSources|, i requires 0 <= i < |r.externalSources| =>
                       JString(r.externalSources[i])))),
                     Field("handling_policy_refs", JArray(seq(|r.handlingPolicies|, i requires 0 <= i < |r.handlingPolicies| =>
                       JString(r.handlingPolicies[i])))),
                     Field("parent_version_refs", JArray(seq(|r.parents|, i requires 0 <= i < |r.parents| =>
                       JString(r.parents[i].text)))),
                     Field("principal_ref", JString(r.principal.value)),
                     Field("recorded_at", JString(r.recordedAt)),
                     Field("version_id", JString(r.id.text))])
  {
    SortedStrings(r.captures);
    SortedStrings(r.externalSources);
    SortedStrings(r.handlingPolicies);
    SortedIds(r.parents);
    var v := [JString(r.id.text), JString(r.artifactId.text), JString(r.contentRootRef.text),
              Refs(r.parents), Texts(r.externalSources),
              Texts(r.captures), Texts(r.handlingPolicies), JString(r.recordedAt), JString(r.principal.value)];
    assert RecordJson.RecordJson(r) == Object(ATTRIBUTED_VERSION_NAMES, v);
    Scalars();
    hide RecordJson.RecordJson, ATTRIBUTED_VERSION_NAMES, Sorted, Texts, Refs, IdTexts, Object;
    VersionSorted(v);
  }

  /** The sorted fields of a version with a principal. */
  lemma VersionSorted(v: seq<Json>)
    requires |v| == 9
    ensures |ATTRIBUTED_VERSION_NAMES| == 9
    ensures Sorted(Object(ATTRIBUTED_VERSION_NAMES, v)) ==
            JObject([Field("artifact_id", Sorted(v[1])), Field("capture_refs", Sorted(v[5])),
                     Field("content_root_ref", Sorted(v[2])),
                     Field("external_source_refs", Sorted(v[4])), Field("handling_policy_refs", Sorted(v[6])),
                     Field("parent_version_refs", Sorted(v[3])), Field("principal_ref", Sorted(v[8])),
                     Field("recorded_at", Sorted(v[7])), Field("version_id", Sorted(v[0]))])
  {
    hide Sorted;
    SortedObject(ATTRIBUTED_VERSION_NAMES, v,
      [Field("artifact_id", Sorted(v[1])), Field("capture_refs", Sorted(v[5])), Field("content_root_ref", Sorted(v[2])),
       Field("external_source_refs", Sorted(v[4])), Field("handling_policy_refs", Sorted(v[6])),
       Field("parent_version_refs", Sorted(v[3])), Field("principal_ref", Sorted(v[8])), Field("recorded_at", Sorted(v[7])),
       Field("version_id", Sorted(v[0]))]);
  }

  lemma BlobRootLayout(r: Record)
    requires r.ContentRoot? && r.target.BlobTarget?
    ensures Sorted(RecordJson.RecordJson(r)) ==
            JObject([Field("blob_ref", JString(r.target.ref.text)),
                     Field("content_root_ref", JString(r.id.text)),
                     Field("kind", JString("blob"))])
  {
    Scalars();
    hide Sorted, DigestJson, TypeJson, EntriesJson, Texts, Refs, IdTexts;
    SortedObject(BLOB_ROOT_NAMES, Values(r),
      [Field("blob_ref", JString(r.target.ref.text)),
       Field("content_root_ref", JString(r.id.text)),
       Field("kind", JString("blob"))]);
  }

  lemma ManifestRootLayout(r: Record)
    requires r.ContentRoot? && r.target.ManifestTarget?
    ensures Sorted(RecordJson.RecordJson(r)) ==
            JObject([Field("content_root_ref", JString(r.id.text)),
                     Field("kind", JString("manifest")),
                     Field("manifest_ref", JString(r.target.ref.text))])
  {
    Scalars();
    hide Sorted, DigestJson, TypeJson, EntriesJson, Texts, Refs, IdTexts;
    SortedObject(MANIFEST_ROOT_NAMES, Values(r),
      [Field("content_root_ref", JString(r.id.text)),
       Field("kind", JString("manifest")),
       Field("manifest_ref", JString(r.target.ref.text))]);
  }

  lemma BlobLayout(r: Record)
    requires r.Blob?
    ensures Sorted(RecordJson.RecordJson(r)) ==
            JObject([Field("blob_ref", JString(r.id.text)),
                     Field("byte_length", JInt(r.byteLength)),
                     Field("digest", JObject([Field("algorithm", JString("sha256")),
                                              Field("value", JString(r.digest.hex))])),
                     Field("payload_availability", JString("available"))])
  {
    DigestLayout(r.digest);
    Scalars();
    hide Sorted, DigestJson, TypeJson, EntriesJson, Texts, Refs, IdTexts;
    SortedObject(BLOB_NAMES, Values(r),
      [Field("blob_ref", JString(r.id.text)),
       Field("byte_length", JInt(r.byteLength)),
       Field("digest", Sorted(DigestJson(r.digest))),
       Field("payload_availability", JString("available"))]);
  }

  lemma ManifestLayout(r: Record)
    requires r.Manifest?
    ensures Sorted(RecordJson.RecordJson(r)) ==
            JObject([Field("digest", JObject([Field("algorithm", JString("sha256")),
                                              Field("value", JString(r.digest.hex))])),
                     Field("entries", JArray(seq(|r.entries|, i requires 0 <= i < |r.entries| =>
                         JObject([Field("blob_ref", JString(r.entries[i].blobRef.text)),
                                  Field("entry_key", JString(r.entries[i].entryKey))])))),
                     Field("manifest_ref", JString(r.id.text))])
  {
    DigestLayout(r.digest);
    EntriesLayout(r.entries);
    Scalars();
    hide Sorted, DigestJson, TypeJson, EntriesJson, Texts, Refs, IdTexts;
    SortedObject(MANIFEST_NAMES, Values(r),
      [Field("digest", Sorted(DigestJson(r.digest))),
       Field("entries", Sorted(EntriesJson(r.entries))),
       Field("manifest_ref", JString(r.id.text))]);
  }

  lemma ObjectKinds(k: ObjectKind)
    ensures ObjectKindText(k) == match k
      case ArtifactVersionObject => "artifact_version" case ExternalSource => "external_source" case Capture => "capture"
      case Principal => "principal" case Policy => "policy" case RuntimeRef => "runtime_ref" case OtherObject => "other"
  {
  }

  lemma AboutLayout(about: ProvenanceObject)
    ensures Sorted(Object(PROVENANCE_OBJECT_NAMES, [JString(ObjectKindText(about.kind)), JString(about.ref)])) ==
            JObject([Field("kind", JString(ObjectKindText(about.kind))), Field("ref", JString(about.ref))])
  {
    Scalars();
    hide Sorted, ObjectKindText;
    SortedObject(PROVENANCE_OBJECT_NAMES, [JString(ObjectKindText(about.kind)), JString(about.ref)],
      [Field("kind", JString(ObjectKindText(about.kind))), Field("ref", JString(about.ref))]);
  }

  lemma ProvenanceLayout(r: Record)
    requires r.Provenance?
    ensures Sorted(RecordJson.RecordJson(r)) ==
            JObject([Field("object", JObject([Field("kind", JString(ObjectKindText(r.about.kind))),
                                              Field("ref", JString(r.about.ref))])),
                     Field("provenance_id", JString(r.id.text)),
                     Field("recorded_at", JString(r.recordedAt)),
                     Field("relation_ref", JObject([Field("namespace", JString(r.relation.namespace)),
                                                    Field("relation_id", JString(r.relation.typeId)),
                                                  Field("relation_version", JString(r.relation.typeVersion))])),
                     Field("subject_version_ref", JString(r.subject.text))])
  {
    TypeLayout(r.relation);
    AboutLayout(r.about);
    var about := Object(PROVENANCE_OBJECT_NAMES, [JString(ObjectKindText(r.about.kind)), JString(r.about.ref)]);
    var v := [JString(r.id.text), JString(r.subject.text), TypeJson(RELATION_NAMES, r.relation), about,
              JString(r.recordedAt)];
    assert RecordJson.RecordJson(r) == Object(PROVENANCE_NAMES, v);
    Scalars();
    hide RecordJson.RecordJson, PROVENANCE_NAMES, PROVENANCE_OBJECT_NAMES, Sorted, TypeJson, Object, ObjectKindText;
    LinkSorted(v);
  }

  /** The sorted fields of a provenance link. */
  lemma LinkSorted(v: seq<Json>)
    requires |v| == 5
    ensures |PROVENANCE_NAMES| == 5
    ensures Sorted(Object(PROVENANCE_NAMES, v)) ==
            JObject([Field("object", Sorted(v[3])), Field("provenance_id", Sorted(v[0])),
                     Field("recorded_at", Sorted(v[4])),
                     Field("relation_ref", Sorted(v[2])), Field("subject_version_ref", Sorted(v[1]))])
  {
    hide Sorted;
    SortedObject(PROVENANCE_NAMES, v,
      [Field("object", Sorted(v[3])), Field("provenance_id", Sorted(v[0])), Field("recorded_at", Sorted(v[4])),
       Field("relation_ref", Sorted(v[2])), Field("subject_version_ref", Sorted(v[1]))]);
  }

  lemma ReceiptLayout(r: Record)
    requires r.Receipt?
    ensures Sorted(RecordJson.RecordJson(r)) ==
            JObject([Field("import_receipt_id", JString(r.id.text)),
                     Field("imported_artifact_refs", JArray(seq(|r.importedArtifacts|, i requires 0 <= i < |r.importedArtifacts| =>
                       JString(r.importedArtifacts[i].text)))),
                     Field("recorded_at", JString(r.recordedAt))])
  {
    assert RecordJson.RecordJson(r) == Object(RECEIPT_NAMES, [JString(r.id.text),
                                                              Refs(r.importedArtifacts), JString(r.recordedAt)]);
    Scalars();
    hide *;
    ReceiptSorted(r.id.text, Refs(r.importedArtifacts), r.recordedAt);
    SortedIds(r.importedArtifacts);
  }

  lemma ReceiptSorted(id: string, imported: Json, recordedAt: string)
    ensures |RECEIPT_NAMES| == 3
    ensures Sorted(Object(RECEIPT_NAMES, [JString(id), imported, JString(recordedAt)])) ==
            JObject([Field("import_receipt_id", JString(id)), Field("imported_artifact_refs", Sorted(imported)),
                     Field("recorded_at", JString(recordedAt))])
  {
    ReceiptKeys();
    Scalars();
    hide Sorted, Less;
    SortedObject(RECEIPT_NAMES, [JString(id), imported, JString(recordedAt)],
      [Field("import_receipt_id", JString(id)), Field("imported_artifact_refs", Sorted(imported)),
       Field("recorded_at", JString(recordedAt))]);
  }

  lemma OperationLayout(o: Operation)
    ensures Sorted(OperationJson(o)) ==
            JObject([Field("idempotency_key", JString(o.triple.key.text)),
                     Field("idempotency_scope_ref", JString(o.triple.scope.text)),
                     Field("operation_kind", JString(match o.triple.kind case CreateArtifact =>
                                                     "create_artifact" case AppendVersion => "append_version"
                                                   case ImportBundle => "import_bundle")),
                     Field("recorded_at", JString(o.recordedAt)),
                     Field("request_fingerprint", JObject([Field("algorithm", JString("sha256")),
                                                           Field("value", JString(o.fingerprint.hex))])),
                     Field("result_ref", JString(o.resultRef.text))])
  {
    DigestLayout(o.fingerprint);
    OperationKeys();
    Scalars();
    hide Sorted, Less, DigestJson, TypeJson, EntriesJson, Texts, Refs, IdTexts;
    SortedObject(OPERATION_NAMES, OperationValues(o),
      [Field("idempotency_key", JString(o.triple.key.text)),
       Field("idempotency_scope_ref", JString(o.triple.scope.text)),
       Field("operation_kind", JString(match o.triple.kind case CreateArtifact => "create_artifact" case AppendVersion =>
                                       "append_version"
                                                   case ImportBundle => "import_bundle")),
       Field("recorded_at", JString(o.recordedAt)),
       Field("request_fingerprint", Sorted(DigestJson(o.fingerprint))),
       Field("result_ref", JString(o.resultRef.text))]);
  }

  // ---------- Documents ----------

  lemma BaselineLayout()
    ensures Sorted(BASELINE) ==
            JObject([Field("commit", JString("9e2bc8217f05d5b604e24fa56dad2525f35983f1")),
                     Field("repository", JString("kongbu0621/code-driver-theory"))])
  {
    Scalars();
    hide Sorted;
    SortedObject(BASELINE_NAMES,
      [JString("kongbu0621/code-driver-theory"), JString("9e2bc8217f05d5b604e24fa56dad2525f35983f1")],
      [Field("commit", JString("9e2bc8217f05d5b604e24fa56dad2525f35983f1")),
       Field("repository", JString("kongbu0621/code-driver-theory"))]);
  }

  lemma DocumentKeys()
    ensures Less("artifacts", "blobs") && Less("blobs", "content_roots") && Less("content_roots", "contract_status")
    ensures Less("contract_status", "contract_version") && Less("contract_version", "idempotency_records")
    ensures Less("idempotency_records", "import_receipts") && Less("import_receipts", "manifests")
    ensures Less("manifests", "provenance_links") && Less("provenance_links", "schema_id")
        && Less("schema_id", "theory_baseline")
    ensures Less("theory_baseline", "versions")
  {
    EarlyKeys();
    LateKeys();
    hide Less;
  }

  lemma EarlyKeys()
    ensures Less("artifacts", "blobs") && Less("blobs", "content_roots") && Less("content_roots", "contract_status")
    ensures Less("contract_status", "contract_version") && Less("contract_version", "idempotency_records")
  {
    assert Less("artifacts", "blobs") && Less("blobs", "content_roots") && Less("contract_version", "idempotency_records");
    hide Less;
    LessAt("content_roots", "contract_status", 4);
    LessAt("contract_status", "contract_version", 9);
  }

  lemma LateKeys()
    ensures Less("idempotency_records", "import_receipts") && Less("import_receipts", "manifests")
    ensures Less("manifests", "provenance_links") && Less("provenance_links", "schema_id")
        && Less("schema_id", "theory_baseline")
    ensures Less("theory_baseline", "versions")
  {
  }

  /** A metadata document, field by field. */
  lemma DocumentLayout(d: Document)
    ensures Sorted(DocumentJson(d)) ==
            JObject([Field("artifacts", Sorted(RecordsJson(Collection(d.records, ArtifactKind)))),
                     Field("blobs", Sorted(RecordsJson(Collection(d.records, BlobKind)))),
                     Field("content_roots", Sorted(RecordsJson(Collection(d.records, ContentRootKind)))),
                     Field("contract_status", JString("candidate")),
                     Field("contract_version", JString("0.1.0")),
                     Field("idempotency_records", Sorted(OperationsJson(d.operations))),
                     Field("import_receipts", Sorted(RecordsJson(Collection(d.records, ReceiptKind)))),
                     Field("manifests", Sorted(RecordsJson(Collection(d.records, ManifestKind)))),
                     Field("provenance_links", Sorted(RecordsJson(Collection(d.records, ProvenanceKind)))),
                     Field("schema_id", JString("urn:code-driver-theory:artifact-ledger:v0.1:candidate")),
                     Field("theory_baseline", JObject([Field("commit", JString("9e2bc8217f05d5b604e24fa56dad2525f35983f1")),
                                                       Field("repository", JString("kongbu0621/code-driver-theory"))])),
                     Field("versions", Sorted(RecordsJson(Collection(d.records, VersionKind))))])
  {
    BaselineLayout();
    Scalars();
    hide Sorted, Less, RecordsJson, OperationsJson, Collection, BASELINE, DOCUMENT_NAMES;
    DocumentSorted(DocumentValues(d));
  }

  /** The sorted fields of an object with the names of a document. */
  function DocumentFields(v: seq<Json>): seq<Field>
    requires |v| == 12
  {
    [Field("artifacts", Sorted(v[4])), Field("blobs", Sorted(v[7])), Field("content_roots", Sorted(v[6])),
     Field("contract_status", Sorted(v[1])), Field("contract_version", Sorted(v[0])),
         Field("idempotency_records", Sorted(v[11])),
     Field("import_receipts", Sorted(v[10])), Field("manifests", Sorted(v[8])), Field("provenance_links", Sorted(v[9])),
     Field("schema_id", Sorted(v[2])), Field("theory_baseline", Sorted(v[3])), Field("versions", Sorted(v[5]))]
  }

  lemma DocumentInOrder(v: seq<Json>)
    requires |v| == 12
    ensures InOrder(DocumentFields(v))
  {
    DocumentKeys();
    hide Less, Sorted;
  }

  lemma DocumentPlaces(v: seq<Json>)
    requires |v| == 12
    ensures |DOCUMENT_NAMES| == 12 && forall i :: 0 <= i < 12 ==> Field(DOCUMENT_NAMES[i], Sorted(v[i])) in DocumentFields(v)
  {
    hide Sorted;
    var f, n := DocumentFields(v), DOCUMENT_NAMES;
    assert f[4] == Field(n[0], Sorted(v[0])) && f[3] == Field(n[1], Sorted(v[1])) && f[9] == Field(n[2], Sorted(v[2]));
    assert f[10] == Field(n[3], Sorted(v[3])) && f[0] == Field(n[4], Sorted(v[4])) && f[11] == Field(n[5], Sorted(v[5]));
    assert f[2] == Field(n[6], Sorted(v[6])) && f[1] == Field(n[7], Sorted(v[7])) && f[7] == Field(n[8], Sorted(v[8]));
    assert f[8] == Field(n[9], Sorted(v[9])) && f[6] == Field(n[10], Sorted(v[10])) && f[5] == Field(n[11], Sorted(v[11]));
  }

  lemma DocumentSorted(v: seq<Json>)
    requires |v| == 12
    ensures |DOCUMENT_NAMES| == 12 && Sorted(Object(DOCUMENT_NAMES, v)) == JObject(DocumentFields(v))
  {
    hide *;
    SmallNamesDistinct();
    DocumentInOrder(v);
    DocumentPlaces(v);
    DocumentFieldsCount(v);
    SortedObject(DOCUMENT_NAMES, v, DocumentFields(v));
  }

  lemma DocumentFieldsCount(v: seq<Json>)
    requires |v| == 12
    ensures |DocumentFields(v)| == 12
  {
  }

  /** A collection lists the JSON of its records in their order. */
  lemma CollectionLayout(rs: seq<Record>, os: seq<Operation>)
    ensures Sorted(RecordsJson(rs)).JArray? && |Sorted(RecordsJson(rs)).items| == |rs|
    ensures forall i :: 0 <= i < |rs| ==> Sorted(RecordsJson(rs)).items[i] == Sorted(RecordJson.RecordJson(rs[i]))
    ensures Sorted(OperationsJson(os)).JArray? && |Sorted(OperationsJson(os)).items| == |os|
    ensures forall i :: 0 <= i < |os| ==> Sorted(OperationsJson(os)).items[i] == Sorted(OperationJson(os[i]))
  {
    hide Sorted, RecordJson.RecordJson, OperationJson;
    ArraySorted(RecordsJson(rs).items);
    ArraySorted(OperationsJson(os).items);
  }

  // ---------- Requests ----------

  /** Sorting an object without one of its fields leaves what sorting the whole object leaves, without it. */
  lemma {:induction false} SortedWithout(fields: seq<Field>, i: nat)
    requires i < |fields| && UniqueKeys(fields)
    ensures exists k :: 0 <= k < |SortedFields(fields)| && SortedFields(fields)[k].key == fields[i].key
                        && SortedFields(Without(fields, i)) == Without(SortedFields(fields), k)
  {
    hide *;
    var rest, whole := Without(fields, i), SortedFields(fields);
    SortedFieldsContent(fields);
    SortedFieldsAscending(fields);
    UniqueWithout(fields, i);
    SortedFieldsContent(rest);
    SortedFieldsAscending(rest);
    var k :| 0 <= k < |whole| && whole[k] == SortedField(fields[i]);
    AscendingWithout(whole, k);
    WithoutContent(fields, i, whole, k, SortedFields(rest));
    AscendingInside(SortedFields(rest), Without(whole, k));
    FieldKey(fields[i]);
  }

  lemma FieldKey(f: Field)
    ensures SortedField(f).key == f.key
  {
  }

  lemma UniqueWithout(fields: seq<Field>, i: nat)
    requires i < |fields| && UniqueKeys(fields)
    ensures UniqueKeys(Without(fields, i))
  {
  }

  lemma AscendingWithout(fields: seq<Field>, k: nat)
    requires k < |fields| && Ascending(fields)
    ensures Ascending(Without(fields, k))
  {
    hide Less;
  }

  /** What is left without one field is what is sorted without it. */
  lemma WithoutContent(fields: seq<Field>, i: nat, whole: seq<Field>, k: nat, sorted: seq<Field>)
    requires i < |fields| && UniqueKeys(fields) && k < |whole| && whole[k] == SortedField(fields[i])
    requires forall n :: 0 <= n < |fields| ==> SortedField(fields[n]) in whole
    requires forall f :: f in sorted ==> exists n :: 0 <= n < |Without(fields, i)| && f == SortedField(Without(fields, i)[n])
    ensures forall f :: f in sorted ==> f in Without(whole, k)
  {
    hide Sorted;
    var rest, shorter := Without(fields, i), Without(whole, k);
    forall f | f in sorted
      ensures f in shorter
    {
      var n :| 0 <= n < |rest| && f == SortedField(rest[n]);
      var m := if n < i then n else n + 1;
      assert rest[n] == fields[m] && fields[m].key != fields[i].key;
      var q :| 0 <= q < |whole| && whole[q] == SortedField(fields[m]);
      assert q != k;
      assert shorter[if q < k then q else q - 1] == f;
    }
  }

  /** A new record is written like a stored one, without the field for its time. */
  lemma NewRecordLayout(r: Record)
    requires Untimed(r)
    ensures exists k :: 0 <= k < |Sorted(RecordJson.RecordJson(r)).fields|
                        && Sorted(RecordJson.RecordJson(r)).fields[k].key == "recorded_at"
                        && Sorted(NewRecordJson(r)) == JObject(Without(Sorted(RecordJson.RecordJson(r)).fields, k))
  {
    var whole, t := RecordJson.RecordJson(r).fields, TimeIndex(r);
    hide Sorted, Less, Values, SortedFields;
    NamesDistinct(r);
    forall i, j | 0 <= i < j < |whole|
      ensures whole[i].key != whole[j].key
    {
      assert Names(r)[i] != Names(r)[j];
    }
    assert NewRecordJson(r).fields == Without(whole, t);
    SortsFields(whole);
    SortsFields(Without(whole, t));
    SortedWithout(whole, t);
  }

  lemma AppendKeys()
    ensures Less("blobs", "content_roots") && Less("content_roots", "manifests") && Less("manifests", "provenance_links")
    ensures Less("provenance_links", "version")
  {
  }

  /** What is fingerprinted of a creation, of an append and of an import. */
  lemma BodyLayout(body: Body, bundle: Document)
    requires Shaped(body)
    ensures Sorted(BodyJson(body, bundle)) ==
            match body
            case CreateBody(artifact) => JObject([Field("artifact", Sorted(NewRecordJson(artifact)))])
            case AppendBody(version, roots, blobs, manifests, links) =>
              JObject([Field("blobs", Sorted(RecordsJson(blobs))), Field("content_roots", Sorted(RecordsJson(roots))),
                       Field("manifests", Sorted(RecordsJson(manifests))),
                           Field("provenance_links", Sorted(NewRecordsJson(links))),
                       Field("version", Sorted(NewRecordJson(version)))])
            case ImportBody(receiptId) =>
              JObject([Field("bundle", Sorted(DocumentJson(bundle))), Field("import_receipt_id", JString(receiptId.text))])
  {
    hide Sorted, Less, NewRecordJson, RecordsJson, NewRecordsJson, DocumentJson, Object;
    match body
    case CreateBody(artifact) => CreateSorted(NewRecordJson(artifact));
    case AppendBody(version, roots, blobs, manifests, links) =>
      AppendSorted(NewRecordJson(version), RecordsJson(roots), RecordsJson(blobs),
                   RecordsJson(manifests), NewRecordsJson(links));
    case ImportBody(receiptId) => ImportSorted(receiptId.text, DocumentJson(bundle));
  }

  lemma CreateSorted(artifact: Json)
    ensures |CREATE_NAMES| == 1 && Sorted(Object(CREATE_NAMES, [artifact])) == JObject([Field("artifact", Sorted(artifact))])
  {
    hide Sorted, Less;
    SortedObject(CREATE_NAMES, [artifact], [Field("artifact", Sorted(artifact))]);
  }

  lemma ImportSorted(id: string, bundle: Json)
    ensures |IMPORT_NAMES| == 2
    ensures Sorted(Object(IMPORT_NAMES, [JString(id), bundle])) ==
            JObject([Field("bundle", Sorted(bundle)), Field("import_receipt_id", JString(id))])
  {
    Scalars();
    assert Less("bundle", "import_receipt_id");
    hide Sorted, Less;
    SortedObject(IMPORT_NAMES, [JString(id), bundle], [Field("bundle", Sorted(bundle)),
                                                       Field("import_receipt_id", JString(id))]);
  }

  lemma AppendSorted(version: Json, roots: Json, blobs: Json, manifests: Json, links: Json)
    ensures |APPEND_NAMES| == 5
    ensures Sorted(Object(APPEND_NAMES, [version, roots, blobs, manifests, links])) ==
            JObject([Field("blobs", Sorted(blobs)), Field("content_roots", Sorted(roots)),
                     Field("manifests", Sorted(manifests)),
                     Field("provenance_links", Sorted(links)), Field("version", Sorted(version))])
  {
    AppendKeys();
    hide Sorted, Less;
    SortedObject(APPEND_NAMES, [version, roots, blobs, manifests, links],
      [Field("blobs", Sorted(blobs)), Field("content_roots", Sorted(roots)), Field("manifests", Sorted(manifests)),
       Field("provenance_links", Sorted(links)), Field("version", Sorted(version))]);
  }

  // ---------- What a manifest's digest and a request's fingerprint cover ----------

  lemma ManifestDigestLayout(es: seq<Entry>)
    ensures ManifestDigest(es) == Sha256(Utf8.Encode(Dump(JObject([Field("entries",
              JArray(seq(|es|, i requires 0 <= i < |es| =>
                JObject([Field("blob_ref", JString(es[i].blobRef.text)),
                         Field("entry_key", JString(es[i].entryKey))]))))]))))
  {
    EntriesLayout(es);
    hide Sorted, EntriesJson, Dump;
    SortedObject(ENTRIES_NAMES, [EntriesJson(es)], [Field("entries", Sorted(EntriesJson(es)))]);
  }

  lemma EnvelopeKeys()
    ensures Less("body", "contract_version") && Less("contract_version", "idempotency_scope_ref")
    ensures Less("idempotency_scope_ref", "operation_kind")
  {
  }

  /** The fingerprint covers exactly these four fields: not the profile, and not the key. */
  lemma FingerprintLayout(request: Request, bundle: Document)
    requires Shaped(request.body)
    ensures Fingerprint(request, bundle) ==
            Sha256(Utf8.Encode(Dump(JObject([
              Field("body", Sorted(BodyJson(request.body, bundle))),
              Field("contract_version", JString("0.1.0")),
              Field("idempotency_scope_ref", JString(request.scope.text)),
              Field("operation_kind", JString(match request.body
                case CreateBody(_) => "create_artifact" case AppendBody(_, _, _, _, _) => "append_version"
                case ImportBody(_) => "import_bundle"))]))))
  {
    hide Sorted, Less, BodyJson, Dump;
    EnvelopeSorted(request.scope.text, OperationKindText(request.Kind()), BodyJson(request.body, bundle));
  }

  lemma EnvelopeSorted(scope: string, kind: string, body: Json)
    ensures Sorted(EnvelopeJson("0.1.0", scope, kind, body)) ==
            JObject([Field("body", Sorted(body)), Field("contract_version", JString("0.1.0")),
                     Field("idempotency_scope_ref", JString(scope)), Field("operation_kind", JString(kind))])
  {
    EnvelopeKeys();
    Scalars();
    hide Sorted, Less;
    SortedObject(ENVELOPE_NAMES, [JString("0.1.0"), JString(scope), JString(kind), body],
      [Field("body", Sorted(body)), Field("contract_version", JString("0.1.0")),
       Field("idempotency_scope_ref", JString(scope)), Field("operation_kind", JString(kind))]);
  }

  // ---------- Bundles ----------

  lemma ContentLayout(c: Content)
    ensures Sorted(ContentJson(c)) ==
            JObject([Field("byte_length", JInt(c.byteLength)), Field("data", JString(c.data)),
                     Field("digest", JObject([Field("algorithm", JString("sha256")),
                                              Field("value", JString(c.digest.hex))])),
                     Field("encoding", JString("base64"))])
  {
    DigestLayout(c.digest);
    Scalars();
    hide Sorted, DigestJson;
    SortedObject(CONTENT_NAMES, [JString("base64"), JString(c.data), JInt(c.byteLength), DigestJson(c.digest)],
      [Field("byte_length", JInt(c.byteLength)), Field("data", JString(c.data)),
       Field("digest", Sorted(DigestJson(c.digest))),
       Field("encoding", JString("base64"))]);
  }

  lemma PayloadLayout(e: PayloadEntry)
    ensures Sorted(PayloadJson(e)) ==
            JObject([Field("blob_ref", JString(e.ref.text)), Field("byte_length", JInt(e.content.byteLength)),
                     Field("data", JString(e.content.data)),
                     Field("digest", JObject([Field("algorithm", JString("sha256")),
                                              Field("value", JString(e.content.digest.hex))])),
                     Field("encoding", JString("base64"))])
  {
    DigestLayout(e.content.digest);
    Scalars();
    var values := [JString(e.ref.text), JString("base64"), JString(e.content.data), JInt(e.content.byteLength), DigestJson(e.content.digest)];
    assert [JString(e.ref.text)] + ContentValues(e.content) == values;
    hide Sorted, DigestJson;
    SortedObject(PAYLOAD_NAMES, values,
      [Field("blob_ref", JString(e.ref.text)), Field("byte_length", JInt(e.content.byteLength)),
       Field("data", JString(e.content.data)),
       Field("digest", Sorted(DigestJson(e.content.digest))), Field("encoding", JString("base64"))]);
  }

  lemma DescriptorKeys()
    ensures Less("package_byte_length", "package_digest") && Less("package_digest", "transport_version")
  {
    assert Less("package_digest", "transport_version");
    hide Less;
    LessAt("package_byte_length", "package_digest", 8);
  }

  lemma DescriptorLayout(length: nat, digest: Digest)
    ensures Sorted(DescriptorJson(length, digest)) ==
            JObject([Field("package_byte_length", JInt(length)),
                     Field("package_digest", JObject([Field("algorithm", JString("sha256")),
                                                      Field("value", JString(digest.hex))])),
                     Field("transport_version", JString("0.1.0"))])
  {
    DigestLayout(digest);
    DescriptorKeys();
    Scalars();
    hide Sorted, Less, DigestJson;
    SortedObject(DESCRIPTOR_NAMES, [JString("0.1.0"), JInt(length), DigestJson(digest)],
      [Field("package_byte_length", JInt(length)), Field("package_digest", Sorted(DigestJson(digest))),
       Field("transport_version", JString("0.1.0"))]);
  }
}
