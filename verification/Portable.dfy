/** Whatever is exported can be imported, and is the same again. */
module Portable {
  import opened Records
  import opened JsonText
  import opened Canonical
  import opened CanonicalIdentity
  import opened RecordJson
  import opened Validity
  import opened LedgerState
  import opened Replay
  import opened Content
  import opened Bundles
  import opened BundleSizes
  import opened Parsing
  import opened Export
  import opened IdOrder
  import Base64
  import Order
  import Utf8

  // ---------- The layers of decode_bundle ----------

  /** The bytes were parsed and mean the same as this JSON value. */
  ghost predicate Denotes(parsed: Option<Json>, j: Json) { parsed.Some? && Same(parsed.value, j) }

  /** The descriptor is the one of this package, which consists of a metadata entry and payload entries. */
  ghost predicate Layers(bundle: Bundle, metadata: Content, entries: seq<PayloadEntry>) {
    && Denotes(ParseJson(bundle.descriptor, MAX_DESCRIPTOR), DescriptorJson(|bundle.package|, Sha256(bundle.package)))
    && Denotes(ParseJson(bundle.package, MAX_PACKAGE), PackageJson(metadata, entries))
  }

  /** Metadata bytes that denote a valid document. */
  ghost predicate DenotesDocument(metadata: Content, d: Document) {
    exists raw :: Describes(metadata, raw, MAX_JSON) && Denotes(ParseJson(raw, MAX_JSON), DocumentJson(d)) && ValidDocument(d)
  }

  /** `decode_bundle` accepts the bundle and returns this document and these payloads. */
  ghost predicate Unpacks(bundle: Bundle, d: Document, data: map<Id, Bytes>) {
    exists metadata, entries ::
      && Layers(bundle, metadata, entries) && DenotesDocument(metadata, d)
      && Acceptable(entries, Index(d.records)) && data == Contents(entries)
  }

  // ---------- Ordered documents ----------

  lemma SameIndex(a: seq<Record>, b: seq<Record>)
    requires UniqueIds(a) && UniqueIds(b) && forall r :: r in a <==> r in b
    ensures Index(a) == Index(b)
  {
    hide UniqueIds;
    forall id | id in Index(a)
      ensures id in Index(b) && Index(b)[id] == Index(a)[id]
    {
      IndexAt(b, Index(a)[id]);
    }
    forall id | id in Index(b)
      ensures id in Index(a)
    {
      IndexAt(a, Index(b)[id]);
    }
  }

  lemma SameOperationIndex(a: seq<Operation>, b: seq<Operation>)
    requires UniqueTriples(a) && UniqueTriples(b) && forall o :: o in a <==> o in b
    ensures OperationIndex(a) == OperationIndex(b)
  {
    hide UniqueTriples;
    forall t | t in OperationIndex(a)
      ensures t in OperationIndex(b) && OperationIndex(b)[t] == OperationIndex(a)[t]
    {
      OperationIndexAt(b, OperationIndex(a)[t]);
    }
    forall t | t in OperationIndex(b)
      ensures t in OperationIndex(a)
    {
      OperationIndexAt(a, OperationIndex(b)[t]);
    }
  }

  lemma RecordKeys(r: Record, s: Record)
    ensures RecordKey(r) == RecordKey(s) <==> r.id == s.id
  {
    assert RecordKey(r)[0] == r.id.text && RecordKey(s)[0] == s.id.text;
  }

  lemma OperationKeys(o: Operation, p: Operation)
    ensures OperationKey(o) == OperationKey(p) <==> o.triple == p.triple
  {
    assert OperationKey(o)[0] == o.triple.scope.text && OperationKey(p)[0] == p.triple.scope.text;
    assert OperationKey(o)[1] == OperationKindText(o.triple.kind) && OperationKey(p)[1] == OperationKindText(p.triple.kind);
    assert OperationKey(o)[2] == o.triple.key.text && OperationKey(p)[2] == p.triple.key.text;
  }

  /** The exported collections ascend. */
  lemma OrderedAscends(d: Document)
    requires UniqueIds(d.records) && UniqueTriples(d.operations)
    ensures Order.Ascending(RecordKey, Ordered(d).records) && Order.Ascending(OperationKey, Ordered(d).operations)
    ensures UniqueIds(Ordered(d).records) && UniqueTriples(Ordered(d).operations)
  {
    var records, operations := Ordered(d).records, Ordered(d).operations;
    forall i, j | 0 <= i < j < |d.records|
      ensures RecordKey(d.records[i]) != RecordKey(d.records[j])
    {
      RecordKeys(d.records[i], d.records[j]);
    }
    forall i, j | 0 <= i < j < |d.operations|
      ensures OperationKey(d.operations[i]) != OperationKey(d.operations[j])
    {
      OperationKeys(d.operations[i], d.operations[j]);
    }
    Order.SortAscends(RecordKey, d.records);
    Order.SortAscends(OperationKey, d.operations);
    forall i, j | 0 <= i < j < |records|
      ensures records[i].id != records[j].id
    {
      Order.AscendingKeysDiffer(RecordKey, records, i, j);
      RecordKeys(records[i], records[j]);
    }
    forall i, j | 0 <= i < j < |operations|
      ensures operations[i].triple != operations[j].triple
    {
      Order.AscendingKeysDiffer(OperationKey, operations, i, j);
      OperationKeys(operations[i], operations[j]);
    }
  }

  /** Ordering a document changes neither its records nor its operations, nor its validity. */
  lemma OrderedIsSame(d: Document)
    requires UniqueIds(d.records) && UniqueTriples(d.operations)
    ensures Index(Ordered(d).records) == Index(d.records)
    ensures OperationIndex(Ordered(d).operations) == OperationIndex(d.operations)
    ensures ValidDocument(Ordered(d)) <==> ValidDocument(d)
  {
    hide Order.Sort, Index, OperationIndex;
    OrderedAscends(d);
    SameIndex(Ordered(d).records, d.records);
    SameOperationIndex(Ordered(d).operations, d.operations);
  }

  /** The exported bytes depend only on which records, operations and payloads there are. */
  lemma ExportIgnoresOrder(d: Document, d': Document, payloads: map<Id, Bytes>)
    requires UniqueIds(d.records) && UniqueTriples(d.operations) && UniqueIds(d'.records) && UniqueTriples(d'.operations)
    requires forall r :: r in d.records <==> r in d'.records
    requires forall o :: o in d.operations <==> o in d'.operations
    ensures ExportOf(d, payloads) == ExportOf(d', payloads)
  {
    hide Order.Sort, RecordKey, OperationKey;
    OrderedAscends(d);
    OrderedAscends(d');
    Order.AscendingUnique(RecordKey, Ordered(d).records, Ordered(d').records);
    Order.AscendingUnique(OperationKey, Ordered(d).operations, Ordered(d').operations);
    assert Ordered(d) == Ordered(d');
  }

  // ---------- Payload entries of an export ----------

  lemma {:induction false} EntriesHold(ids: seq<Id>, payloads: map<Id, Bytes>, n: nat)
    requires (forall id :: id in ids ==> id in payloads) && n <= |ids|
    ensures forall id :: id in Contents(EntriesOf(ids, payloads)[..n]) <==> id in ids[..n]
    ensures forall id :: id in Contents(EntriesOf(ids, payloads)[..n]) ==> Contents(EntriesOf(ids, payloads)[..n])[id] == payloads[id]
  {
    hide Contents, EntryOf;
    var entries := EntriesOf(ids, payloads);
    if n == 0 {
      NoContents();
      assert entries[..0] == [];
    } else {
      EntriesHold(ids, payloads, n - 1);
      ContentsPrefix(entries, n - 1);
      RawOfEntry(ids[n - 1], payloads[ids[n - 1]]);
      assert ids[..n] == ids[..n - 1] + [ids[n - 1]];
    }
  }

  lemma NoContents()
    ensures Contents([]) == map[]
  {
  }

  lemma RawOfEntry(id: Id, raw: Bytes)
    ensures EntryOf(id, raw).ref == id && Raw(EntryOf(id, raw)) == raw
  {
    Base64.DecodeEncode(raw);
  }

  lemma ExportedContents(ids: seq<Id>, payloads: map<Id, Bytes>)
    requires forall id :: id in ids <==> id in payloads
    ensures Contents(EntriesOf(ids, payloads)) == payloads
  {
    hide Contents;
    EntriesHold(ids, payloads, |ids|);
    assert EntriesOf(ids, payloads)[..|ids|] == EntriesOf(ids, payloads) && ids[..|ids|] == ids;
  }

  lemma EntryIsGood(id: Id, raw: Bytes, records: RecordMap)
    requires id in BlobIds(records) && Matches(records[id], raw) && |raw| <= MAX_BLOB
    ensures Good(EntryOf(id, raw), records) && LengthOk(EntryOf(id, raw).content)
  {
    Base64.DecodeEncode(raw);
  }

  /** The entries of an export are what an import accepts. */
  lemma ExportedAcceptable(ids: seq<Id>, payloads: map<Id, Bytes>, records: RecordMap)
    requires Distinct(ids) && forall id :: id in ids <==> id in payloads
    requires payloads.Keys == BlobIds(records) && SuppliedBounded(payloads)
    requires forall id :: id in payloads ==> Matches(records[id], payloads[id])
    ensures Acceptable(EntriesOf(ids, payloads), records)
    ensures forall e :: e in EntriesOf(ids, payloads) ==> LengthOk(e.content)
  {
    hide Matches, Good, EntryOf, LengthOk, Contents, TotalSize;
    var entries := EntriesOf(ids, payloads);
    ExportedContents(ids, payloads);
    forall e | e in entries
      ensures Good(e, records) && LengthOk(e.content)
    {
      var k :| 0 <= k < |entries| && entries[k] == e;
      assert ids[k] in ids;
      EntryIsGood(ids[k], payloads[ids[k]], records);
    }
    forall i, j | 0 <= i < j < |entries|
      ensures entries[i].ref != entries[j].ref
    {
      RawOfEntry(ids[i], payloads[ids[i]]);
      RawOfEntry(ids[j], payloads[ids[j]]);
    }
  }

  // ---------- Denotation ----------

  lemma PackageDenotes(metadata: Content, entries: seq<PayloadEntry>)
    ensures Same(PackageDoc(metadata, entries), PackageJson(metadata, entries))
  {
    hide Same, Sorted, ContentJson, PayloadJson;
    var items := Items(entries);
    forall i | 0 <= i < |items|
      ensures Same(items[i], PayloadJson(entries[i]))
    {
      SortedSame(PayloadJson(entries[i]));
    }
    SameItems(JArray(items), PayloadsJson(entries));
    SortedSame(ContentJson(metadata));
    var xs := [JString("0.1.0"), JString("bounded-local-v0.1"), Sorted(ContentJson(metadata)), JArray(items)];
    var ys := PackageValues(metadata, entries);
    SameScalar(xs[0]);
    SameScalar(xs[1]);
    SameObjects(PACKAGE_NAMES, xs, ys);
  }

  lemma SameItems(a: Json, b: Json)
    requires a.JArray? && b.JArray? && |a.items| == |b.items| && forall i :: 0 <= i < |a.items| ==> Same(a.items[i], b.items[i])
    ensures Same(a, b)
  {
  }

  lemma SameScalar(j: Json)
    requires j.JString?
    ensures Same(j, j)
  {
  }

  /** Two values that a dictionary value is the same as are the same. */
  lemma SameAsBoth(x: Json, a: Json, b: Json)
    requires Dictionaries(x) && Dictionaries(a) && Dictionaries(b) && Same(x, a) && Same(x, b)
    ensures Same(a, b)
  {
    SameThenSorted(x, a);
    SameThenSorted(x, b);
    SortedThenSame(a, b);
  }

  // ---------- The JSON of documents consists of dictionaries ----------

  lemma StringsAreDictionaries(ss: seq<string>)
    ensures Dictionaries(Texts(ss))
  {
  }

  lemma NamedValues(names: seq<string>, values: seq<Json>)
    requires Distinct(names) && |names| == |values| && forall i :: 0 <= i < |values| ==> Dictionaries(values[i])
    ensures Dictionaries(Object(names, values))
  {
  }

  lemma DigestDictionary(d: Digest)
    ensures Dictionaries(DigestJson(d))
  {
    DigestMeasures(d);
  }

  lemma TypeDictionary(names: seq<string>, t: TypeRef)
    requires |names| == 3 && Distinct(names)
    ensures Dictionaries(TypeJson(names, t))
  {
    NamedValues(names, [JString(t.namespace), JString(t.typeId), JString(t.typeVersion)]);
  }

  lemma EntriesDictionary(es: seq<Entry>)
    ensures Dictionaries(EntriesJson(es))
  {
    SmallNamesDistinct();
    forall i | 0 <= i < |es|
      ensures Dictionaries(EntriesJson(es).items[i])
    {
      NamedValues(ENTRY_NAMES, [JString(es[i].entryKey), JString(es[i].blobRef.text)]);
    }
  }

  lemma ValuesAreDictionaries(r: Record)
    ensures forall i :: 0 <= i < |Values(r)| ==> Dictionaries(Values(r)[i])
  {
    hide DigestJson, TypeJson, EntriesJson, Texts;
    SmallNamesDistinct();
    match r
    case Artifact(_, _, typeRef, _) =>
      TypeDictionary(TYPE_NAMES, typeRef);
    case Version(_, _, _, parents, sources, captures, _, policies, _) =>
      StringsAreDictionaries(IdTexts(parents));
      StringsAreDictionaries(sources);
      StringsAreDictionaries(captures);
      StringsAreDictionaries(policies);
    case ContentRoot(_, _) =>
    case Blob(_, digest, _) =>
      DigestDictionary(digest);
    case Manifest(_, digest, entries) =>
      DigestDictionary(digest);
      EntriesDictionary(entries);
    case Provenance(_, _, relation, about, _) =>
      TypeDictionary(RELATION_NAMES, relation);
      NamedValues(PROVENANCE_OBJECT_NAMES, [JString(ObjectKindText(about.kind)), JString(about.ref)]);
    case Receipt(_, imported, _) =>
      StringsAreDictionaries(IdTexts(imported));
  }

  lemma RecordsDictionaries(records: seq<Record>)
    ensures Dictionaries(RecordsJson(records))
  {
    hide Values, Names;
    forall i | 0 <= i < |records|
      ensures Dictionaries(RecordsJson(records).items[i])
    {
      NamesDistinct(records[i]);
      ValuesAreDictionaries(records[i]);
      NamedValues(Names(records[i]), Values(records[i]));
    }
  }

  lemma OperationsDictionaries(operations: seq<Operation>)
    ensures Dictionaries(OperationsJson(operations))
  {
    hide DigestJson;
    SmallNamesDistinct();
    forall i | 0 <= i < |operations|
      ensures Dictionaries(OperationsJson(operations).items[i])
    {
      DigestDictionary(operations[i].fingerprint);
      NamedValues(OPERATION_NAMES, OperationValues(operations[i]));
    }
  }

  lemma DocumentDictionaries(d: Document)
    ensures Dictionaries(DocumentJson(d))
  {
    hide RecordsJson, OperationsJson, Collection;
    SmallNamesDistinct();
    RecordsDictionaries(Collection(d.records, ArtifactKind));
    RecordsDictionaries(Collection(d.records, VersionKind));
    RecordsDictionaries(Collection(d.records, ContentRootKind));
    RecordsDictionaries(Collection(d.records, BlobKind));
    RecordsDictionaries(Collection(d.records, ManifestKind));
    RecordsDictionaries(Collection(d.records, ProvenanceKind));
    RecordsDictionaries(Collection(d.records, ReceiptKind));
    OperationsDictionaries(d.operations);
    BaselineDictionary();
    NamedValues(DOCUMENT_NAMES, DocumentValues(d));
  }

  lemma BaselineDictionary()
    ensures Dictionaries(BASELINE)
  {
    assert Distinct(BASELINE_NAMES);
    NamedValues(BASELINE_NAMES,
                [JString("kongbu0621/code-driver-theory"), JString("9e2bc8217f05d5b604e24fa56dad2525f35983f1")]);
  }

  lemma ContentDictionary(c: Content)
    ensures Dictionaries(ContentJson(c))
  {
    hide DigestJson;
    ContentNamesDistinct();
    DigestDictionary(c.digest);
    NamedValues(CONTENT_NAMES, ContentValues(c));
  }

  lemma PackageDictionaries(metadata: Content, entries: seq<PayloadEntry>)
    ensures Dictionaries(PackageJson(metadata, entries))
  {
    hide DigestJson, ContentJson;
    ContentNamesDistinct();
    forall i | 0 <= i < |entries|
      ensures Dictionaries(PayloadsJson(entries).items[i])
    {
      DigestDictionary(entries[i].content.digest);
      NamedValues(PAYLOAD_NAMES, [JString(entries[i].ref.text)] + ContentValues(entries[i].content));
    }
    ContentDictionary(metadata);
    NamedValues(PACKAGE_NAMES, PackageValues(metadata, entries));
  }

  // ---------- Export is importable ----------

  /** What is known about the parts of an export. */
  lemma ExportParts(d: Document, payloads: map<Id, Bytes>)
    requires Exportable(d, payloads)
    ensures ValidDocument(d) && payloads.Keys == BlobIds(Index(d.records)) && SuppliedBounded(payloads)
    ensures forall id :: id in payloads ==> Matches(Index(d.records)[id], payloads[id])
    ensures |JsonBytes(MetaJson(d))| <= MAX_JSON && Parsable(MetaJson(d))
    ensures ParseJson(JsonBytes(MetaJson(d)), MAX_JSON) == Some(MetaJson(d))
    ensures |ExportOf(d, payloads).package| <= MAX_PACKAGE && |ExportOf(d, payloads).descriptor| <= MAX_DESCRIPTOR
  {
    hide ValidDocument, SuppliedBounded, Matches, ExportOf, MetaJson, Parsable, ParseJson, BlobIds, Index;
    ParseDump(MetaJson(d), MAX_JSON);
  }

  lemma MetaDenotes(d: Document)
    ensures Same(MetaJson(d), DocumentJson(Ordered(d)))
  {
    SortedSame(DocumentJson(Ordered(d)));
  }

  /** The node limit, checked on the metadata alone, also holds for the package around it. */
  lemma PackageFits(d: Document, payloads: map<Id, Bytes>, entries: seq<PayloadEntry>)
    requires Exportable(d, payloads) && |entries| == |payloads| && forall e :: e in entries ==> LengthOk(e.content)
    ensures Parsable(PackageDoc(ContentOf(JsonBytes(MetaJson(d))), entries))
  {
    hide ValidDocument, SuppliedBounded, Matches, ExportOf, BlobIds, Index, JsonBytes, DocumentJson, Ordered, PackageDoc, Dictionaries,
         ShortIntegers, Nodes, Depth;
    ExportParts(d, payloads);
    UniqueWhenValid(d);
    OrderedIsSame(d);
    TenPerBlob(Ordered(d));
    SortedMeasures(DocumentJson(Ordered(d)));
    assert |payloads| == |payloads.Keys|;
    PackageMeasures(ContentOf(JsonBytes(MetaJson(d))), entries);
  }

  lemma UniqueWhenValid(d: Document)
    requires ValidDocument(d)
    ensures UniqueIds(d.records) && UniqueTriples(d.operations)
  {
  }

  /** What is printed parses back, layer by layer. */
  lemma ExportLayers(d: Document, payloads: map<Id, Bytes>)
    requires Exportable(d, payloads)
    ensures var entries := EntriesOf(AscendingIds(payloads.Keys), payloads);
            var metadata := ContentOf(JsonBytes(MetaJson(d)));
            && ParseJson(ExportOf(d, payloads).package, MAX_PACKAGE) == Some(PackageDoc(metadata, entries))
            && Dictionaries(PackageDoc(metadata, entries))
            && Acceptable(entries, Index(d.records)) && Contents(entries) == payloads
            && Layers(ExportOf(d, payloads), metadata, entries)
  {
    hide ValidDocument, SuppliedBounded, Matches, BlobIds, Index, DocumentJson, Ordered, PackageDoc, Acceptable, Contents, ParseJson,
         Same, Sorted, DescriptorJson, MetaJson, Utf8.Encode, Dump, Dictionaries, ShortIntegers, Nodes, Depth, PackageJson, LengthOk,
         ContentOf, EntryOf;
    ExportParts(d, payloads);
    var ids := AscendingIds(payloads.Keys);
    var entries, metadata := EntriesOf(ids, payloads), ContentOf(JsonBytes(MetaJson(d)));
    AscendingIdsDistinct(payloads.Keys);
    ExportedContents(ids, payloads);
    ExportedAcceptable(ids, payloads, Index(d.records));
    assert |payloads| == |payloads.Keys|;
    PackageFits(d, payloads, entries);
    var b := ExportOf(d, payloads);
    assert b.package == JsonBytes(PackageDoc(metadata, entries));
    ParseDump(PackageDoc(metadata, entries), MAX_PACKAGE);
    PackageDenotes(metadata, entries);
    var descriptor := DescriptorJson(|b.package|, Sha256(b.package));
    DescriptorMeasures(|b.package|, Sha256(b.package));
    ParseDump(Sorted(descriptor), MAX_DESCRIPTOR);
    SortedSame(descriptor);
  }

  lemma AscendingIdsDistinct(keys: set<Id>)
    ensures Distinct(AscendingIds(keys))
  {
    SortIdsAscends(Enumerate(keys));
  }

  /** Whatever `encode_bundle` returns, `decode_bundle` accepts, with the same payloads and the
      metadata in ascending order. */
  lemma ExportIsImportable(d: Document, payloads: map<Id, Bytes>)
    requires Exportable(d, payloads)
    ensures Unpacks(ExportOf(d, payloads), Ordered(d), payloads)
  {
    hide ValidDocument, SuppliedBounded, Matches, BlobIds, Index, DocumentJson, Ordered, PackageDoc, Acceptable, Contents, ParseJson,
         Same, MetaJson, JsonBytes, Layers, ExportOf;
    ExportParts(d, payloads);
    ExportLayers(d, payloads);
    var raw := JsonBytes(MetaJson(d));
    MetaDenotes(d);
    UniqueWhenValid(d);
    OrderedIsSame(d);
    assert Describes(ContentOf(raw), raw, MAX_JSON);
    assert DenotesDocument(ContentOf(raw), Ordered(d));
  }

  /** And nothing else can be read from it. */
  lemma ExportReadsBack(d: Document, payloads: map<Id, Bytes>, d': Document, data: map<Id, Bytes>)
    requires Exportable(d, payloads) && Unpacks(ExportOf(d, payloads), d', data)
    ensures data == payloads && SameDocument(d', Ordered(d)) && ValidDocument(d')
  {
    hide ValidDocument, SuppliedBounded, Matches, BlobIds, Index, DocumentJson, Ordered, PackageDoc, Acceptable, Contents, ParseJson,
         Same, MetaJson, JsonBytes, ExportOf, PackageJson, Dictionaries;
    ExportParts(d, payloads);
    ExportLayers(d, payloads);
    var entries, metadata := EntriesOf(AscendingIds(payloads.Keys), payloads), ContentOf(JsonBytes(MetaJson(d)));
    var metadata', entries' :| Layers(ExportOf(d, payloads), metadata', entries') && DenotesDocument(metadata', d')
      && Acceptable(entries', Index(d'.records)) && data == Contents(entries');
    PackageDictionaries(metadata, entries);
    PackageDictionaries(metadata', entries');
    PackageDenotes(metadata, entries);
    SameAsBoth(PackageDoc(metadata, entries), PackageJson(metadata, entries), PackageJson(metadata', entries'));
    PackageSame(metadata, entries, metadata', entries');
    MetadataReadsBack(d, d', metadata);
  }

  lemma MetadataReadsBack(d: Document, d': Document, metadata: Content)
    requires metadata == ContentOf(JsonBytes(MetaJson(d))) && DenotesDocument(metadata, d')
    requires ParseJson(JsonBytes(MetaJson(d)), MAX_JSON) == Some(MetaJson(d)) && Parsable(MetaJson(d))
    ensures SameDocument(d', Ordered(d)) && ValidDocument(d')
  {
    hide ValidDocument, DocumentJson, Ordered, ParseJson, Same, MetaJson, JsonBytes, Dictionaries, Nodes, Depth, ShortIntegers,
         SameDocument, Base64.Encode;
    var raw :| Describes(metadata, raw, MAX_JSON) && Denotes(ParseJson(raw, MAX_JSON), DocumentJson(d')) && ValidDocument(d');
    Base64.EncodeInjective(raw, JsonBytes(MetaJson(d)));
    MetaDenotes(d);
    DocumentDictionaries(d');
    DocumentDictionaries(Ordered(d));
    SameAsBoth(MetaJson(d), DocumentJson(d'), DocumentJson(Ordered(d)));
    DocumentJsonIdentifies(d', Ordered(d));
  }

  /** What has been unpacked may be imported. */
  lemma UnpackedIsOk(bundle: Bundle, d: Document, data: map<Id, Bytes>)
    requires Unpacks(bundle, d, data)
    ensures BundleOk(d, data)
  {
    hide ValidDocument, Layers, ParseJson, Same, DocumentJson, Index, Matches;
    var metadata, entries :| Layers(bundle, metadata, entries) && DenotesDocument(metadata, d)
      && Acceptable(entries, Index(d.records)) && data == Contents(entries);
    AcceptableOk(entries, Index(d.records));
  }

  lemma AcceptableOk(entries: seq<PayloadEntry>, records: RecordMap)
    requires Acceptable(entries, records)
    ensures Contents(entries).Keys == BlobIds(records) && SuppliedBounded(Contents(entries))
    ensures forall id :: id in Contents(entries) ==> Matches(records[id], Contents(entries)[id])
  {
    hide Matches, Contents, Good, Raw, BlobIds;
    BlobsAreIn(records);
    forall id | id in Contents(entries)
      ensures Matches(records[id], Contents(entries)[id]) && |Contents(entries)[id]| <= MAX_BLOB
    {
      var e :| e in entries && e.ref == id;
      ContentAt(entries, e);
      GoodBytes(e, records);
    }
  }

  lemma GoodBytes(e: PayloadEntry, records: RecordMap)
    requires Good(e, records)
    ensures Matches(records[e.ref], Raw(e)) && |Raw(e)| <= MAX_BLOB
  {
  }

  lemma {:induction false} ContentAt(entries: seq<PayloadEntry>, e: PayloadEntry)
    requires DistinctRefs(entries) && e in entries
    ensures Contents(entries)[e.ref] == Raw(e)
  {
    hide Raw;
    var n := |entries| - 1;
    assert entries == entries[..n] + [entries[n]];
    if e != entries[n] {
      var k :| 0 <= k < n && entries[k] == e;
      assert entries[k].ref != entries[n].ref;
      ContentAt(entries[..n], e);
    }
  }
}
