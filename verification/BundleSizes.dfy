/** How large the JSON of a bundle is, and why a package never has too many values when its metadata
    has not. */
module BundleSizes {
  import opened Records
  import opened JsonText
  import opened Canonical
  import opened CanonicalIdentity
  import opened RecordJson
  import opened Validity
  import opened LedgerState
  import opened Content
  import opened Bundles
  import opened Parsing
  import opened Export

  // ---------- Sorting changes nothing that matters ----------

  lemma {:induction false} InsertMeasures(f: Field, fields: seq<Field>)
    ensures FieldsNodes(Insert(f, fields)) == Nodes(f.value) + FieldsNodes(fields)
    ensures FieldsDepth(Insert(f, fields)) == Max(Depth(f.value), FieldsDepth(fields))
  {
    if fields != [] && Less(fields[0].key, f.key) {
      InsertMeasures(f, fields[1..]);
      assert Insert(f, fields)[1..] == Insert(f, fields[1..]);
    } else {
      assert Insert(f, fields)[1..] == fields;
    }
  }

  lemma {:induction false} SortedMeasures(j: Json)
    ensures Nodes(Sorted(j)) == Nodes(j) && Depth(Sorted(j)) == Depth(j)
    decreases j, 1
  {
    match j
    case JArray(items) => SortedItemsMeasures(items);
    case JObject(fields) => SortedFieldsMeasures(fields);
    case _ =>
  }

  lemma {:induction false} SortedItemsMeasures(items: seq<Json>)
    ensures ItemsNodes(SortedItems(items)) == ItemsNodes(items) && ItemsDepth(SortedItems(items)) == ItemsDepth(items)
    decreases items, 0
  {
    if items != [] {
      SortedMeasures(items[0]);
      SortedItemsMeasures(items[1..]);
      assert SortedItems(items)[1..] == SortedItems(items[1..]);
    }
  }

  lemma {:induction false} SortedFieldsMeasures(fields: seq<Field>)
    ensures FieldsNodes(SortedFields(fields)) == FieldsNodes(fields) && FieldsDepth(SortedFields(fields)) == FieldsDepth(fields)
    decreases fields, 0
  {
    if fields != [] {
      SortedMeasures(fields[0].value);
      SortedFieldsMeasures(fields[1..]);
      InsertMeasures(Field(fields[0].key, Sorted(fields[0].value)), SortedFields(fields[1..]));
    }
  }

  /** A value and its sorted form are the same JSON value. */
  lemma {:induction false} SortedSame(j: Json)
    ensures Same(Sorted(j), j)
    decreases j
  {
    match j
    case JArray(items) =>
      forall i | 0 <= i < |items|
        ensures Same(SortedItems(items)[i], items[i])
      {
        SortedItemsAt(items, i);
        SortedSame(items[i]);
      }
    case JObject(fields) =>
      SortedFieldsContent(fields);
      var sorted := SortedFields(fields);
      forall k | 0 <= k < |sorted|
        ensures IsAmong(sorted[k], fields)
      {
        assert sorted[k] in sorted;
        var i :| 0 <= i < |fields| && sorted[k] == SortedField(fields[i]);
        SortedSame(fields[i].value);
      }
    case _ =>
  }

  lemma {:induction false} SortedDictionaries(j: Json)
    requires Dictionaries(j) && ShortIntegers(j)
    ensures Dictionaries(Sorted(j)) && ShortIntegers(Sorted(j))
    decreases j
  {
    match j
    case JArray(items) =>
      forall i | 0 <= i < |items|
        ensures Dictionaries(SortedItems(items)[i]) && ShortIntegers(SortedItems(items)[i])
      {
        SortedItemsAt(items, i);
        SortedDictionaries(items[i]);
      }
    case JObject(fields) =>
      SortedFieldsContent(fields);
      SortedFieldsAscending(fields);
      var sorted := SortedFields(fields);
      forall k | 0 <= k < |sorted|
        ensures Dictionaries(sorted[k].value) && ShortIntegers(sorted[k].value)
      {
        assert sorted[k] in sorted;
        var i :| 0 <= i < |fields| && sorted[k] == SortedField(fields[i]);
        SortedDictionaries(fields[i].value);
      }
      forall i, k | 0 <= i < k < |sorted|
        ensures sorted[i].key != sorted[k].key
      {
        LessTotal(sorted[i].key, sorted[k].key);
      }
    case _ =>
  }

  // ---------- Objects with fixed names ----------

  lemma {:induction false} ObjectMeasures(names: seq<string>, values: seq<Json>)
    requires |names| == |values|
    ensures FieldsNodes(Object(names, values).fields) == ItemsNodes(values)
    ensures FieldsDepth(Object(names, values).fields) == ItemsDepth(values)
    decreases |names|
  {
    if names != [] {
      ObjectMeasures(names[1..], values[1..]);
      assert Object(names, values).fields[1..] == Object(names[1..], values[1..]).fields;
    }
  }

  lemma ObjectDictionaries(names: seq<string>, values: seq<Json>)
    requires Distinct(names) && |names| == |values|
    requires forall i :: 0 <= i < |values| ==> Dictionaries(values[i]) && ShortIntegers(values[i])
    ensures Dictionaries(Object(names, values)) && ShortIntegers(Object(names, values))
  {
  }

  lemma Items1(a: Json)
    ensures ItemsNodes([a]) == Nodes(a) && ItemsDepth([a]) == Depth(a)
  {
    assert [a][1..] == [];
  }

  lemma Items2(a: Json, b: Json)
    ensures ItemsNodes([a, b]) == Nodes(a) + Nodes(b) && ItemsDepth([a, b]) == Max(Depth(a), Depth(b))
  {
    assert [a, b][1..] == [b];
    Items1(b);
  }

  lemma Items3(a: Json, b: Json, c: Json)
    ensures ItemsNodes([a, b, c]) == Nodes(a) + Nodes(b) + Nodes(c)
    ensures ItemsDepth([a, b, c]) == Max(Depth(a), Max(Depth(b), Depth(c)))
  {
    assert [a, b, c][1..] == [b, c];
    Items2(b, c);
  }

  lemma Items4(a: Json, b: Json, c: Json, d: Json)
    ensures ItemsNodes([a, b, c, d]) == Nodes(a) + Nodes(b) + Nodes(c) + Nodes(d)
    ensures ItemsDepth([a, b, c, d]) == Max(Depth(a), Max(Depth(b), Max(Depth(c), Depth(d))))
  {
    assert [a, b, c, d][1..] == [b, c, d];
    Items3(b, c, d);
  }

  lemma DigestMeasures(d: Digest)
    ensures Nodes(DigestJson(d)) == 3 && Depth(DigestJson(d)) == 1
    ensures Dictionaries(DigestJson(d)) && ShortIntegers(DigestJson(d))
  {
    var vs := [JString("sha256"), JString(d.hex)];
    SmallNamesDistinct();
    ObjectMeasures(DIGEST_NAMES, vs);
    Items2(vs[0], vs[1]);
    ObjectDictionaries(DIGEST_NAMES, vs);
  }

  /** A declared length that a package may contain. */
  predicate LengthOk(c: Content) { 0 <= c.byteLength <= MAX_PACKAGE }

  lemma ContentMeasures(c: Content)
    requires LengthOk(c)
    ensures Nodes(ContentJson(c)) == 7 && Depth(ContentJson(c)) == 2
    ensures Dictionaries(ContentJson(c)) && ShortIntegers(ContentJson(c))
  {
    hide DigestJson;
    var vs := ContentValues(c);
    ContentNamesDistinct();
    DigestMeasures(c.digest);
    ObjectMeasures(CONTENT_NAMES, vs);
    Items4(vs[0], vs[1], vs[2], vs[3]);
    ObjectDictionaries(CONTENT_NAMES, vs);
  }

  lemma PayloadMeasures(e: PayloadEntry)
    requires LengthOk(e.content)
    ensures Nodes(PayloadJson(e)) == 8 && Depth(PayloadJson(e)) == 2
    ensures Dictionaries(PayloadJson(e)) && ShortIntegers(PayloadJson(e))
  {
    hide DigestJson;
    var rest := ContentValues(e.content);
    var vs := [JString(e.ref.text)] + rest;
    ContentNamesDistinct();
    DigestMeasures(e.content.digest);
    ObjectMeasures(PAYLOAD_NAMES, vs);
    assert vs[1..] == rest;
    Items4(rest[0], rest[1], rest[2], rest[3]);
    ObjectDictionaries(PAYLOAD_NAMES, vs);
  }

  lemma {:induction false} PrintedItems(items: seq<Json>)
    requires forall i :: 0 <= i < |items| ==> Nodes(items[i]) == 8 && Depth(items[i]) == 2
    ensures ItemsNodes(items) == 8 * |items| && ItemsDepth(items) <= 2
  {
    if items != [] {
      PrintedItems(items[1..]);
    }
  }

  /** A package of n payloads has 11 + 8n values and depth at most 4. */
  lemma PackageMeasures(metadata: Content, entries: seq<PayloadEntry>)
    requires LengthOk(metadata) && forall e :: e in entries ==> LengthOk(e.content)
    ensures Nodes(PackageDoc(metadata, entries)) == 11 + 8 * |entries| && Depth(PackageDoc(metadata, entries)) <= 4
    ensures Dictionaries(PackageDoc(metadata, entries)) && ShortIntegers(PackageDoc(metadata, entries))
  {
    hide ContentJson, PayloadJson, Sorted, LengthOk;
    var items := Items(entries);
    forall i | 0 <= i < |items|
      ensures Nodes(items[i]) == 8 && Depth(items[i]) == 2 && Dictionaries(items[i]) && ShortIntegers(items[i])
    {
      assert entries[i] in entries;
      PayloadMeasures(entries[i]);
      SortedMeasures(PayloadJson(entries[i]));
      SortedDictionaries(PayloadJson(entries[i]));
    }
    PrintedItems(items);
    ContentMeasures(metadata);
    SortedMeasures(ContentJson(metadata));
    SortedDictionaries(ContentJson(metadata));
    PackageFromParts(Sorted(ContentJson(metadata)), items);
  }

  lemma PackageFromParts(entry: Json, items: seq<Json>)
    requires Nodes(entry) == 7 && Depth(entry) == 2 && Dictionaries(entry) && ShortIntegers(entry)
    requires ItemsNodes(items) == 8 * |items| && ItemsDepth(items) <= 2
    requires forall i :: 0 <= i < |items| ==> Dictionaries(items[i]) && ShortIntegers(items[i])
    ensures var doc := Object(PACKAGE_NAMES, [JString("0.1.0"), JString("bounded-local-v0.1"), entry, JArray(items)]);
            && Nodes(doc) == 11 + 8 * |items| && Depth(doc) <= 4 && Dictionaries(doc) && ShortIntegers(doc)
  {
    var vs := [JString("0.1.0"), JString("bounded-local-v0.1"), entry, JArray(items)];
    ContentNamesDistinct();
    ObjectMeasures(PACKAGE_NAMES, vs);
    Items4(vs[0], vs[1], vs[2], vs[3]);
    ObjectDictionaries(PACKAGE_NAMES, vs);
  }

  lemma DescriptorMeasures(length: nat, digest: Digest)
    requires length <= MAX_PACKAGE
    ensures Parsable(Sorted(DescriptorJson(length, digest)))
  {
    hide DigestJson;
    var j := DescriptorJson(length, digest);
    var vs := [JString("0.1.0"), JInt(length), DigestJson(digest)];
    ContentNamesDistinct();
    DigestMeasures(digest);
    ObjectMeasures(DESCRIPTOR_NAMES, vs);
    Items3(vs[0], vs[1], vs[2]);
    ObjectDictionaries(DESCRIPTOR_NAMES, vs);
    SortedMeasures(j);
    SortedDictionaries(j);
  }

  // ---------- Every blob costs its metadata ten values ----------

  lemma {:induction false} DistinctIsLonger(ids: set<Id>, listed: seq<Id>)
    requires forall id :: id in ids ==> id in listed
    ensures |ids| <= |listed|
    decreases |listed|
  {
    if ids != {} {
      var n := |listed| - 1;
      assert listed == listed[..n] + [listed[n]];
      DistinctIsLonger(ids - {listed[n]}, listed[..n]);
      assert |ids| <= |ids - {listed[n]}| + 1;
    }
  }

  function RootRefs(roots: seq<Record>): (ids: seq<Id>)
    requires forall i :: 0 <= i < |roots| ==> roots[i].ContentRoot?
    ensures |ids| == |roots| && forall i :: 0 <= i < |ids| ==> ids[i] == roots[i].target.ref
  {
    seq(|roots|, i requires 0 <= i < |roots| => roots[i].target.ref)
  }

  function EntryRefs(manifests: seq<Record>): (ids: seq<Id>)
    requires forall i :: 0 <= i < |manifests| ==> manifests[i].Manifest?
  {
    if manifests == [] then [] else EntryBlobs(manifests[0].entries) + EntryRefs(manifests[1..])
  }

  lemma {:induction false} EntryRefsHas(manifests: seq<Record>, i: nat, e: Entry)
    requires forall k :: 0 <= k < |manifests| ==> manifests[k].Manifest?
    requires i < |manifests| && e in manifests[i].entries
    ensures e.blobRef in EntryRefs(manifests)
  {
    if i == 0 {
      var k :| 0 <= k < |manifests[0].entries| && manifests[0].entries[k] == e;
      assert EntryBlobs(manifests[0].entries)[k] == e.blobRef;
    } else {
      EntryRefsHas(manifests[1..], i - 1, e);
    }
  }

  lemma {:induction false} CollectionHas(records: seq<Record>, r: Record)
    requires r in records
    ensures r in Collection(records, r.Kind())
  {
    if records[0] != r {
      assert records == [records[0]] + records[1..];
      CollectionHas(records[1..], r);
    }
  }

  lemma BlobNodes(r: Record)
    requires r.Blob?
    ensures Nodes(RecordJson.RecordJson(r)) == 7
  {
    hide DigestJson;
    DigestMeasures(r.digest);
    var vs := Values(r);
    ObjectMeasures(Names(r), vs);
    Items4(vs[0], vs[1], vs[2], vs[3]);
  }

  lemma RootNodes(r: Record)
    requires r.ContentRoot?
    ensures Nodes(RecordJson.RecordJson(r)) == 4
  {
    var vs := Values(r);
    ObjectMeasures(Names(r), vs);
    Items3(vs[0], vs[1], vs[2]);
  }

  lemma EntryNodes(e: Entry)
    ensures Nodes(EntryJson(e)) == 3
  {
    var vs := [JString(e.entryKey), JString(e.blobRef.text)];
    ObjectMeasures(ENTRY_NAMES, vs);
    Items2(vs[0], vs[1]);
  }

  lemma {:induction false} EntriesNodes(items: seq<Json>)
    requires forall i :: 0 <= i < |items| ==> Nodes(items[i]) == 3
    ensures ItemsNodes(items) == 3 * |items|
  {
    if items != [] {
      EntriesNodes(items[1..]);
    }
  }

  lemma ManifestNodes(r: Record)
    requires r.Manifest?
    ensures Nodes(RecordJson.RecordJson(r)) >= 3 * |r.entries|
  {
    hide DigestJson, EntryJson;
    var vs := Values(r);
    ObjectMeasures(Names(r), vs);
    Items3(vs[0], vs[1], vs[2]);
    var items := EntriesJson(r.entries).items;
    forall i | 0 <= i < |items|
      ensures Nodes(items[i]) == 3
    {
      EntryNodes(r.entries[i]);
    }
    EntriesNodes(items);
  }

  lemma {:induction false} AtLeastEach(items: seq<Json>, n: nat)
    requires forall i :: 0 <= i < |items| ==> Nodes(items[i]) >= n
    ensures ItemsNodes(items) >= n * |items|
  {
    if items != [] {
      AtLeastEach(items[1..], n);
      assert n * |items| == n + n * (|items| - 1);
    }
  }

  lemma {:induction false} ManifestItems(items: seq<Json>, manifests: seq<Record>)
    requires |items| == |manifests|
    requires forall i :: 0 <= i < |manifests| ==> manifests[i].Manifest? && Nodes(items[i]) >= 3 * |manifests[i].entries|
    ensures ItemsNodes(items) >= 3 * |EntryRefs(manifests)|
  {
    if items != [] {
      ManifestItems(items[1..], manifests[1..]);
    }
  }

  lemma {:induction false} PartOfItems(items: seq<Json>, i: nat)
    requires i <= |items|
    ensures ItemsNodes(items) == ItemsNodes(items[..i]) + ItemsNodes(items[i..])
  {
    if i == 0 {
      assert items[0..] == items;
    } else {
      PartOfItems(items[1..], i - 1);
      assert items[1..][..i - 1] == items[..i][1..] && items[1..][i - 1..] == items[i..];
    }
  }

  /** The three collections that hold content are part of the document. */
  lemma DocumentNodes(d: Document)
    ensures Nodes(DocumentJson(d)) >=
            Nodes(RecordsJson(Collection(d.records, ContentRootKind))) + Nodes(RecordsJson(Collection(d.records, BlobKind)))
            + Nodes(RecordsJson(Collection(d.records, ManifestKind)))
  {
    hide RecordsJson, OperationsJson, Collection;
    var vs := DocumentValues(d);
    ObjectMeasures(DOCUMENT_NAMES, vs);
    PartOfItems(vs, 6);
    PartOfItems(vs[6..], 3);
    assert vs[6..][..3] == [vs[6], vs[7], vs[8]];
    Items3(vs[6], vs[7], vs[8]);
  }

  /** Since every blob is used by a content root or a manifest entry, the metadata of n blobs has at
      least 10n values. */
  lemma TenPerBlob(d: Document)
    requires ValidDocument(d)
    ensures Nodes(DocumentJson(d)) >= 10 * |BlobIds(Index(d.records))|
  {
    hide ValidDocument, Collection, RecordJson.RecordJson, DocumentJson, Index;
    var blobs, roots, manifests :=
      Collection(d.records, BlobKind), Collection(d.records, ContentRootKind), Collection(d.records, ManifestKind);
    DocumentNodes(d);
    forall i | 0 <= i < |blobs|
      ensures Nodes(RecordsJson(blobs).items[i]) >= 7
    {
      BlobNodes(blobs[i]);
    }
    AtLeastEach(RecordsJson(blobs).items, 7);
    forall i | 0 <= i < |roots|
      ensures Nodes(RecordsJson(roots).items[i]) >= 3
    {
      RootNodes(roots[i]);
    }
    AtLeastEach(RecordsJson(roots).items, 3);
    forall i | 0 <= i < |manifests|
      ensures Nodes(RecordsJson(manifests).items[i]) >= 3 * |manifests[i].entries|
    {
      ManifestNodes(manifests[i]);
    }
    ManifestItems(RecordsJson(manifests).items, manifests);
    BlobsAreListed(d, blobs);
    BlobsAreReached(d, roots, manifests);
  }

  lemma BlobKinds(records: RecordMap)
    ensures forall id :: id in BlobIds(records) ==> id in records && records[id].Kind() == BlobKind
  {
  }

  lemma BlobsAreListed(d: Document, blobs: seq<Record>)
    requires blobs == Collection(d.records, BlobKind)
    ensures |BlobIds(Index(d.records))| <= |blobs|
  {
    hide Collection, Index, BlobIds;
    BlobKinds(Index(d.records));
    var ids := seq(|blobs|, i requires 0 <= i < |blobs| => blobs[i].id);
    forall id | id in BlobIds(Index(d.records))
      ensures id in ids
    {
      var r := Index(d.records)[id];
      CollectionHas(d.records, r);
      var k :| 0 <= k < |blobs| && blobs[k] == r;
      assert ids[k] == id;
    }
    DistinctIsLonger(BlobIds(Index(d.records)), ids);
  }

  lemma BlobsAreReached(d: Document, roots: seq<Record>, manifests: seq<Record>)
    requires ValidDocument(d)
    requires roots == Collection(d.records, ContentRootKind) && manifests == Collection(d.records, ManifestKind)
    ensures |BlobIds(Index(d.records))| <= |roots| + |EntryRefs(manifests)|
  {
    hide *;
    CollectionKinds(d.records);
    var db := Index(d.records);
    var ids := RootRefs(roots) + EntryRefs(manifests);
    forall id | id in BlobIds(db)
      ensures id in ids
    {
      UsedWhenValid(d, id);
      BlobIsReached(d, roots, manifests, id);
    }
    DistinctIsLonger(BlobIds(db), ids);
  }

  lemma CollectionKinds(records: seq<Record>)
    ensures forall i :: 0 <= i < |Collection(records, ContentRootKind)| ==> Collection(records, ContentRootKind)[i].ContentRoot?
    ensures forall i :: 0 <= i < |Collection(records, ManifestKind)| ==> Collection(records, ManifestKind)[i].Manifest?
  {
    hide Collection;
  }

  lemma UsedWhenValid(d: Document, id: Id)
    requires ValidDocument(d) && id in BlobIds(Index(d.records))
    ensures Used(Index(d.records), id)
  {
    assert AllUsed(Index(d.records));
  }

  lemma UserOf(db: RecordMap, id: Id) returns (u: Id)
    requires Used(db, id)
    ensures u in db && Uses(db[u], id)
  {
    u :| u in db && Uses(db[u], id);
  }

  lemma WhoUses(r: Record, id: Id)
    requires Uses(r, id) && !r.Version?
    ensures r.ContentRoot? || r.Manifest?
    ensures r.ContentRoot? ==> r.target.ref == id && r.Kind() == ContentRootKind
    ensures r.Manifest? ==> r.Kind() == ManifestKind && exists e :: e in r.entries && e.blobRef == id
  {
  }

  lemma BlobIsReached(d: Document, roots: seq<Record>, manifests: seq<Record>, id: Id)
    requires ValidDocument(d) && id in BlobIds(Index(d.records)) && Used(Index(d.records), id)
    requires roots == Collection(d.records, ContentRootKind) && manifests == Collection(d.records, ManifestKind)
    requires forall i :: 0 <= i < |roots| ==> roots[i].ContentRoot?
    requires forall i :: 0 <= i < |manifests| ==> manifests[i].Manifest?
    ensures id in RootRefs(roots) + EntryRefs(manifests)
  {
    hide *;
    var db := Index(d.records);
    var u := UserOf(db, id);
    var r := db[u];
    NotAVersionsRoot(d, u, id);
    CollectionHas(d.records, r);
    assert db[u] in d.records;
    WhoUses(r, id);
    if r.ContentRoot? {
      var k :| 0 <= k < |roots| && roots[k] == r;
      assert RootRefs(roots)[k] == id;
    } else {
      var k :| 0 <= k < |manifests| && manifests[k] == r;
      var e :| e in r.entries && e.blobRef == id;
      EntryRefsHas(manifests, k, e);
    }
  }

  /** A version uses a content root, never a blob. */
  lemma NotAVersionsRoot(d: Document, u: Id, id: Id)
    requires ValidDocument(d) && u in Index(d.records) && Uses(Index(d.records)[u], id) && id in BlobIds(Index(d.records))
    ensures !Index(d.records)[u].Version?
  {
    hide *;
    ValidResolves(d);
    RootIsNoBlob(Index(d.records), u, id);
  }

  lemma ValidResolves(d: Document)
    requires ValidDocument(d)
    ensures AllResolve(Index(d.records))
  {
    hide AllResolve, WellShaped, ClosuresBounded, Index;
  }

  lemma RootIsNoBlob(db: RecordMap, u: Id, id: Id)
    requires AllResolve(db) && u in db && Uses(db[u], id) && id in BlobIds(db)
    ensures !db[u].Version?
  {
    assert RefsResolve(db, db[u]);
  }
}
