/** Implementation B's unpacking of bundles compared with A's decoding. */
module TransportB {
  import opened Records
  import opened Validity
  import opened Validation
  import opened ContractB
  import opened LedgerState
  import opened Replay
  import opened CallChecks
  import opened Content
  import opened Bundles
  import opened Parsing
  import opened RecordJson
  import opened Export
  import opened Portable

  // ---------- Every closure lies within the payloads ----------

  lemma ClosureInBlobs(db: RecordMap, v: Id)
    requires AllResolve(db) && v in db && db[v].Version?
    ensures ClosureBlobs(db, db[v]) <= BlobIds(db)
  {
    var root := db[v].contentRootRef;
    assert RefsResolve(db, db[v]);
    assert Resolves(db, root, ContentRootKind) && RefsResolve(db, db[root]);
    if db[root].target.ManifestTarget? {
      assert RefsResolve(db, db[db[root].target.ref]);
    }
  }

  /** With the bytes of all blobs within the payload limit, no version exceeds it: what A checks for
      every version and B leaves out follows from what both check of the payloads. */
  lemma PayloadsBoundClosures(db: RecordMap, data: map<Id, Bytes>)
    requires AllResolve(db) && data.Keys == BlobIds(db) && SuppliedBounded(data)
    requires forall id :: id in data ==> Matches(db[id], data[id])
    ensures ClosuresBounded(db)
  {
    hide AllResolve, ClosureBlobs, Matches;
    BlobsAreIn(db);
    forall v | v in db && db[v].Version?
      ensures TotalLength(db, ClosureBlobs(db, db[v])) <= MAX_PAYLOAD
    {
      ClosureInBlobs(db, v);
      LengthIsSize(db, data, ClosureBlobs(db, db[v]));
      TotalSizePart(data, ClosureBlobs(db, db[v]), data.Keys);
    }
  }

  // ---------- Decoded bundles ----------

  /** What B's `unpack` lets through: metadata as B sees it, with exactly the bytes of its blobs. */
  ghost predicate BundleOkB(bundle: Document, data: map<Id, Bytes>) {
    && ValidForB(bundle)
    && data.Keys == BlobIds(Index(bundle.records))
    && (forall id :: id in data ==> Matches(Index(bundle.records)[id], data[id]))
    && SuppliedBounded(data)
  }

  lemma ValidForBoth(d: Document)
    ensures ValidForB(d) && ClosuresBounded(Index(d.records)) <==> ValidDocument(d) && PlainDocument(d)
    ensures ValidForB(d) ==> AllResolve(Index(d.records))
  {
    hide *;
    ValidMeans(d);
    ForBMeans(d);
    PlainMeans(d);
    GraphOkMeans(Index(d.records));
  }

  /** B lets a decoded bundle through exactly if A does and all its times are plain. */
  lemma BundlesAgree(bundle: Document, data: map<Id, Bytes>)
    ensures BundleOkB(bundle, data) <==> BundleOk(bundle, data) && PlainDocument(bundle)
  {
    hide ValidForB, ValidDocument, PlainDocument, ClosuresBounded, AllResolve, Matches, SuppliedBounded, Index;
    ValidForBoth(bundle);
    if BundleOkB(bundle, data) {
      PayloadsBoundClosures(Index(bundle.records), data);
    }
  }

  /** The end of `unpack`: metadata, and the bytes of exactly its blobs. */
  method CheckBundleB(bundle: Document, data: map<Id, Bytes>) returns (ok: bool)
    ensures ok <==> BundleOkB(bundle, data)
  {
    hide ValidForB, SuppliedBounded, BlobIds, Matches, Index;
    ok := Metadata(bundle);
    if !ok {
      return;
    }
    var objects := Index(bundle.records);
    if data.Keys != BlobIds(objects) {
      return false;
    }
    BlobsAreIn(objects);
    if !(forall id :: id in data ==> Matches(objects[id], data[id])) {
      return false;
    }
    ok := CheckSupplied(data);
  }

  // ---------- All layers ----------

  /** Metadata bytes that denote a document which B accepts. */
  ghost predicate DenotesForB(metadata: Content, d: Document) {
    exists raw :: Describes(metadata, raw, MAX_JSON) && Denotes(ParseJson(raw, MAX_JSON), DocumentJson(d)) && ValidForB(d)
  }

  /** `unpack` accepts the bundle and returns this document and these payloads. */
  ghost predicate UnpacksB(bundle: Bundle, d: Document, data: map<Id, Bytes>) {
    exists metadata, entries ::
      && Layers(bundle, metadata, entries) && DenotesForB(metadata, d)
      && Acceptable(entries, Index(d.records)) && data == Contents(entries)
  }

  lemma AcceptableBounds(entries: seq<PayloadEntry>, records: RecordMap)
    requires Acceptable(entries, records) && AllResolve(records)
    ensures ClosuresBounded(records)
  {
    hide Acceptable, AllResolve, ClosuresBounded, Matches, SuppliedBounded, Contents, BlobIds;
    AcceptableOk(entries, records);
    PayloadsBoundClosures(records, Contents(entries));
  }

  /** Through all layers of the transport, B reads from a bundle what A reads from it, and refuses it only
      if A does or one of its times is a leap second or lies in the year 0. */
  lemma UnpackersAgree(bundle: Bundle, d: Document, data: map<Id, Bytes>)
    ensures UnpacksB(bundle, d, data) <==> Unpacks(bundle, d, data) && PlainDocument(d)
  {
    hide ValidForB, ValidDocument, PlainDocument, ClosuresBounded, AllResolve, Acceptable, Contents, Layers, Index, Describes, Denotes,
         DocumentJson, ParseJson;
    ValidForBoth(d);
    if UnpacksB(bundle, d, data) {
      var metadata, entries :| Layers(bundle, metadata, entries) && DenotesForB(metadata, d)
        && Acceptable(entries, Index(d.records)) && data == Contents(entries);
      AcceptableBounds(entries, Index(d.records));
      assert DenotesDocument(metadata, d);
    }
    if Unpacks(bundle, d, data) && PlainDocument(d) {
      var metadata, entries :| Layers(bundle, metadata, entries) && DenotesDocument(metadata, d)
        && Acceptable(entries, Index(d.records)) && data == Contents(entries);
      assert DenotesForB(metadata, d);
    }
  }
}
