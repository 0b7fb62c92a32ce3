/** What an import transfers: into an empty ledger exactly the bundle, and a second time nothing but
    a receipt and an operation; and how an export carries a whole ledger. */
module Transfer {
  import opened Records
  import opened Validity
  import opened LedgerState
  import opened LedgerTheory
  import opened Merge
  import opened Replay
  import opened Inserting
  import opened Appending
  import opened Importing
  import opened RecordJson
  import opened Store
  import opened Reading
  import opened Export
  import opened Packing
  import opened Portable
  import opened BundleSizes
  import CallChecks
  import opened ExportSizes

  // ---------- Into an empty ledger ----------

  lemma {:induction false} AllFreshIntoEmpty(records: seq<Record>)
    ensures Fresh(EMPTY, records) == records
  {
    hide Fresh;
    if records == [] {
      NothingFresh(EMPTY);
    } else {
      var n := |records| - 1;
      AllFreshIntoEmpty(records[..n]);
      FreshPrefix(EMPTY, records, n);
      assert records[..n + 1] == records && records == records[..n] + [records[n]];
    }
  }

  lemma {:induction false} AllOperationsFresh(operations: seq<Operation>)
    ensures FreshOperations(EMPTY, operations) == operations
  {
    hide FreshOperations;
    if operations == [] {
      NoFreshOperations(EMPTY);
    } else {
      var n := |operations| - 1;
      AllOperationsFresh(operations[..n]);
      FreshOperationsPrefix(EMPTY, operations, n);
      assert operations[..n + 1] == operations && operations == operations[..n] + [operations[n]];
    }
  }

  lemma EmptyTables()
    ensures EMPTY.operations == map[] && EMPTY.records == map[] && EMPTY.payloads == map[]
  {
  }

  lemma AddToNone<K, V>(m: map<K, V>)
    ensures map[] + m == m
  {
  }

  /** The receipt identity and the key of an import are not part of what it imports. */
  predicate NewNames(call: Call)
    requires call.request.body.ImportBody?
  {
    && call.request.body.receiptId !in Index(call.bundle.records)
    && forall o :: o in call.bundle.operations ==> o.triple != call.request.Triple()
  }

  lemma NoConflictWithEmpty(call: Call)
    requires call.request.body.ImportBody? && NewNames(call)
    ensures NoConflict(EMPTY, call) && KnownBytesAgree(EMPTY, call.supplied)
    ensures NewPayloads(EMPTY, call.supplied) == call.supplied
  {
  }

  /** Importing into an empty ledger succeeds and stores exactly the content of the bundle, one
      receipt and one operation. */
  lemma ImportIntoEmpty(call: Call, outcome: Outcome, db: Db)
    requires CallOk(call) && call.request.body.ImportBody? && NewNames(call)
    requires Step(EMPTY, call, outcome, db)
    ensures outcome == Success(Operation(call.request.Triple(), call.fingerprint, call.request.body.receiptId, call.now), false)
    ensures db.records == Index(call.bundle.records)[call.request.body.receiptId := ImportReceipt(call)]
    ensures db.payloads == call.supplied
    ensures db.operations == OperationIndex(call.bundle.operations)[call.request.Triple() := outcome.operation]
  {
    hide *;
    CallOkImport(call);
    EmptyIsConsistent();
    ConsistentMeans(EMPTY);
    NoConflictWithEmpty(call);
    ImportDecidedByConflicts(EMPTY, call);
    AllFreshIntoEmpty(call.bundle.records);
    AllOperationsFresh(call.bundle.operations);
    NoConflictFits(EMPTY, call);
    ImportRecordsAre(EMPTY, call);
    ImportOperationsAre(EMPTY, call);
    EmptyTables();
    AddToNone(Index(call.bundle.records));
    AddToNone(call.supplied);
    AddToNone(OperationIndex(call.bundle.operations));
    ImportedRows(EMPTY, call, outcome, db);
  }

  lemma ConsistentMeans(db: Db)
    requires Consistent(db)
    ensures Stored(db) && PayloadsIntact(db)
  {
  }

  lemma CallOkImport(call: Call)
    requires CallOk(call) && call.request.body.ImportBody?
    ensures NamesOk(call) && BundleOk(call.bundle, call.supplied) && ValidDocument(call.bundle)
    ensures UniqueIds(call.bundle.records) && UniqueTriples(call.bundle.operations)
  {
    hide SuppliedBounded, Valid, NamesOk;
  }

  /** What one accepted import inserts. */
  lemma ImportedRows(db: Db, call: Call, outcome: Outcome, db': Db)
    requires CallOk(call) && call.request.body.ImportBody? && call.request.Triple() !in db.operations
    requires Stored(db) && ImportAllowed(db, call) && Step(db, call, outcome, db')
    ensures outcome == Success(Operation(call.request.Triple(), call.fingerprint, call.request.body.receiptId, call.now), false)
    ensures db'.records == ImportRecords(db, call)
    ensures db'.payloads == db.payloads + NewPayloads(db, call.supplied)
    ensures db'.operations == ImportOperations(db, call)[call.request.Triple() := outcome.operation]
    ensures db'.refs == db.refs + RowsOf(ImportAdditions(db, call))
  {
    hide CallOk, Stored, ImportAllowed, NewPayloads, ImportAdditions, FreshOperations, Index, OperationIndex, RowsOf;
  }

  // ---------- The same history again ----------

  /** The ledger holds everything of a bundle, unchanged, with nothing added to its histories. */
  ghost predicate Holds(db: Db, bundle: Document, supplied: map<Id, Bytes>) {
    && RecordsAgree(db, Index(bundle.records)) && Index(bundle.records).Keys <= db.records.Keys
    && HistoriesAgree(db, Index(bundle.records))
    && (forall o :: o in bundle.operations ==> o.triple in db.operations && db.operations[o.triple] == o)
    && forall id :: id in supplied ==> HasBytes(db, id, supplied[id])
  }

  lemma {:induction false} NoneFresh(db: Db, records: seq<Record>)
    requires forall r :: r in records ==> r.id in db.records
    ensures Fresh(db, records) == []
  {
    if records != [] {
      var n := |records| - 1;
      assert records[n] in records;
      NoneFresh(db, records[..n]);
    }
  }

  lemma {:induction false} NoOperationsFresh(db: Db, operations: seq<Operation>)
    requires forall o :: o in operations ==> o.triple in db.operations
    ensures FreshOperations(db, operations) == []
  {
    if operations != [] {
      var n := |operations| - 1;
      assert operations[n] in operations;
      NoOperationsFresh(db, operations[..n]);
    }
  }

  lemma HeldHasNoConflict(db: Db, call: Call)
    requires call.request.body.ImportBody? && Holds(db, call.bundle, call.supplied)
    requires call.request.body.receiptId !in db.records && call.request.Triple() !in db.operations
    ensures NoConflict(db, call) && KnownBytesAgree(db, call.supplied)
    ensures forall id :: id in call.supplied ==> id in db.records
    ensures forall r :: r in call.bundle.records ==> r.id in db.records
  {
    hide HistoryOf, Matches, HistoriesAgree, Index;
    ConflictParts(db, call);
  }

  /** Importing what is already held adds one receipt and one operation, and nothing else. */
  lemma ImportOfHeld(db: Db, call: Call, outcome: Outcome, db': Db)
    requires CallOk(call) && call.request.body.ImportBody? && Stored(db) && Holds(db, call.bundle, call.supplied)
    requires call.request.body.receiptId !in db.records && call.request.Triple() !in db.operations
    requires Step(db, call, outcome, db')
    ensures outcome == Success(Operation(call.request.Triple(), call.fingerprint, call.request.body.receiptId, call.now), false)
    ensures db'.records == db.records[call.request.body.receiptId := ImportReceipt(call)]
    ensures db'.payloads == db.payloads
    ensures db'.operations == db.operations[call.request.Triple() := outcome.operation]
  {
    hide *;
    CallOkImport(call);
    HeldHasNoConflict(db, call);
    ImportDecidedByConflicts(db, call);
    NoneFresh(db, call.bundle.records);
    HeldOperations(db, call);
    NoOperationsFresh(db, call.bundle.operations);
    ImportedRows(db, call, outcome, db');
    OnlyTheReceipt(db, call);
  }

  lemma HeldOperations(db: Db, call: Call)
    requires Holds(db, call.bundle, call.supplied)
    ensures forall o :: o in call.bundle.operations ==> o.triple in db.operations
  {
    hide HistoriesAgree, Index, HasBytes;
  }

  lemma OnlyTheReceipt(db: Db, call: Call)
    requires call.request.body.ImportBody? && Fresh(db, call.bundle.records) == [] && FreshOperations(db, call.bundle.operations) == []
    requires forall id :: id in call.supplied ==> id in db.records
    ensures ImportRecords(db, call) == db.records[call.request.body.receiptId := ImportReceipt(call)]
    ensures db.payloads + NewPayloads(db, call.supplied) == db.payloads
    ensures ImportOperations(db, call) == db.operations
  {
    hide ImportReceipt, Index, OperationIndex, Fresh, FreshOperations;
    NoneIndexed();
    ReceiptId(call);
    SingleIndex(ImportReceipt(call));
    assert ImportAdditions(db, call) == [ImportReceipt(call)];
    hide ImportAdditions;
  }

  // ---------- After an import, its bundle is held ----------

  lemma HistoryArrives(db: Db, call: Call, artifact: Id)
    requires call.request.body.ImportBody? && Stored(db) && ValidDocument(call.bundle) && NoConflict(db, call)
    requires Resolves(Index(call.bundle.records), artifact, ArtifactKind)
    ensures HistoryOf(ImportRecords(db, call), artifact) == HistoryOf(Index(call.bundle.records), artifact)
  {
    hide *;
    NoConflictFits(db, call);
    FitsAgrees(db, call);
    ImportRecordsAre(db, call);
    ReceiptId(call);
    StoredMeans(db);
    ValidMeansResolve(db.records);
    SameHistory(db, call, artifact);
    Commute(db.records, Index(call.bundle.records));
    NoHistoryAdded(Index(call.bundle.records), db.records, ImportReceipt(call), artifact);
  }

  lemma FitsAgrees(db: Db, call: Call)
    requires Fits(db, call)
    ensures Agree(db.records, Index(call.bundle.records)) && Agree(Index(call.bundle.records), db.records)
    ensures call.request.body.receiptId !in db.records && call.request.body.receiptId !in Index(call.bundle.records)
  {
    hide Index, UniqueIds;
  }

  lemma Commute(a: RecordMap, b: RecordMap)
    requires Agree(a, b)
    ensures a + b == b + a
  {
  }

  lemma SameHistory(db: Db, call: Call, artifact: Id)
    requires call.request.body.ImportBody? && NoConflict(db, call)
    requires Resolves(Index(call.bundle.records), artifact, ArtifactKind)
    ensures Resolves(db.records, artifact, ArtifactKind) ==>
              HistoryOf(Index(call.bundle.records), artifact) == HistoryOf(db.records, artifact)
  {
    hide HistoryOf, Index;
  }

  lemma ImportIsHeld(db: Db, call: Call, outcome: Outcome, db': Db)
    requires Consistent(db) && call.request.body.ImportBody? && Step(db, call, outcome, db')
    requires outcome.Success? && !outcome.replayed
    ensures CallOk(call) && Stored(db') && Holds(db', call.bundle, call.supplied)
  {
    hide *;
    StepKeeps(db, call, outcome, db');
    ConsistentMeans(db);
    ConsistentMeans(db');
    NewSuccess(db, call, outcome, db');
    CallOkImport(call);
    ImportDecidedByConflicts(db, call);
    ImportedRows(db, call, outcome, db');
    NoConflictFits(db, call);
    ImportRecordsAre(db, call);
    WithinMeans(Index(call.bundle.records), db'.records);
    HistoriesArrive(db, call, db');
    HistoryStored(db, call, outcome.operation, db') by { ConflictFree(db, call); }
    BytesHeld(db, call, db');
    HoldsFromParts(db', call);
  }

  lemma NewSuccess(db: Db, call: Call, outcome: Outcome, db': Db)
    requires call.request.body.ImportBody? && Step(db, call, outcome, db') && outcome.Success? && !outcome.replayed
    ensures CallOk(call) && call.request.Triple() !in db.operations && ImportAllowed(db, call)
  {
    hide CallOk, Stored, ImportAllowed, MayAnswer, Apply;
  }

  lemma WithinMeans(part: RecordMap, whole: RecordMap)
    requires Within(part, whole)
    ensures forall id :: id in part ==> id in whole && whole[id] == part[id]
  {
  }

  lemma ConflictFree(db: Db, call: Call)
    requires call.request.body.ImportBody? && NoConflict(db, call)
    ensures forall o :: o in call.bundle.operations ==>
              o.triple != call.request.Triple() && (o.triple in db.operations ==> db.operations[o.triple] == o)
  {
    hide HistoryOf, Index;
  }

  lemma HistoriesArrive(db: Db, call: Call, db': Db)
    requires call.request.body.ImportBody? && Stored(db) && ValidDocument(call.bundle) && NoConflict(db, call)
    requires db'.records == ImportRecords(db, call)
    requires forall id :: id in Index(call.bundle.records) ==> id in db'.records && db'.records[id] == Index(call.bundle.records)[id]
    ensures HistoriesAgree(db', Index(call.bundle.records))
  {
    hide Index, ImportRecords, HistoryOf, Stored, NoConflict, ValidDocument;
    var incoming := Index(call.bundle.records);
    forall a | a in incoming && incoming[a].Artifact?
      ensures HistoryOf(db'.records, a) == HistoryOf(incoming, a)
    {
      HistoryArrives(db, call, a);
    }
  }

  lemma BytesHeld(db: Db, call: Call, db': Db)
    requires Stored(db) && PayloadsIntact(db') && BundleOk(call.bundle, call.supplied) && KnownBytesAgree(db, call.supplied)
    requires db'.payloads == db.payloads + NewPayloads(db, call.supplied)
    ensures forall id :: id in call.supplied ==> HasBytes(db', id, call.supplied[id])
  {
    hide ValidDocument, Matches, SuppliedBounded, Index, Valid, AllReferences, OperationsOk, BundleOk;
    forall id | id in call.supplied
      ensures HasBytes(db', id, call.supplied[id])
    {
      assert id in db'.payloads && BlobIntact(db', id);
      assert id in db.records ==> db.payloads[id] == call.supplied[id];
    }
  }

  lemma HoldsFromParts(db: Db, call: Call)
    requires forall id :: id in Index(call.bundle.records) ==> id in db.records && db.records[id] == Index(call.bundle.records)[id]
    requires HistoriesAgree(db, Index(call.bundle.records))
    requires forall o :: o in call.bundle.operations ==> o.triple in db.operations && db.operations[o.triple] == o
    requires forall id :: id in call.supplied ==> HasBytes(db, id, call.supplied[id])
    ensures Holds(db, call.bundle, call.supplied)
  {
    hide HistoriesAgree, Index, HasBytes;
  }

  /** Importing the same complete history again, under another receipt and key, adds only these. */
  lemma ImportTwice(db0: Db, call: Call, first: Outcome, db1: Db, again: Call, second: Outcome, db2: Db)
    requires Consistent(db0) && call.request.body.ImportBody? && Step(db0, call, first, db1)
    requires first.Success? && !first.replayed
    requires again.request.body.ImportBody? && again.bundle == call.bundle && again.supplied == call.supplied && CallOk(again)
    requires again.request.body.receiptId !in db1.records && again.request.Triple() !in db1.operations
    requires Step(db1, again, second, db2)
    ensures second.Success? && !second.replayed
    ensures db2.records == db1.records[again.request.body.receiptId := ImportReceipt(again)]
    ensures db2.payloads == db1.payloads
    ensures db2.operations == db1.operations[again.request.Triple() := second.operation]
  {
    hide *;
    ImportIsHeld(db0, call, first, db1);
    ImportOfHeld(db1, again, second, db2);
  }

  // ---------- Exporting a ledger ----------

  /** Reads the bytes of every blob; the first that is missing or damaged ends the export. */
  method ReadBlobs(store: Handle, db: Db) returns (ok: bool, payloads: map<Id, Bytes>)
    requires store.inTransaction && store.pending == db
    modifies store
    ensures OnlyReads(store, ok)
    ensures ok ==> payloads.Keys == BlobIds(db.records)
    ensures ok ==> forall id :: id in payloads ==> BlobIntact(db, id) && payloads[id] == db.payloads[id]
    ensures old(store.Faultless()) && (forall id :: id in BlobIds(db.records) ==> BlobIntact(db, id)) ==> ok
  {
    hide BlobIntact, BlobIds;
    payloads := map[];
    var todo := BlobIds(db.records);
    while todo != {}
      invariant OnlyReads(store, true)
      invariant todo <= BlobIds(db.records) && payloads.Keys == BlobIds(db.records) - todo
      invariant forall id :: id in payloads ==> HasBytes(db, id, payloads[id])
    {
      var id :| id in todo;
      ok := BlobReads(store, db, id);
      if !ok {
        return;
      }
      IntactHasBytes(db, id);
      payloads := payloads[id := db.payloads[id]];
      todo := todo - {id};
    }
    return true, payloads;
  }

  /** What the early checks on lengths ask follows from what can be exported at all. */
  lemma EarlyChecksPass(db: Db, d: Document)
    requires Describes(d, db) && Exportable(d, db.payloads)
    ensures |JsonBytes(Canonical.Sorted(DocumentJson(d)))| <= Parsing.MAX_JSON
    ensures TotalLength(db.records, BlobIds(db.records)) <= MAX_PAYLOAD
    ensures PayloadsIntact(db)
  {
    hide ValidDocument, Index, OperationIndex, ExportOf, UniqueIds, UniqueTriples, Matches, BlobIds, MetaJson, DocumentJson, Canonical.Sorted,
         JsonBytes;
    SameLength(d);
    LengthWhenParsed(JsonBytes(MetaJson(d)));
    BlobsAreIn(db.records);
    CallChecks.LengthIsSize(db.records, db.payloads, BlobIds(db.records));
  }

  lemma LengthWhenParsed(raw: Bytes)
    ensures Parsing.ParseJson(raw, Parsing.MAX_JSON).Some? ==> |raw| <= Parsing.MAX_JSON
  {
  }

  /** `export_bundle` on the state that a transaction sees: never anything but the bundle of that state,
      and without store failures exactly when that state is consistent and fits into a bundle. */
  method ExportLedger(store: Handle, db: Db) returns (r: Option<Bundle>, ghost d: Document)
    requires store.inTransaction && store.pending == db
    modifies store
    ensures OnlyReads(store, r.Some?)
    ensures r.Some? ==> Consistent(db) && Describes(d, db)
    ensures r.Some? ==> Exportable(d, db.payloads) && r.value == ExportOf(d, db.payloads)
    ensures old(store.Faultless()) && Consistent(db) ==> Describes(d, db) && (r.Some? <==> Exportable(d, db.payloads))
  {
    hide Stored, Describes, BlobIntact, BlobIds, Exportable, ExportOf;
    var ok, metadata := Current(store, db);
    d := metadata;
    if !ok {
      return None, d;
    }
    if Exportable(metadata, db.payloads) {
      EarlyChecksPass(db, metadata);
    }
    if |JsonBytes(Canonical.Sorted(DocumentJson(metadata)))| > Parsing.MAX_JSON {
      return None, d;
    }
    var total := Validation.SumLengths(db.records, BlobIds(db.records));
    if total > MAX_PAYLOAD {
      return None, d;
    }
    CoverageOf(db);
    var payloads;
    ok, payloads := ReadBlobs(store, db);
    if !ok {
      return None, d;
    }
    assert payloads == db.payloads;
    r := EncodeBundle(metadata, payloads);
  }

  lemma CoverageOf(db: Db)
    requires Stored(db)
    ensures db.payloads.Keys == BlobIds(db.records)
  {
  }

  // ---------- An export carries the whole ledger ----------

  lemma SameDocumentTables(a: Document, b: Document)
    requires SameDocument(a, b) && ValidDocument(a) && ValidDocument(b)
    ensures Index(a.records) == Index(b.records) && a.operations == b.operations
  {
    hide Index, ValidDocument, Collection;
    UniqueWhenValid(a);
    UniqueWhenValid(b);
    forall r | r in a.records
      ensures r in b.records
    {
      CollectionHas(a.records, r);
      var k :| 0 <= k < |Collection(b.records, r.Kind())| && Collection(b.records, r.Kind())[k] == r;
    }
    forall r | r in b.records
      ensures r in a.records
    {
      CollectionHas(b.records, r);
      var k :| 0 <= k < |Collection(a.records, r.Kind())| && Collection(a.records, r.Kind())[k] == r;
    }
    SameIndex(a.records, b.records);
  }

  /** What is read back from the export of a ledger are its own tables. */
  lemma ExportedTables(db: Db, d: Document, d': Document, data: map<Id, Bytes>)
    requires Describes(d, db) && Exportable(d, db.payloads) && Unpacks(ExportOf(d, db.payloads), d', data)
    ensures Index(d'.records) == db.records && OperationIndex(d'.operations) == db.operations && data == db.payloads
    ensures BundleOk(d', data)
  {
    hide Index, OperationIndex, ValidDocument, Exportable, ExportOf, Unpacks, SameDocument, BundleOk, Ordered;
    ExportReadsBack(d, db.payloads, d', data);
    UnpackedIsOk(ExportOf(d, db.payloads), d', data);
    ExportParts(d, db.payloads);
    OrderedIsSame(d);
    SameDocumentTables(d', Ordered(d));
  }

  /** The operation of an import. */
  function ImportOperation(call: Call): Operation
    requires call.request.body.ImportBody?
  {
    Operation(call.request.Triple(), call.fingerprint, call.request.body.receiptId, call.now)
  }

  /** Importing an export into an empty ledger yields the exported ledger, one receipt and one operation. */
  lemma ExportCarriesAll(db: Db, d: Document, call: Call, outcome: Outcome, db': Db)
    requires Describes(d, db) && Exportable(d, db.payloads)
    requires Unpacks(ExportOf(d, db.payloads), call.bundle, call.supplied)
    requires call.request.body.ImportBody? && NamesOk(call) && (call.claimed.Some? ==> call.claimed.value == call.fingerprint)
    requires call.request.body.receiptId !in db.records && call.request.Triple() !in db.operations
    requires Step(EMPTY, call, outcome, db')
    ensures outcome == Success(ImportOperation(call), false)
    ensures db'.records == db.records[call.request.body.receiptId := ImportReceipt(call)]
    ensures db'.payloads == db.payloads
    ensures db'.operations == db.operations[call.request.Triple() := ImportOperation(call)]
  {
    hide *;
    ExportedTables(db, d, call.bundle, call.supplied);
    ImportCallOk(call);
    OwnNamesAreNew(db, call);
    ImportIntoEmpty(call, outcome, db');
    ImportOperationIs(call);
  }

  lemma ImportOperationIs(call: Call)
    requires call.request.body.ImportBody?
    ensures ImportOperation(call) == Operation(call.request.Triple(), call.fingerprint, call.request.body.receiptId, call.now)
  {
  }

  lemma ImportCallOk(call: Call)
    requires call.request.body.ImportBody? && NamesOk(call) && BundleOk(call.bundle, call.supplied)
    requires call.claimed.Some? ==> call.claimed.value == call.fingerprint
    ensures CallOk(call)
  {
    hide BundleOk, NamesOk;
  }

  lemma OwnNamesAreNew(db: Db, call: Call)
    requires call.request.body.ImportBody? && Index(call.bundle.records) == db.records
    requires OperationIndex(call.bundle.operations) == db.operations
    requires call.request.body.receiptId !in db.records && call.request.Triple() !in db.operations
    ensures NewNames(call)
  {
    hide Index, OperationIndex;
    forall o | o in call.bundle.operations
      ensures o.triple != call.request.Triple()
    {
      assert o.triple in OperationIndex(call.bundle.operations);
    }
  }
}
