/** What every write keeps, and what an import can never get wrong. */
module LedgerTheory {
  import opened Records
  import opened ParentGraph
  import opened Validity
  import opened Requests
  import opened IdOrder
  import opened LedgerState
  import opened Merge
  import Time

  // ---------- Inserting added rows ----------

  predicate AllFresh(db: Db, additions: seq<Record>) {
    forall r :: r in additions ==> r.id !in db.records
  }

  lemma {:induction false} FreshUnique(db: Db, records: seq<Record>)
    requires UniqueIds(records)
    ensures UniqueIds(Fresh(db, records)) && AllFresh(db, Fresh(db, records))
  {
    if records != [] {
      var n := |records| - 1;
      FreshUnique(db, records[..n]);
      var f := Fresh(db, records[..n]);
      forall i | 0 <= i < |f|
        ensures f[i].id != records[n].id
      {
        assert f[i] in f;
        var k :| 0 <= k < n && records[..n][k] == f[i];
        assert records[k].id != records[n].id;
      }
    }
  }

  lemma UnionWithin(db: Db, additions: seq<Record>)
    requires AllFresh(db, additions)
    ensures Within(db.records, db.records + Index(additions))
  {
  }

  lemma AllReferencesHas(records: RecordMap, id: Id, row: RefRow)
    requires id in records && row in ReferenceRows(records[id])
    ensures row in AllReferences(records)
  {
  }

  lemma AllReferencesFrom(records: RecordMap, row: RefRow) returns (id: Id)
    requires row in AllReferences(records)
    ensures id in records && row in ReferenceRows(records[id])
  {
    id :| id in records && row in ReferenceRows(records[id]);
  }

  /** The rows derived from the additions complete the index. */
  lemma UnionReferences(db: Db, additions: seq<Record>)
    requires AllFresh(db, additions) && UniqueIds(additions)
    ensures AllReferences(db.records + Index(additions)) == AllReferences(db.records) + RowsOf(additions)
  {
    hide ReferenceRows, AllReferences, UniqueIds;
    var m := Index(additions);
    var u := db.records + m;
    forall row | row in AllReferences(db.records) + RowsOf(additions)
      ensures row in AllReferences(u)
    {
      if row in AllReferences(db.records) {
        var id := AllReferencesFrom(db.records, row);
        AllReferencesHas(u, id, row);
      } else {
        var r :| r in additions && row in ReferenceRows(r);
        IndexAt(additions, r);
        AllReferencesHas(u, r.id, row);
      }
    }
    forall row | row in AllReferences(u)
      ensures row in AllReferences(db.records) + RowsOf(additions)
    {
      var id := AllReferencesFrom(u, row);
      if id !in m {
        AllReferencesHas(db.records, id, row);
      }
    }
  }

  lemma UnionTables(db: Db, additions: seq<Record>)
    requires AllFresh(db, additions) && UniqueIds(additions)
    ensures Within(db.records, db.records + Index(additions))
    ensures AllReferences(db.records + Index(additions)) == AllReferences(db.records) + RowsOf(additions)
    ensures BlobIds(db.records + Index(additions)) == BlobIds(db.records) + BlobIds(Index(additions))
  {
    UnionWithin(db, additions);
    UnionReferences(db, additions);
  }

  lemma OperationsAfter(db: Db, plan: Plan, op: Operation, records: RecordMap)
    requires OperationsOk(records, db.operations) && op.triple !in db.operations
    requires forall o :: o in plan.history ==> o.triple !in db.operations && OperationOk(records, o)
    requires OperationOk(records, op)
    ensures var after := (db.operations + OperationIndex(plan.history))[op.triple := op];
            && OperationsOk(records, after)
            && forall t :: t in db.operations ==> t in after && after[t] == db.operations[t]
  {
    hide OperationOk, OperationIndex;
    var history := OperationIndex(plan.history);
    forall t | t in history
      ensures t !in db.operations && history[t].triple == t && OperationOk(records, history[t])
    {
      assert history[t] in plan.history;
    }
  }

  lemma PayloadsAfter(db: Db, added: RecordMap, payloads: map<Id, Bytes>, db': Db)
    requires PayloadsIntact(db) && db.payloads.Keys == BlobIds(db.records)
    requires forall id :: id in added ==> id !in db.records
    requires payloads.Keys == BlobIds(added) && forall id :: id in payloads ==> Matches(added[id], payloads[id])
    requires db'.records == db.records + added && db'.payloads == db.payloads + payloads
    ensures PayloadsIntact(db')
    ensures forall id :: id in db.payloads ==> id in db'.payloads && db'.payloads[id] == db.payloads[id]
  {
    hide Matches;
    forall id | id in db'.payloads
      ensures BlobIntact(db', id)
    {
      assert id !in payloads ==> BlobIntact(db, id);
    }
  }

  /** What makes a plan sound: new rows under new keys, a valid graph, resolving results, and the
      right bytes for exactly the new blobs. */
  ghost predicate Sound(db: Db, plan: Plan, op: Operation) {
    var added := Index(plan.additions);
    && AllFresh(db, plan.additions) && UniqueIds(plan.additions)
    && Valid(db.records + added)
    && UniqueTriples(plan.history)
    && (forall o :: o in plan.history ==> o.triple !in db.operations && o.triple != op.triple)
    && (forall o :: o in plan.history ==> OperationOk(db.records + added, o))
    && op.triple !in db.operations && OperationOk(db.records + added, op)
    && plan.payloads.Keys == BlobIds(added)
    && forall id :: id in plan.payloads ==> Matches(added[id], plan.payloads[id])
  }

  /** Carrying out a sound plan keeps the invariant and everything stored. */
  lemma ApplyKeeps(db: Db, plan: Plan, op: Operation)
    requires Consistent(db) && Sound(db, plan, op)
    ensures Consistent(Apply(db, plan, op)) && Extends(db, Apply(db, plan, op))
  {
    hide Valid, AllReferences, OperationOk, OperationsOk, BlobIds, Matches, PayloadsIntact, RowsOf, Index, OperationIndex, UniqueIds,
         UniqueTriples;
    var db' := Apply(db, plan, op);
    UnionTables(db, plan.additions);
    ResultsStillResolve(db.records, db'.records, db.operations);
    OperationsAfter(db, plan, op, db'.records);
    PayloadsAfter(db, Index(plan.additions), plan.payloads, db');
  }

  // ---------- Create ----------

  lemma SingleIndex(r: Record)
    ensures Index([r]) == map[r.id := r]
  {
    assert [r][..0] == [];
  }

  lemma ArtifactIsIsolated(db: Db, r: Record)
    requires Valid(db.records) && r.Artifact? && r.id !in db.records && RecordOk(r)
    ensures Valid(db.records[r.id := r])
  {
    hide Valid, RecordOk;
    AddIsolated(db.records, r);
  }

  lemma NoBlobs(r: Record)
    requires !r.Blob?
    ensures BlobIds(map[r.id := r]) == {}
  {
  }

  lemma StampedArtifact(call: Call)
    requires CallOk(call) && call.request.body.CreateBody?
    ensures var r := Stamped(call.request.body.artifact, call.now); RecordOk(r) && StableId(r.id)
  {
    hide Time.TimeOk, StableId, OpaqueOk, TypeOk;
  }

  lemma CreateSound(db: Db, call: Call, plan: Plan, op: Operation)
    requires Stored(db) && CallOk(call) && call.request.body.CreateBody?
    requires CreatePlan(db, call) == Some(plan) && op == OperationOf(call, plan) && op.triple !in db.operations
    ensures Sound(db, plan, op)
  {
    hide Valid, AllReferences, BlobIds, HasCycle, OperationsOk, Time.StampOk, Time.ReadStamp;
    var r := plan.additions[0];
    SingleIndex(r);
    StampedArtifact(call);
    hide FieldsOk, TripleOk;
    ArtifactIsIsolated(db, r);
    assert db.records + Index(plan.additions) == db.records[r.id := r];
    NoBlobs(r);
  }

  // ---------- Append ----------

  lemma InCombined(db: Db, call: Call, r: Record)
    requires call.request.body.AppendBody? && Shaped(call.request.body) && AppendAllowed(db, call) && r in Announced(call)
    ensures r.id in AppendRecords(db, call) && AppendRecords(db, call)[r.id] == r
  {
    var added := Fresh(db, Announced(call));
    FreshUnique(db, Announced(call));
    assert Reusable(db, r);
    if r.id !in db.records {
      IndexAt(added, r);
    }
  }

  lemma AppendSound(db: Db, call: Call, plan: Plan, op: Operation)
    requires call.request.body.AppendBody? && Shaped(call.request.body)
    requires NamesOk(call) && AppendPlan(db, call) == Some(plan) && op == OperationOf(call, plan) && op.triple !in db.operations
    ensures Sound(db, plan, op)
  {
    hide Valid, Matches, ClosureBlobs, UniqueIds, AllReferences, BlobIds, TotalLength, OperationsOk, Index, Stored,
         AppendAllowed, Fresh, AllFresh, NewPayloads, Announced, TripleOk, StableId, Time.TimeOk;
    AppendMeans(db, call);
    FreshUnique(db, Announced(call));
    NewBlobsGiven(db, call);
  }

  lemma StableWhenValid(db: RecordMap)
    ensures Valid(db) ==> forall id :: id in db ==> StableId(id)
  {
    hide GraphOk, ClosuresBounded, StableId, Time.TimeOk;
  }

  lemma AppendMeans(db: Db, call: Call)
    requires call.request.body.AppendBody? && Shaped(call.request.body) && AppendAllowed(db, call)
    ensures UniqueIds(Announced(call)) && Valid(AppendRecords(db, call))
    ensures Resolves(AppendRecords(db, call), call.request.body.version.id, VersionKind)
    ensures StableId(call.request.body.version.id)
  {
    StableWhenValid(AppendRecords(db, call));
    hide Valid, StableId, Matches, ClosureBlobs, UniqueIds, BlobIds, TotalLength, OperationsOk, Index;
    var version := Stamped(call.request.body.version, call.now);
    assert Announced(call)[0] == version;
    InCombined(db, call, version);
  }

  /** Exactly the new blobs of an accepted append get bytes, and the right ones. */
  lemma NewBlobsGiven(db: Db, call: Call)
    requires call.request.body.AppendBody? && Shaped(call.request.body) && AppendAllowed(db, call)
    ensures var added := Index(Fresh(db, Announced(call)));
            var payloads := NewPayloads(db, call.supplied);
            && payloads.Keys == BlobIds(added)
            && forall id :: id in payloads ==> Matches(added[id], payloads[id])
  {
    hide Valid, Matches, ClosureBlobs, TotalLength, Resolves, RootTargets, OperationsOk, Shaped, UniqueIds, Reusable, Index, Fresh,
         Announced;
    var combined := AppendRecords(db, call);
    var refs := AppendRefs(db, call);
    var added := Fresh(db, Announced(call));
    forall id | id in NewPayloads(db, call.supplied)
      ensures id in BlobIds(Index(added)) && Matches(Index(added)[id], call.supplied[id])
    {
      assert id in refs && BytesAvailable(db, combined, call.supplied, id);
      MatchesBlob(combined[id], call.supplied[id]);
    }
    forall id | id in BlobIds(Index(added))
      ensures id in NewPayloads(db, call.supplied)
    {
      var r := Index(added)[id];
      assert r in added && r in Announced(call) && r.id == id;
      AnnouncedBlob(call, r);
      assert BytesAvailable(db, combined, call.supplied, id);
    }
  }

  lemma MatchesBlob(r: Record, data: Bytes)
    requires Matches(r, data)
    ensures r.Blob?
  {
  }

  lemma AnnouncedBlob(call: Call, r: Record)
    requires call.request.body.AppendBody? && Shaped(call.request.body) && r in Announced(call) && r.Blob?
    ensures r in call.request.body.blobs
  {
    var b := call.request.body;
    var links := StampedAll(b.links, call.now);
    assert r != Stamped(b.version, call.now);
    assert r !in links by {
      forall i | 0 <= i < |links|
        ensures links[i] != r
      {
        assert links[i].Kind() == b.links[i].Kind() == ProvenanceKind;
      }
    }
    assert OfKind(b.roots, ContentRootKind) && OfKind(b.manifests, ManifestKind);
  }

  // ---------- Import ----------

  lemma {:induction false} ArtifactIdsDistinct(records: seq<Record>)
    requires UniqueIds(records)
    ensures Distinct(ArtifactIds(records))
  {
    if records != [] {
      var n := |records| - 1;
      ArtifactIdsDistinct(records[..n]);
      var ids := ArtifactIds(records[..n]);
      if records[n].Artifact? {
        forall i | 0 <= i < |ids|
          ensures ids[i] != records[n].id
        {
          assert ids[i] in ids;
          var r :| r in records[..n] && r.Artifact? && r.id == ids[i];
          var k :| 0 <= k < n && records[..n][k] == r;
          assert records[k].id != records[n].id;
        }
      }
    }
  }

  /** The fresh part of a set of records. */
  lemma FreshIndex(db: Db, records: seq<Record>)
    requires UniqueIds(records)
    ensures UniqueIds(Fresh(db, records)) && AllFresh(db, Fresh(db, records))
    ensures forall id :: id in Index(Fresh(db, records)) <==> id in Index(records) && id !in db.records
    ensures forall id :: id in Index(Fresh(db, records)) ==> id in Index(records) && Index(Fresh(db, records))[id] == Index(records)[id]
  {
    hide UniqueIds;
    FreshUnique(db, records);
    var added := Fresh(db, records);
    forall id | id in Index(added)
      ensures id in Index(records) && id !in db.records && Index(added)[id] == Index(records)[id]
    {
      IndexAt(records, Index(added)[id]);
    }
    forall id | id in Index(records) && id !in db.records
      ensures id in Index(added)
    {
      assert Index(records)[id] in added;
    }
  }

  /** The bundle fits beside what is stored, and the receipt beside both. */
  ghost predicate Fits(db: Db, call: Call) {
    && call.request.body.ImportBody?
    && UniqueIds(call.bundle.records)
    && Agree(db.records, Index(call.bundle.records))
    && call.request.body.receiptId !in db.records && call.request.body.receiptId !in Index(call.bundle.records)
  }

  lemma NoConflictFits(db: Db, call: Call)
    requires call.request.body.ImportBody? && ValidDocument(call.bundle) && NoConflict(db, call)
    ensures Fits(db, call)
  {
    hide Valid, HistoryOf, Index, OperationsOk;
  }

  /** The records after an import: the stored ones, the bundle's and the receipt. */
  lemma ImportRecordsAre(db: Db, call: Call)
    requires Fits(db, call)
    ensures UniqueIds(ImportAdditions(db, call)) && AllFresh(db, ImportAdditions(db, call))
    ensures Index(ImportAdditions(db, call)) ==
            Index(Fresh(db, call.bundle.records))[call.request.body.receiptId := ImportReceipt(call)]
    ensures ImportRecords(db, call) == (db.records + Index(call.bundle.records))[call.request.body.receiptId := ImportReceipt(call)]
    ensures Within(db.records, ImportRecords(db, call)) && Within(Index(call.bundle.records), ImportRecords(db, call))
  {
    hide ImportReceipt, Fresh, Index, UniqueIds, AllFresh;
    FreshIndex(db, call.bundle.records);
    ReceiptIsNew(db, call);
    ReceiptId(call);
    IndexMore(Fresh(db, call.bundle.records), ImportReceipt(call));
    UnionWithReceipt(db.records, Index(call.bundle.records), Index(Fresh(db, call.bundle.records)), ImportReceipt(call));
  }

  lemma UnionWithReceipt(stored: RecordMap, incoming: RecordMap, added: RecordMap, receipt: Record)
    requires Agree(stored, incoming) && receipt.id !in stored && receipt.id !in incoming
    requires forall id :: id in added <==> id in incoming && id !in stored
    requires forall id :: id in added ==> id in incoming && added[id] == incoming[id]
    ensures stored + added[receipt.id := receipt] == (stored + incoming)[receipt.id := receipt]
    ensures Within(stored, (stored + incoming)[receipt.id := receipt])
    ensures Within(incoming, (stored + incoming)[receipt.id := receipt])
  {
  }

  lemma ReceiptId(call: Call)
    requires call.request.body.ImportBody?
    ensures ImportReceipt(call).id == call.request.body.receiptId && ImportReceipt(call).Receipt?
  {
  }

  lemma ReceiptIsNew(db: Db, call: Call)
    requires Fits(db, call)
    ensures UniqueIds(ImportAdditions(db, call)) && AllFresh(db, ImportAdditions(db, call))
  {
    hide ImportReceipt;
    var added := Fresh(db, call.bundle.records);
    FreshUnique(db, call.bundle.records);
    ReceiptId(call);
    forall i | 0 <= i < |added|
      ensures added[i].id != ImportReceipt(call).id
    {
      assert added[i] in added;
      IndexAt(call.bundle.records, added[i]);
    }
  }

  /** If the stored metadata and the bundle are each valid and no conflict check fails, then the
      union with the receipt is valid: the validation that ends an import never refuses. */
  lemma ImportMergeIsValid(db: Db, call: Call)
    requires call.request.body.ImportBody? && NamesOk(call)
    requires Valid(db.records) && OperationsOk(db.records, db.operations)
    requires ValidDocument(call.bundle) && NoConflict(db, call)
    ensures Valid(ImportRecords(db, call))
    ensures OperationsOk(ImportRecords(db, call), ImportOperations(db, call))
    ensures Resolves(ImportRecords(db, call), call.request.body.receiptId, ReceiptKind)
  {
    hide Valid, HistoryOf, RefsResolve, Index, OperationsOk, ImportReceipt, ImportRecords, ImportOperations, RecordOk, StableId, TripleOk;
    NoConflictFits(db, call);
    ReceiptId(call);
    var incoming := Index(call.bundle.records);
    var union := db.records + incoming;
    var receipt := ImportReceipt(call);
    MergeValid(db.records, incoming);
    ImportRecordsAre(db, call);
    ReceiptFits(db, call, union);
    AddIsolated(union, receipt);
    var after := ImportRecords(db, call);
    ResultsStillResolve(db.records, after, db.operations);
    ResultsStillResolve(incoming, after, OperationIndex(call.bundle.operations));
    HistoryResolves(db, call, after);
  }

  lemma ReceiptFits(db: Db, call: Call, union: RecordMap)
    requires call.request.body.ImportBody? && NamesOk(call) && UniqueIds(call.bundle.records)
    requires Valid(Index(call.bundle.records)) && Within(Index(call.bundle.records), union)
    ensures RecordOk(ImportReceipt(call)) && RefsResolve(union, ImportReceipt(call))
  {
    hide Valid, StableId, TripleOk, Index, UniqueIds, SortIds, ArtifactIds, Time.TimeOk;
    var ids := ArtifactIds(call.bundle.records);
    ArtifactIdsDistinct(call.bundle.records);
    SortIdsAscends(ids);
    StableWhenValid(Index(call.bundle.records));
    forall a | a in SortIds(ids)
      ensures Resolves(union, a, ArtifactKind) && StableId(a)
    {
      assert a in ids;
      var r :| r in call.bundle.records && r.Artifact? && r.id == a;
      IndexAt(call.bundle.records, r);
    }
  }

  lemma HistoryResolves(db: Db, call: Call, after: RecordMap)
    requires OperationsOk(after, db.operations) && OperationsOk(after, OperationIndex(call.bundle.operations))
    requires UniqueTriples(call.bundle.operations)
    ensures OperationsOk(after, ImportOperations(db, call))
    ensures forall o :: o in FreshOperations(db, call.bundle.operations) ==> OperationOk(after, o)
  {
    var added := FreshOperations(db, call.bundle.operations);
    forall o | o in added
      ensures OperationOk(after, o)
    {
      assert o in call.bundle.operations;
      OperationIndexAt(call.bundle.operations, o);
    }
    forall t | t in ImportOperations(db, call)
      ensures ImportOperations(db, call)[t].triple == t && OperationOk(after, ImportOperations(db, call)[t])
    {
      if t in OperationIndex(added) {
        assert OperationIndex(added)[t] in added;
      }
    }
  }

  lemma ImportOperationsAre(db: Db, call: Call)
    ensures ImportOperations(db, call) == db.operations + OperationIndex(FreshOperations(db, call.bundle.operations))
  {
  }

  /** So an import is decided by its conflict checks alone. */
  lemma ImportDecidedByConflicts(db: Db, call: Call)
    requires call.request.body.ImportBody? && NamesOk(call) && Stored(db) && ValidDocument(call.bundle)
    ensures ImportAllowed(db, call) <==> NoConflict(db, call) && KnownBytesAgree(db, call.supplied)
  {
    hide Valid, TripleOk, StableId, OperationsOk, NoConflict, AllReferences;
    if NoConflict(db, call) {
      ImportMergeIsValid(db, call);
    }
  }

  lemma ImportSound(db: Db, call: Call, plan: Plan, op: Operation)
    requires Stored(db) && call.request.body.ImportBody? && NamesOk(call) && BundleOk(call.bundle, call.supplied)
    requires ImportPlan(db, call) == Some(plan) && op == OperationOf(call, plan) && op.triple !in db.operations
    ensures Sound(db, plan, op)
  {
    hide Valid, NoConflict, Matches, SuppliedBounded, Index, BlobIds, Stored, KnownBytesAgree,
         ImportAdditions, ImportOperations, OperationsOk, NewPayloads, Fresh, FreshOperations, TripleOk, StableId, Time.TimeOk;
    NoConflictFits(db, call);
    ImportRecordsAre(db, call);
    StoredMeans(db);
    ImportMergeIsValid(db, call);
    HistoryPart(db, call);
    OwnTripleIsNew(db, call);
    ImportedBytes(db, call);
  }

  lemma StoredMeans(db: Db)
    requires Stored(db)
    ensures Valid(db.records) && OperationsOk(db.records, db.operations)
  {
  }

  lemma {:induction false} FreshOperationsUnique(db: Db, operations: seq<Operation>)
    requires UniqueTriples(operations)
    ensures UniqueTriples(FreshOperations(db, operations))
  {
    if operations != [] {
      var n := |operations| - 1;
      FreshOperationsUnique(db, operations[..n]);
      var f := FreshOperations(db, operations[..n]);
      forall i | 0 <= i < |f|
        ensures f[i].triple != operations[n].triple
      {
        assert f[i] in f;
        var k :| 0 <= k < n && operations[..n][k] == f[i];
        assert operations[k].triple != operations[n].triple;
      }
    }
  }

  lemma OwnTripleIsNew(db: Db, call: Call)
    requires call.request.body.ImportBody? && ValidDocument(call.bundle) && NoConflict(db, call)
    ensures UniqueTriples(FreshOperations(db, call.bundle.operations))
    ensures forall o :: o in FreshOperations(db, call.bundle.operations) ==> o.triple != call.request.Triple()
  {
    FreshOperationsUnique(db, call.bundle.operations);
  }

  lemma HistoryPart(db: Db, call: Call)
    requires ValidDocument(call.bundle) && Fits(db, call)
    ensures forall o :: o in FreshOperations(db, call.bundle.operations) ==> o.triple !in db.operations
    ensures forall o :: o in FreshOperations(db, call.bundle.operations) ==> OperationOk(ImportRecords(db, call), o)
  {
    hide Valid, Index, ImportRecords;
    ImportRecordsAre(db, call);
    forall o | o in FreshOperations(db, call.bundle.operations)
      ensures OperationOk(ImportRecords(db, call), o)
    {
      OperationIndexAt(call.bundle.operations, o);
      assert OperationOk(Index(call.bundle.records), o);
    }
  }

  lemma ImportedBytes(db: Db, call: Call)
    requires Fits(db, call)
    requires call.supplied.Keys == BlobIds(Index(call.bundle.records))
    requires forall id :: id in call.supplied ==> Matches(Index(call.bundle.records)[id], call.supplied[id])
    ensures var added := Index(ImportAdditions(db, call));
            var payloads := NewPayloads(db, call.supplied);
            && payloads.Keys == BlobIds(added)
            && forall id :: id in payloads ==> Matches(added[id], payloads[id])
  {
    hide *;
    FitsMeans(db, call);
    ImportRecordsAre(db, call);
    FreshIndex(db, call.bundle.records);
    ReceiptId(call);
    BytesOfAdded(db, call.supplied, Index(call.bundle.records), Index(Fresh(db, call.bundle.records)), ImportReceipt(call));
  }

  lemma FitsMeans(db: Db, call: Call)
    requires Fits(db, call)
    ensures call.request.body.ImportBody?
    ensures UniqueIds(call.bundle.records) && call.request.body.receiptId !in Index(call.bundle.records)
    ensures call.request.body.receiptId !in db.records
  {
  }

  lemma BytesOfAdded(db: Db, supplied: map<Id, Bytes>, incoming: RecordMap, added: RecordMap, receipt: Record)
    requires supplied.Keys == BlobIds(incoming) && forall id :: id in supplied ==> Matches(incoming[id], supplied[id])
    requires forall id :: id in added <==> id in incoming && id !in db.records
    requires forall id :: id in added ==> id in incoming && added[id] == incoming[id]
    requires receipt.Receipt? && receipt.id !in incoming && receipt.id !in db.records
    ensures NewPayloads(db, supplied).Keys == BlobIds(added[receipt.id := receipt])
    ensures forall id :: id in NewPayloads(db, supplied) ==> Matches(added[receipt.id := receipt][id], NewPayloads(db, supplied)[id])
  {
    hide Matches;
  }

  /** An import never adds to an artifact that is already stored. */
  lemma ImportKeepsHistories(db: Db, call: Call, artifact: Id)
    requires call.request.body.ImportBody? && ValidDocument(call.bundle) && NoConflict(db, call)
    requires Resolves(db.records, artifact, ArtifactKind)
    ensures HistoryOf(ImportRecords(db, call), artifact) == HistoryOf(db.records, artifact)
  {
    hide Index, ImportRecords, ImportReceipt, GraphOk, ClosuresBounded;
    NoConflictFits(db, call);
    ImportRecordsAre(db, call);
    ReceiptId(call);
    var incoming := Index(call.bundle.records);
    assert AllResolve(incoming) by { ValidMeansResolve(incoming); }
    NoHistoryAdded(db.records, incoming, ImportReceipt(call), artifact);
  }

  lemma ValidMeansResolve(db: RecordMap)
    requires Valid(db)
    ensures AllResolve(db)
  {
  }

  /** Records that bring the same history of an artifact, or none of it, add nothing to it. */
  lemma NoHistoryAdded(stored: RecordMap, incoming: RecordMap, receipt: Record, artifact: Id)
    requires AllResolve(incoming) && Agree(stored, incoming) && receipt.Receipt? && receipt.id !in stored && receipt.id !in incoming
    requires Resolves(incoming, artifact, ArtifactKind) ==> HistoryOf(stored, artifact) == HistoryOf(incoming, artifact)
    ensures HistoryOf((stored + incoming)[receipt.id := receipt], artifact) == HistoryOf(stored, artifact)
  {
    hide RefsResolve, HistoryOf;
    var after := (stored + incoming)[receipt.id := receipt];
    forall v | v in incoming && incoming[v].Version? && incoming[v].artifactId == artifact
      ensures v in stored
    {
      ArtifactOfVersion(incoming, v);
      HistoryHas(incoming, artifact, v);
      HistoryHas(stored, artifact, v);
    }
    forall p | p in incoming && incoming[p].Provenance? && incoming[p].subject in incoming
               && incoming[incoming[p].subject].Version? && incoming[incoming[p].subject].artifactId == artifact
      ensures p in stored
    {
      ArtifactOfVersion(incoming, incoming[p].subject);
      HistoryHas(incoming, artifact, p);
      HistoryHas(stored, artifact, p);
    }
    SubjectsResolve(incoming);
    SameHistories(stored, after, artifact);
  }

  lemma ArtifactOfVersion(db: RecordMap, v: Id)
    requires AllResolve(db) && v in db && db[v].Version?
    ensures Resolves(db, db[v].artifactId, ArtifactKind)
  {
    assert RefsResolve(db, db[v]);
  }

  lemma SubjectsResolve(db: RecordMap)
    requires AllResolve(db)
    ensures forall p :: p in db && db[p].Provenance? ==> Resolves(db, db[p].subject, VersionKind)
  {
    forall p | p in db && db[p].Provenance?
      ensures Resolves(db, db[p].subject, VersionKind)
    {
      assert RefsResolve(db, db[p]);
    }
  }

  lemma HistoryHas(db: RecordMap, artifact: Id, id: Id)
    ensures id in HistoryOf(db, artifact).versions <==> id in db && db[id].Version? && db[id].artifactId == artifact
    ensures id in HistoryOf(db, artifact).provenance <==>
            && id in db && db[id].Provenance? && db[id].subject in db
            && db[db[id].subject].Version? && db[db[id].subject].artifactId == artifact
    ensures id in HistoryOf(db, artifact).versions || id in HistoryOf(db, artifact).provenance ==> id in db
  {
  }

  /** A larger ledger with no further version of the artifact and no further provenance of one. */
  lemma SameHistories(db: RecordMap, db': RecordMap, artifact: Id)
    requires Within(db, db')
    requires forall v :: v in db' && v !in db && db'[v].Version? ==> db'[v].artifactId != artifact
    requires forall p :: p in db' && p !in db && db'[p].Provenance? ==>
               !(db'[p].subject in db' && db'[db'[p].subject].Version? && db'[db'[p].subject].artifactId == artifact)
    ensures HistoryOf(db', artifact) == HistoryOf(db, artifact)
  {
    var h, h' := HistoryOf(db, artifact), HistoryOf(db', artifact);
    assert h'.versions == h.versions;
    assert h'.provenance == h.provenance;
  }

  // ---------- Every step ----------

  /** Every plan that a call on a stored state yields is sound. */
  lemma PlanIsSound(db: Db, call: Call, plan: Plan)
    requires Stored(db) && CallOk(call) && call.request.Triple() !in db.operations && PlanOf(db, call) == Some(plan)
    ensures Sound(db, plan, OperationOf(call, plan))
  {
    hide Stored, Sound;
    var op := OperationOf(call, plan);
    match call.request.body
    case CreateBody(_) => CreateSound(db, call, plan, op);
    case AppendBody(_, _, _, _, _) => AppendSound(db, call, plan, op);
    case ImportBody(_) => ImportSound(db, call, plan, op);
  }

  lemma StepKeeps(db: Db, call: Call, outcome: Outcome, db': Db)
    requires Consistent(db) && Step(db, call, outcome, db')
    ensures Consistent(db') && Extends(db, db')
  {
    hide Stored, MayAnswer, Apply, Sound, PlanOf;
    if CallOk(call) && call.request.Triple() !in db.operations && Stored(db) && PlanOf(db, call).Some? {
      var plan := PlanOf(db, call).value;
      PlanIsSound(db, call, plan);
      ApplyKeeps(db, plan, OperationOf(call, plan));
    }
  }
}
