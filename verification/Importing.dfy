/** Deciding an import against the stored state. */
module Importing {
  import opened Records
  import opened Validity
  import opened Validation
  import opened LedgerState
  import opened LedgerTheory
  import opened Store
  import opened Reading
  import opened Appending

  // ---------- The conflict checks, one after the other ----------

  /** Every repeated artifact is stored unchanged and with the same complete history. */
  predicate HistoriesAgree(db: Db, incoming: RecordMap) {
    forall a :: a in incoming && incoming[a].Artifact? && a in db.records ==>
      db.records[a] == incoming[a] && HistoryOf(db.records, a) == HistoryOf(incoming, a)
  }

  /** Every repeated record is stored unchanged. */
  predicate RecordsAgree(db: Db, incoming: RecordMap) {
    forall id :: id in incoming && id in db.records ==> db.records[id] == incoming[id]
  }

  predicate OperationsAgree(db: Db, operations: seq<Operation>, own: Triple) {
    forall o :: o in operations ==> o.triple != own && (o.triple in db.operations ==> db.operations[o.triple] == o)
  }

  method CheckHistories(db: Db, bundle: Document) returns (ok: bool)
    requires UniqueIds(bundle.records)
    ensures ok <==> HistoriesAgree(db, Index(bundle.records))
  {
    hide HistoryOf, Index;
    var incoming := Index(bundle.records);
    for i := 0 to |bundle.records|
      invariant forall k :: 0 <= k < i && bundle.records[k].Artifact? && bundle.records[k].id in db.records ==>
                  && db.records[bundle.records[k].id] == bundle.records[k]
                  && HistoryOf(db.records, bundle.records[k].id) == HistoryOf(incoming, bundle.records[k].id)
    {
      var r := bundle.records[i];
      IndexAt(bundle.records, r);
      if r.Artifact? && r.id in db.records {
        if db.records[r.id] != r || HistoryOf(db.records, r.id) != HistoryOf(incoming, r.id) {
          return false;
        }
      }
    }
    forall a | a in incoming && incoming[a].Artifact? && a in db.records
      ensures db.records[a] == incoming[a] && HistoryOf(db.records, a) == HistoryOf(incoming, a)
    {
      assert incoming[a] in bundle.records;
    }
    return true;
  }

  /** The records of the bundle that are not stored yet. */
  method NewRecords(db: Db, bundle: Document) returns (ok: bool, additions: seq<Record>)
    requires UniqueIds(bundle.records)
    ensures ok <==> RecordsAgree(db, Index(bundle.records))
    ensures ok ==> additions == Fresh(db, bundle.records)
  {
    hide Fresh, Index;
    additions := [];
    NothingFresh(db);
    for i := 0 to |bundle.records|
      invariant additions == Fresh(db, bundle.records[..i])
      invariant forall k :: 0 <= k < i && bundle.records[k].id in db.records ==> db.records[bundle.records[k].id] == bundle.records[k]
    {
      var r := bundle.records[i];
      FreshPrefix(db, bundle.records, i);
      IndexAt(bundle.records, r);
      if r.id !in db.records {
        additions := additions + [r];
      } else if db.records[r.id] != r {
        return false, additions;
      }
    }
    assert bundle.records[..|bundle.records|] == bundle.records;
    forall id | id in Index(bundle.records) && id in db.records
      ensures db.records[id] == Index(bundle.records)[id]
    {
      assert Index(bundle.records)[id] in bundle.records;
    }
    return true, additions;
  }

  lemma FreshOperationsPrefix(db: Db, operations: seq<Operation>, i: nat)
    requires i < |operations|
    ensures FreshOperations(db, operations[..i + 1])
            == FreshOperations(db, operations[..i]) + if operations[i].triple in db.operations then [] else [operations[i]]
  {
    var s := operations[..i + 1];
    assert s[..|s| - 1] == operations[..i] && s[|s| - 1] == operations[i];
  }

  lemma NoFreshOperations(db: Db)
    ensures FreshOperations(db, []) == []
  {
  }

  /** The operations of the bundle that are not stored yet. */
  method NewOperations(db: Db, operations: seq<Operation>, own: Triple) returns (ok: bool, history: seq<Operation>)
    ensures ok <==> OperationsAgree(db, operations, own)
    ensures ok ==> history == FreshOperations(db, operations)
  {
    hide FreshOperations;
    history := [];
    NoFreshOperations(db);
    for i := 0 to |operations|
      invariant history == FreshOperations(db, operations[..i])
      invariant OperationsAgree(db, operations[..i], own)
    {
      var o := operations[i];
      FreshOperationsPrefix(db, operations, i);
      assert operations[..i + 1] == operations[..i] + [o];
      if o.triple == own {
        return false, history;
      }
      if o.triple !in db.operations {
        history := history + [o];
      } else if db.operations[o.triple] != o {
        return false, history;
      }
    }
    assert operations[..|operations|] == operations;
    return true, history;
  }

  /** Compares the bytes of known blobs and keeps those of new ones. */
  method CompareBytes(store: Handle, db: Db, supplied: map<Id, Bytes>) returns (ok: bool, payloads: map<Id, Bytes>)
    requires store.inTransaction && store.pending == db
    modifies store
    ensures OnlyReads(store, ok)
    ensures ok ==> KnownBytesAgree(db, supplied) && payloads == NewPayloads(db, supplied)
    ensures old(store.Faultless()) && KnownBytesAgree(db, supplied) ==> ok
  {
    hide BlobIntact;
    payloads := map[];
    var todo := supplied.Keys;
    while todo != {}
      invariant OnlyReads(store, true)
      invariant todo <= supplied.Keys
      invariant forall id :: id in supplied && id !in todo && id in db.records ==> HasBytes(db, id, supplied[id])
      invariant payloads == map id | id in supplied && id !in todo && id !in db.records :: supplied[id]
    {
      var id :| id in todo;
      if id in db.records {
        KnownMeans(db, supplied, id);
        ok := BlobReads(store, db, id);
        if !ok {
          return;
        }
        IntactHasBytes(db, id);
        if db.payloads[id] != supplied[id] {
          return false, payloads;
        }
      } else {
        payloads := payloads[id := supplied[id]];
      }
      todo := todo - {id};
    }
    return true, payloads;
  }

  predicate HasBytes(db: Db, id: Id, data: Bytes) { BlobIntact(db, id) && id in db.payloads && db.payloads[id] == data }

  lemma IntactHasBytes(db: Db, id: Id)
    requires BlobIntact(db, id)
    ensures id in db.payloads
  {
  }

  lemma KnownMeans(db: Db, supplied: map<Id, Bytes>, id: Id)
    requires id in supplied && id in db.records
    ensures KnownBytesAgree(db, supplied) ==> BlobIntact(db, id) && id in db.payloads && db.payloads[id] == supplied[id]
  {
    hide Matches;
  }

  // ---------- The decision ----------

  lemma ConflictParts(db: Db, call: Call)
    requires call.request.body.ImportBody?
    ensures NoConflict(db, call) <==>
            && call.request.body.receiptId !in db.records && call.request.body.receiptId !in Index(call.bundle.records)
            && HistoriesAgree(db, Index(call.bundle.records)) && RecordsAgree(db, Index(call.bundle.records))
            && OperationsAgree(db, call.bundle.operations, call.request.Triple())
  {
    hide HistoryOf, Index;
  }

  /** With no conflict the combined document is valid: the last check of an import never fails. */
  lemma CombinedIsValid(db: Db, call: Call, d: Document)
    requires call.request.body.ImportBody? && NamesOk(call) && Stored(db) && Describes(d, db)
    requires ValidDocument(call.bundle) && NoConflict(db, call)
    ensures ValidDocument(Document(d.records + ImportAdditions(db, call),
                                   d.operations + FreshOperations(db, call.bundle.operations)))
  {
    hide Valid, NoConflict, Index, OperationIndex, FreshOperations, ImportAdditions, OperationsOk, UniqueIds, UniqueTriples, NamesOk,
         OperationShape;
    NoConflictFits(db, call);
    ImportRecordsAre(db, call);
    StoredMeans(db);
    ImportMergeIsValid(db, call);
    OwnTripleIsNew(db, call);
    HistoryPart(db, call);
    CombinedDocument(d, db, ImportAdditions(db, call), FreshOperations(db, call.bundle.operations));
  }

  /** The plan of an import, or a refusal. */
  method Import(store: Handle, db: Db, d: Document, call: Call) returns (plan: Option<Plan>)
    requires call.request.body.ImportBody? && NamesOk(call) && ValidDocument(call.bundle)
    requires store.inTransaction && store.pending == db && Stored(db) && Describes(d, db)
    modifies store
    ensures OnlyReads(store, plan.Some?)
    ensures plan.Some? ==> plan == ImportPlan(db, call)
    ensures old(store.Faultless()) ==> plan == ImportPlan(db, call)
  {
    hide Valid, Stored, NoConflict, Fresh, FreshOperations, Index, UniqueIds, ValidDocument, Describes, KnownBytesAgree, NewPayloads,
         ImportReceipt, HistoriesAgree, RecordsAgree, OperationsAgree, ImportAllowed, NamesOk;
    var receiptId := call.request.body.receiptId;
    ConflictParts(db, call);
    ImportDecidedByConflicts(db, call);
    ValidIsUnique(call.bundle);
    if receiptId in db.records || receiptId in Index(call.bundle.records) {
      return None;
    }
    var ok := CheckHistories(db, call.bundle);
    if !ok {
      return None;
    }
    var additions, history, payloads;
    ok, additions := NewRecords(db, call.bundle);
    if !ok {
      return None;
    }
    ok, history := NewOperations(db, call.bundle.operations, call.request.Triple());
    if !ok {
      return None;
    }
    ok, payloads := CompareBytes(store, db, call.supplied);
    if !ok {
      return None;
    }
    additions := additions + [ImportReceipt(call)];
    CombinedIsValid(db, call, d);
    ok := ValidateMetadata(Document(d.records + additions, d.operations + history));
    if !ok {
      return None;
    }
    return Some(Plan(additions, payloads, history, receiptId));
  }

  lemma ValidIsUnique(d: Document)
    requires ValidDocument(d)
    ensures UniqueIds(d.records)
  {
  }
}
