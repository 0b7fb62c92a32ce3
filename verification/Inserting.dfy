/** Inserting the rows of a plan one statement at a time. */
module Inserting {
  import opened Records
  import opened Validity
  import opened LedgerState
  import opened LedgerTheory
  import opened Store

  // ---------- The rows of a plan fit the tables ----------

  lemma {:induction false} IndexPrefix(records: seq<Record>, i: nat)
    requires i < |records|
    ensures Index(records[..i + 1]) == Index(records[..i])[records[i].id := records[i]]
  {
    assert records[..i + 1] == records[..i] + [records[i]];
    IndexMore(records[..i], records[i]);
  }

  lemma AddLast<K, V>(m: map<K, V>, n: map<K, V>, k: K, v: V)
    ensures (m + n)[k := v] == m + n[k := v]
  {
  }

  lemma NoneIndexed()
    ensures Index([]) == map[] && OperationIndex([]) == map[]
  {
  }

  lemma OperationIndexMore(operations: seq<Operation>, o: Operation)
    ensures OperationIndex(operations + [o]) == OperationIndex(operations)[o.triple := o]
  {
    var s := operations + [o];
    assert s[..|s| - 1] == operations && s[|s| - 1] == o;
  }

  lemma OperationIndexPrefix(operations: seq<Operation>, i: nat)
    requires i < |operations|
    ensures OperationIndex(operations[..i + 1]) == OperationIndex(operations[..i])[operations[i].triple := operations[i]]
  {
    assert operations[..i + 1] == operations[..i] + [operations[i]];
    OperationIndexMore(operations[..i], operations[i]);
  }

  function RowSet(r: Record, j: nat): set<RefRow>
    requires j <= |ReferenceRows(r)|
  {
    set row | row in ReferenceRows(r)[..j]
  }

  lemma RowSetMore(r: Record, j: nat)
    requires j < |ReferenceRows(r)|
    ensures RowSet(r, j + 1) == RowSet(r, j) + {ReferenceRows(r)[j]}
  {
    assert ReferenceRows(r)[..j + 1] == ReferenceRows(r)[..j] + [ReferenceRows(r)[j]];
  }

  lemma RowsOfPrefix(records: seq<Record>, i: nat)
    requires i < |records|
    ensures RowsOf(records[..i + 1]) == RowsOf(records[..i]) + RowSet(records[i], |ReferenceRows(records[i])|)
  {
    hide ReferenceRows;
    var r := records[i];
    assert records[..i + 1] == records[..i] + [r];
    assert ReferenceRows(r)[..|ReferenceRows(r)|] == ReferenceRows(r);
  }

  lemma RowSource(r: Record, row: RefRow)
    requires row in ReferenceRows(r)
    ensures row.source == r.id
  {
  }

  lemma RowsDistinct(r: Record, i: nat, j: nat)
    requires i < j < |ReferenceRows(r)|
    ensures ReferenceRows(r)[i] != ReferenceRows(r)[j]
  {
  }

  lemma RowTarget(db: RecordMap, r: Record, row: RefRow)
    requires RefsResolve(db, r) && row in ReferenceRows(r)
    ensures row.target in db
  {
    match r
    case Manifest(id, _, entries) =>
      ManifestRow(id, entries, row);
    case Version(_, _, _, _, _, _, _, _, _) =>
      VersionRow(r, row);
    case Receipt(_, imported, _) =>
      var k :| 0 <= k < |ReferenceRows(r)| && ReferenceRows(r)[k] == row;
      assert row.target == imported[k] && imported[k] in imported;
    case _ =>
  }

  lemma ManifestRow(id: Id, entries: seq<Entry>, row: RefRow)
    requires row in Enumerated(id, EntryBlobs(entries), (i: nat) => EntryField(i))
    ensures exists e :: e in entries && row.target == e.blobRef
  {
    var rows := Enumerated(id, EntryBlobs(entries), (i: nat) => EntryField(i));
    var k :| 0 <= k < |rows| && rows[k] == row;
    assert entries[k] in entries;
  }

  lemma VersionRow(r: Record, row: RefRow)
    requires r.Version? && row in ReferenceRows(r)
    ensures row.target == r.artifactId || row.target == r.contentRootRef || row.target in r.parents
  {
    var k :| 0 <= k < |ReferenceRows(r)| && ReferenceRows(r)[k] == row;
    if k >= 2 {
      assert row.target == r.parents[k - 2];
    }
  }

  /** Every derived row of a sound plan is new and refers to stored records. */
  lemma PlannedRowFits(db: Db, plan: Plan, op: Operation, records: RecordMap, i: nat, j: nat, refs: set<RefRow>)
    requires Stored(db) && Sound(db, plan, op) && records == db.records + Index(plan.additions)
    requires i < |plan.additions| && j < |ReferenceRows(plan.additions[i])|
    requires refs == db.refs + RowsOf(plan.additions[..i]) + RowSet(plan.additions[i], j)
    ensures var row := ReferenceRows(plan.additions[i])[j];
            row !in refs && row.source in records && row.target in records
  {
    hide ReferenceRows, RefsResolve, Index, UniqueIds, UniqueTriples, OperationOk, Matches, BlobIds, OperationsOk;
    var r := plan.additions[i];
    var rows := ReferenceRows(r);
    var row := rows[j];
    assert row in rows;
    RowSource(r, row);
    assert r in plan.additions;
    IndexAt(plan.additions, r);
    assert records[r.id] == r;
    SoundResolves(db, plan, op, r);
    RowTarget(records, r, row);
    if row in db.refs {
      var id := AllReferencesFrom(db.records, row);
      RowSource(db.records[id], row);
      StoredUnder(db, id);
      assert false;
    }
    if row in RowsOf(plan.additions[..i]) {
      var s :| s in plan.additions[..i] && row in ReferenceRows(s);
      RowSource(s, row);
      OtherIds(plan.additions, i, s);
      assert false;
    }
    if row in RowSet(r, j) {
      var k :| 0 <= k < j && rows[k] == row;
      RowsDistinct(r, k, j);
      assert false;
    }
  }

  lemma OtherIds(records: seq<Record>, i: nat, s: Record)
    requires UniqueIds(records) && i < |records| && s in records[..i]
    ensures s.id != records[i].id
  {
    var k :| 0 <= k < i && records[k] == s;
  }

  lemma StoredUnder(db: Db, id: Id)
    requires Stored(db) && id in db.records
    ensures db.records[id].id == id
  {
  }

  lemma SoundResolves(db: Db, plan: Plan, op: Operation, r: Record)
    requires Sound(db, plan, op) && r in plan.additions
    ensures RefsResolve(db.records + Index(plan.additions), r)
  {
    hide RefsResolve;
    IndexAt(plan.additions, r);
    var records := db.records + Index(plan.additions);
    assert AllResolve(records);
    assert records[r.id] == r;
  }

  lemma SoundRecords(db: Db, plan: Plan, op: Operation)
    requires Sound(db, plan, op)
    ensures RecordsFit(db, plan.additions)
  {
  }

  predicate PayloadsFit(db: Db, payloads: map<Id, Bytes>) {
    forall id :: id in payloads ==> id !in db.payloads && id in db.records
  }

  predicate HistoryFits(db: Db, history: seq<Operation>) {
    && UniqueTriples(history)
    && forall o :: o in history ==> o.triple !in db.operations && o.resultRef in db.records
  }

  lemma SoundPayloads(db: Db, plan: Plan, op: Operation, db': Db)
    requires Stored(db) && Sound(db, plan, op)
    requires db'.records == db.records + Index(plan.additions) && db'.payloads == db.payloads
    ensures PayloadsFit(db', plan.payloads)
  {
    hide Valid, Matches, UniqueIds, UniqueTriples, OperationsOk, AllReferences;
    forall id | id in plan.payloads
      ensures id !in db.payloads && id in db'.records
    {
      assert Index(plan.additions)[id] in plan.additions;
    }
  }

  lemma SoundHistory(db: Db, plan: Plan, op: Operation, db': Db)
    requires Sound(db, plan, op) && db'.records == db.records + Index(plan.additions) && db'.operations == db.operations
    ensures HistoryFits(db', plan.history)
  {
    hide Valid, Matches, UniqueIds, BlobIds, Index;
  }

  lemma SoundOperation(db: Db, plan: Plan, op: Operation, db': Db)
    requires Sound(db, plan, op)
    requires db'.records == db.records + Index(plan.additions) && db'.operations == db.operations + OperationIndex(plan.history)
    ensures OperationFits(db', op)
  {
    hide Valid, Matches, UniqueIds, BlobIds, Index, UniqueTriples;
  }

  // ---------- The insert loops ----------

  predicate RecordsFit(db: Db, records: seq<Record>) { UniqueIds(records) && AllFresh(db, records) }

  lemma NextRecordFits(db: Db, records: seq<Record>, i: nat)
    requires i < |records|
    ensures Index(records[..i + 1]) == Index(records[..i])[records[i].id := records[i]]
    ensures RecordsFit(db, records) ==> records[i].id !in db.records + Index(records[..i])
  {
    IndexPrefix(records, i);
    if RecordsFit(db, records) {
      forall s | s in records[..i]
        ensures s.id != records[i].id
      {
        OtherIds(records, i, s);
      }
      assert records[i] in records;
    }
  }

  lemma RecordAdded(db: Db, records: seq<Record>, i: nat)
    requires i < |records|
    ensures WithRecord(db.(records := db.records + Index(records[..i])), records[i])
            == db.(records := db.records + Index(records[..i + 1]))
  {
    hide Index;
    IndexPrefix(records, i);
    AddLast(db.records, Index(records[..i]), records[i].id, records[i]);
  }

  method InsertRecords(store: Handle, records: seq<Record>) returns (ok: bool)
    requires store.inTransaction
    modifies store
    ensures store.durable == old(store.durable)
    ensures ok ==> store.inTransaction
    ensures ok ==> store.pending == old(store.pending).(records := old(store.pending).records + Index(records))
    ensures old(store.Faultless()) ==> store.Faultless()
    ensures old(store.Faultless()) && RecordsFit(old(store.pending), records) ==> ok
  {
    hide *;
    ghost var start := store.pending;
    NoneIndexed();
    for i := 0 to |records|
      invariant store.inTransaction && store.durable == old(store.durable)
      invariant store.pending == start.(records := start.records + Index(records[..i]))
      invariant old(store.Faultless()) ==> store.Faultless()
    {
      var r := records[i];
      NextRecordFits(start, records, i);
      RecordAdded(start, records, i);
      ok := store.Statement(WithRecord(store.pending, r), r.id !in store.pending.records);
      if !ok {
        return;
      }
    }
    assert records[..|records|] == records;
    return true;
  }

  predicate RowsFit(db: Db, r: Record) {
    forall j :: 0 <= j < |ReferenceRows(r)| ==> RefFits(db.(refs := db.refs + RowSet(r, j)), ReferenceRows(r)[j])
  }

  /** The derived rows of one record. */
  method InsertReferences(store: Handle, r: Record) returns (ok: bool)
    requires store.inTransaction
    modifies store
    ensures store.durable == old(store.durable)
    ensures ok ==> store.inTransaction
    ensures ok ==> store.pending == old(store.pending).(refs := old(store.pending).refs + RowSet(r, |ReferenceRows(r)|))
    ensures old(store.Faultless()) ==> store.Faultless()
    ensures old(store.Faultless()) && RowsFit(old(store.pending), r) ==> ok
  {
    hide ReferenceRows;
    var rows := ReferenceRows(r);
    ghost var start := store.pending;
    for j := 0 to |rows|
      invariant store.inTransaction && store.durable == old(store.durable)
      invariant store.pending == start.(refs := start.refs + RowSet(r, j))
      invariant old(store.Faultless()) ==> store.Faultless()
    {
      RowSetMore(r, j);
      assert start.refs + RowSet(r, j + 1) == start.refs + RowSet(r, j) + {rows[j]};
      ok := store.Statement(WithRef(store.pending, rows[j]), RefFits(store.pending, rows[j]));
      if !ok {
        return;
      }
    }
    return true;
  }

  /** The derived rows of all added records, after the records themselves. */
  method InsertAllReferences(store: Handle, plan: Plan, ghost db: Db, ghost op: Operation) returns (ok: bool)
    requires store.inTransaction && store.pending == db.(records := db.records + Index(plan.additions))
    modifies store
    ensures store.durable == old(store.durable)
    ensures ok ==> store.inTransaction
    ensures ok ==> store.pending == old(store.pending).(refs := db.refs + RowsOf(plan.additions))
    ensures old(store.Faultless()) ==> store.Faultless()
    ensures old(store.Faultless()) && Stored(db) && Sound(db, plan, op) ==> ok
  {
    hide ReferenceRows, RowsOf, Stored, Sound, Index;
    ghost var start := store.pending;
    NoRows();
    for i := 0 to |plan.additions|
      invariant store.inTransaction && store.durable == old(store.durable)
      invariant store.pending == start.(refs := db.refs + RowsOf(plan.additions[..i]))
      invariant old(store.Faultless()) ==> store.Faultless()
    {
      RowsOfPrefix(plan.additions, i);
      if Stored(db) && Sound(db, plan, op) {
        forall j | 0 <= j < |ReferenceRows(plan.additions[i])|
          ensures RefFits(store.pending.(refs := store.pending.refs + RowSet(plan.additions[i], j)), ReferenceRows(plan.additions[i])[j])
        {
          PlannedRowFits(db, plan, op, start.records, i, j, store.pending.refs + RowSet(plan.additions[i], j));
        }
      }
      ok := InsertReferences(store, plan.additions[i]);
      if !ok {
        return;
      }
    }
    assert plan.additions[..|plan.additions|] == plan.additions;
    return true;
  }

  lemma NoRows()
    ensures RowsOf([]) == {}
  {
  }

  method InsertPayloads(store: Handle, payloads: map<Id, Bytes>) returns (ok: bool)
    requires store.inTransaction
    modifies store
    ensures store.durable == old(store.durable)
    ensures ok ==> store.inTransaction
    ensures ok ==> store.pending == old(store.pending).(payloads := old(store.pending).payloads + payloads)
    ensures old(store.Faultless()) ==> store.Faultless()
    ensures old(store.Faultless()) && PayloadsFit(old(store.pending), payloads) ==> ok
  {
    ghost var start := store.pending;
    var todo := payloads.Keys;
    ghost var done: map<Id, Bytes> := map[];
    while todo != {}
      invariant store.inTransaction && store.durable == old(store.durable)
      invariant todo <= payloads.Keys && done == payloads - todo
      invariant store.pending == start.(payloads := start.payloads + done)
      invariant old(store.Faultless()) ==> store.Faultless()
    {
      var id :| id in todo;
      ok := store.Statement(WithPayload(store.pending, id, payloads[id]), PayloadFits(store.pending, id));
      if !ok {
        return;
      }
      todo := todo - {id};
      assert start.payloads + done[id := payloads[id]] == (start.payloads + done)[id := payloads[id]];
      done := done[id := payloads[id]];
    }
    assert done == payloads;
    return true;
  }

  lemma NextOperationFits(db: Db, history: seq<Operation>, i: nat)
    requires i < |history|
    ensures OperationIndex(history[..i + 1]) == OperationIndex(history[..i])[history[i].triple := history[i]]
    ensures HistoryFits(db, history) ==>
              OperationFits(db.(operations := db.operations + OperationIndex(history[..i])), history[i])
  {
    OperationIndexPrefix(history, i);
    if HistoryFits(db, history) {
      forall o | o in history[..i]
        ensures o.triple != history[i].triple
      {
        var k :| 0 <= k < i && history[k] == o;
      }
      assert history[i] in history;
    }
  }

  lemma OperationAdded(db: Db, history: seq<Operation>, i: nat)
    requires i < |history|
    ensures WithOperation(db.(operations := db.operations + OperationIndex(history[..i])), history[i])
            == db.(operations := db.operations + OperationIndex(history[..i + 1]))
  {
    hide OperationIndex;
    OperationIndexPrefix(history, i);
    AddLast(db.operations, OperationIndex(history[..i]), history[i].triple, history[i]);
  }

  method InsertHistory(store: Handle, history: seq<Operation>) returns (ok: bool)
    requires store.inTransaction
    modifies store
    ensures store.durable == old(store.durable)
    ensures ok ==> store.inTransaction
    ensures ok ==> store.pending == old(store.pending).(operations := old(store.pending).operations + OperationIndex(history))
    ensures old(store.Faultless()) ==> store.Faultless()
    ensures old(store.Faultless()) && HistoryFits(old(store.pending), history) ==> ok
  {
    hide *;
    ghost var start := store.pending;
    NoneIndexed();
    for i := 0 to |history|
      invariant store.inTransaction && store.durable == old(store.durable)
      invariant store.pending == start.(operations := start.operations + OperationIndex(history[..i]))
      invariant old(store.Faultless()) ==> store.Faultless()
    {
      var o := history[i];
      NextOperationFits(start, history, i);
      OperationAdded(start, history, i);
      ok := store.Statement(WithOperation(store.pending, o), OperationFits(store.pending, o));
      if !ok {
        return;
      }
    }
    assert history[..|history|] == history;
    return true;
  }

  /** All rows of a plan and its operation; for a sound plan no constraint is ever violated. */
  method InsertPlan(store: Handle, plan: Plan, op: Operation) returns (ok: bool)
    requires store.inTransaction
    modifies store
    ensures store.durable == old(store.durable)
    ensures ok ==> store.inTransaction && store.pending == Apply(old(store.pending), plan, op)
    ensures old(store.Faultless()) ==> store.Faultless()
    ensures old(store.Faultless()) && Stored(old(store.pending)) && Sound(old(store.pending), plan, op) ==> ok
  {
    hide Stored, Sound, Index, OperationIndex, RowsOf, RecordsFit, PayloadsFit, HistoryFits, OperationFits;
    ghost var db := store.pending;
    ghost var sound := Stored(db) && Sound(db, plan, op);
    if sound {
      SoundRecords(db, plan, op);
    }
    ok := InsertRecords(store, plan.additions);
    if !ok {
      return;
    }
    ok := InsertAllReferences(store, plan, db, op);
    if !ok {
      return;
    }
    if sound {
      SoundPayloads(db, plan, op, store.pending);
    }
    ok := InsertPayloads(store, plan.payloads);
    if !ok {
      return;
    }
    if sound {
      SoundHistory(db, plan, op, store.pending);
    }
    ok := InsertHistory(store, plan.history);
    if !ok {
      return;
    }
    if sound {
      SoundOperation(db, plan, op, store.pending);
    }
    ok := store.Statement(WithOperation(store.pending, op), OperationFits(store.pending, op));
  }
}
