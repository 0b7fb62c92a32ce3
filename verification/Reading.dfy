/** Reading the stored state inside a transaction whose calls may fail. */
module Reading {
  import opened Records
  import opened Validity
  import opened Validation
  import opened LedgerState
  import opened LedgerTheory
  import opened Store

  /** Nothing is written; `ok` also means that the transaction is still the same. */
  twostate predicate OnlyReads(store: Handle, ok: bool)
    reads store
  {
    && store.durable == old(store.durable)
    && (ok ==> store.inTransaction == old(store.inTransaction) && store.pending == old(store.pending))
    && (store.inTransaction ==> old(store.inTransaction))
    && (old(store.Faultless()) ==>
          store.Faultless() && store.inTransaction == old(store.inTransaction) && store.pending == old(store.pending))
  }

  /** Every row is stored under the identity of its own record. */
  predicate KeysMatch(db: Db) {
    && (forall id :: id in db.records ==> db.records[id].id == id)
    && (forall t :: t in db.operations ==> db.operations[t].triple == t)
  }

  /** The document with exactly the stored records and operations. */
  ghost predicate Describes(d: Document, db: Db) {
    && UniqueIds(d.records) && UniqueTriples(d.operations)
    && Index(d.records) == db.records && OperationIndex(d.operations) == db.operations
  }

  lemma TableIndex(records: RecordMap, rows: seq<Record>)
    requires Table(records, rows)
    ensures Index(rows) == records
  {
    forall id | id in Index(rows)
      ensures id in records && Index(rows)[id] == records[id]
    {
      assert Index(rows)[id] in rows;
    }
    forall id | id in records
      ensures id in Index(rows)
    {
      IndexAt(rows, records[id]);
    }
  }

  lemma OperationTableIndex(operations: OperationMap, rows: seq<Operation>)
    requires UniqueTriples(rows) && forall o :: o in rows ==> o.triple in operations && operations[o.triple] == o
    requires forall t :: t in operations ==> operations[t] in rows && operations[t].triple == t
    ensures OperationIndex(rows) == operations
  {
    forall t | t in OperationIndex(rows)
      ensures t in operations && OperationIndex(rows)[t] == operations[t]
    {
      assert OperationIndex(rows)[t] in rows;
    }
    forall t | t in operations
      ensures t in OperationIndex(rows)
    {
      OperationIndexAt(rows, operations[t]);
    }
  }

  method LoadRecords(records: RecordMap) returns (ok: bool, rows: seq<Record>)
    ensures ok <==> forall id :: id in records ==> records[id].id == id
    ensures ok ==> UniqueIds(rows) && Index(rows) == records
  {
    rows := [];
    var todo := records.Keys;
    while todo != {}
      invariant todo <= records.Keys
      invariant forall id :: id in records && id !in todo ==> records[id].id == id && records[id] in rows
      invariant forall r :: r in rows ==> r.id in records && r.id !in todo && records[r.id] == r
      invariant UniqueIds(rows)
    {
      var id :| id in todo;
      var r := records[id];
      if r.id != id {
        return false, rows;
      }
      assert forall i :: 0 <= i < |rows| ==> rows[i] in rows;
      rows := rows + [r];
      todo := todo - {id};
    }
    TableIndex(records, rows);
    return true, rows;
  }

  method LoadOperations(operations: OperationMap) returns (ok: bool, rows: seq<Operation>)
    ensures ok <==> forall t :: t in operations ==> operations[t].triple == t
    ensures ok ==> UniqueTriples(rows) && OperationIndex(rows) == operations
  {
    rows := [];
    var todo := operations.Keys;
    while todo != {}
      invariant todo <= operations.Keys
      invariant forall t :: t in operations && t !in todo ==> operations[t].triple == t && operations[t] in rows
      invariant forall o :: o in rows ==> o.triple in operations && o.triple !in todo && operations[o.triple] == o
      invariant UniqueTriples(rows)
    {
      var t :| t in todo;
      var o := operations[t];
      if o.triple != t {
        return false, rows;
      }
      assert forall i :: 0 <= i < |rows| ==> rows[i] in rows;
      rows := rows + [o];
      todo := todo - {t};
    }
    OperationTableIndex(operations, rows);
    return true, rows;
  }

  /** The reference rows derived from all records of a document. */
  method DerivedRows(rows: seq<Record>) returns (expected: set<RefRow>)
    ensures expected == RowsOf(rows)
  {
    hide ReferenceRows;
    expected := {};
    for i := 0 to |rows|
      invariant expected == RowsOf(rows[..i])
    {
      assert rows[..i + 1] == rows[..i] + [rows[i]];
      expected := expected + set row | row in ReferenceRows(rows[i]);
    }
    assert rows[..|rows|] == rows;
  }

  lemma RowsOfIndexed(rows: seq<Record>)
    requires UniqueIds(rows)
    ensures RowsOf(rows) == AllReferences(Index(rows))
  {
    hide ReferenceRows, UniqueIds;
    forall row | row in RowsOf(rows)
      ensures row in AllReferences(Index(rows))
    {
      var r :| r in rows && row in ReferenceRows(r);
      IndexAt(rows, r);
      AllReferencesHas(Index(rows), r.id, row);
    }
    forall row | row in AllReferences(Index(rows))
      ensures row in RowsOf(rows)
    {
      var id := AllReferencesFrom(Index(rows), row);
      assert Index(rows)[id] in rows;
    }
  }

  lemma StoredFromParts(db: Db, d: Document)
    requires Describes(d, db)
    ensures Stored(db) <==> ValidDocument(d) && db.refs == RowsOf(d.records) && db.payloads.Keys == BlobIds(db.records)
  {
    RowsOfIndexed(d.records);
  }

  lemma StoredKeys(db: Db)
    requires Stored(db)
    ensures KeysMatch(db)
  {
  }

  /** The validated metadata of the transaction, after its derived tables have been compared with it. */
  method Current(store: Handle, db: Db) returns (ok: bool, d: Document)
    requires store.inTransaction && store.pending == db
    modifies store
    ensures OnlyReads(store, ok)
    ensures ok ==> Stored(db) && Describes(d, db)
    ensures old(store.Faultless()) ==> (ok <==> Stored(db))
  {
    hide Stored, ValidDocument, RowsOf, BlobIds, UniqueIds, UniqueTriples, Index, OperationIndex;
    d := Document([], []);
    if Stored(db) {
      StoredKeys(db);
    }
    ok := store.Read();
    if !ok {
      return;
    }
    var records, operations;
    ok, records := LoadRecords(db.records);
    if !ok {
      return;
    }
    ok := store.Read();
    if !ok {
      return;
    }
    ok, operations := LoadOperations(db.operations);
    if !ok {
      return;
    }
    d := Document(records, operations);
    StoredFromParts(db, d);
    ok := ValidateMetadata(d);
    if !ok {
      return;
    }
    var expected := DerivedRows(records);
    ok := store.Read();
    if !ok || expected != db.refs {
      return false, d;
    }
    ok := store.Read();
    if !ok || BlobIds(Index(records)) != db.payloads.Keys {
      return false, d;
    }
  }

  /** The stored bytes of one blob are read and are the right ones. */
  method BlobReads(store: Handle, db: Db, id: Id) returns (ok: bool)
    requires store.inTransaction && store.pending == db
    modifies store
    ensures OnlyReads(store, ok)
    ensures ok ==> BlobIntact(db, id)
    ensures old(store.Faultless()) ==> (ok <==> BlobIntact(db, id))
  {
    ok := store.Read();
    if !ok || id !in db.records || id !in db.payloads {
      return false;
    }
    ok := store.Read();
    ok := ok && Matches(db.records[id], db.payloads[id]);
  }
}
