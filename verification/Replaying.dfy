/** Checking a repeated request against what its first success stored. */
module Replaying {
  import opened Records
  import opened Validity
  import opened Requests
  import opened LedgerState
  import opened Store
  import opened Reading
  import opened IdOrder

  /** Every record is stored as it is. */
  method RequireRecords(store: Handle, db: Db, records: seq<Record>) returns (ok: bool)
    requires store.inTransaction && store.pending == db
    modifies store
    ensures OnlyReads(store, ok)
    ensures ok ==> forall r :: r in records ==> HasRecord(db, r)
    ensures old(store.Faultless()) && (forall r :: r in records ==> HasRecord(db, r)) ==> ok
  {
    hide HasRecord;
    for i := 0 to |records|
      invariant OnlyReads(store, true)
      invariant forall k :: 0 <= k < i ==> HasRecord(db, records[k])
    {
      assert records[i] in records;
      ok := store.Read();
      if !ok || !HasRecord(db, records[i]) {
        return false;
      }
    }
    return true;
  }

  /** Every record is stored up to its time. */
  method RequireUntimed(store: Handle, db: Db, records: seq<Record>) returns (ok: bool)
    requires store.inTransaction && store.pending == db
    requires forall i :: 0 <= i < |records| ==> Untimed(records[i])
    modifies store
    ensures OnlyReads(store, ok)
    ensures ok ==> forall i :: 0 <= i < |records| ==> HasUntimed(db, records[i])
    ensures old(store.Faultless()) && (forall i :: 0 <= i < |records| ==> HasUntimed(db, records[i])) ==> ok
  {
    hide HasUntimed;
    for i := 0 to |records|
      invariant OnlyReads(store, true)
      invariant forall k :: 0 <= k < i ==> HasUntimed(db, records[k])
    {
      ok := store.Read();
      if !ok || !HasUntimed(db, records[i]) {
        return false;
      }
    }
    return true;
  }

  method RequireOperations(store: Handle, db: Db, operations: seq<Operation>) returns (ok: bool)
    requires store.inTransaction && store.pending == db
    modifies store
    ensures OnlyReads(store, ok)
    ensures ok ==> forall o :: o in operations ==> o.triple in db.operations && db.operations[o.triple] == o
    ensures old(store.Faultless()) && (forall o :: o in operations ==> o.triple in db.operations && db.operations[o.triple] == o) ==> ok
  {
    for i := 0 to |operations|
      invariant OnlyReads(store, true)
      invariant forall k :: 0 <= k < i ==> operations[k].triple in db.operations && db.operations[operations[k].triple] == operations[k]
    {
      assert operations[i] in operations;
      ok := store.Read();
      if !ok || operations[i].triple !in db.operations || db.operations[operations[i].triple] != operations[i] {
        return false;
      }
    }
    return true;
  }

  /** The stored records are those of the original request. */
  method RequestIsStored(store: Handle, db: Db, call: Call, op: Operation) returns (ok: bool)
    requires Shaped(call.request.body) && op.triple == call.request.Triple()
    requires store.inTransaction && store.pending == db
    modifies store
    ensures OnlyReads(store, ok)
    ensures ok ==> RequestStored(db, call, op)
    ensures old(store.Faultless()) ==> (ok <==> RequestStored(db, call, op))
  {
    hide HasRecord, HasUntimed, SortIds, ArtifactIds;
    match call.request.body
    case CreateBody(artifact) =>
      if op.resultRef != artifact.id {
        return false;
      }
      ok := RequireUntimed(store, db, [artifact]);
      assert [artifact][0] == artifact;
    case AppendBody(version, roots, blobs, manifests, links) =>
      if op.resultRef != version.id {
        return false;
      }
      ok := RequireUntimed(store, db, [version]);
      assert [version][0] == version;
      if !ok {
        return;
      }
      ok := RequireRecords(store, db, roots + blobs + manifests);
      if !ok {
        return;
      }
      ok := RequireUntimed(store, db, links);
    case ImportBody(receiptId) =>
      if op.resultRef != receiptId || !Resolves(db.records, receiptId, ReceiptKind)
         || db.records[receiptId].importedArtifacts != SortIds(ArtifactIds(call.bundle.records)) {
        return false;
      }
      ok := RequireRecords(store, db, call.bundle.records);
      if !ok {
        return;
      }
      ok := RequireOperations(store, db, call.bundle.operations);
  }

  /** Supplied bytes and stored bytes of the replayed content, one blob after the other. */
  method CheckBytes(store: Handle, db: Db, supplied: map<Id, Bytes>, refs: set<Id>) returns (verdict: ReplayVerdict)
    requires store.inTransaction && store.pending == db
    modifies store
    ensures OnlyReads(store, verdict != Damaged)
    ensures verdict == Confirmed ==> forall ref :: ref in refs ==> !SuppliedWrong(db, supplied, ref) && BlobIntact(db, ref)
    ensures verdict == BadInput ==> exists ref :: ref in refs && SuppliedWrong(db, supplied, ref)
    ensures old(store.Faultless()) && verdict == Damaged ==> exists ref :: ref in refs && !BlobIntact(db, ref)
  {
    hide BlobIntact, Matches;
    var todo := refs;
    while todo != {}
      invariant OnlyReads(store, true)
      invariant todo <= refs
      invariant forall ref :: ref in refs && ref !in todo ==> !SuppliedWrong(db, supplied, ref) && BlobIntact(db, ref)
    {
      var ref :| ref in todo;
      if ref !in db.records {
        IntactIsStored(db, ref);
        return Damaged;
      }
      if SuppliedWrong(db, supplied, ref) {
        return BadInput;
      }
      var ok := BlobReads(store, db, ref);
      if !ok {
        return Damaged;
      }
      todo := todo - {ref};
    }
    return Confirmed;
  }

  lemma IntactIsStored(db: Db, ref: Id)
    ensures BlobIntact(db, ref) ==> ref in db.records
  {
  }

  /** The answer to a repeated request; a failing store call counts as damage. */
  method CheckReplay(store: Handle, db: Db, call: Call, op: Operation) returns (verdict: ReplayVerdict)
    requires Shaped(call.request.body) && op.triple == call.request.Triple()
    requires store.inTransaction && store.pending == db
    modifies store
    ensures OnlyReads(store, verdict != Damaged)
    ensures verdict != Damaged || old(store.Faultless()) ==> MayAnswer(db, call, op, verdict)
  {
    hide Stored, RequestStored, ReplayRefs, BlobIntact, SuppliedWrong, Resolves, Describes;
    var ok, _ := Current(store, db);
    if !ok {
      return Damaged;
    }
    ok := store.Read();
    if !ok || !Resolves(db.records, op.resultRef, op.triple.kind.ResultKind()) {
      return Damaged;
    }
    ok := RequestIsStored(store, db, call, op);
    if !ok {
      return Damaged;
    }
    assert HistoryMatches(db, call, op);
    var refs := ReplayRefs(db, call, op);
    if !(call.supplied.Keys <= refs) {
      return BadInput;
    }
    verdict := CheckBytes(store, db, call.supplied, refs);
  }
}
