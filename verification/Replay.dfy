/** Whole runs of a ledger: what they keep, and how a repeated request is answered after any of them. */
module Replay {
  import opened Records
  import opened Validity
  import opened Requests
  import opened LedgerState
  import opened Merge
  import opened LedgerTheory

  // ---------- Runs ----------

  /** One attempted write: it takes effect as specified, or it leaves everything as it was. A call
      whose outcome is unknown did one or the other. */
  ghost predicate Transition(db: Db, call: Call, db': Db) {
    db' == db || exists outcome :: Step(db, call, outcome, db')
  }

  ghost predicate Reaches(db: Db, calls: seq<Call>, db': Db)
    decreases |calls|
  {
    if calls == [] then db' == db
    else exists mid :: Transition(db, calls[0], mid) && Reaches(mid, calls[1..], db')
  }

  lemma ExtendsTransitive(a: Db, b: Db, c: Db)
    requires Extends(a, b) && Extends(b, c)
    ensures Extends(a, c)
  {
  }

  lemma ExtendsReflexive(a: Db)
    ensures Extends(a, a)
  {
  }

  /** Every run keeps the invariant and never alters or drops a row. */
  lemma {:induction false} RunKeeps(db: Db, calls: seq<Call>, db': Db)
    requires Consistent(db) && Reaches(db, calls, db')
    ensures Consistent(db') && Extends(db, db')
    decreases |calls|
  {
    hide Consistent, Extends, Step;
    if calls == [] {
      ExtendsReflexive(db);
    } else {
      var mid :| Transition(db, calls[0], mid) && Reaches(mid, calls[1..], db');
      if mid == db {
        ExtendsReflexive(db);
      } else {
        var outcome :| Step(db, calls[0], outcome, mid);
        StepKeeps(db, calls[0], outcome, mid);
      }
      RunKeeps(mid, calls[1..], db');
      ExtendsTransitive(db, mid, db');
    }
  }

  lemma EmptyIsConsistent()
    ensures Consistent(EMPTY)
  {
    assert VersionParents(EMPTY.records) == map[];
    assert forall path :: |path| >= 2 ==> !ParentGraph.Ancestry(map[], path) by {
      forall path: seq<Id> | |path| >= 2
        ensures !ParentGraph.Ancestry(map[], path)
      {
        assert !ParentGraph.IsParent(map[], path[1], path[0]);
      }
    }
  }

  /** From an empty ledger every sequence of writes keeps the metadata valid, the index and the
      payload coverage exact, and the results of the operations resolved. */
  lemma RunFromEmpty(calls: seq<Call>, db: Db)
    requires Reaches(EMPTY, calls, db)
    ensures Consistent(db)
  {
    EmptyIsConsistent();
    RunKeeps(EMPTY, calls, db);
  }

  // ---------- What a commit leaves behind ----------

  ghost predicate SuppliedRight(db: Db, call: Call, op: Operation) {
    forall id :: id in call.supplied ==> id in ReplayRefs(db, call, op) && !SuppliedWrong(db, call.supplied, id)
  }

  /** The trace of a committed request. */
  ghost predicate Recorded(db: Db, call: Call, op: Operation)
    requires Shaped(call.request.body)
  {
    && op.triple in db.operations && db.operations[op.triple] == op && op.fingerprint == call.fingerprint
    && RequestStored(db, call, op)
    && SuppliedRight(db, call, op)
  }

  lemma RequestStaysStored(db: Db, db': Db, call: Call, op: Operation)
    requires Shaped(call.request.body) && Extends(db, db') && RequestStored(db, call, op)
    ensures RequestStored(db', call, op)
  {
    hide Shaped;
  }

  lemma RefsStay(db: Db, db': Db, call: Call, op: Operation)
    requires Shaped(call.request.body) && Stored(db) && Extends(db, db') && RequestStored(db, call, op)
    ensures ReplayRefs(db', call, op) == ReplayRefs(db, call, op)
    ensures forall ref :: ref in ReplayRefs(db, call, op) ==> Resolves(db.records, ref, BlobKind)
  {
    hide ClosureBlobs, Shaped, Index, WellShaped, ClosuresBounded, AllReferences, BlobIds, OperationsOk, AllUsed, RefsResolve;
    match call.request.body
    case CreateBody(_) =>
    case AppendBody(version, _, _, _, _) =>
      AppendBodyVersion(call);
      assert db.records[op.resultRef].Version?;
      ClosureStays(db.records, db'.records, op.resultRef);
    case ImportBody(_) =>
      BundleBlobs(db, call);
  }

  lemma AppendBodyVersion(call: Call)
    requires call.request.body.AppendBody? && Shaped(call.request.body)
    ensures call.request.body.version.Version?
  {
  }

  lemma BundleBlobs(db: Db, call: Call)
    requires forall r :: r in call.bundle.records ==> HasRecord(db, r)
    ensures forall ref :: ref in BlobIds(Index(call.bundle.records)) ==> Resolves(db.records, ref, BlobKind)
  {
    hide Index;
    forall ref | ref in BlobIds(Index(call.bundle.records))
      ensures Resolves(db.records, ref, BlobKind)
    {
      assert HasRecord(db, Index(call.bundle.records)[ref]);
    }
  }

  lemma RecordedStays(db: Db, db': Db, call: Call, op: Operation)
    requires Shaped(call.request.body) && Stored(db) && Extends(db, db') && Recorded(db, call, op)
    ensures Recorded(db', call, op)
  {
    hide Stored, RequestStored, ReplayRefs, Shaped, Matches;
    RequestStaysStored(db, db', call, op);
    RefsStay(db, db', call, op);
  }

  // ---------- A commit is recorded ----------

  lemma CreateRecorded(db: Db, call: Call, plan: Plan, op: Operation)
    requires CallOk(call) && call.request.body.CreateBody?
    requires CreatePlan(db, call) == Some(plan) && op == OperationOf(call, plan)
    ensures Recorded(Apply(db, plan, op), call, op)
  {
    SingleIndex(plan.additions[0]);
  }

  lemma AppendRecorded(db: Db, call: Call, plan: Plan, op: Operation)
    requires Shaped(call.request.body) && call.request.body.AppendBody?
    requires AppendPlan(db, call) == Some(plan) && op == OperationOf(call, plan)
    ensures Recorded(Apply(db, plan, op), call, op)
  {
    hide Valid, ClosureBlobs, TotalLength, Matches, Index, Reusable, UniqueIds, RootTargets, OperationsOk, BlobIntact, Fresh,
         AppendAllowed, RowsOf, HasRecord, HasUntimed, SuppliedRight;
    AppendedRecords(db, call, Apply(db, plan, op));
    AppendedBytes(db, call, op, Apply(db, plan, op));
  }

  lemma AppendedRecords(db: Db, call: Call, db': Db)
    requires call.request.body.AppendBody? && Shaped(call.request.body) && AppendAllowed(db, call)
    requires db'.records == AppendRecords(db, call)
    ensures var b := call.request.body;
            && HasUntimed(db', b.version)
            && (forall r :: r in b.roots + b.blobs + b.manifests ==> HasRecord(db', r))
            && forall i :: 0 <= i < |b.links| ==> HasUntimed(db', b.links[i])
  {
    hide AppendAllowed, AppendRecords, Announced, Shaped;
    var b := call.request.body;
    AnnouncedHas(call);
    InCombined(db, call, Stamped(b.version, call.now));
    forall r | r in b.roots + b.blobs + b.manifests
      ensures HasRecord(db', r)
    {
      InCombined(db, call, r);
    }
    forall i | 0 <= i < |b.links|
      ensures HasUntimed(db', b.links[i])
    {
      InCombined(db, call, Stamped(b.links[i], call.now));
    }
  }

  lemma AppendedBytes(db: Db, call: Call, op: Operation, db': Db)
    requires call.request.body.AppendBody? && Shaped(call.request.body) && AppendAllowed(db, call)
    requires db'.records == AppendRecords(db, call) && op.resultRef == call.request.body.version.id
    ensures SuppliedRight(db', call, op)
  {
    hide Valid, ClosureBlobs, TotalLength, Matches, Reusable, UniqueIds, RootTargets, OperationsOk, BlobIntact, AppendRecords,
         Announced, Shaped;
    AnnouncedHas(call);
    InCombined(db, call, Stamped(call.request.body.version, call.now));
    forall id | id in call.supplied
      ensures id in ReplayRefs(db', call, op) && !SuppliedWrong(db', call.supplied, id)
    {
      assert id in AppendRefs(db, call);
      assert BytesAvailable(db, db'.records, call.supplied, id);
    }
  }

  lemma AnnouncedHas(call: Call)
    requires call.request.body.AppendBody? && Shaped(call.request.body)
    ensures Untimed(call.request.body.version)
    ensures forall i :: 0 <= i < |call.request.body.links| ==> Untimed(call.request.body.links[i])
    ensures var b := call.request.body;
            && Stamped(b.version, call.now) in Announced(call)
            && (forall r :: r in b.roots + b.blobs + b.manifests ==> r in Announced(call))
            && (forall i :: 0 <= i < |b.links| ==> Stamped(b.links[i], call.now) in Announced(call))
  {
    var b := call.request.body;
    var links := StampedAll(b.links, call.now);
    forall i | 0 <= i < |b.links|
      ensures Stamped(b.links[i], call.now) in Announced(call)
    {
      assert links[i] in links;
    }
  }

  lemma ImportRecorded(db: Db, call: Call, plan: Plan, op: Operation)
    requires BundleOk(call.bundle, call.supplied) && call.request.body.ImportBody?
    requires ImportPlan(db, call) == Some(plan) && op == OperationOf(call, plan)
    ensures Recorded(Apply(db, plan, op), call, op)
  {
    hide Valid, Index, Matches, SuppliedBounded, HistoryOf, ImportReceipt, OperationsOk, Fresh, FreshOperations, KnownBytesAgree,
         ImportAdditions, UniqueIds, BlobIds, RowsOf, HasRecord, Resolves, SuppliedWrong, OperationIndex, NewPayloads;
    var db' := Apply(db, plan, op);
    NoConflictFits(db, call);
    BundleStored(db, call, db');
    HistoryStored(db, call, op, db');
  }

  lemma BundleStored(db: Db, call: Call, db': Db)
    requires Fits(db, call) && db'.records == ImportRecords(db, call)
    requires call.supplied.Keys == BlobIds(Index(call.bundle.records))
    requires forall id :: id in call.supplied ==> Matches(Index(call.bundle.records)[id], call.supplied[id])
    ensures forall r :: r in call.bundle.records ==> HasRecord(db', r)
    ensures Resolves(db'.records, call.request.body.receiptId, ReceiptKind)
    ensures db'.records[call.request.body.receiptId].importedArtifacts == IdOrder.SortIds(ArtifactIds(call.bundle.records))
    ensures forall id :: id in call.supplied ==> !SuppliedWrong(db', call.supplied, id)
  {
    hide Index, Matches, ImportReceipt, ImportAdditions, UniqueIds, BlobIds, ImportRecords;
    ImportRecordsAre(db, call);
    ReceiptCovers(call);
    forall r | r in call.bundle.records
      ensures HasRecord(db', r)
    {
      IndexAt(call.bundle.records, r);
    }
    BlobsAreIn(Index(call.bundle.records));
  }

  lemma BlobsAreIn(records: RecordMap)
    ensures forall id :: id in BlobIds(records) ==> id in records
  {
  }

  lemma HistoryStored(db: Db, call: Call, op: Operation, db': Db)
    requires call.request.body.ImportBody? && UniqueTriples(call.bundle.operations) && op.triple == call.request.Triple()
    requires forall o :: o in call.bundle.operations ==>
               o.triple != call.request.Triple() && (o.triple in db.operations ==> db.operations[o.triple] == o)
    requires db'.operations == ImportOperations(db, call)[op.triple := op]
    ensures forall o :: o in call.bundle.operations ==> o.triple in db'.operations && db'.operations[o.triple] == o
  {
    hide ImportOperations;
    forall o | o in call.bundle.operations
      ensures o.triple in db'.operations && db'.operations[o.triple] == o
    {
      OperationStored(db, call, o);
    }
  }

  lemma ReceiptCovers(call: Call)
    requires call.request.body.ImportBody?
    ensures var r := ImportReceipt(call);
            r.Receipt? && r.id == call.request.body.receiptId && r.importedArtifacts == IdOrder.SortIds(ArtifactIds(call.bundle.records))
  {
  }

  lemma OperationStored(db: Db, call: Call, o: Operation)
    requires UniqueTriples(call.bundle.operations) && o in call.bundle.operations
    requires o.triple in db.operations ==> db.operations[o.triple] == o
    ensures o.triple in ImportOperations(db, call) && ImportOperations(db, call)[o.triple] == o
  {
    var added := FreshOperations(db, call.bundle.operations);
    if o.triple !in db.operations {
      assert o in added;
      OperationIndexAt(call.bundle.operations, o);
      var s := OperationIndex(added)[o.triple];
      assert s in added && s in call.bundle.operations;
      OperationIndexAt(call.bundle.operations, s);
    }
  }

  lemma CommitRecorded(db: Db, call: Call, op: Operation, db': Db)
    requires Step(db, call, Success(op, false), db')
    ensures CallOk(call) && Recorded(db', call, op)
  {
    hide Recorded, Stored, Apply, MayAnswer;
    var plan := PlanOf(db, call).value;
    match call.request.body
    case CreateBody(_) => CreateRecorded(db, call, plan, op);
    case AppendBody(_, _, _, _, _) => AppendRecorded(db, call, plan, op);
    case ImportBody(_) => ImportRecorded(db, call, plan, op);
  }

  // ---------- Repeating a request ----------

  /** The same request again: for an append any part of the original payloads may come along, for an
      import it is the same bundle. The clock may differ. */
  ghost predicate Repeats(again: Call, call: Call) {
    && again.request == call.request && again.bundle == call.bundle && again.fingerprint == call.fingerprint
    && (again.claimed == None || again.claimed == call.claimed)
    && if call.request.body.AppendBody? then
         forall id :: id in again.supplied ==> id in call.supplied && again.supplied[id] == call.supplied[id]
       else again.supplied == call.supplied
  }

  lemma {:induction false} TotalSizeRemove(data: map<Id, Bytes>, ids: set<Id>, id: Id)
    requires ids <= data.Keys && id in ids
    ensures TotalSize(data, ids) == |data[id]| + TotalSize(data, ids - {id})
    decreases |ids|
  {
    var pick :| pick in ids && TotalSize(data, ids) == |data[pick]| + TotalSize(data, ids - {pick});
    if pick != id {
      TotalSizeRemove(data, ids - {pick}, id);
      TotalSizeRemove(data, ids - {id}, pick);
      assert ids - {pick} - {id} == ids - {id} - {pick};
    }
  }

  lemma {:induction false} TotalSizeLess(part: map<Id, Bytes>, data: map<Id, Bytes>, ids: set<Id>)
    requires ids <= data.Keys && part.Keys <= ids
    requires forall id :: id in part ==> part[id] == data[id]
    ensures TotalSize(part, part.Keys) <= TotalSize(data, ids)
    decreases |ids|
  {
    if part.Keys != {} {
      var id :| id in part;
      var rest := part - {id};
      TotalSizeRemove(part, part.Keys, id);
      TotalSizeRemove(data, ids, id);
      assert rest.Keys == part.Keys - {id};
      TotalSizeLess(rest, data, ids - {id});
      TotalSizeOf(part, rest, rest.Keys);
    }
  }

  lemma {:induction false} TotalSizeOf(data: map<Id, Bytes>, other: map<Id, Bytes>, ids: set<Id>)
    requires ids <= data.Keys && ids <= other.Keys && forall id :: id in ids ==> data[id] == other[id]
    ensures TotalSize(data, ids) == TotalSize(other, ids)
    decreases |ids|
  {
    if ids != {} {
      var id :| id in ids;
      TotalSizeRemove(data, ids, id);
      TotalSizeRemove(other, ids, id);
      TotalSizeOf(data, other, ids - {id});
    }
  }

  lemma RepeatOk(call: Call, again: Call)
    requires CallOk(call) && Repeats(again, call)
    ensures CallOk(again)
  {
    hide Shaped, BundleOk, Matches, Index;
    if call.request.body.AppendBody? {
      TotalSizeLess(again.supplied, call.supplied, call.supplied.Keys);
    }
  }

  /** With everything in place only a confirmation may be answered. */
  lemma OnlyConfirmed(db: Db, again: Call, op: Operation)
    requires Shaped(again.request.body) && HistoryMatches(db, again, op)
    requires again.supplied.Keys <= ReplayRefs(db, again, op)
    requires forall ref :: ref in ReplayRefs(db, again, op) ==> !SuppliedWrong(db, again.supplied, ref) && BlobIntact(db, ref)
    ensures forall verdict :: MayAnswer(db, again, op, verdict) <==> verdict == Confirmed
  {
    hide HistoryMatches, ReplayRefs, SuppliedWrong, BlobIntact, Shaped;
  }

  lemma StepOfKnown(db: Db, again: Call, op: Operation)
    requires CallOk(again) && Shaped(again.request.body) && op.triple == again.request.Triple() && op.fingerprint == again.fingerprint
    requires op.triple in db.operations && db.operations[op.triple] == op && OperationShape(op)
    requires forall verdict :: MayAnswer(db, again, op, verdict) <==> verdict == Confirmed
    ensures forall outcome, db' :: Step(db, again, outcome, db') <==> outcome == Success(op, true) && db' == db
  {
    hide MayAnswer, CallOk, Shaped, Stored, PlanOf, OperationShape;
  }

  /** A repetition of a recorded request finds all its records and bytes. */
  lemma RepeatIsConfirmed(db: Db, call: Call, op: Operation, again: Call)
    requires Consistent(db) && CallOk(call) && Shaped(call.request.body) && Recorded(db, call, op) && Repeats(again, call)
    ensures Shaped(again.request.body) && HistoryMatches(db, again, op) && OperationShape(op)
    ensures again.supplied.Keys <= ReplayRefs(db, again, op)
    ensures forall ref :: ref in ReplayRefs(db, again, op) ==> !SuppliedWrong(db, again.supplied, ref) && BlobIntact(db, ref)
  {
    hide Stored, RequestStored, Shaped, Matches, OperationsOk, PlanOf, CallOk, ReplayRefs, OperationShape;
    RefsStay(db, db, call, op) by { ExtendsReflexive(db); }
    ResultIsStored(db, op);
    StoredCoverage(db);
    SameAnswerBasis(db, call, again, op);
  }

  /** Exactly the confirmation of a recorded request is a step of the repeated one. */
  lemma RepeatSteps(db: Db, call: Call, op: Operation, again: Call)
    requires Consistent(db) && CallOk(call) && Shaped(call.request.body) && Recorded(db, call, op) && Repeats(again, call)
    ensures forall outcome, db' :: Step(db, again, outcome, db') <==> outcome == Success(op, true) && db' == db
  {
    hide Stored, RequestStored, Consistent, Shaped, CallOk, ReplayRefs, HistoryMatches, MayAnswer, SuppliedWrong, BlobIntact, Step, OperationShape;
    RepeatOk(call, again);
    RepeatIsConfirmed(db, call, op, again);
    OnlyConfirmed(db, again, op);
    SameAnswerBasis(db, call, again, op);
    StepOfKnown(db, again, op);
  }

  /** A recorded request is confirmed, and nothing else can be answered. */
  lemma RecordedConfirms(db: Db, call: Call, op: Operation, again: Call, outcome: Outcome, db': Db)
    requires Consistent(db) && CallOk(call) && Recorded(db, call, op)
    requires Repeats(again, call) && Step(db, again, outcome, db')
    ensures outcome == Success(op, true) && db' == db
  {
    hide *;
    CallOkShaped(call);
    RepeatSteps(db, call, op, again);
  }

  lemma CallOkShaped(call: Call)
    requires CallOk(call)
    ensures Shaped(call.request.body)
  {
  }

  lemma ResultIsStored(db: Db, op: Operation)
    requires Stored(db) && op.triple in db.operations && db.operations[op.triple] == op
    ensures OperationOk(db.records, op)
  {
  }

  lemma StoredCoverage(db: Db)
    requires Stored(db)
    ensures forall id :: Resolves(db.records, id, BlobKind) ==> id in db.payloads
  {
  }

  lemma SameAnswerBasis(db: Db, call: Call, again: Call, op: Operation)
    requires Shaped(call.request.body) && again.request == call.request && again.bundle == call.bundle
    ensures ReplayRefs(db, again, op) == ReplayRefs(db, call, op)
    ensures RequestStored(db, again, op) <==> RequestStored(db, call, op)
    ensures RequestStored(db, call, op) ==> op.triple == again.request.Triple()
  {
  }

  /** Once a request has committed, then after any further run of writes the same request returns
      the same operation as a replay and changes nothing. */
  lemma ReplayAfterAnyRun(db0: Db, call: Call, op: Operation, db1: Db, calls: seq<Call>, db2: Db,
                          again: Call, outcome: Outcome, db3: Db)
    requires Consistent(db0) && Step(db0, call, Success(op, false), db1) && Reaches(db1, calls, db2)
    requires Repeats(again, call) && Step(db2, again, outcome, db3)
    ensures outcome == Success(op, true) && db3 == db2
  {
    hide Step, Recorded, CallOk, Stored;
    StepKeeps(db0, call, Success(op, false), db1);
    CommitRecorded(db0, call, op, db1);
    CallOkShaped(call);
    RunKeeps(db1, calls, db2);
    RecordedStays(db1, db2, call, op);
    RecordedConfirms(db2, call, op, again, outcome, db3);
  }

  lemma ChangeIsSuccess(db: Db, call: Call, outcome: Outcome, db': Db)
    requires Step(db, call, outcome, db') && db' != db
    ensures outcome.Success? && !outcome.replayed
  {
    hide CallOk, Stored, PlanOf, MayAnswer, Apply;
  }

  /** After an outcome that was reported as unknown, repeating the request never writes it twice: if
      the first attempt took effect, the repetition finds it, whatever was written in between. */
  lemma RetryWritesOnce(db0: Db, call: Call, db1: Db, calls: seq<Call>, db2: Db, again: Call, outcome: Outcome, db3: Db)
    requires Consistent(db0) && Transition(db0, call, db1) && db1 != db0 && Reaches(db1, calls, db2)
    requires Repeats(again, call) && Step(db2, again, outcome, db3)
    ensures call.request.Triple() in db1.operations
    ensures outcome == Success(db1.operations[call.request.Triple()], true) && db3 == db2
  {
    hide Step, Consistent;
    var first :| Step(db0, call, first, db1);
    ChangeIsSuccess(db0, call, first, db1);
    CommitStored(db0, call, first.operation, db1);
    ReplayAfterAnyRun(db0, call, first.operation, db1, calls, db2, again, outcome, db3);
  }

  /** And some answer is always given: the replay is possible. */
  lemma ReplayIsAnswered(db: Db, call: Call, op: Operation, again: Call)
    requires Consistent(db) && CallOk(call) && Recorded(db, call, op) && Repeats(again, call)
    ensures Step(db, again, Success(op, true), db)
  {
    hide *;
    CallOkShaped(call);
    RepeatSteps(db, call, op, again);
  }

  /** The same idempotency identity with another fingerprint is refused for ever. */
  lemma OtherFingerprintRefused(db0: Db, call: Call, op: Operation, db1: Db, calls: seq<Call>, db2: Db,
                                other: Call, outcome: Outcome, db3: Db)
    requires Consistent(db0) && Step(db0, call, Success(op, false), db1) && Reaches(db1, calls, db2)
    requires other.request.Triple() == call.request.Triple() && other.fingerprint != call.fingerprint
    requires Step(db2, other, outcome, db3)
    ensures outcome == Failure(NotCommitted) && db3 == db2
  {
    hide CallOk, Stored, PlanOf, MayAnswer, Apply;
    StepKeeps(db0, call, Success(op, false), db1);
    CommitStored(db0, call, op, db1);
    RunKeeps(db1, calls, db2);
  }

  lemma CommitStored(db: Db, call: Call, op: Operation, db': Db)
    requires Step(db, call, Success(op, false), db')
    ensures op.triple == call.request.Triple() && op.fingerprint == call.fingerprint
    ensures op.triple in db'.operations && db'.operations[op.triple] == op
  {
    hide CallOk, Stored, PlanOf, MayAnswer;
  }

  /** For requests whose fingerprints are computed and do not collide: another body under the same
      identity is refused. */
  lemma OtherBodyRefused(db0: Db, call: Call, op: Operation, db1: Db, calls: seq<Call>, db2: Db,
                         other: Call, outcome: Outcome, db3: Db)
    requires Consistent(db0) && Step(db0, call, Success(op, false), db1) && Reaches(db1, calls, db2)
    requires Honest(call) && Honest(other) && other.request.Triple() == call.request.Triple()
    requires NoCollision(Envelope(call.request, call.bundle), Envelope(other.request, other.bundle))
    requires !SameBody(call.request.body, call.bundle, other.request.body, other.bundle)
    requires Step(db2, other, outcome, db3)
    ensures outcome == Failure(NotCommitted) && db3 == db2
  {
    hide Step;
    FingerprintIdentifies(call.request, call.bundle, other.request, other.bundle);
    OtherFingerprintRefused(db0, call, op, db1, calls, db2, other, outcome, db3);
  }
}
