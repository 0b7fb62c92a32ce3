/** Implementation B's `execute`: the same promises about the commit as A's, from its own flags. B keeps
    one row for every object, with its bytes, and derives no index; in the tables of the model the derived
    rows come and go with their object. */
module ServiceB {
  import opened Records
  import opened Validity
  import opened Requests
  import opened LedgerState
  import opened LedgerTheory
  import opened Replay
  import opened Store
  import opened CallChecks
  import opened Reading
  import opened Inserting
  import opened ContractB
  import opened TransportB
  import opened LedgerB
  import Service
  import Time

  /** `started`, `attempted_commit`, and whether the commit is known (`committed or replaying`). */
  datatype Flags = Flags(started: bool, attempted: bool, known: bool)

  // ---------- What B promises ----------

  /** What B checks before BEGIN. */
  ghost predicate CallOkB(call: Call) {
    && CallOk(call)
    && (call.request.body.AppendBody? ==> InputFits(call))
    && (call.request.body.ImportBody? ==> PlainDocument(call.bundle))
  }

  /** The stored operation passes its check and is the one of this request: its commit is known. */
  ghost predicate Known(db: Db, call: Call) {
    call.request.Triple() in db.operations &&
    var op := db.operations[call.request.Triple()];
    OperationShape(op) && Time.Plain(op.recordedAt) && op.triple == call.request.Triple() && op.fingerprint == call.fingerprint
  }

  /** One undisturbed call of B over a stored state. */
  ghost predicate StepB(db: Db, call: Call, outcome: Outcome, db': Db) {
    if !CallOkB(call) then outcome == Failure(NotCommitted) && db' == db
    else if call.request.Triple() in db.operations then
      db' == db &&
      var op := db.operations[call.request.Triple()];
      if !Known(db, call) then outcome == Failure(NotCommitted)
      else if !PlainTables(db) then outcome == Failure(AlreadyCommitted)
      else match outcome
        case Success(operation, replayed) => MayAnswer(db, call, op, Confirmed) && operation == op && replayed
        case Failure(AlreadyCommitted) => MayAnswer(db, call, op, Damaged)
        case Failure(NotCommitted) => MayAnswer(db, call, op, BadInput)
        case Failure(Unknown) => false
    else if PlainTables(db) && PlanOf(db, call).Some? then
      var op := OperationOf(call, PlanOf(db, call).value);
      outcome == Success(op, false) && db' == Apply(db, PlanOf(db, call).value, op)
    else outcome == Failure(NotCommitted) && db' == db
  }

  ghost predicate TransitionB(db: Db, call: Call, db': Db) { db' == db || exists outcome :: StepB(db, call, outcome, db') }

  lemma PlainOperation(db: Db, t: Triple)
    requires Stored(db) && PlainTables(db) && t in db.operations
    ensures OperationShape(db.operations[t]) && Time.Plain(db.operations[t].recordedAt) && db.operations[t].triple == t
  {
    hide OperationShape, Time.Plain, Valid, AllReferences;
    assert OperationOk(db.records, db.operations[t]);
  }

  /** Over a stored state without leap seconds and year 0, B's steps are A's, for every call that passes
      B's checks and for every new one whose bundle has no such time. */
  lemma SameSteps(db: Db, call: Call, outcome: Outcome, db': Db)
    requires Stored(db) && PlainTables(db)
    requires call.request.body.ImportBody? ==> PlainDocument(call.bundle)
    requires CallOkB(call) || call.request.Triple() !in db.operations
    ensures StepB(db, call, outcome, db') <==> Step(db, call, outcome, db')
  {
    hide Stored, PlainTables, CallOk, InputFits, PlainDocument, PlanOf, MayAnswer, Apply, OperationShape, Time.Plain;
    if call.request.Triple() in db.operations {
      PlainOperation(db, call.request.Triple());
    } else if CallOk(call) && !CallOkB(call) {
      RefusedInput(db, call);
    }
  }

  /** What B refuses before BEGIN A does not accept either. */
  lemma RefusedInput(db: Db, call: Call)
    requires CallOk(call) && call.request.body.AppendBody? && !InputFits(call)
    ensures Shaped(call.request.body) && PlanOf(db, call).None?
  {
    hide *;
    CallOkShaped(call);
    AppendShapedFrom(call);
    AppendDecision(db, call);
    if AppendAllowed(db, call) {
      InputNotRefused(db, call);
    }
  }

  lemma AppendShapedFrom(call: Call)
    requires CallOk(call) && call.request.body.AppendBody?
    ensures AppendShaped(call)
  {
    hide Shape, AllShaped, SuppliedBounded, Matches, Index, NamesOk;
  }

  lemma AppendDecision(db: Db, call: Call)
    requires call.request.body.AppendBody? && Shaped(call.request.body)
    ensures PlanOf(db, call).Some? <==> AppendAllowed(db, call)
  {
    hide AppendAllowed, Fresh, Announced;
  }

  // ---------- Reading ----------

  /** Several reading calls, one for every blob. */
  method ReadRows(store: Handle, rows: set<Id>) returns (ok: bool)
    requires store.inTransaction
    modifies store
    ensures OnlyReads(store, ok)
    ensures old(store.Faultless()) ==> ok
  {
    var todo := rows;
    while todo != {}
      invariant OnlyReads(store, true)
    {
      var id :| id in todo;
      ok := store.Read();
      if !ok {
        return;
      }
      todo := todo - {id};
    }
    return true;
  }

  /** `_objects`, `_operations` and `graph`. */
  method CurrentB(store: Handle, db: Db) returns (ok: bool)
    requires store.inTransaction && store.pending == db && Stored(db)
    modifies store
    ensures OnlyReads(store, ok)
    ensures ok ==> PlainTables(db)
    ensures old(store.Faultless()) ==> (ok <==> PlainTables(db))
  {
    hide PlainTables, Stored;
    ok := store.Read();
    if !ok {
      return;
    }
    ok := store.Read();
    if !ok {
      return;
    }
    ok := ReadTables(db);
  }

  /** Everything before BEGIN. */
  method CheckCallB(call: Call) returns (ok: bool)
    ensures ok <==> CallOkB(call)
  {
    hide CallOk, InputFits, PlainDocument, BundleOk, BundleOkB;
    if call.request.body.ImportBody? {
      BundlesAgree(call.bundle, call.supplied);
      ImportCallMeans(call);
      if !NamesOk(call) || (call.claimed.Some? && call.claimed.value != call.fingerprint) {
        return false;
      }
      ok := CheckBundleB(call.bundle, call.supplied);
    } else {
      ok := CheckCall(call);
      if ok && call.request.body.AppendBody? {
        ok := CheckInput(call);
      }
    }
  }

  lemma ImportCallMeans(call: Call)
    requires call.request.body.ImportBody?
    ensures CallOk(call) <==>
            NamesOk(call) && BundleOk(call.bundle, call.supplied) && (call.claimed.Some? ==> call.claimed.value == call.fingerprint)
  {
    hide NamesOk, BundleOk;
  }

  // ---------- Inserting ----------

  /** One object row: the record, its bytes if it is a blob, and what is derived from it. */
  function WithObject(db: Db, r: Record, payloads: map<Id, Bytes>): Db {
    Db(db.records[r.id := r], db.refs + RowSet(r, |ReferenceRows(r)|),
       if r.id in payloads then db.payloads[r.id := payloads[r.id]] else db.payloads, db.operations)
  }

  function PayloadsUpTo(payloads: map<Id, Bytes>, records: seq<Record>): map<Id, Bytes> {
    map id | id in payloads && id in Index(records) :: payloads[id]
  }

  /** The tables after the first `i` objects. */
  function Partly(db: Db, plan: Plan, i: nat): Db
    requires i <= |plan.additions|
  {
    var some := plan.additions[..i];
    Db(db.records + Index(some), db.refs + RowsOf(some), db.payloads + PayloadsUpTo(plan.payloads, some), db.operations)
  }

  lemma NothingInserted(db: Db, plan: Plan)
    ensures Partly(db, plan, 0) == db
  {
    NoneIndexed();
    NoRows();
    assert plan.additions[..0] == [];
  }

  lemma NextObject(db: Db, plan: Plan, i: nat)
    requires i < |plan.additions|
    ensures WithObject(Partly(db, plan, i), plan.additions[i], plan.payloads) == Partly(db, plan, i + 1)
  {
    hide Index, RowsOf, RowSet, ReferenceRows;
    var r := plan.additions[i];
    IndexPrefix(plan.additions, i);
    RowsOfPrefix(plan.additions, i);
    AddLast(db.records, Index(plan.additions[..i]), r.id, r);
    var m, n := PayloadsUpTo(plan.payloads, plan.additions[..i]), PayloadsUpTo(plan.payloads, plan.additions[..i + 1]);
    if r.id in plan.payloads {
      assert n == m[r.id := plan.payloads[r.id]];
      AddLast(db.payloads, m, r.id, plan.payloads[r.id]);
    } else {
      assert n == m;
    }
  }

  lemma PartlyRecords(db: Db, plan: Plan, i: nat)
    requires i <= |plan.additions|
    ensures Partly(db, plan, i).records == db.records + Index(plan.additions[..i])
  {
    hide Index, RowsOf;
  }

  lemma AllObjects(db: Db, plan: Plan)
    requires plan.payloads.Keys <= Index(plan.additions).Keys
    ensures Partly(db, plan, |plan.additions|)
            == Db(db.records + Index(plan.additions), db.refs + RowsOf(plan.additions), db.payloads + plan.payloads, db.operations)
  {
    hide Index, RowsOf;
    assert plan.additions[..|plan.additions|] == plan.additions;
    assert PayloadsUpTo(plan.payloads, plan.additions) == plan.payloads;
  }

  method InsertObjects(store: Handle, plan: Plan) returns (ok: bool)
    requires store.inTransaction && plan.payloads.Keys <= Index(plan.additions).Keys
    modifies store
    ensures store.durable == old(store.durable)
    ensures ok ==> store.inTransaction
    ensures ok ==> store.pending == Partly(old(store.pending), plan, |plan.additions|)
    ensures old(store.Faultless()) ==> store.Faultless()
    ensures old(store.Faultless()) && RecordsFit(old(store.pending), plan.additions) ==> ok
  {
    hide *;
    ghost var start := store.pending;
    NothingInserted(start, plan);
    for i := 0 to |plan.additions|
      invariant store.inTransaction && store.durable == old(store.durable)
      invariant store.pending == Partly(start, plan, i)
      invariant old(store.Faultless()) ==> store.Faultless()
    {
      var r := plan.additions[i];
      NextObject(start, plan, i);
      NextRecordFits(start, plan.additions, i);
      PartlyRecords(start, plan, i);
      ok := store.Statement(WithObject(store.pending, r, plan.payloads), r.id !in store.pending.records);
      if !ok {
        return;
      }
    }
    return true;
  }

  predicate AllNew(stored: OperationMap, history: seq<Operation>) {
    UniqueTriples(history) && forall o :: o in history ==> o.triple !in stored
  }

  method InsertOperations(store: Handle, history: seq<Operation>) returns (ok: bool)
    requires store.inTransaction
    modifies store
    ensures store.durable == old(store.durable)
    ensures ok ==> store.inTransaction
    ensures ok ==> store.pending == old(store.pending).(operations := old(store.pending).operations + OperationIndex(history))
    ensures old(store.Faultless()) ==> store.Faultless()
    ensures old(store.Faultless()) && AllNew(old(store.pending).operations, history) ==> ok
  {
    hide *;
    ghost var start := store.pending;
    NoneIndexed();
    for i := 0 to |history|
      invariant store.inTransaction && store.durable == old(store.durable)
      invariant store.pending == start.(operations := start.operations + OperationIndex(history[..i]))
      invariant old(store.Faultless()) ==> store.Faultless()
    {
      var o := history[i];
      OperationAdded(start, history, i);
      NewOperation(start, history, i);
      ok := store.Statement(WithOperation(store.pending, o), o.triple !in store.pending.operations);
      if !ok {
        return;
      }
    }
    assert history[..|history|] == history;
    return true;
  }

  lemma NewOperation(db: Db, history: seq<Operation>, i: nat)
    requires i < |history|
    ensures AllNew(db.operations, history) ==> history[i].triple !in db.operations + OperationIndex(history[..i])
  {
    assert history[i] in history;
    if AllNew(db.operations, history) {
      forall o | o in history[..i]
        ensures o.triple != history[i].triple
      {
        var k :| 0 <= k < i && history[k] == o;
      }
    }
  }

  /** All rows of a plan: its objects, then the operations. */
  method InsertPlanB(store: Handle, plan: Plan, op: Operation) returns (ok: bool)
    requires store.inTransaction && Sound(store.pending, plan, op)
    modifies store
    ensures store.durable == old(store.durable)
    ensures ok ==> store.inTransaction && store.pending == Apply(old(store.pending), plan, op)
    ensures old(store.Faultless()) ==> store.Faultless() && ok
  {
    hide *;
    ghost var db := store.pending;
    SoundMeans(db, plan, op);
    ok := InsertObjects(store, plan);
    if !ok {
      return;
    }
    AllObjects(db, plan);
    ok := InsertOperations(store, plan.history);
    if !ok {
      return;
    }
    OwnIsNew(db, plan, op);
    ok := store.Statement(WithOperation(store.pending, op), op.triple !in store.pending.operations);
    Applied(db, plan, op);
  }

  lemma SoundMeans(db: Db, plan: Plan, op: Operation)
    requires Sound(db, plan, op)
    ensures RecordsFit(db, plan.additions) && AllNew(db.operations, plan.history)
    ensures plan.payloads.Keys <= Index(plan.additions).Keys
  {
    hide Valid, Index, UniqueIds, UniqueTriples, OperationOk, Matches;
  }

  lemma OwnIsNew(db: Db, plan: Plan, op: Operation)
    requires Sound(db, plan, op)
    ensures op.triple !in db.operations + OperationIndex(plan.history)
  {
    hide Valid, Index, UniqueIds, UniqueTriples, OperationOk, Matches;
  }

  lemma Applied(db: Db, plan: Plan, op: Operation)
    ensures WithOperation(Db(db.records + Index(plan.additions), db.refs + RowsOf(plan.additions), db.payloads + plan.payloads,
                             db.operations + OperationIndex(plan.history)), op)
            == Apply(db, plan, op)
  {
    hide Index, OperationIndex, RowsOf;
  }

  // ---------- The body ----------

  method PlanForB(store: Handle, db: Db, call: Call) returns (plan: Option<Plan>)
    requires CallOkB(call) && Stored(db) && PlainTables(db) && call.request.Triple() !in db.operations
    requires call.request.body.ImportBody? ==> NoKnownCollision(db, call.supplied)
    requires store.inTransaction && store.pending == db
    modifies store
    ensures OnlyReads(store, plan.Some?)
    ensures Shaped(call.request.body)
    ensures plan.Some? ==> plan == PlanOf(db, call)
    ensures old(store.Faultless()) ==> plan == PlanOf(db, call)
  {
    hide Stored, PlainTables, AppendPlan, ImportPlan, Shaped, CallOk, InputFits, PlainDocument, NoKnownCollision, NamesOk;
    CallOkShaped(call);
    // The bytes of known blobs are read one by one; what they say is part of the decision below.
    var known := set id | id in call.supplied && id in db.records;
    var ok := ReadRows(store, known);
    if !ok {
      return None;
    }
    match call.request.body {
      case CreateBody(_) => plan := CreateBranch(db, call);
      case AppendBody(_, _, _, _, _) =>
        AppendShapedFrom(call);
        AcceptedMeans(db, call);
        plan := AppendBranch(db, call);
      case ImportBody(_) =>
        ImportCallMeans(call);
        plan := ImportBranch(db, call);
    }
  }

  lemma AcceptedMeans(db: Db, call: Call)
    requires AppendShaped(call) && CallOk(call)
    ensures Shaped(call.request.body) && call.request.body.AppendBody? && AcceptedByA(db, call) == AppendPlan(db, call)
  {
    hide CallOk, AppendPlan;
    AppendShapedMeans(call);
  }

  /** Answers a request whose identity is already used. */
  method AnswerB(store: Handle, db: Db, call: Call) returns (result: Option<Outcome>, known: bool)
    requires CallOkB(call) && call.request.Triple() in db.operations && Stored(db)
    requires store.inTransaction && store.pending == db
    modifies store
    ensures store.durable == old(store.durable)
    ensures result.Some? ==> result.value.Success? && StepB(db, call, result.value, db) && !store.inTransaction
    ensures result.None? && known ==> Known(db, call)
    ensures result.None? && !known ==> StepB(db, call, Failure(NotCommitted), db)
    ensures old(store.Faultless()) ==> store.Faultless()
    ensures old(store.Faultless()) && result.None? ==> StepB(db, call, Failure(Service.Refusal(known)), db) && store.inTransaction
  {
    hide Stored, PlainTables, CallOk, CallOkB, MayAnswer, PlanOf, OperationShape, Time.Plain, Apply;
    CallOkMeans(call);
    CallOkShaped(call);
    var original := db.operations[call.request.Triple()];
    result, known := None, false;
    var ok := CheckOperationB(original);
    if !ok || original.triple != call.request.Triple() || original.fingerprint != call.fingerprint {
      return;
    }
    known := true;
    ok := CurrentB(store, db);
    if !ok {
      return;
    }
    var verdict := ReplayBranch(db, call, original);
    if verdict == BadInput {
      known := false;
      return;
    }
    if verdict == Damaged {
      return;
    }
    var read := ReplayRefs(db, call, original);
    ok := ReadRows(store, read);
    if !ok {
      return;
    }
    ok := store.Rollback();
    if !ok {
      return;
    }
    result := Some(Success(original, true));
  }

  lemma CallOkMeans(call: Call)
    requires CallOkB(call)
    ensures CallOk(call)
  {
    hide CallOk, InputFits, PlainDocument;
  }

  /** Carries out a request with a new identity, up to and including COMMIT. */
  method WriteB(store: Handle, db: Db, call: Call) returns (result: Option<Outcome>, attempted: bool)
    requires CallOkB(call) && call.request.Triple() !in db.operations && Stored(db)
    requires call.request.body.ImportBody? ==> NoKnownCollision(db, call.supplied)
    requires store.inTransaction && store.pending == db && store.durable == db
    modifies store
    ensures result.Some? ==> result.value.Success? && StepB(db, call, result.value, store.durable) && !store.inTransaction
    ensures result.None? && attempted && !store.inTransaction ==> TransitionB(db, call, store.durable)
    ensures result.None? && (store.inTransaction || !attempted) ==> store.durable == db
    ensures old(store.Faultless()) ==> store.Faultless()
    ensures old(store.Faultless()) && result.None? ==> !attempted && StepB(db, call, Failure(NotCommitted), db) && store.inTransaction
  {
    hide Stored, PlainTables, CallOk, CallOkB, Apply, MayAnswer, PlanOf, Sound, NoKnownCollision;
    CallOkMeans(call);
    CallOkShaped(call);
    result, attempted := None, false;
    var ok := CurrentB(store, db);
    if !ok {
      return;
    }
    var plan := PlanForB(store, db, call);
    if plan.None? {
      return;
    }
    var op := OperationOf(call, plan.value);
    PlanIsSound(db, call, plan.value);
    ok := InsertPlanB(store, plan.value, op);
    if !ok {
      return;
    }
    assert StepB(db, call, Success(op, false), store.pending);
    attempted := true;
    ok := store.Commit();
    if !ok {
      return;
    }
    result := Some(Success(op, false));
  }

  /** What is known where the body returns (`result` is some) or raises. */
  twostate predicate BodyDone(store: Handle, call: Call, new result: Option<Outcome>, p: Flags)
    reads store
  {
    var db, db' := old(store.durable), store.durable;
    && (p.started ==> !old(store.inTransaction))
    && (!p.started ==> db' == db && result.None? && store.inTransaction == old(store.inTransaction) && store.pending == old(store.pending))
    && (result.Some? ==> result.value.Success? && StepB(db, call, result.value, db') && !store.inTransaction)
    && (result.None? && p.known ==> p.started && db' == db && Known(db, call))
    && (result.None? && p.attempted ==> p.started && !p.known)
    && (result.None? && p.attempted && !store.inTransaction ==> TransitionB(db, call, db'))
    && (result.None? && (store.inTransaction || !p.attempted) ==> db' == db)
  }

  /** The body of the try statement, from BEGIN IMMEDIATE on. */
  method AttemptB(store: Handle, call: Call) returns (result: Option<Outcome>, p: Flags)
    requires CallOkB(call) && Stored(store.durable)
    requires call.request.body.ImportBody? ==> NoKnownCollision(store.durable, call.supplied)
    modifies store
    ensures BodyDone(store, call, result, p)
    ensures old(store.Faultless()) && !old(store.inTransaction) ==>
              store.Faultless()
              && (result.None? ==> p.started && !p.attempted && StepB(old(store.durable), call, Failure(Service.Refusal(p.known)), old(store.durable))
                                   && store.inTransaction)
  {
    hide StepB, CallOkB, Known, TransitionB, Stored, NoKnownCollision;
    ghost var db := store.durable;
    TransitionMeans(db, call);
    result, p := None, Flags(!store.inTransaction, false, false);
    var ok := store.Begin();
    if !ok {
      return;
    }
    var view := store.pending;
    ok := store.Read();
    if !ok {
      return;
    }
    if call.request.Triple() in view.operations {
      var known;
      result, known := AnswerB(store, view, call);
      p := p.(known := known);
    } else {
      var attempted;
      result, attempted := WriteB(store, view, call);
      p := p.(attempted := attempted);
    }
  }

  lemma TransitionMeans(db: Db, call: Call)
    ensures TransitionB(db, call, db)
    ensures forall outcome, db' :: StepB(db, call, outcome, db') ==> TransitionB(db, call, db')
  {
  }

  /** The handlers of the except clause. */
  method RecoverB(store: Handle, p: Flags) returns (state: CommitState)
    requires p.known || p.attempted ==> p.started
    modifies store
    ensures store.durable == old(store.durable)
    ensures state == AlreadyCommitted <==> p.known
    ensures state == Unknown <==> p.started && !p.known && if old(store.inTransaction) then !old(store.NextWorks()) else p.attempted
    ensures state == NotCommitted && p.started ==> !store.inTransaction && (p.attempted ==> old(store.inTransaction))
    ensures !p.started ==> state == NotCommitted && store.inTransaction == old(store.inTransaction) && store.pending == old(store.pending)
    ensures old(store.Faultless()) && (p.attempted ==> old(store.inTransaction)) ==>
              store.Faultless() && state != Unknown && (p.started ==> !store.inTransaction)
  {
    if p.known {
      if p.started && store.inTransaction {
        var _ := store.Rollback();
      }
      return AlreadyCommitted;
    } else if p.started {
      var active := store.inTransaction;
      if !active && p.attempted {
        return Unknown;
      }
      if active {
        var ok := store.Rollback();
        if !ok {
          return Unknown;
        }
      }
      if store.inTransaction {
        return Unknown;
      }
    } else if p.attempted {
      return Unknown;
    }
    return NotCommitted;
  }

  /** B's `execute`, over a stored state. For an import no stored and supplied bytes of a known blob may
      collide. */
  method ExecuteB(store: Handle, call: Call) returns (outcome: Outcome)
    requires Stored(store.durable) && (call.request.body.ImportBody? ==> NoKnownCollision(store.durable, call.supplied))
    modifies store
    // A success is the specified one, and it is durable.
    ensures outcome.Success? ==> StepB(old(store.durable), call, outcome, store.durable) && !store.inTransaction
    // An error that says "not committed" or "committed" changed nothing; the latter knows the operation row to be durable.
    ensures outcome == Failure(NotCommitted) ==> store.durable == old(store.durable)
    ensures outcome == Failure(AlreadyCommitted) ==> store.durable == old(store.durable) && Known(store.durable, call)
    // Whatever happened, the write took effect as a whole or not at all.
    ensures TransitionB(old(store.durable), call, store.durable)
    ensures store.durable != old(store.durable) ==> outcome.Success? || outcome == Failure(Unknown)
    // A transaction of the caller's own is neither used nor ended.
    ensures old(store.inTransaction) ==>
              outcome == Failure(NotCommitted) && store.inTransaction && store.pending == old(store.pending)
    ensures !old(store.inTransaction) && outcome == Failure(NotCommitted) ==> !store.inTransaction
    // Without failing store calls the call is exactly one step.
    ensures old(store.Faultless()) && !old(store.inTransaction) ==>
              StepB(old(store.durable), call, outcome, store.durable) && !store.inTransaction
  {
    hide StepB, Known, CallOkB, TransitionB, Stored, NoKnownCollision;
    ghost var db := store.durable;
    TransitionMeans(db, call);
    var valid := CheckCallB(call);
    if !valid {
      InvalidIsRefusedB(db, call);
      return Failure(NotCommitted);
    }
    var result, p := AttemptB(store, call);
    if result.Some? {
      return result.value;
    }
    var state := RecoverB(store, p);
    return Failure(state);
  }

  lemma InvalidIsRefusedB(db: Db, call: Call)
    requires !CallOkB(call)
    ensures StepB(db, call, Failure(NotCommitted), db)
  {
    hide CallOkB;
  }
}
