/** `execute`: one write in its own transaction, over a store whose calls may fail at any moment. */
module Service {
  import opened Records
  import opened Validity
  import opened Validation
  import opened Requests
  import opened LedgerState
  import opened LedgerTheory
  import opened Replay
  import opened Store
  import opened CallChecks
  import opened Reading
  import opened Inserting
  import opened Appending
  import opened Importing
  import opened Replaying

  /** How far the body of a call got when it returned or raised. */
  datatype Progress = Progress(began: bool, committing: bool, committed: bool)

  /** What is known where the body returns (`result` is some) or raises. */
  twostate predicate BodyDone(store: Handle, call: Call, new result: Option<Outcome>, p: Progress)
    reads store
  {
    var db, db' := old(store.durable), store.durable;
    && (p.began ==> !old(store.inTransaction))
    && (!p.began ==> db' == db && result.None? && store.inTransaction == old(store.inTransaction) && store.pending == old(store.pending))
    && (result.Some? ==> result.value.Success? && Step(db, call, result.value, db') && !store.inTransaction)
    && (result.None? && p.committed ==> p.began && db' == db && Bound(db, call))
    && (result.None? && p.committing ==> p.began && !p.committed)
    && (result.None? && p.committing && !store.inTransaction ==> Transition(db, call, db'))
    && (result.None? && (store.inTransaction || !p.committing) ==> db' == db)
  }

  /** The operation row of this very request is stored. */
  ghost predicate Bound(db: Db, call: Call) {
    call.request.Triple() in db.operations && db.operations[call.request.Triple()].fingerprint == call.fingerprint
  }

  /** What a body that raises without any failing store call has to have found. */
  ghost predicate RefusedFor(db: Db, call: Call, p: Progress) {
    && p.began && !p.committing
    && Step(db, call, Failure(Refusal(p.committed)), db)
  }

  method PlanFor(store: Handle, db: Db, d: Document, call: Call) returns (plan: Option<Plan>)
    requires CallOk(call) && Stored(db) && Describes(d, db)
    requires store.inTransaction && store.pending == db
    modifies store
    ensures OnlyReads(store, plan.Some?)
    ensures plan.Some? ==> plan == PlanOf(db, call)
    ensures old(store.Faultless()) ==> plan == PlanOf(db, call)
  {
    hide Stored, Describes, AppendPlan, ImportPlan, Shaped, ValidDocument;
    CallOkShaped(call);
    match call.request.body
    case CreateBody(_) => plan := CreatePlan(db, call);
    case AppendBody(_, _, _, _, _) => plan := Append(store, db, d, call);
    case ImportBody(_) => plan := Import(store, db, d, call);
  }

  /** Answers a request whose identity is already used. */
  method Answer(store: Handle, db: Db, call: Call) returns (result: Option<Outcome>, committed: bool)
    requires CallOk(call) && call.request.Triple() in db.operations
    requires store.inTransaction && store.pending == db
    modifies store
    ensures store.durable == old(store.durable)
    ensures result.Some? ==> result.value.Success? && Step(db, call, result.value, db) && !store.inTransaction
    ensures result.None? && committed ==> Bound(db, call)
    // Where the commit is not taken as known, an undisturbed call would refuse the request too.
    ensures result.None? && !committed ==> Step(db, call, Failure(NotCommitted), db)
    ensures old(store.Faultless()) ==> store.Faultless()
    ensures old(store.Faultless()) && result.None? ==> Step(db, call, Failure(Refusal(committed)), db) && store.inTransaction
  {
    hide CallOk, MayAnswer, PlanOf, Bound, OperationShape;
    CallOkShaped(call);
    BoundMeans(db, call);
    var triple := call.request.Triple();
    var previous := db.operations[triple];
    result, committed := None, false;
    var shaped := CheckOperation(previous);
    if !shaped || previous.triple != triple || previous.fingerprint != call.fingerprint {
      return;
    }
    committed := true;
    var verdict := CheckReplay(store, db, call, previous);
    if verdict == BadInput {
      committed := false;
    }
    if verdict != Confirmed {
      return;
    }
    var ok := store.Rollback();
    if !ok {
      return;
    }
    result := Some(Success(previous, true));
  }

  function Refusal(committed: bool): CommitState { if committed then AlreadyCommitted else NotCommitted }

  /** Carries out a request with a new identity, up to and including COMMIT. */
  method Write(store: Handle, db: Db, call: Call) returns (result: Option<Outcome>, committing: bool)
    requires CallOk(call) && call.request.Triple() !in db.operations
    requires store.inTransaction && store.pending == db && store.durable == db
    modifies store
    ensures result.Some? ==> result.value.Success? && Step(db, call, result.value, store.durable) && !store.inTransaction
    ensures result.None? && committing && !store.inTransaction ==> Transition(db, call, store.durable)
    ensures result.None? && (store.inTransaction || !committing) ==> store.durable == db
    ensures old(store.Faultless()) ==> store.Faultless()
    ensures old(store.Faultless()) && result.None? ==> !committing && Step(db, call, Failure(NotCommitted), db) && store.inTransaction
  {
    hide Stored, CallOk, Apply, MayAnswer, PlanOf, Describes, Sound;
    CallOkShaped(call);
    result, committing := None, false;
    var ok, d := Current(store, db);
    if !ok {
      return;
    }
    var plan := PlanFor(store, db, d, call);
    if plan.None? {
      return;
    }
    var op := OperationOf(call, plan.value);
    PlanIsSound(db, call, plan.value);
    ok := InsertPlan(store, plan.value, op);
    if !ok {
      return;
    }
    assert Step(db, call, Success(op, false), store.pending);
    committing := true;
    ok := store.Commit();
    if !ok {
      return;
    }
    result := Some(Success(op, false));
  }

  /** The body of the try statement, from BEGIN on. */
  method Attempt(store: Handle, call: Call) returns (result: Option<Outcome>, p: Progress)
    requires CallOk(call)
    modifies store
    ensures BodyDone(store, call, result, p)
    ensures old(store.Faultless()) && !old(store.inTransaction) ==>
              store.Faultless() && (result.None? ==> RefusedFor(old(store.durable), call, p) && store.inTransaction)
  {
    hide Step, CallOk, Bound, Transition;
    ghost var db := store.durable;
    TransitionMeans(db, call);
    result, p := None, Progress(!store.inTransaction, false, false);
    var ok := store.Begin();
    if !ok {
      return;
    }
    var view := store.pending;
    ok := store.Read();
    if !ok {
      return;
    }
    if call.request.Triple() in view.operations {
      var committed;
      result, committed := Answer(store, view, call);
      p := p.(committed := committed);
    } else {
      var committing;
      result, committing := Write(store, view, call);
      p := p.(committing := committing);
    }
  }

  lemma TransitionMeans(db: Db, call: Call)
    ensures Transition(db, call, db)
    ensures forall outcome, db' :: Step(db, call, outcome, db') ==> Transition(db, call, db')
  {
  }

  lemma BoundMeans(db: Db, call: Call)
    ensures Bound(db, call) <==>
            call.request.Triple() in db.operations && db.operations[call.request.Triple()].fingerprint == call.fingerprint
  {
  }

  /** The handlers of the except clause. */
  method Recover(store: Handle, p: Progress) returns (state: CommitState)
    requires p.committed ==> p.began
    modifies store
    ensures store.durable == old(store.durable)
    ensures state == AlreadyCommitted <==> p.committed
    // Unknown exactly if a transaction that is still active cannot be rolled back, or COMMIT was tried and none is active.
    ensures state == Unknown <==> p.began && !p.committed && if old(store.inTransaction) then !old(store.NextWorks()) else p.committing
    ensures state == NotCommitted && p.began ==> !store.inTransaction && (p.committing ==> old(store.inTransaction))
    ensures !p.began ==> state == NotCommitted && store.inTransaction == old(store.inTransaction) && store.pending == old(store.pending)
    ensures old(store.Faultless()) && (p.committing ==> old(store.inTransaction)) ==>
              store.Faultless() && state != Unknown && (p.began ==> !store.inTransaction)
  {
    if p.committed {
      if store.inTransaction {
        var _ := store.Rollback();
      }
      return AlreadyCommitted;
    }
    if p.began {
      var active := store.inTransaction;
      if !active && p.committing {
        return Unknown;
      }
      if active {
        var ok := store.Rollback();
        if !ok {
          return Unknown;
        }
      }
      if store.inTransaction {
        return Unknown;
      }
    }
    return NotCommitted;
  }

  method Execute(store: Handle, call: Call) returns (outcome: Outcome)
    modifies store
    // A success is the specified one, and it is durable.
    ensures outcome.Success? ==> Step(old(store.durable), call, outcome, store.durable) && !store.inTransaction
    // An error that says "not committed" or "committed" changed nothing; the latter knows the operation row to be durable.
    ensures outcome == Failure(NotCommitted) ==> store.durable == old(store.durable)
    ensures outcome == Failure(AlreadyCommitted) ==> store.durable == old(store.durable) && Bound(store.durable, call)
    // Whatever happened, the write took effect as a whole or not at all.
    ensures Transition(old(store.durable), call, store.durable)
    ensures store.durable != old(store.durable) ==> outcome.Success? || outcome == Failure(Unknown)
    // A transaction of the caller's own is neither used nor ended.
    ensures old(store.inTransaction) ==>
              outcome == Failure(NotCommitted) && store.inTransaction && store.pending == old(store.pending)
    ensures !old(store.inTransaction) && outcome == Failure(NotCommitted) ==> !store.inTransaction
    // Without failing store calls the call is exactly one step.
    ensures old(store.Faultless()) && !old(store.inTransaction) ==>
              Step(old(store.durable), call, outcome, store.durable) && !store.inTransaction
  {
    hide Step, Bound, CallOk, Transition;
    ghost var db := store.durable;
    TransitionMeans(db, call);
    var valid := CheckCall(call);
    if !valid {
      InvalidIsRefused(db, call);
      return Failure(NotCommitted);
    }
    var result, p := Attempt(store, call);
    if result.Some? {
      return result.value;
    }
    var state := Recover(store, p);
    return Failure(state);
  }

  lemma InvalidIsRefused(db: Db, call: Call)
    requires !CallOk(call)
    ensures Step(db, call, Failure(NotCommitted), db)
  {
    hide CallOk;
  }
}
