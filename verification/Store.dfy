/** A store handle over durable tables, with one transaction at a time and calls that may fail. */
module Store {
  import opened Records
  import opened LedgerState

  /** How the next store call goes: it works, it raises before or after taking effect, or it raises
      and the database has rolled the transaction back by itself. */
  datatype Fault = Works | FailsBefore | FailsAfter | RollsBack

  // ---------- Single rows and the constraints of their tables ----------

  function WithRecord(db: Db, r: Record): Db { db.(records := db.records[r.id := r]) }

  function WithRef(db: Db, row: RefRow): Db { db.(refs := db.refs + {row}) }

  function WithPayload(db: Db, id: Id, data: Bytes): Db { db.(payloads := db.payloads[id := data]) }

  function WithOperation(db: Db, o: Operation): Db { db.(operations := db.operations[o.triple := o]) }

  predicate RefFits(db: Db, row: RefRow) { row !in db.refs && row.source in db.records && row.target in db.records }

  predicate PayloadFits(db: Db, id: Id) { id !in db.payloads && id in db.records }

  predicate OperationFits(db: Db, o: Operation) { o.triple !in db.operations && o.resultRef in db.records }

  class Handle {
    var durable: Db
    var pending: Db
    var inTransaction: bool
    var script: seq<Fault>

    constructor (durable: Db, script: seq<Fault>)
      ensures this.durable == durable && this.script == script && !inTransaction
    {
      this.durable, this.pending, this.inTransaction, this.script := durable, durable, false, script;
    }

    /** No call on this handle is going to fail. */
    ghost predicate Faultless()
      reads this`script
    {
      forall i :: 0 <= i < |script| ==> script[i] == Works
    }

    /** The next call on this handle is not going to fail. */
    predicate NextWorks()
      reads this`script
    {
      script == [] || script[0] == Works
    }

    /** It is going to take effect, whether it then fails or not. */
    predicate NextTakesEffect()
      reads this`script
    {
      script == [] || script[0] == Works || script[0] == FailsAfter
    }

    /** It is going to end the transaction. */
    predicate NextRollsBack()
      reads this`script
    {
      script != [] && script[0] == RollsBack
    }

    method Next() returns (fault: Fault)
      modifies this`script
      ensures fault == Works <==> old(NextWorks())
      ensures fault == Works || fault == FailsAfter <==> old(NextTakesEffect())
      ensures fault == RollsBack <==> old(NextRollsBack())
      ensures old(Faultless()) ==> Faultless() && fault == Works
    {
      if script == [] {
        return Works;
      }
      fault := script[0];
      script := script[1..];
    }

    /** BEGIN IMMEDIATE. It is refused without effect while a transaction is active. */
    method Begin() returns (ok: bool)
      modifies this
      ensures durable == old(durable)
      ensures old(inTransaction) ==> !ok && inTransaction && pending == old(pending)
      ensures inTransaction && !old(inTransaction) ==> pending == durable
      ensures ok ==> inTransaction
      ensures !old(inTransaction) ==> ok == old(NextWorks()) && inTransaction == old(NextTakesEffect())
      ensures old(Faultless()) ==> Faultless() && ok == !old(inTransaction)
    {
      if inTransaction {
        return false;
      }
      var fault := Next();
      if fault == Works || fault == FailsAfter {
        pending, inTransaction := durable, true;
      }
      return fault == Works;
    }

    /** One reading call. */
    method Read() returns (ok: bool)
      modifies this
      ensures durable == old(durable)
      ensures inTransaction ==> old(inTransaction) && pending == old(pending)
      ensures ok ==> inTransaction == old(inTransaction)
      ensures ok == old(NextWorks()) && inTransaction == old(inTransaction && !NextRollsBack())
      ensures old(Faultless()) ==> Faultless() && ok
    {
      var fault := Next();
      if fault == RollsBack {
        inTransaction := false;
      }
      return fault == Works;
    }

    /** One inserting statement that turns `before` into `after` if its constraints permit it. Outside
        a transaction it would commit by itself. */
    method Statement(after: Db, permitted: bool) returns (ok: bool)
      modifies this
      ensures old(inTransaction) ==> durable == old(durable)
      ensures old(inTransaction) && ok ==> inTransaction && pending == after && permitted
      ensures inTransaction ==> old(inTransaction)
      ensures !old(inTransaction) ==> durable == old(durable) || (permitted && durable == after)
      ensures ok == (permitted && old(NextWorks())) && inTransaction == old(inTransaction && !NextRollsBack())
      ensures inTransaction ==> pending == if permitted && old(NextTakesEffect()) then after else old(pending)
      ensures old(Faultless()) ==> Faultless() && ok == permitted
    {
      var fault := Next();
      if permitted && (fault == Works || fault == FailsAfter) {
        if inTransaction {
          pending := after;
        } else {
          durable := after;
        }
      }
      if fault == RollsBack {
        inTransaction := false;
      }
      return permitted && fault == Works;
    }

    /** COMMIT. */
    method Commit() returns (ok: bool)
      modifies this
      ensures ok ==> old(inTransaction) && !inTransaction && durable == old(pending)
      ensures inTransaction ==> durable == old(durable) && pending == old(pending)
      ensures durable == old(durable) || (old(inTransaction) && durable == old(pending))
      ensures old(inTransaction) ==> durable == old(if NextTakesEffect() then pending else durable) && ok == old(NextWorks())
      ensures old(inTransaction) ==> inTransaction == !old(NextTakesEffect() || NextRollsBack())
      ensures old(Faultless()) ==> Faultless() && ok == old(inTransaction)
    {
      if !inTransaction {
        return false;
      }
      var fault := Next();
      if fault == Works || fault == FailsAfter {
        durable, inTransaction := pending, false;
      } else if fault == RollsBack {
        inTransaction := false;
      }
      return fault == Works;
    }

    /** ROLLBACK. */
    method Rollback() returns (ok: bool)
      modifies this
      ensures durable == old(durable)
      ensures ok <==> old(inTransaction && NextWorks())
      ensures ok ==> !inTransaction
      ensures old(inTransaction) ==> inTransaction == !old(NextTakesEffect() || NextRollsBack())
      ensures inTransaction ==> old(inTransaction) && pending == old(pending)
      ensures old(Faultless()) ==> Faultless() && ok == old(inTransaction)
    {
      if !inTransaction {
        return false;
      }
      var fault := Next();
      if fault != FailsBefore {
        inTransaction := false;
      }
      return fault == Works;
    }
  }
}
