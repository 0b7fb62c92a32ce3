/** Two consistent sets of records that agree where they overlap are consistent together. */
module Merge {
  import opened Records
  import opened ParentGraph
  import opened Validity

  /** Everything in `db` stands unchanged in `db'`. */
  predicate Within(db: RecordMap, db': RecordMap) {
    forall id :: id in db ==> id in db' && db'[id] == db[id]
  }

  predicate Agree(a: RecordMap, b: RecordMap) {
    forall id :: id in a && id in b ==> a[id] == b[id]
  }

  lemma RefsStillResolve(db: RecordMap, db': RecordMap, r: Record)
    requires Within(db, db') && RefsResolve(db, r)
    ensures RefsResolve(db', r)
  {
  }

  lemma StillUsed(db: RecordMap, db': RecordMap, id: Id)
    requires Within(db, db') && Used(db, id)
    ensures Used(db', id)
  {
    var u :| u in db && Uses(db[u], id);
    assert Uses(db'[u], id);
  }

  /** The content of a version is the same in a larger ledger. */
  lemma ClosureStays(db: RecordMap, db': RecordMap, v: Id)
    requires Within(db, db') && AllResolve(db) && v in db && db[v].Version?
    ensures ClosureBlobs(db', db'[v]) == ClosureBlobs(db, db[v])
    ensures forall b :: b in ClosureBlobs(db, db[v]) ==> Resolves(db, b, BlobKind)
    ensures TotalLength(db', ClosureBlobs(db', db'[v])) == TotalLength(db, ClosureBlobs(db, db[v]))
  {
    var root := db[v].contentRootRef;
    assert RefsResolve(db, db[v]);
    assert Resolves(db, root, ContentRootKind) && RefsResolve(db, db[root]);
    if db[root].target.ManifestTarget? {
      assert RefsResolve(db, db[db[root].target.ref]);
    }
    TotalLengthSame(db, db', ClosureBlobs(db, db[v]));
  }

  /** From a version of `db` every ancestor lies in `db`. */
  lemma {:induction false} AncestryStays(db: RecordMap, db': RecordMap, path: seq<Id>, n: nat)
    requires Within(db, db') && AllResolve(db) && n < |path|
    requires Ancestry(VersionParents(db'), path) && path[0] in VersionParents(db)
    ensures forall i :: 0 <= i <= n ==> path[i] in VersionParents(db)
  {
    if n > 0 {
      AncestryStays(db, db', path, n - 1);
      var v, p := path[n - 1], path[n];
      assert IsParent(VersionParents(db'), p, v);
      assert RefsResolve(db, db[v]) && p in db[v].parents;
    }
  }

  lemma CycleStays(db: RecordMap, db': RecordMap, path: seq<Id>)
    requires Within(db, db') && AllResolve(db) && |path| >= 2 && path[0] == path[|path| - 1]
    requires Ancestry(VersionParents(db'), path) && path[0] in VersionParents(db)
    ensures HasCycle(VersionParents(db))
  {
    AncestryStays(db, db', path, |path| - 1);
    forall i, j | 0 <= i < j < |path| && j == i + 1
      ensures IsParent(VersionParents(db), path[j], path[i])
    {
      assert IsParent(VersionParents(db'), path[j], path[i]);
    }
  }

  /** Each side is closed under parents, so a cycle in the union lies on one side. */
  lemma UnionAcyclic(a: RecordMap, b: RecordMap)
    requires Agree(a, b) && AllResolve(a) && AllResolve(b)
    requires !HasCycle(VersionParents(a)) && !HasCycle(VersionParents(b))
    ensures !HasCycle(VersionParents(a + b))
  {
    var u := a + b;
    if HasCycle(VersionParents(u)) {
      var path :| |path| >= 2 && path[0] == path[|path| - 1] && Ancestry(VersionParents(u), path);
      assert IsParent(VersionParents(u), path[1], path[0]);
      if path[0] in a {
        CycleStays(a, u, path);
      } else {
        CycleStays(b, u, path);
      }
    }
  }

  lemma MergeValid(a: RecordMap, b: RecordMap)
    requires Valid(a) && Valid(b) && Agree(a, b)
    ensures Valid(a + b)
  {
    hide RecordOk, ClosureBlobs, HasCycle, Uses;
    var u := a + b;
    UnionAcyclic(a, b);
    forall id | id in u
      ensures u[id].id == id && RecordOk(u[id]) && RefsResolve(u, u[id])
    {
      if id in b {
        RefsStillResolve(b, u, b[id]);
      } else {
        RefsStillResolve(a, u, a[id]);
      }
    }
    forall id | id in u && IsContent(u[id])
      ensures Used(u, id)
    {
      if id in b {
        StillUsed(b, u, id);
      } else {
        StillUsed(a, u, id);
      }
    }
    forall v | v in u && u[v].Version?
      ensures TotalLength(u, ClosureBlobs(u, u[v])) <= MAX_PAYLOAD
    {
      if v in b {
        ClosureStays(b, u, v);
      } else {
        ClosureStays(a, u, v);
      }
    }
  }

  /** A new artifact or receipt whose references resolve disturbs nothing. */
  lemma AddIsolated(db: RecordMap, r: Record)
    requires Valid(db) && r.id !in db && (r.Artifact? || r.Receipt?)
    requires RecordOk(r) && RefsResolve(db, r)
    ensures Valid(db[r.id := r])
  {
    hide RefsResolve, ClosureBlobs, RecordOk;
    var u := db[r.id := r];
    assert VersionParents(u) == VersionParents(db);
    RefsStillResolve(db, u, r);
    forall id | id in db
      ensures RefsResolve(u, db[id])
    {
      RefsStillResolve(db, u, db[id]);
    }
    forall id | id in u && IsContent(u[id])
      ensures Used(u, id)
    {
      StillUsed(db, u, id);
    }
    forall v | v in u && u[v].Version?
      ensures TotalLength(u, ClosureBlobs(u, u[v])) <= MAX_PAYLOAD
    {
      ClosureStays(db, u, v);
    }
  }

  lemma ResultsStillResolve(db: RecordMap, db': RecordMap, operations: OperationMap)
    requires Within(db, db') && OperationsOk(db, operations)
    ensures OperationsOk(db', operations)
  {
    forall t | t in operations
      ensures operations[t].triple == t && OperationOk(db', operations[t])
    {
      assert OperationOk(db, operations[t]);
    }
  }
}
