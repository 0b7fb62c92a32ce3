/** The version parent graph and the two loops that look for a cycle in it. */
module ParentGraph {
  import opened Records

  /** Every version with its parents. */
  type Parents = map<Id, seq<Id>>

  /** Every parent is itself a version, and no version names a parent twice. */
  predicate WellFormed(g: Parents) {
    forall v :: v in g ==> Distinct(g[v]) && forall p :: p in g[v] ==> p in g
  }

  /** Each identity is a parent of the one before it. */
  ghost predicate Ancestry(g: Parents, path: seq<Id>) {
    forall i, j :: 0 <= i < j < |path| && j == i + 1 ==> IsParent(g, path[j], path[i])
  }

  predicate IsParent(g: Parents, p: Id, v: Id) { v in g && p in g[v] }

  /** Some version is its own ancestor. */
  ghost predicate HasCycle(g: Parents) {
    exists path :: |path| >= 2 && path[0] == path[|path| - 1] && Ancestry(g, path)
  }

  // ---------- Ordered implies acyclic, stuck implies cyclic ----------

  /** Every version stands behind all of its parents. */
  ghost predicate Ordered(g: Parents, order: seq<Id>) {
    && Distinct(order)
    && (forall i :: 0 <= i < |order| ==> order[i] in g)
    && forall i, p :: 0 <= i < |order| && p in g[order[i]] ==> p in order[..i]
  }

  lemma {:induction false} OrderedDescends(g: Parents, order: seq<Id>, path: seq<Id>, i: nat)
    requires Ordered(g, order) && Ancestry(g, path) && path != []
    requires i < |order| && order[i] == path[0]
    ensures path[|path| - 1] in order[..i + 1]
    ensures |path| >= 2 ==> path[|path| - 1] in order[..i]
    decreases |path|
  {
    if |path| >= 2 {
      assert IsParent(g, path[1], path[0]);
      var j :| 0 <= j < i && order[j] == path[1];
      OrderedDescends(g, order, path[1..], j);
      assert path[1..][|path[1..]| - 1] == path[|path| - 1];
      assert forall x :: x in order[..j + 1] ==> x in order[..i];
    }
  }

  lemma NotEarlier(s: seq<Id>, i: nat)
    requires Distinct(s) && i < |s|
    ensures s[i] !in s[..i]
  {
  }

  lemma LastIsNew(s: seq<Id>, v: Id)
    requires Distinct(s + [v])
    ensures v !in s && Distinct(s)
  {
    NotEarlier(s + [v], |s|);
    assert (s + [v])[..|s|] == s;
    assert forall i :: 0 <= i < |s| ==> (s + [v])[i] == s[i];
  }

  lemma OrderedIsAcyclic(g: Parents, order: seq<Id>)
    requires Ordered(g, order) && forall v :: v in g ==> v in order
    ensures !HasCycle(g)
  {
    if HasCycle(g) {
      var path :| |path| >= 2 && path[0] == path[|path| - 1] && Ancestry(g, path);
      assert IsParent(g, path[1], path[0]);
      var i :| 0 <= i < |order| && order[i] == path[0];
      OrderedDescends(g, order, path, i);
      NotEarlier(order, i);
    }
  }

  ghost predicate Stuck(g: Parents, s: set<Id>) {
    forall v {:trigger HasParentIn(g, s, v)} :: v in s ==> HasParentIn(g, s, v)
  }

  ghost predicate HasParentIn(g: Parents, s: set<Id>, v: Id) { exists p :: p in s && IsParent(g, p, v) }

  lemma Prepend(g: Parents, v: Id, tail: seq<Id>)
    requires Ancestry(g, tail) && tail != [] && IsParent(g, tail[0], v)
    ensures Ancestry(g, [v] + tail)
  {
  }

  /** A way of the given length through versions that each have a parent among them. */
  lemma {:induction false} Climb(g: Parents, s: set<Id>, v: Id, n: nat) returns (path: seq<Id>)
    requires v in s && Stuck(g, s)
    ensures |path| == n + 1 && path[0] == v && Ancestry(g, path)
    ensures forall k :: 0 <= k < |path| ==> path[k] in s
    decreases n
  {
    hide Ancestry, Stuck, IsParent;
    if n == 0 {
      path := [v];
      Alone(g, v);
    } else {
      var p := ParentInside(g, s, v);
      var tail := Climb(g, s, p, n - 1);
      Prepend(g, v, tail);
      path := [v] + tail;
    }
  }

  lemma Alone(g: Parents, v: Id)
    ensures Ancestry(g, [v])
  {
  }

  lemma ParentInside(g: Parents, s: set<Id>, v: Id) returns (p: Id)
    requires v in s && Stuck(g, s)
    ensures p in s && IsParent(g, p, v)
  {
    assert HasParentIn(g, s, v);
    p :| p in s && IsParent(g, p, v);
  }

  /** More steps than versions: one of them comes twice. */
  lemma {:induction false} Pigeonhole(path: seq<Id>, s: set<Id>) returns (i: nat, j: nat)
    requires (forall k :: 0 <= k < |path| ==> path[k] in s) && |path| > |s|
    ensures i < j < |path| && path[i] == path[j]
    decreases |s|
  {
    var last := |path| - 1;
    if k :| 0 <= k < last && path[k] == path[last] {
      return k, last;
    }
    i, j := Pigeonhole(path[..last], s - {path[last]});
  }

  lemma Repetition(g: Parents, path: seq<Id>, i: nat, j: nat)
    requires Ancestry(g, path) && i < j < |path| && path[i] == path[j]
    ensures HasCycle(g)
  {
    var cycle := path[i..j + 1];
    assert cycle[0] == cycle[|cycle| - 1];
  }

  lemma StuckIsCyclic(g: Parents, s: set<Id>)
    requires s != {} && Stuck(g, s)
    ensures HasCycle(g)
  {
    hide Ancestry, HasCycle, Stuck;
    var v :| v in s;
    var path := Climb(g, s, v, |s|);
    var i, j := Pigeonhole(path, s);
    Repetition(g, path, i, j);
  }

  // ---------- Indegrees and children ----------

  /** The number of parents that have not been visited. */
  function Unvisited(parents: seq<Id>, visited: set<Id>): (n: nat)
    ensures n <= |parents|
    ensures n == 0 <==> forall p :: p in parents ==> p in visited
  {
    if parents == [] then 0
    else
      var last := parents[|parents| - 1];
      assert parents == parents[..|parents| - 1] + [last];
      Unvisited(parents[..|parents| - 1], visited) + if last in visited then 0 else 1
  }

  lemma {:induction false} UnvisitedNone(parents: seq<Id>)
    ensures Unvisited(parents, {}) == |parents|
  {
    if parents != [] {
      UnvisitedNone(parents[..|parents| - 1]);
    }
  }

  /** Visiting one more version lowers the count of exactly its children. */
  lemma {:induction false} UnvisitedMore(parents: seq<Id>, visited: set<Id>, v: Id)
    requires Distinct(parents) && v !in visited
    ensures Unvisited(parents, visited + {v}) == Unvisited(parents, visited) - if v in parents then 1 else 0
  {
    if parents != [] {
      var n := |parents| - 1;
      UnvisitedMore(parents[..n], visited, v);
      assert parents == parents[..n] + [parents[n]];
      assert v in parents[..n] ==> exists i :: 0 <= i < n && parents[i] == v;
    }
  }

  /** `children` turns the parent relation around, naming each child once. A version without
      children may be missing from it. */
  ghost predicate TurnsAround(g: Parents, children: map<Id, seq<Id>>) {
    && (forall v :: Distinct(Children(children, v)))
    && (forall v, c :: c in Children(children, v) <==> c in g && v in g[c])
  }

  function Children(children: map<Id, seq<Id>>, v: Id): seq<Id> {
    if v in children then children[v] else []
  }

  predicate Counts(g: Parents, indegree: map<Id, int>, visited: set<Id>) {
    indegree.Keys == g.Keys && forall v :: v in g ==> indegree[v] == Unvisited(g[v], visited)
  }

  /** Between two visits: `order` has been visited, `ready` waits, and the rest has unvisited parents. */
  ghost predicate Between(g: Parents, indegree: map<Id, int>, order: seq<Id>, ready: seq<Id>) {
    && Ordered(g, order)
    && Counts(g, indegree, set v | v in order)
    && Distinct(ready)
    && (forall v :: v in ready ==> v in g && v !in order && indegree[v] == 0)
    && (forall v :: v in g && indegree[v] == 0 ==> v in order || v in ready)
  }

  /** After the first `k` children of the version just visited have been counted down. */
  ghost predicate Counting(g: Parents, indegree: map<Id, int>, order: seq<Id>, ready: seq<Id>, v: Id, kids: seq<Id>, k: nat) {
    && Ordered(g, order + [v])
    && k <= |kids|
    && indegree.Keys == g.Keys
    && (forall c :: c in g ==> indegree[c] == Unvisited(g[c], set x | x in order) - if c in kids[..k] then 1 else 0)
    && Distinct(ready)
    && (forall c :: c in ready ==> c in g && c !in order + [v] && indegree[c] == 0)
    && (forall c :: c in g && indegree[c] == 0 ==> c in order + [v] || c in ready)
  }

  lemma OrderedMore(g: Parents, order: seq<Id>, v: Id)
    requires Ordered(g, order) && v in g && v !in order && forall p :: p in g[v] ==> p in order
    ensures Ordered(g, order + [v])
  {
    var longer := order + [v];
    assert longer[..|order|] == order;
    forall i, p | 0 <= i < |longer| && p in g[longer[i]]
      ensures p in longer[..i]
    {
      if i < |order| {
        assert longer[..i] == order[..i];
      }
    }
  }

  /** Taking the first or the last of those that wait. */
  lemma TakeOne(ready: seq<Id>, v: Id, rest: seq<Id>)
    requires ready != [] && Distinct(ready)
    requires (v == ready[0] && rest == ready[1..]) || (v == ready[|ready| - 1] && rest == ready[..|ready| - 1])
    ensures Distinct(rest) && v in ready && v !in rest
    ensures forall x :: x in ready <==> x == v || x in rest
  {
    assert ready == [ready[0]] + ready[1..] && ready == ready[..|ready| - 1] + [ready[|ready| - 1]];
  }

  lemma Visit(g: Parents, indegree: map<Id, int>, order: seq<Id>, ready: seq<Id>, v: Id, rest: seq<Id>, kids: seq<Id>)
    requires Between(g, indegree, order, ready) && ready != []
    requires (v == ready[0] && rest == ready[1..]) || (v == ready[|ready| - 1] && rest == ready[..|ready| - 1])
    ensures Counting(g, indegree, order, rest, v, kids, 0)
    ensures |order| < |g|
  {
    hide Ordered, Distinct;
    TakeOne(ready, v, rest);
    OrderedMore(g, order, v);
    RoomLeft(g, order, v);
  }

  /** A version cannot be visited before its parent. */
  lemma ChildNotVisited(g: Parents, order: seq<Id>, v: Id, c: Id)
    requires Ordered(g, order + [v]) && c in g && v in g[c]
    ensures c !in order + [v]
  {
    var longer := order + [v];
    LastIsNew(order, v);
    forall i | 0 <= i < |longer|
      ensures longer[i] != c
    {
      assert longer[..i] == order[..i];
    }
  }

  lemma AppendNew(s: seq<Id>, c: Id)
    requires Distinct(s) && c !in s
    ensures Distinct(s + [c])
  {
  }

  lemma CountDown(g: Parents, indegree: map<Id, int>, order: seq<Id>, ready: seq<Id>, v: Id, kids: seq<Id>, k: nat)
    requires WellFormed(g) && Counting(g, indegree, order, ready, v, kids, k) && k < |kids|
    requires KidsOf(g, kids, v)
    ensures kids[k] in indegree
    ensures var lower := indegree[kids[k] := indegree[kids[k]] - 1];
            Counting(g, lower, order, if lower[kids[k]] == 0 then ready + [kids[k]] else ready, v, kids, k + 1)
  {
    hide Ordered, Distinct, WellFormed;
    var c := kids[k];
    var visited := set x | x in order;
    assert c in kids;
    assert kids[..k + 1] == kids[..k] + [c];
    NotEarlier(kids, k);
    assert Distinct(order + [v]) by { OrderedIsDistinct(g, order + [v]); }
    LastIsNew(order, v);
    ChildNotVisited(g, order, v, c);
    assert indegree[c] >= 1 by {
      assert v in g[c] && v !in visited;
    }
    assert c !in ready;
    AppendNew(ready, c);
  }

  lemma OrderedIsDistinct(g: Parents, order: seq<Id>)
    requires Ordered(g, order)
    ensures Distinct(order)
  {
  }

  lemma Counted(g: Parents, indegree: map<Id, int>, order: seq<Id>, ready: seq<Id>, v: Id, kids: seq<Id>)
    requires WellFormed(g) && Counting(g, indegree, order, ready, v, kids, |kids|)
    requires KidsOf(g, kids, v)
    ensures Between(g, indegree, order + [v], ready)
  {
    var visited := set x | x in order;
    assert (set x | x in order + [v]) == visited + {v};
    assert kids[..|kids|] == kids;
    LastIsNew(order, v);
    forall c | c in g
      ensures indegree[c] == Unvisited(g[c], visited + {v})
    {
      UnvisitedMore(g[c], visited, v);
    }
  }

  ghost predicate KidsOf(g: Parents, kids: seq<Id>, v: Id) {
    Distinct(kids) && forall c :: c in kids <==> c in g && v in g[c]
  }

  lemma KidsAre(g: Parents, children: map<Id, seq<Id>>, v: Id)
    requires TurnsAround(g, children)
    ensures KidsOf(g, Children(children, v), v)
  {
  }

  /** When nothing waits any more, all versions have been visited exactly if there is no cycle. */
  lemma Finished(g: Parents, indegree: map<Id, int>, order: seq<Id>)
    requires WellFormed(g) && Between(g, indegree, order, [])
    ensures |order| == |g| <==> !HasCycle(g)
  {
    var visited := set v | v in order;
    DistinctSize(order);
    assert visited <= g.Keys;
    if |order| == |g| {
      SameSize(visited, g.Keys);
      OrderedIsAcyclic(g, order);
    } else {
      var stuck := g.Keys - visited;
      assert stuck != {} by { StrictSubset(visited, g.Keys); }
      forall u | u in stuck
        ensures HasParentIn(g, stuck, u)
      {
        assert indegree[u] != 0;
        var p :| p in g[u] && p !in visited;
        assert p in stuck && IsParent(g, p, u);
      }
      StuckIsCyclic(g, stuck);
    }
  }

  lemma {:induction false} DistinctSize(s: seq<Id>)
    requires Distinct(s)
    ensures |set x | x in s| == |s|
  {
    if s != [] {
      var n := |s| - 1;
      DistinctSize(s[..n]);
      assert s == s[..n] + [s[n]];
      assert (set x | x in s) == (set x | x in s[..n]) + {s[n]};
    }
  }

  lemma SameSize(a: set<Id>, b: set<Id>)
    requires a <= b && |a| == |b|
    ensures a == b
  {
    assert b == a + (b - a);
  }

  lemma StrictSubset(a: set<Id>, b: set<Id>)
    requires a <= b && |a| != |b|
    ensures b - a != {}
  {
    assert b == a + (b - a);
  }

  lemma RoomLeft(g: Parents, order: seq<Id>, v: Id)
    requires Ordered(g, order + [v])
    ensures |order| < |g|
  {
    var longer := order + [v];
    DistinctSize(longer);
    assert (set x | x in longer) <= g.Keys;
    SubsetSize((set x | x in longer), g.Keys);
  }

  lemma SubsetSize(a: set<Id>, b: set<Id>)
    requires a <= b
    ensures |a| <= |b|
  {
    assert |b| == |a| + |b - a|;
  }

  // ---------- The two loops ----------

  /** The inner loop of both: counts every child of `v` down and appends those that become ready. */
  method CountChildrenDown(ghost g: Parents, degrees: map<Id, int>, ghost order: seq<Id>, waiting: seq<Id>, v: Id, kids: seq<Id>)
    returns (indegree: map<Id, int>, ready: seq<Id>)
    requires WellFormed(g) && KidsOf(g, kids, v) && Counting(g, degrees, order, waiting, v, kids, 0)
    ensures Between(g, indegree, order + [v], ready)
  {
    hide *;
    indegree, ready := degrees, waiting;
    var k := 0;
    while k < |kids|
      invariant k <= |kids|
      invariant Counting(g, indegree, order, ready, v, kids, k)
    {
      CountDown(g, indegree, order, ready, v, kids, k);
      var child := kids[k];
      indegree := indegree[child := indegree[child] - 1];
      if indegree[child] == 0 {
        ready := ready + [child];
      }
      k := k + 1;
    }
    Counted(g, indegree, order, ready, v, kids);
  }

  lemma StartVisiting(g: Parents, degrees: map<Id, int>, sources: seq<Id>)
    requires Counts(g, degrees, {})
    requires Distinct(sources) && forall v :: v in sources <==> v in g && degrees[v] == 0
    ensures Between(g, degrees, [], sources)
  {
    assert (set v: Id | v in []) == {};
  }

  /** First in, first out. */
  method CountVisitedFifo(ghost g: Parents, degrees: map<Id, int>, children: map<Id, seq<Id>>, sources: seq<Id>)
    returns (visited: nat)
    requires WellFormed(g) && TurnsAround(g, children) && Counts(g, degrees, {})
    requires Distinct(sources) && forall v :: v in sources <==> v in g && degrees[v] == 0
    ensures visited == |g| <==> !HasCycle(g)
  {
    StartVisiting(g, degrees, sources);
    hide *;
    var indegree, queue := degrees, sources;
    visited := 0;
    ghost var order: seq<Id> := [];
    while queue != []
      invariant visited == |order| && Between(g, indegree, order, queue)
      decreases |g| - |order|
    {
      var identity := queue[0];
      Visit(g, indegree, order, queue, identity, queue[1..], Children(children, identity));
      KidsAre(g, children, identity);
      queue := queue[1..];
      visited := visited + 1;
      indegree, queue := CountChildrenDown(g, indegree, order, queue, identity, Children(children, identity));
      order := order + [identity];
    }
    Finished(g, indegree, order);
  }

  /** Last in, first out. */
  method CountVisitedLifo(ghost g: Parents, degrees: map<Id, int>, children: map<Id, seq<Id>>, sources: seq<Id>)
    returns (visited: nat)
    requires WellFormed(g) && TurnsAround(g, children) && Counts(g, degrees, {})
    requires Distinct(sources) && forall v :: v in sources <==> v in g && degrees[v] == 0
    ensures visited == |g| <==> !HasCycle(g)
  {
    StartVisiting(g, degrees, sources);
    hide *;
    var indegrees, ready := degrees, sources;
    visited := 0;
    ghost var order: seq<Id> := [];
    while ready != []
      invariant visited == |order| && Between(g, indegrees, order, ready)
      decreases |g| - |order|
    {
      var parent := ready[|ready| - 1];
      Visit(g, indegrees, order, ready, parent, ready[..|ready| - 1], Children(children, parent));
      KidsAre(g, children, parent);
      ready := ready[..|ready| - 1];
      visited := visited + 1;
      indegrees, ready := CountChildrenDown(g, indegrees, order, ready, parent, Children(children, parent));
      order := order + [parent];
    }
    Finished(g, indegrees, order);
  }
}
