/** The two explicit-stack walks over object graphs. */
module Walks {
  import opened Records
  import opened ObjectGraph
  import JsonText

  const MAX_NODES := 1024
  const MAX_DEPTH := 8
  const MAX_CANONICAL := 16

  // ---------- Enter and leave marks ----------

  datatype Frame = Frame(item: Item, depth: nat, leaving: bool)

  /** The number of leave marks: the containers that are entered but not left. */
  ghost function Open(stack: seq<Frame>): nat {
    if stack == [] then 0 else Open(stack[..|stack| - 1]) + if stack[|stack| - 1].leaving then 1 else 0
  }

  /** The containers entered and not left, outermost first. */
  ghost function Path(stack: seq<Frame>): (p: seq<Address>)
    ensures |p| == Open(stack)
  {
    if stack == [] then []
    else
      var top := stack[|stack| - 1];
      Path(stack[..|stack| - 1]) + if top.leaving then [if top.item.Ref? then top.item.address else 0] else []
  }

  /** Every frame stands one level below the last container entered before it, and is a child of it. */
  ghost predicate Framed(g: Graph, stack: seq<Frame>) {
    stack == [] ||
    (var top := stack[|stack| - 1];
     var path := Path(stack[..|stack| - 1]);
     && Framed(g, stack[..|stack| - 1])
     && top.depth == |path|
     && (path != [] ==> ChildOf(g, top.item, path[|path| - 1]))
     && (top.item.Ref? ==> top.item.address in g)
     && (top.leaving ==> top.item.Ref? && top.item.address !in path))
  }

  lemma {:induction false} PathIsChain(g: Graph, stack: seq<Frame>)
    requires Framed(g, stack)
    ensures Chain(g, Path(stack)) && Distinct(Path(stack))
  {
    if stack != [] {
      PathIsChain(g, stack[..|stack| - 1]);
    }
  }

  ghost predicate FrameFits(g: Graph, f: Frame, maxDepth: nat) {
    f.leaving || (f.depth <= maxDepth && Fits(g, f.item, maxDepth - f.depth))
  }

  ghost function FrameSize(g: Graph, f: Frame, maxDepth: nat): nat {
    if f.leaving || f.depth > maxDepth then 0 else Size(g, f.item, maxDepth - f.depth)
  }

  /** What is still to be visited fits in the levels below it. */
  ghost predicate PendingFits(g: Graph, stack: seq<Frame>, maxDepth: nat) {
    stack == [] || (PendingFits(g, stack[..|stack| - 1], maxDepth) && FrameFits(g, stack[|stack| - 1], maxDepth))
  }

  ghost function PendingSize(g: Graph, stack: seq<Frame>, maxDepth: nat): nat {
    if stack == [] then 0 else PendingSize(g, stack[..|stack| - 1], maxDepth) + FrameSize(g, stack[|stack| - 1], maxDepth)
  }

  function Frames(items: seq<Item>, depth: nat): (fs: seq<Frame>)
    ensures |fs| == |items| && forall i :: 0 <= i < |fs| ==> fs[i] == Frame(items[i], depth, false)
  {
    seq(|items|, i requires 0 <= i < |items| => Frame(items[i], depth, false))
  }

  ghost predicate TopFramed(g: Graph, path: seq<Address>, top: Frame) {
    && top.depth == |path|
    && (path != [] ==> ChildOf(g, top.item, path[|path| - 1]))
    && (top.item.Ref? ==> top.item.address in g)
    && (top.leaving ==> top.item.Ref? && top.item.address !in path)
  }

  /** The effect of one frame on everything that is counted over the stack. */
  lemma Push(g: Graph, stack: seq<Frame>, f: Frame, maxDepth: nat)
    ensures var s := stack + [f];
            && Path(s) == Path(stack) + (if f.leaving then [if f.item.Ref? then f.item.address else 0] else [])
            && (Framed(g, s) <==> Framed(g, stack) && TopFramed(g, Path(stack), f))
            && (PendingFits(g, s, maxDepth) <==> PendingFits(g, stack, maxDepth) && FrameFits(g, f, maxDepth))
            && PendingSize(g, s, maxDepth) == PendingSize(g, stack, maxDepth) + FrameSize(g, f, maxDepth)
  {
    var s := stack + [f];
    assert s[..|s| - 1] == stack && s[|s| - 1] == f;
  }

  ghost predicate AllFit(g: Graph, items: seq<Item>, levels: nat) {
    forall i :: 0 <= i < |items| ==> Fits(g, items[i], levels)
  }

  /** Pushing the children of the container just entered. */
  lemma {:induction false} PushChildren(g: Graph, stack: seq<Frame>, items: seq<Item>, depth: nat, maxDepth: nat)
    requires Framed(g, stack) && |Path(stack)| == depth && 0 < depth <= maxDepth
    requires forall i :: 0 <= i < |items| ==> ChildOf(g, items[i], Path(stack)[depth - 1])
    requires forall i :: 0 <= i < |items| && items[i].Ref? ==> items[i].address in g
    ensures var s := stack + Frames(items, depth);
            && Framed(g, s) && Path(s) == Path(stack)
            && (PendingFits(g, s, maxDepth) <==> PendingFits(g, stack, maxDepth) && AllFit(g, items, maxDepth - depth))
            && PendingSize(g, s, maxDepth) == PendingSize(g, stack, maxDepth) + SizeAll(g, items, maxDepth - depth)
  {
    hide Framed, Path, PendingFits, PendingSize, Fits, Size;
    if items == [] {
      assert stack + Frames(items, depth) == stack;
    } else {
      var n := |items| - 1;
      var shorter := stack + Frames(items[..n], depth);
      var f := Frame(items[n], depth, false);
      PushChildren(g, stack, items[..n], depth, maxDepth);
      Push(g, shorter, f, maxDepth);
      assert stack + Frames(items, depth) == shorter + [f];
      assert AllFit(g, items, maxDepth - depth) <==> AllFit(g, items[..n], maxDepth - depth) && Fits(g, items[n], maxDepth - depth) by {
        assert items == items[..n] + [items[n]];
      }
    }
  }

  /** Entering a container trades its own place on the stack for a leave mark and its children. */
  lemma Enter(g: Graph, rest: seq<Frame>, item: Item, depth: nat, maxDepth: nat)
    requires Closed(g) && Framed(g, rest) && TopFramed(g, Path(rest), Frame(item, depth, false))
    requires item.Ref? && item.address !in Path(rest) && KeysGood(g[item.address]) && depth < maxDepth
    ensures var s := rest + [Frame(item, depth, true)] + Frames(Children(g[item.address]), depth + 1);
            && Framed(g, s) && Path(s) == Path(rest) + [item.address]
            && (PendingFits(g, s, maxDepth) <==> PendingFits(g, rest, maxDepth) && FrameFits(g, Frame(item, depth, false), maxDepth))
            && PendingSize(g, s, maxDepth) + 1 == PendingSize(g, rest, maxDepth) + FrameSize(g, Frame(item, depth, false), maxDepth)
  {
    hide Framed, Path, PendingFits, PendingSize;
    var mark, items := Frame(item, depth, true), Children(g[item.address]);
    Push(g, rest, mark, maxDepth);
    PushChildren(g, rest + [mark], items, depth + 1, maxDepth);
  }

  ghost function Members(path: seq<Address>): set<Address> { set a | a in path }

  lemma InMembers(path: seq<Address>, a: Address)
    ensures a in Members(path) <==> a in path
  {
  }

  lemma MembersOfLonger(path: seq<Address>, a: Address)
    ensures Members(path + [a]) == Members(path) + {a}
    ensures a !in path ==> Members(path + [a]) - {a} == Members(path)
  {
  }

  /** What a frame to be visited owes by itself. */
  lemma FrameFacts(g: Graph, f: Frame, maxDepth: nat)
    requires !f.leaving && f.depth <= maxDepth && (f.item.Ref? ==> f.item.address in g)
    ensures FrameSize(g, f, maxDepth) >= 1
    ensures f.item.Scalar? ==> FrameSize(g, f, maxDepth) == 1 && (FrameFits(g, f, maxDepth) <==> f.item.good)
    ensures f.item.Ref? && f.depth == maxDepth ==> !FrameFits(g, f, maxDepth)
    ensures f.item.Ref? && !KeysGood(g[f.item.address]) ==> !FrameFits(g, f, maxDepth)
    ensures f.item.Ref? && f.depth < maxDepth ==> FrameSize(g, f, maxDepth) >= 1 + |Children(g[f.item.address])|
  {
    if f.item.Ref? && f.depth < maxDepth {
      SizeAllAtLeast(g, Children(g[f.item.address]), maxDepth - f.depth - 1);
    }
  }

  ghost predicate Whole(g: Graph, root: Item) {
    Fits(g, root, MAX_DEPTH) && Size(g, root, MAX_DEPTH) <= MAX_NODES
  }

  /** Whenever a frame is popped, the active containers are exactly those on its path from the root,
      and the graph is acceptable exactly if what is pending still is. */
  ghost predicate Underway(g: Graph, root: Item, stack: seq<Frame>, active: set<Address>, nodes: nat) {
    && nodes <= MAX_NODES
    && Framed(g, stack)
    && |Path(stack)| <= MAX_DEPTH
    && active == Members(Path(stack))
    && (Whole(g, root) <==> PendingFits(g, stack, MAX_DEPTH) && nodes + PendingSize(g, stack, MAX_DEPTH) <= MAX_NODES)
  }

  lemma Leave(g: Graph, root: Item, rest: seq<Frame>, top: Frame, active: set<Address>, nodes: nat)
    requires Underway(g, root, rest + [top], active, nodes) && top.leaving
    ensures top.item.Ref? && Underway(g, root, rest, active - {top.item.address}, nodes)
  {
    hide Framed, Path, PendingFits, PendingSize, Members, Whole;
    Push(g, rest, top, MAX_DEPTH);
    MembersOfLonger(Path(rest), top.item.address);
  }

  lemma VisitScalar(g: Graph, root: Item, rest: seq<Frame>, top: Frame, active: set<Address>, nodes: nat)
    requires Underway(g, root, rest + [top], active, nodes) && !top.leaving && top.item.Scalar?
    ensures if nodes + 1 > MAX_NODES || !top.item.good then !Whole(g, root) else Underway(g, root, rest, active, nodes + 1)
  {
    hide Framed, Path, PendingFits, PendingSize, Members, Whole, FrameFits, FrameSize;
    Push(g, rest, top, MAX_DEPTH);
    assert Path(rest + [top]) == Path(rest);
    FrameFacts(g, top, MAX_DEPTH);
  }

  lemma VisitContainer(g: Graph, root: Item, rest: seq<Frame>, top: Frame, active: set<Address>, nodes: nat)
    requires Closed(g) && Underway(g, root, rest + [top], active, nodes) && !top.leaving && top.item.Ref?
    ensures top.item.address in g
    ensures var cell := g[top.item.address];
            if nodes + 1 > MAX_NODES || top.depth + 1 > MAX_DEPTH || top.item.address in active
               || |Children(cell)| > MAX_NODES - (nodes + 1) || !KeysGood(cell)
            then !Whole(g, root)
            else Underway(g, root, rest + [Frame(top.item, top.depth, true)] + Frames(Children(cell), top.depth + 1),
                          active + {top.item.address}, nodes + 1)
  {
    hide Framed, Path, PendingFits, PendingSize, Members, Whole, FrameFits, FrameSize, KeysGood, Children;
    Push(g, rest, top, MAX_DEPTH);
    assert Path(rest + [top]) == Path(rest);
    FrameFacts(g, top, MAX_DEPTH);
    MembersOfLonger(Path(rest), top.item.address);
    InMembers(Path(rest), top.item.address);
    if top.item.address in active {
      ActiveDoesNotFit(g, rest, top.item, top.depth, MAX_DEPTH);
    } else if top.depth < MAX_DEPTH && KeysGood(g[top.item.address]) {
      Enter(g, rest, top.item, top.depth, MAX_DEPTH);
    }
  }

  lemma Start(g: Graph, root: Item)
    requires Rooted(g, root)
    ensures Underway(g, root, [Frame(root, 0, false)], {}, 0)
  {
    Push(g, [], Frame(root, 0, false), MAX_DEPTH);
    assert [] + [Frame(root, 0, false)] == [Frame(root, 0, false)];
  }

  /** The snapshot format's walk. It accepts exactly the graphs that unfold to a finite tree within
      both bounds; shared containers are visited once for every path to them. */
  method Walk(g: Graph, root: Item) returns (accepted: bool)
    requires Rooted(g, root)
    ensures accepted <==> Bounded(g, root, MAX_DEPTH, MAX_NODES)
  {
    BoundedIsFits(g, root, MAX_DEPTH, MAX_NODES);
    Start(g, root);
    var active: set<Address> := {};
    var stack := [Frame(root, 0, false)];
    var nodes := 0;
    while stack != []
      invariant Underway(g, root, stack, active, nodes)
      decreases MAX_NODES - nodes, |stack|
    {
      hide Framed, Path, PendingFits, PendingSize, Members, Whole, Bounded;
      var top := stack[|stack| - 1];
      assert stack == stack[..|stack| - 1] + [top];
      stack := stack[..|stack| - 1];
      if top.leaving {
        Leave(g, root, stack, top, active, nodes);
        active := active - {top.item.address};
        continue;
      }
      if top.item.Ref? {
        VisitContainer(g, root, stack, top, active, nodes);
        nodes := nodes + 1;
        if nodes > MAX_NODES || top.depth + 1 > MAX_DEPTH || top.item.address in active {
          return false;
        }
        var cell := g[top.item.address];
        active := active + {top.item.address};
        stack := stack + [Frame(top.item, top.depth, true)];
        if |Children(cell)| > MAX_NODES - nodes || !KeysGood(cell) {
          return false;
        }
        stack := stack + Frames(Children(cell), top.depth + 1);
      } else {
        VisitScalar(g, root, stack, top, active, nodes);
        nodes := nodes + 1;
        if nodes > MAX_NODES || !top.item.good {
          return false;
        }
      }
    }
    return true;
  }

  /** A container met again on its own path does not fit anywhere. */
  lemma ActiveDoesNotFit(g: Graph, stack: seq<Frame>, item: Item, depth: nat, maxDepth: nat)
    requires Framed(g, stack) && item.Ref? && item.address in g && item.address in Path(stack)
    requires ChildOf(g, item, Path(stack)[|Path(stack)| - 1])
    ensures !FrameFits(g, Frame(item, depth, false), maxDepth)
  {
    PathIsChain(g, stack);
    if depth <= maxDepth {
      OnPathDoesNotFit(g, Path(stack), item, maxDepth - depth);
    }
  }

  lemma OnPathDoesNotFit(g: Graph, path: seq<Address>, item: Item, levels: nat)
    requires Chain(g, path) && item.Ref? && item.address in g && item.address in path
    requires ChildOf(g, item, path[|path| - 1])
    ensures !Fits(g, item, levels)
  {
    var k :| 0 <= k < |path| && path[k] == item.address;
    var cycle := path[k..] + [item.address];
    forall i | 0 <= i < |cycle| - 1
      ensures ChildOf(g, Ref(cycle[i + 1]), cycle[i])
    {
      if k + i + 1 < |path| {
        assert ChildOf(g, Ref(path[k + i + 1]), path[k + i]);
      } else {
        assert Ref(cycle[i + 1]) == item && cycle[i] == path[|path| - 1];
      }
    }
    CycleDoesNotFit(g, cycle, levels);
  }

  lemma {:induction false} SizeAllAtLeast(g: Graph, items: seq<Item>, levels: nat)
    ensures SizeAll(g, items, levels) >= |items|
  {
    if items != [] {
      SizeAllAtLeast(g, items[..|items| - 1], levels);
    }
  }

  // ---------- Ancestor sets ----------

  datatype Branch = Branch(item: Item, depth: nat, ancestors: set<Address>)

  /** `path` is a way from the root to the branch's item, and `ancestors` are the containers on it. */
  ghost predicate OnBranch(g: Graph, b: Branch, path: seq<Address>) {
    && Chain(g, path) && |path| == b.depth <= MAX_CANONICAL
    && b.ancestors == Members(path)
    && (path != [] ==> ChildOf(g, b.item, path[|path| - 1]))
    && (b.item.Ref? ==> b.item.address in g)
  }

  ghost predicate Placed(g: Graph, b: Branch) { exists path :: OnBranch(g, b, path) }

  ghost predicate BranchFits(g: Graph, b: Branch) {
    b.depth <= MAX_CANONICAL && Fits(g, b.item, MAX_CANONICAL - b.depth)
  }

  ghost function Weight(g: Graph, stack: seq<Branch>): nat {
    if stack == [] then 0
    else
      var top := stack[|stack| - 1];
      Weight(g, stack[..|stack| - 1]) + if top.depth <= MAX_CANONICAL then Size(g, top.item, MAX_CANONICAL - top.depth) else 0
  }

  function Branches(items: seq<Item>, depth: nat, ancestors: set<Address>): (bs: seq<Branch>)
    ensures |bs| == |items| && forall i :: 0 <= i < |bs| ==> bs[i] == Branch(items[i], depth, ancestors)
  {
    seq(|items|, i requires 0 <= i < |items| => Branch(items[i], depth, ancestors))
  }

  lemma {:induction false} WeightOfBranches(g: Graph, stack: seq<Branch>, items: seq<Item>, depth: nat, ancestors: set<Address>)
    requires depth <= MAX_CANONICAL
    ensures Weight(g, stack + Branches(items, depth, ancestors)) == Weight(g, stack) + SizeAll(g, items, MAX_CANONICAL - depth)
  {
    hide Size;
    var s := stack + Branches(items, depth, ancestors);
    if items == [] {
      assert s == stack;
    } else {
      WeightOfBranches(g, stack, items[..|items| - 1], depth, ancestors);
      assert s[..|s| - 1] == stack + Branches(items[..|items| - 1], depth, ancestors);
    }
  }

  lemma AncestorDoesNotFit(g: Graph, b: Branch)
    requires Placed(g, b) && b.item.Ref? && b.item.address in b.ancestors
    ensures !BranchFits(g, b)
  {
    var path :| OnBranch(g, b, path);
    OnPathDoesNotFit(g, path, b.item, MAX_CANONICAL - b.depth);
  }

  lemma ChildrenPlaced(g: Graph, b: Branch)
    requires Closed(g) && Placed(g, b) && b.item.Ref? && b.depth < MAX_CANONICAL
    ensures b.item.address in g
    ensures forall i :: 0 <= i < |Children(g[b.item.address])| ==>
              Placed(g, Branch(Children(g[b.item.address])[i], b.depth + 1, b.ancestors + {b.item.address}))
  {
    hide Fits, Size;
    var path :| OnBranch(g, b, path);
    var a := b.item.address;
    var longer := path + [a];
    MembersOfLonger(path, a);
    forall k | 0 <= k < |longer| - 1
      ensures ChildOf(g, Ref(longer[k + 1]), longer[k])
    {
      if k + 1 < |path| {
        assert ChildOf(g, Ref(path[k + 1]), path[k]);
      }
    }
    forall i | 0 <= i < |Children(g[a])|
      ensures Placed(g, Branch(Children(g[a])[i], b.depth + 1, b.ancestors + {a}))
    {
      assert OnBranch(g, Branch(Children(g[a])[i], b.depth + 1, b.ancestors + {a}), longer);
    }
  }

  ghost predicate AllPlaced(g: Graph, stack: seq<Branch>) { forall i :: 0 <= i < |stack| ==> Placed(g, stack[i]) }

  ghost predicate AllBranchesFit(g: Graph, stack: seq<Branch>) { forall i :: 0 <= i < |stack| ==> BranchFits(g, stack[i]) }

  /** Replacing a container by its children keeps the answer and makes the remaining work smaller. */
  lemma Expand(g: Graph, rest: seq<Branch>, b: Branch)
    requires Closed(g) && AllPlaced(g, rest + [b]) && b.item.Ref? && b.depth < MAX_CANONICAL
    ensures b.item.address in g
    ensures var cell := g[b.item.address];
            var next := rest + Branches(Children(cell), b.depth + 1, b.ancestors + {b.item.address});
            && AllPlaced(g, next) && Weight(g, next) < Weight(g, rest + [b])
            && (AllBranchesFit(g, rest + [b]) <==> KeysGood(cell) && AllBranchesFit(g, next))
  {
    var s := rest + [b];
    assert s[|rest|] == b && s[..|s| - 1] == rest;
    ChildrenPlaced(g, b);
    var items := Children(g[b.item.address]);
    var more := Branches(items, b.depth + 1, b.ancestors + {b.item.address});
    var next := rest + more;
    WeightOfBranches(g, rest, items, b.depth + 1, b.ancestors + {b.item.address});
    forall i | 0 <= i < |next|
      ensures Placed(g, next[i])
    {
      assert i < |rest| ==> next[i] == s[i];
    }
    ExpandFits(g, rest, b, more);
  }

  lemma ExpandFits(g: Graph, rest: seq<Branch>, b: Branch, more: seq<Branch>)
    requires b.item.Ref? && b.item.address in g && b.depth < MAX_CANONICAL
    requires more == Branches(Children(g[b.item.address]), b.depth + 1, b.ancestors + {b.item.address})
    ensures AllBranchesFit(g, rest + [b]) <==> KeysGood(g[b.item.address]) && AllBranchesFit(g, rest + more)
  {
    var s, next := rest + [b], rest + more;
    assert AllBranchesFit(g, s) <==> AllBranchesFit(g, rest) && BranchFits(g, b) by {
      SplitFits(g, rest, [b]);
      assert [b][0] == b;
    }
    assert AllBranchesFit(g, next) <==> AllBranchesFit(g, rest) && AllBranchesFit(g, more) by { SplitFits(g, rest, more); }
    assert BranchFits(g, b) <==> KeysGood(g[b.item.address]) && AllBranchesFit(g, more) by {
      var items := Children(g[b.item.address]);
      assert forall i :: 0 <= i < |items| ==> more[i] == Branch(items[i], b.depth + 1, b.ancestors + {b.item.address});
      assert forall i :: 0 <= i < |items| ==> (BranchFits(g, more[i]) <==> Fits(g, items[i], MAX_CANONICAL - b.depth - 1));
    }
  }

  lemma SplitFits(g: Graph, x: seq<Branch>, y: seq<Branch>)
    ensures AllBranchesFit(g, x + y) <==> AllBranchesFit(g, x) && AllBranchesFit(g, y)
  {
    hide BranchFits;
    var s := x + y;
    assert forall i :: 0 <= i < |x| ==> s[i] == x[i];
    assert forall i :: 0 <= i < |y| ==> s[|x| + i] == y[i];
    if AllBranchesFit(g, s) {
      forall i | 0 <= i < |y|
        ensures BranchFits(g, y[i])
      {
        assert s[|x| + i] == y[i];
      }
    }
  }

  ghost predicate Remaining(g: Graph, root: Item, stack: seq<Branch>) {
    AllPlaced(g, stack) && (Fits(g, root, MAX_CANONICAL) <==> AllBranchesFit(g, stack))
  }

  lemma ScalarStep(g: Graph, root: Item, rest: seq<Branch>, top: Branch)
    requires Remaining(g, root, rest + [top]) && top.item.Scalar?
    ensures if !top.item.good then !Fits(g, root, MAX_CANONICAL)
            else Remaining(g, root, rest) && Weight(g, rest) < Weight(g, rest + [top])
  {
    var s := rest + [top];
    assert s[|rest|] == top;
    assert Placed(g, top) && forall i :: 0 <= i < |rest| ==> s[i] == rest[i];
    if top.item.good {
      DropScalar(g, rest, top);
    }
  }

  lemma ContainerStep(g: Graph, root: Item, rest: seq<Branch>, top: Branch)
    requires Closed(g) && Remaining(g, root, rest + [top]) && top.item.Ref?
    ensures top.item.address in g
    ensures var cell := g[top.item.address];
            var next := rest + Branches(Children(cell), top.depth + 1, top.ancestors + {top.item.address});
            if top.depth >= MAX_CANONICAL || top.item.address in top.ancestors || !KeysGood(cell)
            then !Fits(g, root, MAX_CANONICAL)
            else Remaining(g, root, next) && Weight(g, next) < Weight(g, rest + [top])
  {
    hide Fits, Weight;
    var s := rest + [top];
    assert s[|rest|] == top;
    assert Placed(g, top);
    if top.depth >= MAX_CANONICAL {
      TooDeep(g, top);
    } else if top.item.address in top.ancestors {
      AncestorDoesNotFit(g, top);
    } else {
      Expand(g, rest, top);
    }
  }

  lemma TooDeep(g: Graph, b: Branch)
    requires b.item.Ref? && b.depth >= MAX_CANONICAL
    ensures !BranchFits(g, b)
  {
  }

  /** The walk before canonical encoding: every pending item carries the set of its ancestors. It
      accepts exactly the graphs that unfold to a finite tree at most sixteen containers deep. */
  method CanonicalWalk(g: Graph, root: Item) returns (accepted: bool)
    requires Rooted(g, root)
    ensures accepted <==> UnfoldsWithin(g, root, MAX_CANONICAL)
  {
    FitsIsDepth(g, root, MAX_CANONICAL);
    var stack := [Branch(root, 0, {})];
    assert OnBranch(g, stack[0], []);
    while stack != []
      invariant Remaining(g, root, stack)
      decreases Weight(g, stack)
    {
      hide Remaining, Weight, Fits, UnfoldsWithin, Placed;
      var top := stack[|stack| - 1];
      ghost var before := stack;
      stack := stack[..|stack| - 1];
      assert before == stack + [top];
      if top.item.Ref? {
        ContainerStep(g, root, stack, top);
        if top.depth >= MAX_CANONICAL || top.item.address in top.ancestors {
          return false;
        }
        var cell := g[top.item.address];
        if !KeysGood(cell) {
          return false;
        }
        stack := stack + Branches(Children(cell), top.depth + 1, top.ancestors + {top.item.address});
      } else {
        ScalarStep(g, root, stack, top);
        if !top.item.good {
          return false;
        }
      }
    }
    return true;
  }

  lemma DropScalar(g: Graph, rest: seq<Branch>, top: Branch)
    requires Placed(g, top) && top.item.Scalar? && top.item.good
    ensures Weight(g, rest) < Weight(g, rest + [top])
    ensures AllBranchesFit(g, rest + [top]) <==> AllBranchesFit(g, rest)
  {
    var s := rest + [top];
    assert s[..|s| - 1] == rest && s[|s| - 1] == top;
    SplitFits(g, rest, [top]);
  }

  ghost predicate UnfoldsWithin(g: Graph, root: Item, maxDepth: nat) {
    exists j :: Unfolds(g, root, j) && JsonText.Depth(j) <= maxDepth
  }

  lemma FitsIsDepth(g: Graph, root: Item, maxDepth: nat)
    ensures Fits(g, root, maxDepth) <==> UnfoldsWithin(g, root, maxDepth)
  {
    if Fits(g, root, maxDepth) {
      FittingUnfolds(g, root, maxDepth);
    }
    if j :| Unfolds(g, root, j) && JsonText.Depth(j) <= maxDepth {
      UnfoldingFits(g, root, j, maxDepth);
    }
  }
}
