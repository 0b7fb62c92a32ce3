/** Python object graphs: containers that may be shared or cyclic, and the trees they unfold to. */
module ObjectGraph {
  import opened JsonText

  type Address = nat

  /** A scalar carries the answer of its own type and text checks. */
  datatype Item = Scalar(good: bool) | Ref(address: Address)

  datatype Slot = Slot(keyGood: bool, item: Item)

  datatype Container = ListOf(items: seq<Item>) | DictOf(slots: seq<Slot>)

  type Graph = map<Address, Container>

  function SlotItems(slots: seq<Slot>): (r: seq<Item>)
    ensures |r| == |slots| && forall i :: 0 <= i < |r| ==> r[i] == slots[i].item
  {
    seq(|slots|, i requires 0 <= i < |slots| => slots[i].item)
  }

  function Children(c: Container): seq<Item> {
    match c
    case ListOf(items) => items
    case DictOf(slots) => SlotItems(slots)
  }

  predicate KeysGood(c: Container) {
    c.DictOf? ==> forall i :: 0 <= i < |c.slots| ==> c.slots[i].keyGood
  }

  /** No reference dangles. */
  predicate Closed(g: Graph) {
    forall a, i :: a in g && 0 <= i < |Children(g[a])| && Children(g[a])[i].Ref? ==> Children(g[a])[i].address in g
  }

  predicate Rooted(g: Graph, root: Item) {
    Closed(g) && (root.Ref? ==> root.address in g)
  }

  /** `j` is the finite tree that the item unfolds to; every scalar and key on it is acceptable. */
  ghost predicate Unfolds(g: Graph, item: Item, j: Json)
    decreases j
  {
    match item
    case Scalar(good) => good && j == JNull
    case Ref(a) =>
      && a in g && KeysGood(g[a])
      && j.JArray? && |j.items| == |Children(g[a])|
      && forall i :: 0 <= i < |j.items| ==> Unfolds(g, Children(g[a])[i], j.items[i])
  }

  /** The item unfolds to a tree at most `levels` containers deep. */
  ghost predicate Fits(g: Graph, item: Item, levels: nat)
    decreases levels
  {
    match item
    case Scalar(good) => good
    case Ref(a) =>
      && a in g && KeysGood(g[a]) && levels > 0
      && forall i :: 0 <= i < |Children(g[a])| ==> Fits(g, Children(g[a])[i], levels - 1)
  }

  /** The number of values in the unfolding, cut off below `levels` containers. */
  ghost function Size(g: Graph, item: Item, levels: nat): (n: nat)
    ensures n >= 1
    decreases levels, 0
  {
    if item.Ref? && item.address in g && levels > 0 then 1 + SizeAll(g, Children(g[item.address]), levels - 1) else 1
  }

  ghost function SizeAll(g: Graph, items: seq<Item>, levels: nat): nat
    decreases levels, 1, |items|
  {
    if items == [] then 0 else SizeAll(g, items[..|items| - 1], levels) + Size(g, items[|items| - 1], levels)
  }

  // ---------- Cutting off is harmless ----------

  lemma {:induction false} UnfoldingFits(g: Graph, item: Item, j: Json, levels: nat)
    requires Unfolds(g, item, j) && Depth(j) <= levels
    ensures Fits(g, item, levels) && Size(g, item, levels) == Nodes(j)
    decreases j
  {
    if item.Ref? {
      var items := Children(g[item.address]);
      UnfoldingsFit(g, items, j.items, levels - 1, j);
    }
  }

  lemma {:induction false} UnfoldingsFit(g: Graph, items: seq<Item>, js: seq<Json>, levels: nat, within: Json)
    requires |items| == |js| && ItemsDepth(js) <= levels
    requires forall i :: 0 <= i < |js| ==> js[i] < within && Unfolds(g, items[i], js[i])
    ensures forall i :: 0 <= i < |items| ==> Fits(g, items[i], levels)
    ensures SizeAll(g, items, levels) == ItemsNodes(js)
    decreases within, |js|
  {
    hide Unfolds, Fits, Size, Depth, Nodes;
    if js != [] {
      var n := |js| - 1;
      LastItem(js);
      UnfoldingsFit(g, items[..n], js[..n], levels, within);
      UnfoldingFits(g, items[n], js[n], levels);
      forall i | 0 <= i < |items|
        ensures Fits(g, items[i], levels)
      {
        if i < n {
          assert items[..n][i] == items[i];
        }
      }
    }
  }

  /** The measures of a sequence of values, seen from its end. */
  lemma {:induction false} LastItem(js: seq<Json>)
    requires js != []
    ensures ItemsDepth(js) == Max(ItemsDepth(js[..|js| - 1]), Depth(js[|js| - 1]))
    ensures ItemsNodes(js) == ItemsNodes(js[..|js| - 1]) + Nodes(js[|js| - 1])
  {
    if |js| == 1 {
      assert js[1..] == [] && js[..0] == [];
    } else {
      LastItem(js[1..]);
      assert js[1..][..|js| - 2] == js[..|js| - 1][1..];
    }
  }

  ghost function Unfolding(g: Graph, item: Item, levels: nat): Json
    decreases levels
  {
    if item.Ref? && item.address in g && levels > 0 then
      var items := Children(g[item.address]);
      JArray(seq(|items|, i requires 0 <= i < |items| => Unfolding(g, items[i], levels - 1)))
    else JNull
  }

  lemma {:induction false} DepthAtMost(js: seq<Json>, levels: nat)
    requires forall i :: 0 <= i < |js| ==> Depth(js[i]) <= levels
    ensures ItemsDepth(js) <= levels
  {
    if js != [] {
      DepthAtMost(js[1..], levels);
    }
  }

  lemma {:induction false} FittingUnfolds(g: Graph, item: Item, levels: nat)
    requires Fits(g, item, levels)
    ensures Unfolds(g, item, Unfolding(g, item, levels)) && Depth(Unfolding(g, item, levels)) <= levels
    decreases levels
  {
    if item.Ref? {
      var items := Children(g[item.address]);
      var j := Unfolding(g, item, levels);
      forall i | 0 <= i < |items|
        ensures Unfolds(g, items[i], j.items[i]) && Depth(j.items[i]) <= levels - 1
      {
        FittingUnfolds(g, items[i], levels - 1);
      }
      DepthAtMost(j.items, levels - 1);
    }
  }

  /** What a bounded walk has to decide. */
  ghost predicate Bounded(g: Graph, root: Item, maxDepth: nat, maxNodes: nat) {
    exists j :: Unfolds(g, root, j) && Depth(j) <= maxDepth && Nodes(j) <= maxNodes
  }

  lemma BoundedIsFits(g: Graph, root: Item, maxDepth: nat, maxNodes: nat)
    ensures Bounded(g, root, maxDepth, maxNodes) <==> Fits(g, root, maxDepth) && Size(g, root, maxDepth) <= maxNodes
  {
    if Fits(g, root, maxDepth) {
      FittingUnfolds(g, root, maxDepth);
      UnfoldingFits(g, root, Unfolding(g, root, maxDepth), maxDepth);
    }
    if Bounded(g, root, maxDepth, maxNodes) {
      var j :| Unfolds(g, root, j) && Depth(j) <= maxDepth && Nodes(j) <= maxNodes;
      UnfoldingFits(g, root, j, maxDepth);
    }
  }

  // ---------- Cycles ----------

  ghost predicate ChildOf(g: Graph, item: Item, a: Address) {
    a in g && item in Children(g[a])
  }

  /** Each address is a child of the one before it. */
  ghost predicate Chain(g: Graph, path: seq<Address>) {
    (forall k :: 0 <= k < |path| ==> path[k] in g) &&
    forall k :: 0 <= k < |path| - 1 ==> ChildOf(g, Ref(path[k + 1]), path[k])
  }

  lemma {:induction false} ChainDescends(g: Graph, path: seq<Address>, levels: nat)
    requires Chain(g, path) && path != [] && Fits(g, Ref(path[0]), levels)
    ensures levels >= |path| && Fits(g, Ref(path[|path| - 1]), levels - (|path| - 1))
    decreases levels
  {
    if |path| > 1 {
      assert ChildOf(g, Ref(path[1]), path[0]);
      forall k | 0 <= k < |path[1..]| - 1
        ensures ChildOf(g, Ref(path[1..][k + 1]), path[1..][k])
      {
        assert ChildOf(g, Ref(path[k + 2]), path[k + 1]);
      }
      ChainDescends(g, path[1..], levels - 1);
    }
  }

  /** A container inside itself fits nowhere. */
  lemma {:induction false} CycleDoesNotFit(g: Graph, path: seq<Address>, levels: nat)
    requires Chain(g, path) && |path| >= 2 && path[0] == path[|path| - 1]
    ensures !Fits(g, Ref(path[0]), levels)
    decreases levels
  {
    if Fits(g, Ref(path[0]), levels) {
      ChainDescends(g, path, levels);
      CycleDoesNotFit(g, path, levels - (|path| - 1));
    }
  }
}
