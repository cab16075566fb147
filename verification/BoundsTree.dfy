/** The search tree that assigns draw orders (src/bounds_tree.rs).

    `BoundsTree` is the class of the source: an index arena `nodes`, a `root` and a `stack`.
    Its ghost state is the list of past insertions, `history`, and a value-level picture of the
    arena, `tree`. A descent is described by a path of `Frame`s, one per entry of `stack`, and
    `Plug(path, t)` is the whole tree with `t` at the end of that path. */
module DrawOrders {
  import opened Common
  import opened Geometry

  datatype Node =
    | Leaf(bounds: Bounds, order: nat)
    | Internal(left: nat, right: nat, bounds: Bounds, maxOrder: nat)
  {
    function MaxOrdering(): nat {
      if Leaf? then order else maxOrder
    }
  }

  // One past insertion: the bounds given and the order returned.
  datatype Entry = Entry(bounds: Bounds, order: nat)

  function Max(a: nat, b: nat): nat {
    if a > b then a else b
  }

  // ---------------------------------------------------------------------------------------
  // The linear scan that the tree replaces
  // ---------------------------------------------------------------------------------------

  /** The largest order among the entries that intersect `b`, 0 if there is none. */
  function MaxHit(history: seq<Entry>, b: Bounds): nat {
    if history == [] then 0
    else
      var last := history[|history| - 1];
      var before := MaxHit(history[..|history| - 1], b);
      if last.bounds.Intersects(b) then Max(before, last.order) else before
  }

  ghost predicate IsTop(entries: multiset<Entry>, b: Bounds, top: nat) {
    && (forall e :: e in entries && e.bounds.Intersects(b) ==> e.order <= top)
    && (top == 0 || exists e :: e in entries && e.bounds.Intersects(b) && e.order == top)
  }

  lemma {:induction false} MaxHitIsTop(history: seq<Entry>, b: Bounds)
    ensures IsTop(multiset(history), b, MaxHit(history, b))
  {
    if history != [] {
      var n := |history| - 1;
      assert history == history[..n] + [history[n]];
      MaxHitIsTop(history[..n], b);
      assert forall e :: e in multiset(history) <==> e in multiset(history[..n]) || e == history[n];
    }
  }

  /** Every order is one more than the largest earlier order it had to be drawn above. */
  ghost predicate Ordered(history: seq<Entry>) {
    forall i :: 0 <= i < |history| ==>
      history[i].order == 1 + MaxHit(history[..i], history[i].bounds)
  }

  /** Later overlapping insertions get strictly larger orders. */
  lemma LaterOverlapGetsLargerOrder(history: seq<Entry>, i: nat, j: nat)
    requires Ordered(history) && i < j < |history|
    requires history[i].bounds.Intersects(history[j].bounds)
    ensures history[i].order < history[j].order
  {
    MaxHitIsTop(history[..j], history[j].bounds);
    assert history[..j][i] == history[i];
    assert history[i] in multiset(history[..j]);
  }

  /** Orders stay small: the n-th insertion never gets an order above n. */
  lemma {:induction false} OrdersAreBounded(history: seq<Entry>, i: nat)
    requires Ordered(history) && i < |history|
    ensures 1 <= history[i].order <= i + 1
    decreases i
  {
    var b := history[i].bounds;
    var earlier := history[..i];
    var top := MaxHit(earlier, b);
    MaxHitIsTop(earlier, b);
    if top != 0 {
      var e: Entry :| e in multiset(earlier) && e.bounds.Intersects(b) && e.order == top;
      var k :| 0 <= k < |earlier| && earlier[k] == e;
      assert history[k] == e;
      OrdersAreBounded(history, k);
    }
  }

  /** Orders are reused: order n+1 is only given out when some earlier overlapping entry has order n,
      so the assignment is the least one that draws every entry above the earlier ones it overlaps. */
  lemma {:induction false} OrdersAreLeast(history: seq<Entry>, other: seq<nat>, i: nat)
    requires Ordered(history) && |other| == |history| && i < |history|
    requires forall k :: 0 <= k < |other| ==> 1 <= other[k]
    requires forall j, k :: 0 <= j < k < |history| && history[j].bounds.Intersects(history[k].bounds)
                            ==> other[j] < other[k]
    ensures history[i].order <= other[i]
    decreases i
  {
    var b := history[i].bounds;
    var earlier := history[..i];
    MaxHitIsTop(earlier, b);
    if MaxHit(earlier, b) != 0 {
      var e: Entry :| e in multiset(earlier) && e.bounds.Intersects(b) && e.order == MaxHit(earlier, b);
      var k :| 0 <= k < |earlier| && earlier[k] == e;
      assert history[k] == e;
      OrdersAreLeast(history, other, k);
    }
  }

  // ---------------------------------------------------------------------------------------
  // The value-level picture of the arena
  // ---------------------------------------------------------------------------------------

  datatype Tree =
    | Tip(ix: nat, bounds: Bounds, order: nat)
    | Fork(ix: nat, bounds: Bounds, maxOrder: nat, left: Tree, right: Tree)
  {
    function MaxOrdering(): nat {
      if Tip? then order else maxOrder
    }

    function ToNode(): Node {
      if Tip? then Leaf(bounds, order) else Internal(left.ix, right.ix, bounds, maxOrder)
    }

    ghost function Entries(): multiset<Entry> {
      if Tip? then multiset{Entry(bounds, order)} else left.Entries() + right.Entries()
    }

    ghost function Indices(): set<nat> {
      if Tip? then {ix} else {ix} + left.Indices() + right.Indices()
    }

    /** No arena index is used twice. */
    ghost predicate Distinct() {
      Fork? ==>
        && ix !in left.Indices() && ix !in right.Indices()
        && left.Indices() !! right.Indices()
        && left.Distinct() && right.Distinct()
    }

    /** Internal bounds cover, and internal maxima are the maxima of, everything below. */
    ghost predicate Sound() {
      Fork? ==>
        && bounds.Covers(left.bounds) && bounds.Covers(right.bounds)
        && maxOrder == Max(left.MaxOrdering(), right.MaxOrdering())
        && left.Sound() && right.Sound()
    }

    /** The arena holds this tree. */
    ghost predicate In(nodes: seq<Node>) {
      && ix < |nodes| && nodes[ix] == ToNode()
      && (Fork? ==> left.In(nodes) && right.In(nodes))
    }

    /** The largest order of a leaf that intersects `b`. */
    function Hit(b: Bounds): nat {
      if Tip? then (if bounds.Intersects(b) then order else 0)
      else Max(left.Hit(b), right.Hit(b))
    }
  }

  lemma {:induction false} HitIsTop(t: Tree, b: Bounds)
    ensures IsTop(t.Entries(), b, t.Hit(b))
  {
    if t.Fork? {
      HitIsTop(t.left, b);
      HitIsTop(t.right, b);
    }
  }

  lemma {:induction false} EntriesWithin(t: Tree, e: Entry)
    requires t.Sound() && e in t.Entries()
    ensures t.bounds.Covers(e.bounds) && e.order <= t.MaxOrdering()
  {
    if t.Fork? {
      if e in t.left.Entries() {
        EntriesWithin(t.left, e);
      } else {
        EntriesWithin(t.right, e);
      }
    }
  }

  /** The two reasons for not looking into a subtree: it is out of reach, or it cannot improve. */
  lemma PruningIsSound(t: Tree, b: Bounds)
    requires t.Sound()
    ensures t.Hit(b) <= t.MaxOrdering()
    ensures !b.Intersects(t.bounds) ==> t.Hit(b) == 0
  {
    HitIsTop(t, b);
    if t.Hit(b) != 0 {
      var e :| e in t.Entries() && e.bounds.Intersects(b) && e.order == t.Hit(b);
      EntriesWithin(t, e);
    }
  }

  lemma {:induction false} InFrame(t: Tree, nodes: seq<Node>, nodes': seq<Node>)
    requires t.In(nodes) && |nodes| <= |nodes'|
    requires forall i :: i in t.Indices() && i < |nodes| ==> nodes'[i] == nodes[i]
    ensures t.In(nodes')
  {
    assert t.ix in t.Indices();
    if t.Fork? {
      InFrame(t.left, nodes, nodes');
      InFrame(t.right, nodes, nodes');
    }
  }

  lemma {:induction false} IndicesInArena(t: Tree, nodes: seq<Node>, i: nat)
    requires t.In(nodes) && i in t.Indices()
    ensures i < |nodes|
  {
    if t.Fork? && i != t.ix {
      if i in t.left.Indices() {
        IndicesInArena(t.left, nodes, i);
      } else {
        IndicesInArena(t.right, nodes, i);
      }
    }
  }

  // ---------------------------------------------------------------------------------------
  // Paths from the root
  // ---------------------------------------------------------------------------------------

  // An internal node on the way down, with the subtree that was not taken.
  datatype Frame = Frame(ix: nat, bounds: Bounds, maxOrder: nat, other: Tree, wentLeft: bool) {
    function Around(t: Tree): Tree {
      if wentLeft then Fork(ix, bounds, maxOrder, t, other) else Fork(ix, bounds, maxOrder, other, t)
    }
  }

  function Plug(path: seq<Frame>, t: Tree): Tree {
    if path == [] then t
    else Plug(path[..|path| - 1], path[|path| - 1].Around(t))
  }

  function Stack(path: seq<Frame>): seq<nat> {
    seq(|path|, i requires 0 <= i < |path| => path[i].ix)
  }

  /** The largest intersecting order in the subtrees left aside. */
  function PathHit(path: seq<Frame>, b: Bounds): nat {
    if path == [] then 0
    else Max(PathHit(path[..|path| - 1], b), path[|path| - 1].other.Hit(b))
  }

  ghost predicate CoversAll(path: seq<Frame>, b: Bounds) {
    forall i :: 0 <= i < |path| ==> path[i].bounds.Covers(b)
  }

  function Raise(path: seq<Frame>, order: nat): seq<Frame> {
    seq(|path|, i requires 0 <= i < |path| => path[i].(maxOrder := Max(path[i].maxOrder, order)))
  }

  lemma PlugSnoc(path: seq<Frame>, f: Frame, t: Tree)
    ensures Plug(path + [f], t) == Plug(path, f.Around(t))
  {
    assert (path + [f])[..|path|] == path;
  }

  lemma {:induction false} PlugHit(path: seq<Frame>, t: Tree, b: Bounds)
    ensures Plug(path, t).Hit(b) == Max(PathHit(path, b), t.Hit(b))
  {
    if path != [] {
      PlugHit(path[..|path| - 1], path[|path| - 1].Around(t), b);
    }
  }

  lemma {:induction false} PlugDistinct(path: seq<Frame>, t: Tree)
    requires Plug(path, t).Distinct()
    ensures t.Distinct()
    ensures t.Indices() <= Plug(path, t).Indices()
  {
    if path != [] {
      PlugDistinct(path[..|path| - 1], path[|path| - 1].Around(t));
    }
  }

  lemma {:induction false} PlugSound(path: seq<Frame>, t: Tree)
    requires Plug(path, t).Sound()
    ensures t.Sound()
  {
    if path != [] {
      PlugSound(path[..|path| - 1], path[|path| - 1].Around(t));
    }
  }

  lemma {:induction false} PlugIn(path: seq<Frame>, t: Tree, nodes: seq<Node>)
    requires Plug(path, t).In(nodes)
    ensures t.In(nodes)
  {
    if path != [] {
      PlugIn(path[..|path| - 1], path[|path| - 1].Around(t), nodes);
    }
  }

  ghost function PathEntries(path: seq<Frame>): multiset<Entry> {
    if path == [] then multiset{}
    else PathEntries(path[..|path| - 1]) + path[|path| - 1].other.Entries()
  }

  ghost function PathIndices(path: seq<Frame>): set<nat> {
    if path == [] then {}
    else PathIndices(path[..|path| - 1]) + {path[|path| - 1].ix} + path[|path| - 1].other.Indices()
  }

  lemma {:induction false} PlugEntries(path: seq<Frame>, t: Tree)
    ensures Plug(path, t).Entries() == PathEntries(path) + t.Entries()
  {
    if path != [] {
      var f, rest := path[|path| - 1], path[..|path| - 1];
      assert f.Around(t).Entries() == f.other.Entries() + t.Entries();
      PlugEntries(rest, f.Around(t));
    }
  }

  lemma {:induction false} PlugIndices(path: seq<Frame>, t: Tree)
    ensures Plug(path, t).Indices() == PathIndices(path) + t.Indices()
    ensures Plug(path, t).ix == if path == [] then t.ix else path[0].ix
  {
    if path != [] {
      var f, rest := path[|path| - 1], path[..|path| - 1];
      assert f.Around(t).Indices() == {f.ix} + f.other.Indices() + t.Indices();
      PlugIndices(rest, f.Around(t));
    }
  }

  // One level of `Replace`.
  lemma ReplaceUnder(f: Frame, t: Tree, t': Tree, nodes: seq<Node>, nodes': seq<Node>)
    requires f.Around(t).In(nodes) && f.Around(t).Distinct()
    requires |nodes| <= |nodes'|
    requires t'.ix == t.ix && t'.In(nodes') && t'.Distinct()
    requires forall i :: 0 <= i < |nodes| && i !in t.Indices() ==> nodes'[i] == nodes[i]
    requires forall i :: i in t'.Indices() && i !in t.Indices() ==> |nodes| <= i
    ensures f.Around(t').In(nodes') && f.Around(t').Distinct()
    ensures forall i :: i in f.Around(t').Indices() && i !in f.Around(t).Indices() ==> |nodes| <= i
  {
    assert f.Around(t).ix == f.ix;
    forall i | i in f.other.Indices()
      ensures i < |nodes| && i !in t.Indices() && i !in t'.Indices()
    {
      IndicesInArena(f.other, nodes, i);
    }
    InFrame(f.other, nodes, nodes');
    assert f.ix !in t'.Indices();
  }

  /** Exchanging the subtree at the end of a path for one with the same root index and otherwise
      only fresh or its own indices keeps the arena a proper tree. */
  lemma {:induction false} Replace(path: seq<Frame>, t: Tree, t': Tree, nodes: seq<Node>, nodes': seq<Node>)
    requires Plug(path, t).In(nodes) && Plug(path, t).Distinct()
    requires |nodes| <= |nodes'|
    requires t'.ix == t.ix && t'.In(nodes') && t'.Distinct()
    requires forall i :: 0 <= i < |nodes| && i !in t.Indices() ==> nodes'[i] == nodes[i]
    requires forall i :: i in t'.Indices() && i !in t.Indices() ==> |nodes| <= i
    ensures Plug(path, t').In(nodes') && Plug(path, t').Distinct()
  {
    if path != [] {
      var f := path[|path| - 1];
      var rest := path[..|path| - 1];
      PlugDistinct(rest, f.Around(t));
      PlugIn(rest, f.Around(t), nodes);
      ReplaceUnder(f, t, t', nodes, nodes');
      Replace(rest, f.Around(t), f.Around(t'), nodes, nodes');
    }
  }

  /** Below a path whose frames all cover the new bounds, a subtree that only grew by `order`
      leaves a sound tree once the maxima on the path are raised to `order`. */
  lemma {:induction false} RaiseIsSound(path: seq<Frame>, t: Tree, t': Tree, b: Bounds, order: nat)
    requires Plug(path, t).Sound() && t'.Sound() && CoversAll(path, b)
    requires t'.MaxOrdering() == Max(t.MaxOrdering(), order)
    requires t'.bounds == t.bounds.Union(b)
    ensures Plug(Raise(path, order), t').Sound()
  {
    if path == [] {
      assert Raise(path, order) == [];
    } else {
      var n := |path| - 1;
      var f, rest := path[n], path[..n];
      var f' := f.(maxOrder := Max(f.maxOrder, order));
      assert Raise(path, order) == Raise(rest, order) + [f'];
      PlugSnoc(Raise(rest, order), f', t');
      PlugSound(rest, f.Around(t));
      UnionIsLeastCover(t.bounds, b, f.bounds);
      var u, u' := f.Around(t), f'.Around(t');
      assert u'.Sound();
      RaiseIsSoundAbove(rest, u, u', b, order);
    }
  }

  // The same step above the first frame, where the bounds no longer change.
  lemma {:induction false} RaiseIsSoundAbove(path: seq<Frame>, t: Tree, t': Tree, b: Bounds, order: nat)
    requires Plug(path, t).Sound() && t'.Sound()
    requires t'.MaxOrdering() == Max(t.MaxOrdering(), order)
    requires t'.bounds == t.bounds
    ensures Plug(Raise(path, order), t').Sound()
  {
    if path == [] {
      assert Raise(path, order) == [];
    } else {
      var n := |path| - 1;
      var f, rest := path[n], path[..n];
      var f' := f.(maxOrder := Max(f.maxOrder, order));
      assert Raise(path, order) == Raise(rest, order) + [f'];
      PlugSnoc(Raise(rest, order), f', t');
      PlugSound(rest, f.Around(t));
      RaiseIsSoundAbove(rest, f.Around(t), f'.Around(t'), b, order);
    }
  }

  /** Maxima grow towards the root, which is why the propagation loop may stop early. */
  lemma {:induction false} MaximaGrowUpwards(path: seq<Frame>, t: Tree, i: nat, j: nat)
    requires Plug(path, t).Sound() && i <= j < |path|
    ensures path[i].maxOrder >= path[j].maxOrder
    decreases |path|
  {
    var n := |path| - 1;
    var f, rest := path[n], path[..n];
    PlugSound(rest, f.Around(t));
    if i < j {
      if j < n {
        MaximaGrowUpwards(rest, f.Around(t), i, j);
      } else {
        var g := rest[n - 1];
        PlugSound(rest[..n - 1], g.Around(f.Around(t)));
        MaximaGrowUpwards(rest, f.Around(t), i, n - 1);
      }
    }
  }

  lemma {:induction false} PlugAppend(p: seq<Frame>, q: seq<Frame>, t: Tree)
    ensures Plug(p + q, t) == Plug(p, Plug(q, t))
  {
    if q == [] {
      assert p + q == p;
    } else {
      assert (p + q)[..|p + q| - 1] == p + q[..|q| - 1];
      PlugAppend(p, q[..|q| - 1], q[|q| - 1].Around(t));
    }
  }

  // ---------------------------------------------------------------------------------------
  // The steps of an insertion, on values
  // ---------------------------------------------------------------------------------------

  // The arena is exactly the tree: every index is used, once, and holds the right node.
  ghost predicate Arena(nodes: seq<Node>, t: Tree) {
    && t.In(nodes)
    && t.Distinct()
    && (forall i: nat :: i in t.Indices() <==> i < |nodes|)
  }

  lemma SameContents(path: seq<Frame>, t: Tree, t': Tree)
    requires t'.ix == t.ix && t'.Entries() == t.Entries() && t'.Indices() == t.Indices()
    ensures Plug(path, t').Entries() == Plug(path, t).Entries()
    ensures Plug(path, t').Indices() == Plug(path, t).Indices()
    ensures Plug(path, t').ix == Plug(path, t).ix
  {
    PlugEntries(path, t);
    PlugEntries(path, t');
    PlugIndices(path, t);
    PlugIndices(path, t');
  }

  // Overwriting the bounds and maximum of one internal node.
  lemma Rewrite(nodes: seq<Node>, path: seq<Frame>, t: Tree, t': Tree)
    requires Arena(nodes, Plug(path, t)) && t.Fork? && t'.Fork?
    requires t'.ix == t.ix && t'.left == t.left && t'.right == t.right
    ensures t.ix < |nodes|
    ensures Arena(nodes[t.ix := t'.ToNode()], Plug(path, t'))
    ensures Plug(path, t').Entries() == Plug(path, t).Entries()
    ensures Plug(path, t').ix == Plug(path, t).ix
  {
    PlugIn(path, t, nodes);
    PlugDistinct(path, t);
    var nodes' := nodes[t.ix := t'.ToNode()];
    InFrame(t.left, nodes, nodes');
    InFrame(t.right, nodes, nodes');
    SameContents(path, t, t');
    Replace(path, t, t', nodes, nodes');
  }

  // The frame left behind when the descent goes past `cur`.
  function Passed(cur: Tree, b: Bounds, goLeft: bool): Frame
    requires cur.Fork?
  {
    Frame(cur.ix, cur.bounds.Union(b), cur.maxOrder, if goLeft then cur.right else cur.left, goLeft)
  }

  // An internal node after its bounds were enlarged on the way down.
  function Widened(t: Tree, b: Bounds): Tree
    requires t.Fork?
  {
    Fork(t.ix, t.bounds.Union(b), t.maxOrder, t.left, t.right)
  }

  lemma WidenedSound(t: Tree, b: Bounds)
    requires t.Fork? && t.Sound()
    ensures Widened(t, b).Sound()
  {
    UnionIsLeastCover(t.bounds, b, t.bounds);
    CoversTransitive(t.bounds.Union(b), t.bounds, t.left.bounds);
    CoversTransitive(t.bounds.Union(b), t.bounds, t.right.bounds);
  }

  lemma DescendSound(path: seq<Frame>, cur: Tree, b: Bounds)
    requires Plug(path, cur).Sound() && CoversAll(path, b) && cur.Fork?
    ensures Plug(path, Widened(cur, b)).Sound()
  {
    PlugSound(path, cur);
    WidenedSound(cur, b);
    RaiseIsSound(path, cur, Widened(cur, b), b, 0);
    assert Raise(path, 0) == path;
  }

  // What holds of arena, path and current subtree while an insertion of `b` descends.
  ghost predicate Descending(nodes: seq<Node>, path: seq<Frame>, cur: Tree, b: Bounds, history: seq<Entry>) {
    && Arena(nodes, Plug(path, cur))
    && Plug(path, cur).Sound()
    && Plug(path, cur).Entries() == multiset(history)
    && CoversAll(path, b)
  }

  lemma DescendStep(nodes: seq<Node>, path: seq<Frame>, cur: Tree, b: Bounds, history: seq<Entry>, goLeft: bool)
    requires Descending(nodes, path, cur, b, history) && cur.Fork?
    ensures cur.ix < |nodes|
    ensures var cur' := Widened(cur, b);
            var next := if goLeft then cur.left else cur.right;
            && Plug(path + [Passed(cur, b, goLeft)], next) == Plug(path, cur')
            && Plug(path, cur').ix == Plug(path, cur).ix
            && Descending(nodes[cur.ix := cur'.ToNode()], path + [Passed(cur, b, goLeft)], next, b, history)
  {
    var f := Passed(cur, b, goLeft);
    var next := if goLeft then cur.left else cur.right;
    var cur' := Widened(cur, b);
    assert cur' == f.Around(next);
    PlugSnoc(path, f, next);
    Rewrite(nodes, path, cur, cur');
    DescendSound(path, cur, b);
    UnionIsLeastCover(cur.bounds, b, cur.bounds);
  }

  // What a method reading the arena may use while it descends.
  ghost predicate Readable(nodes: seq<Node>, t: Tree) {
    t.In(nodes) && t.Sound()
  }

  lemma ReadableNode(nodes: seq<Node>, t: Tree)
    requires Readable(nodes, t)
    ensures t.ix < |nodes| && nodes[t.ix] == t.ToNode()
    ensures t.Fork? ==> Readable(nodes, t.left) && Readable(nodes, t.right)
  {
  }

  // `DescendStep` for either direction, with the facts the loop body reads off the arena.
  lemma DescendFacts(nodes: seq<Node>, nodes': seq<Node>, path: seq<Frame>, cur: Tree, b: Bounds,
                     history: seq<Entry>, f: Frame, goLeft: bool)
    requires Descending(nodes, path, cur, b, history) && cur.Fork? && cur.ix < |nodes|
    requires nodes' == nodes[cur.ix := Internal(cur.left.ix, cur.right.ix, cur.bounds.Union(b), cur.maxOrder)]
    requires f == Passed(cur, b, goLeft)
    ensures Readable(nodes', cur.left) && Readable(nodes', cur.right)
    ensures var next := if goLeft then cur.left else cur.right;
      && Descending(nodes', path + [f], next, b, history)
      && Plug(path + [f], next).ix == Plug(path, cur).ix
    ensures PathHit(path + [f], b) == Max(PathHit(path, b), (if goLeft then cur.right else cur.left).Hit(b))
    ensures Stack(path + [f]) == Stack(path) + [cur.ix]
  {
    DescendStep(nodes, path, cur, b, history, goLeft);
    PlugIn(path, Widened(cur, b), nodes');
    PlugSound(path, Widened(cur, b));
    assert (path + [f])[..|path|] == path;
  }

  // The arena holds exactly this sound tree, and its leaves are exactly the past insertions.
  ghost predicate Holds(nodes: seq<Node>, t: Tree, history: seq<Entry>) {
    Arena(nodes, t) && t.Sound() && t.Entries() == multiset(history)
  }

  // The new leaf and the new parent above the leaf that was found.
  function Grafted(cur: Tree, n: nat, b: Bounds, order: nat): Tree {
    Fork(n + 1, cur.bounds.Union(b), Max(cur.MaxOrdering(), order), cur, Tip(n, b, order))
  }

  lemma GraftedNode(cur: Tree, n: nat, b: Bounds, order: nat)
    ensures Grafted(cur, n, b, order).ix == n + 1
    ensures Grafted(cur, n, b, order).ToNode()
         == Internal(cur.ix, n, cur.bounds.Union(b), Max(cur.MaxOrdering(), order))
  {
  }

  // The arena after both nodes were pushed and the old parent, if any, was redirected.
  ghost predicate GraftedArena(nodes: seq<Node>, nodes': seq<Node>, path: seq<Frame>, cur: Tree, b: Bounds,
                               order: nat) {
    var n := |nodes|;
    && |nodes'| == n + 2
    && nodes'[n] == Leaf(b, order)
    && nodes'[n + 1] == Grafted(cur, n, b, order).ToNode()
    && (path != [] ==>
          var f := path[|path| - 1];
          && f.ix < n
          && nodes'[f.ix] == f.Around(Grafted(cur, n, b, order)).ToNode()
          && forall i :: 0 <= i < n && i != f.ix ==> nodes'[i] == nodes[i])
    && (path == [] ==> forall i :: 0 <= i < n ==> nodes'[i] == nodes[i])
  }

  lemma GraftUnderParent(nodes: seq<Node>, nodes': seq<Node>, path: seq<Frame>, cur: Tree, b: Bounds, order: nat)
    requires Plug(path, cur).In(nodes) && Plug(path, cur).Distinct() && cur.Tip?
    requires GraftedArena(nodes, nodes', path, cur, b, order)
    ensures Plug(path, Grafted(cur, |nodes|, b, order)).In(nodes')
    ensures Plug(path, Grafted(cur, |nodes|, b, order)).Distinct()
  {
    var n := |nodes|;
    var g := Grafted(cur, n, b, order);
    if path != [] {
      var f, rest := path[|path| - 1], path[..|path| - 1];
      var u, u' := f.Around(cur), f.Around(g);
      PlugIn(rest, u, nodes);
      PlugDistinct(rest, u);
      forall i | i in u.Indices() ensures i < n {
        IndicesInArena(u, nodes, i);
      }
      InFrame(f.other, nodes, nodes');
      assert cur.ix in u.Indices() && cur.ix != f.ix;
      Replace(rest, u, u', nodes, nodes');
    }
  }

  lemma GraftEntries(path: seq<Frame>, cur: Tree, n: nat, b: Bounds, history: seq<Entry>, order: nat)
    requires Plug(path, cur).Entries() == multiset(history)
    ensures Plug(path, Grafted(cur, n, b, order)).Entries() == multiset(history + [Entry(b, order)])
  {
    var g := Grafted(cur, n, b, order);
    PlugEntries(path, cur);
    PlugEntries(path, g);
    assert g.Entries() == cur.Entries() + multiset{Entry(b, order)};
    hide Plug, Tree.Entries, PathEntries;
  }

  lemma GraftIndices(path: seq<Frame>, cur: Tree, n: nat, b: Bounds, order: nat)
    requires forall i: nat :: i in Plug(path, cur).Indices() <==> i < n
    ensures forall i: nat :: i in Plug(path, Grafted(cur, n, b, order)).Indices() <==> i < n + 2
  {
    var g := Grafted(cur, n, b, order);
    assert g.Indices() == cur.Indices() + {n, n + 1};
    PlugIndices(path, cur);
    PlugIndices(path, g);
    hide Plug, Tree.Indices, PathIndices;
    forall i: nat
      ensures i in Plug(path, g).Indices() <==> i in Plug(path, cur).Indices() || i == n || i == n + 1
    {
    }
  }

  lemma GraftStep(nodes: seq<Node>, nodes': seq<Node>, path: seq<Frame>, cur: Tree, b: Bounds,
                  history: seq<Entry>, order: nat)
    requires Descending(nodes, path, cur, b, history) && cur.Tip?
    requires GraftedArena(nodes, nodes', path, cur, b, order)
    ensures var g := Grafted(cur, |nodes|, b, order);
      && Arena(nodes', Plug(path, g))
      && Plug(path, g).Entries() == multiset(history + [Entry(b, order)])
      && Plug(Raise(path, order), g).Sound()
  {
    var g := Grafted(cur, |nodes|, b, order);
    GraftUnderParent(nodes, nodes', path, cur, b, order);
    GraftEntries(path, cur, |nodes|, b, history, order);
    GraftIndices(path, cur, |nodes|, b, order);
    UnionIsLeastCover(cur.bounds, b, cur.bounds);
    RaiseIsSound(path, cur, g, b, order);
  }

  lemma GraftParent(nodes: seq<Node>, path: seq<Frame>, cur: Tree, b: Bounds, history: seq<Entry>)
    requires Descending(nodes, path, cur, b, history) && path != []
    ensures var f := path[|path| - 1];
      && f.ix < |nodes|
      && nodes[f.ix] == f.Around(cur).ToNode()
      && f.other.ix != cur.ix && f.ix != cur.ix
  {
    var f, rest := path[|path| - 1], path[..|path| - 1];
    PlugIn(rest, f.Around(cur), nodes);
    PlugDistinct(rest, f.Around(cur));
    assert f.other.ix in f.other.Indices() && cur.ix in cur.Indices();
  }

  lemma GraftRoot(path: seq<Frame>, cur: Tree, g: Tree, order: nat)
    ensures path != [] ==> Plug(path, g).ix == Plug(path, cur).ix
    ensures path == [] ==> Plug(path, g).ix == g.ix
    ensures Plug(Raise(path, order), g).ix == Plug(path, g).ix
  {
    PlugIndices(path, cur);
    PlugIndices(path, g);
    PlugIndices(Raise(path, order), g);
  }

  // What the propagation loop keeps: `sub` is the finished part, `path[..k]` is still to do,
  // and `top` is the tree it is heading for.
  ghost predicate Propagating(nodes: seq<Node>, path: seq<Frame>, k: nat, sub: Tree, top: Tree, order: nat,
                              entries: multiset<Entry>) {
    && k <= |path|
    && Arena(nodes, Plug(path[..k], sub))
    && Plug(path[..k], sub).Entries() == entries
    && Plug(Raise(path, order)[..k], sub) == top
  }

  lemma PropagateStep(nodes: seq<Node>, path: seq<Frame>, k: nat, sub: Tree, top: Tree, order: nat,
                      entries: multiset<Entry>)
    requires 0 < k && Propagating(nodes, path, k, sub, top, order, entries)
    ensures var f := path[k - 1];
      && f.ix < |nodes| && nodes[f.ix] == f.Around(sub).ToNode()
      && (f.maxOrder < order ==>
            Propagating(nodes[f.ix := f.(maxOrder := order).Around(sub).ToNode()], path, k - 1,
                        f.(maxOrder := order).Around(sub), top, order, entries))
  {
    var f, rest := path[k - 1], path[..k - 1];
    var f' := f.(maxOrder := order);
    assert path[..k] == rest + [f];
    PlugSnoc(rest, f, sub);
    PlugIn(rest, f.Around(sub), nodes);
    if f.maxOrder < order {
      Rewrite(nodes, rest, f.Around(sub), f'.Around(sub));
      assert Raise(path, order)[..k] == Raise(path, order)[..k - 1] + [f'];
      PlugSnoc(Raise(path, order)[..k - 1], f', sub);
    }
  }

  // The early `break`: above a frame that needs no raise, none does.
  lemma NoRaiseAbove(path: seq<Frame>, cur: Tree, k: nat, order: nat)
    requires Plug(path, cur).Sound() && k <= |path|
    requires k > 0 ==> path[k - 1].maxOrder >= order
    ensures Raise(path, order)[..k] == path[..k]
  {
    forall i | 0 <= i < k ensures Raise(path, order)[i] == path[i] {
      MaximaGrowUpwards(path, cur, i, k - 1);
    }
  }

  /** What the tree and the linear scan agree on. */
  lemma HitIsMaxHit(t: Tree, history: seq<Entry>, b: Bounds)
    requires t.Entries() == multiset(history)
    ensures t.Hit(b) == MaxHit(history, b)
  {
    HitIsTop(t, b);
    MaxHitIsTop(history, b);
  }

  lemma OrderedSnoc(history: seq<Entry>, b: Bounds)
    requires Ordered(history)
    ensures Ordered(history + [Entry(b, 1 + MaxHit(history, b))])
  {
    var h := history + [Entry(b, 1 + MaxHit(history, b))];
    forall i | 0 <= i < |h| ensures h[i].order == 1 + MaxHit(h[..i], h[i].bounds) {
      if i < |history| {
        assert h[..i] == history[..i];
      } else {
        assert h[..i] == history;
      }
    }
  }

  lemma FirstHolds(b: Bounds)
    ensures Holds([Leaf(b, 1)], Tip(0, b, 1), [Entry(b, 1)])
    ensures MaxHit([], b) == 0
  {
  }

  lemma HoldsFinally(nodes: seq<Node>, t: Tree, history: seq<Entry>)
    requires Arena(nodes, t) && t.Sound() && t.Entries() == multiset(history)
    ensures Holds(nodes, t, history)
  {
  }

  // The order found in both halves of the search is the one the linear scan finds.
  lemma FoundOrder(nodes: seq<Node>, path: seq<Frame>, cur: Tree, b: Bounds, history: seq<Entry>)
    requires Descending(nodes, path, cur, b, history) && cur.Tip?
    ensures MaxHit(history, b)
         == if cur.bounds.Intersects(b) then Max(PathHit(path, b), cur.order) else PathHit(path, b)
    ensures Plug(path, cur).Sound()
  {
    HitIsMaxHit(Plug(path, cur), history, b);
    PlugHit(path, cur, b);
  }

  // ---------------------------------------------------------------------------------------
  // The class
  // ---------------------------------------------------------------------------------------

  class BoundsTree {
    var root: Option<nat>
    var nodes: seq<Node>
    var stack: seq<nat>
    ghost var history: seq<Entry>
    ghost var tree: Tree

    ghost predicate Valid()
      reads this
    {
      && stack == []
      && Ordered(history)
      && (root.None? ==> nodes == [] && history == [])
      && (root.Some? ==> history != [] && tree.ix == root.value && Holds(nodes, tree, history))
    }

    constructor ()
      ensures Valid() && history == []
    {
      root, nodes, stack := None, [], [];
      history, tree := [], Tip(0, Bounds(Point(0.0, 0.0), Size(0.0, 0.0)), 0);
    }

    method Clear()
      modifies this
      ensures Valid() && history == []
    {
      root, nodes, stack := None, [], [];
      history := [];
    }

    /** The pruned, best-fit search returns exactly what a linear scan of all earlier insertions
        would: one more than the largest order among those that intersect `newBounds`. */
    method Insert(newBounds: Bounds) returns (order: nat)
      requires Valid()
      modifies this
      ensures Valid()
      ensures order == 1 + MaxHit(old(history), newBounds)
      ensures history == old(history) + [Entry(newBounds, order)]
    {
      hide Plug, Holds, Descending, PathHit, Stack, Raise, Arena, Tree.Entries, Tree.Sound, MaxHit, Ordered;
      OrderedSnoc(history, newBounds);
      if root.None? {
        FirstHolds(newBounds);
        var newNode := PushLeaf(newBounds, 1);
        root := Some(newNode);
        tree := Tip(newNode, newBounds, 1);
        history := history + [Entry(newBounds, 1)];
        assert nodes == [Leaf(newBounds, 1)] && history == [Entry(newBounds, 1)];
        return 1;
      }
      ghost var path, cur;
      var sibling, maxIntersecting;
      sibling, maxIntersecting, path, cur := Descend(newBounds);
      FoundOrder(nodes, path, cur, newBounds, history);
      if nodes[sibling].bounds.Intersects(newBounds) {
        maxIntersecting := Max(maxIntersecting, nodes[sibling].order);
      }
      order := maxIntersecting + 1;
      ghost var grafted := Graft(sibling, newBounds, order, path, cur);
      GraftRoot(path, cur, grafted, order);
      Propagate(order, path, cur, grafted);
      history := history + [Entry(newBounds, order)];
      tree := Plug(Raise(path, order), grafted);
      HoldsFinally(nodes, tree, history);
    }

    // First phase of `Insert`: down to the best-fit leaf, enlarging bounds on the way.
    method Descend(newBounds: Bounds)
      returns (index: nat, maxIntersecting: nat, ghost path: seq<Frame>, ghost cur: Tree)
      requires Valid() && root.Some?
      modifies this`nodes, this`stack
      ensures cur.Tip? && cur.ix == index < |nodes| && nodes[index] == cur.ToNode()
      ensures Descending(nodes, path, cur, newBounds, history)
      ensures Plug(path, cur).ix == root.value
      ensures stack == Stack(path)
      ensures maxIntersecting == PathHit(path, newBounds)
    {
      index, maxIntersecting := root.value, 0;
      path, cur := [], tree;
      while nodes[index].Internal?
        invariant cur.ix == index < |nodes| && nodes[index] == cur.ToNode()
        invariant Descending(nodes, path, cur, newBounds, history)
        invariant Plug(path, cur).ix == root.value
        invariant stack == Stack(path)
        invariant maxIntersecting == PathHit(path, newBounds)
        decreases cur
      {
        hide Plug, PathHit, Stack, Descending, Readable, Tree.Hit, Max, Bounds.Union;
        ghost var before := nodes;
        var Internal(left, right, nodeBounds, nodeMax) := nodes[index];
        nodes := nodes[index := Internal(left, right, nodeBounds.Union(newBounds), nodeMax)];
        stack := stack + [index];
        DescendFacts(before, nodes, path, cur, newBounds, history, Passed(cur, newBounds, true), true);
        DescendFacts(before, nodes, path, cur, newBounds, history, Passed(cur, newBounds, false), false);
        ReadableNode(nodes, cur.left);
        ReadableNode(nodes, cur.right);
        var leftCost := newBounds.Union(nodes[left].bounds).HalfPerimeter();
        var rightCost := newBounds.Union(nodes[right].bounds).HalfPerimeter();
        if leftCost < rightCost {
          maxIntersecting := FindMaxOrdering(right, newBounds, maxIntersecting, cur.right);
          index := left;
          path, cur := path + [Passed(cur, newBounds, true)], cur.left;
        } else {
          maxIntersecting := FindMaxOrdering(left, newBounds, maxIntersecting, cur.left);
          index := right;
          path, cur := path + [Passed(cur, newBounds, false)], cur.right;
        }
      }
    }

    method FindMaxOrdering(index: nat, bounds: Bounds, maxOrdering: nat, ghost t: Tree) returns (m: nat)
      requires Readable(nodes, t) && t.ix == index
      ensures m == Max(maxOrdering, t.Hit(bounds))
      decreases t
    {
      m := maxOrdering;
      ReadableNode(nodes, t);
      match nodes[index] {
        case Leaf(nodeBounds, ordering) =>
          if bounds.Intersects(nodeBounds) {
            m := Max(ordering, m);
          }
        case Internal(left, right, nodeBounds, nodeMaxOrdering) =>
          ReadableNode(nodes, t.left);
          ReadableNode(nodes, t.right);
          PruningIsSound(t, bounds);
          if bounds.Intersects(nodeBounds) && m < nodeMaxOrdering {
            if nodes[left].MaxOrdering() > nodes[right].MaxOrdering() {
              m := FindMaxOrdering(left, bounds, m, t.left);
              m := FindMaxOrdering(right, bounds, m, t.right);
            } else {
              m := FindMaxOrdering(right, bounds, m, t.right);
              m := FindMaxOrdering(left, bounds, m, t.left);
            }
          }
      }
    }

    // Second phase of `Insert`: a new parent above the leaf that was found.
    method Graft(sibling: nat, newBounds: Bounds, order: nat, ghost path: seq<Frame>, ghost cur: Tree)
      returns (ghost grafted: Tree)
      requires cur.Tip? && cur.ix == sibling < |nodes| && nodes[sibling] == cur.ToNode()
      requires Descending(nodes, path, cur, newBounds, history)
      requires root.Some? && Plug(path, cur).ix == root.value
      requires stack == Stack(path)
      modifies this`nodes, this`root
      ensures Arena(nodes, Plug(path, grafted))
      ensures Plug(path, grafted).Entries() == multiset(history + [Entry(newBounds, order)])
      ensures Plug(Raise(path, order), grafted).Sound()
      ensures root.Some? && Plug(path, grafted).ix == root.value
      ensures stack == old(stack)
    {
      hide Plug, Raise, Arena, Descending, Grafted, Tree.Entries, Tree.Sound, Bounds.Union, Max;
      ghost var before := nodes;
      grafted := Grafted(cur, |nodes|, newBounds, order);
      GraftRoot(path, cur, grafted, order);
      GraftedNode(cur, |nodes|, newBounds, order);
      var newNode := PushLeaf(newBounds, order);
      var newParent := PushInternal(sibling, newNode);
      if |stack| > 0 {
        var oldParent := stack[|stack| - 1];
        GraftParent(before, path, cur, newBounds, history);
        var Internal(left, right, parentBounds, parentMax) := nodes[oldParent];
        if left == sibling {
          nodes := nodes[oldParent := Internal(newParent, right, parentBounds, parentMax)];
        } else {
          nodes := nodes[oldParent := Internal(left, newParent, parentBounds, parentMax)];
        }
      } else {
        root := Some(newParent);
      }
      GraftStep(before, nodes, path, cur, newBounds, history, order);
    }

    // Third phase of `Insert`: raise the maxima on the path, stopping at the first that is high enough.
    method Propagate(order: nat, ghost path: seq<Frame>, ghost cur: Tree, ghost grafted: Tree)
      requires Plug(path, cur).Sound()
      requires Arena(nodes, Plug(path, grafted))
      requires root.Some? && Plug(path, grafted).ix == root.value
      requires stack == Stack(path)
      modifies this`nodes, this`stack
      ensures stack == []
      ensures Arena(nodes, Plug(Raise(path, order), grafted))
      ensures Plug(Raise(path, order), grafted).Entries() == Plug(path, grafted).Entries()
    {
      hide Plug, Arena, Tree.Entries;
      var drained := stack;
      stack := [];
      ghost var top := Plug(Raise(path, order), grafted);
      ghost var entries := Plug(path, grafted).Entries();
      ghost var sub := grafted;
      var k := |drained|;
      assert path[..k] == path && Raise(path, order)[..k] == Raise(path, order);
      while k > 0
        invariant k <= |drained| == |path| && stack == []
        invariant Propagating(nodes, path, k, sub, top, order, entries)
      {
        PropagateStep(nodes, path, k, sub, top, order, entries);
        var nodeIndex := drained[k - 1];
        if nodes[nodeIndex].maxOrder >= order {
          break;
        }
        nodes := nodes[nodeIndex := nodes[nodeIndex].(maxOrder := order)];
        k := k - 1;
        sub := path[k].(maxOrder := order).Around(sub);
      }
      NoRaiseAbove(path, cur, k, order);
    }

    method PushLeaf(bounds: Bounds, order: nat) returns (ix: nat)
      modifies this`nodes
      ensures ix == |old(nodes)| && nodes == old(nodes) + [Leaf(bounds, order)]
    {
      nodes := nodes + [Leaf(bounds, order)];
      ix := |nodes| - 1;
    }

    method PushInternal(left: nat, right: nat) returns (ix: nat)
      requires left < |nodes| && right < |nodes|
      modifies this`nodes
      ensures ix == |old(nodes)|
      ensures nodes == old(nodes) + [Internal(left, right, old(nodes)[left].bounds.Union(old(nodes)[right].bounds),
                                              Max(old(nodes)[left].MaxOrdering(), old(nodes)[right].MaxOrdering()))]
    {
      var newBounds := nodes[left].bounds.Union(nodes[right].bounds);
      var maxOrdering := Max(nodes[left].MaxOrdering(), nodes[right].MaxOrdering());
      nodes := nodes + [Internal(left, right, newBounds, maxOrdering)];
      ix := |nodes| - 1;
    }
  }
}
