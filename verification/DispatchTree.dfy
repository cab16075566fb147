/** The key dispatch tree (src/key_dispatch.rs): nodes are pushed under the active node, and three
    parallel stacks follow the active path; a subtree of the previous frame can be moved over.
    Contexts, focus ids, view ids and listeners are opaque numbers. */
module DispatchTrees {
  import opened Common

  type Context = int
  type FocusId = int
  type ViewId = int
  type Listener = int

  datatype Node = Node(
    keyListeners: seq<Listener>,
    actionListeners: seq<Listener>,
    modifiersChangedListeners: seq<Listener>,
    context: Option<Context>,
    focusId: Option<FocusId>,
    viewId: Option<ViewId>,
    parent: Option<nat>)

  function Last<T>(s: seq<T>): Option<T> {
    if s == [] then None else Some(s[|s| - 1])
  }

  function ToSeq<T>(o: Option<T>): seq<T> {
    if o.None? then [] else [o.value]
  }

  // ---------------------------------------------------------------------------------------
  // Paths
  // ---------------------------------------------------------------------------------------

  /** Parents come before their children. */
  ghost predicate Rooted(nodes: seq<Node>) {
    forall i :: 0 <= i < |nodes| && nodes[i].parent.Some? ==> nodes[i].parent.value < i
  }

  /** The full parent chain of a node, from the root down to it. */
  ghost function Chain(nodes: seq<Node>, id: nat): seq<nat>
    requires Rooted(nodes) && id < |nodes|
    decreases id
  {
    (if nodes[id].parent.Some? then Chain(nodes, nodes[id].parent.value) else []) + [id]
  }

  /** The chain of an optional node; of none it is empty. */
  ghost function ChainOf(nodes: seq<Node>, id: Option<nat>): seq<nat>
    requires Rooted(nodes) && (id.Some? ==> id.value < |nodes|)
  {
    if id.Some? then Chain(nodes, id.value) else []
  }

  ghost function ContextsAlong(nodes: seq<Node>, path: seq<nat>): seq<Context> {
    if path == [] then []
    else
      var id := path[|path| - 1];
      ContextsAlong(nodes, path[..|path| - 1]) + (if id < |nodes| then ToSeq(nodes[id].context) else [])
  }

  ghost function ViewsAlong(nodes: seq<Node>, path: seq<nat>): seq<ViewId> {
    if path == [] then []
    else
      var id := path[|path| - 1];
      ViewsAlong(nodes, path[..|path| - 1]) + (if id < |nodes| then ToSeq(nodes[id].viewId) else [])
  }

  /** What a chain is, without recursion: it starts at a root, ends at the node, every step is a
      parent link, and indices increase. */
  lemma {:induction false} ChainIsParentPath(nodes: seq<Node>, id: nat)
    requires Rooted(nodes) && id < |nodes|
    ensures var path := Chain(nodes, id);
      && |path| >= 1 && path[|path| - 1] == id
      && (forall i :: 0 <= i < |path| ==> path[i] <= id)
      && nodes[path[0]].parent.None?
      && (forall i :: 0 < i < |path| ==> nodes[path[i]].parent == Some(path[i - 1]))
      && (forall i, j :: 0 <= i < j < |path| ==> path[i] < path[j])
    decreases id
  {
    if nodes[id].parent.Some? {
      ChainIsParentPath(nodes, nodes[id].parent.value);
    }
  }

  // A chain does not look at anything but parents of earlier nodes.
  lemma {:induction false} ChainFrame(nodes: seq<Node>, nodes': seq<Node>, id: nat)
    requires Rooted(nodes) && Rooted(nodes') && id < |nodes| && id < |nodes'|
    requires forall i :: 0 <= i <= id ==> nodes'[i].parent == nodes[i].parent
    ensures Chain(nodes', id) == Chain(nodes, id)
    decreases id
  {
    if nodes[id].parent.Some? {
      ChainFrame(nodes, nodes', nodes[id].parent.value);
    }
  }

  lemma {:induction false} AlongFrame(nodes: seq<Node>, nodes': seq<Node>, path: seq<nat>)
    requires forall i :: 0 <= i < |path| ==> path[i] < |nodes| && path[i] < |nodes'|
    requires forall i :: 0 <= i < |path| ==>
      nodes'[path[i]].context == nodes[path[i]].context && nodes'[path[i]].viewId == nodes[path[i]].viewId
    ensures ContextsAlong(nodes', path) == ContextsAlong(nodes, path)
    ensures ViewsAlong(nodes', path) == ViewsAlong(nodes, path)
  {
    if path != [] {
      AlongFrame(nodes, nodes', path[..|path| - 1]);
    }
  }

  lemma AlongSnoc(nodes: seq<Node>, path: seq<nat>, id: nat)
    requires id < |nodes|
    ensures ContextsAlong(nodes, path + [id]) == ContextsAlong(nodes, path) + ToSeq(nodes[id].context)
    ensures ViewsAlong(nodes, path + [id]) == ViewsAlong(nodes, path) + ToSeq(nodes[id].viewId)
  {
    assert (path + [id])[..|path|] == path;
  }

  // ---------------------------------------------------------------------------------------
  // Tree states
  // ---------------------------------------------------------------------------------------

  /** The part of a tree that the stacks are about, as a value. */
  datatype TreeState = TreeState(nodes: seq<Node>, nodeStack: seq<nat>, contextStack: seq<Context>,
                                 viewStack: seq<ViewId>) {
    /** `nodeStack` is the whole chain of the active node, and the other two stacks are exactly the
        contexts and view ids along it. */
    ghost predicate Valid() {
      && Rooted(nodes)
      && (nodeStack != [] ==>
            nodeStack[|nodeStack| - 1] < |nodes| && nodeStack == Chain(nodes, nodeStack[|nodeStack| - 1]))
      && contextStack == ContextsAlong(nodes, nodeStack)
      && viewStack == ViewsAlong(nodes, nodeStack)
    }

    function Active(): Option<nat> {
      Last(nodeStack)
    }
  }

  const EMPTY_NODE := Node([], [], [], None, None, None, None)

  function PushNodeState(s: TreeState): TreeState {
    s.(nodes := s.nodes + [EMPTY_NODE.(parent := s.Active())], nodeStack := s.nodeStack + [|s.nodes|])
  }

  function PopNodeState(s: TreeState): TreeState
    requires s.nodeStack != [] && s.nodeStack[|s.nodeStack| - 1] < |s.nodes|
    requires s.nodes[s.nodeStack[|s.nodeStack| - 1]].context.Some? ==> s.contextStack != []
    requires s.nodes[s.nodeStack[|s.nodeStack| - 1]].viewId.Some? ==> s.viewStack != []
  {
    var node := s.nodes[s.nodeStack[|s.nodeStack| - 1]];
    TreeState(s.nodes, s.nodeStack[..|s.nodeStack| - 1],
              if node.context.Some? then s.contextStack[..|s.contextStack| - 1] else s.contextStack,
              if node.viewId.Some? then s.viewStack[..|s.viewStack| - 1] else s.viewStack)
  }

  lemma PushKeepsValid(s: TreeState)
    requires s.Valid()
    ensures PushNodeState(s).Valid()
  {
    hide Chain, ContextsAlong, ViewsAlong;
    var s', id := PushNodeState(s), |s.nodes|;
    PathInTree(s);
    ChainUnfolds(s'.nodes, id);
    if s.nodeStack != [] {
      ChainFrame(s.nodes, s'.nodes, s.nodeStack[|s.nodeStack| - 1]);
    }
    hide Rooted;
    AlongFrame(s.nodes, s'.nodes, s.nodeStack);
    AlongSnoc(s'.nodes, s.nodeStack, id);
  }

  lemma PathInTree(s: TreeState)
    requires s.Valid()
    ensures forall i :: 0 <= i < |s.nodeStack| ==> s.nodeStack[i] < |s.nodes|
    ensures s.nodeStack != [] ==>
      forall i :: 0 <= i < |s.nodeStack| - 1 ==> s.nodeStack[i] < s.nodeStack[|s.nodeStack| - 1]
  {
    hide Chain, ContextsAlong, ViewsAlong;
    if s.nodeStack != [] {
      ChainIsParentPath(s.nodes, s.nodeStack[|s.nodeStack| - 1]);
    }
  }

  lemma ChainUnfolds(nodes: seq<Node>, id: nat)
    requires Rooted(nodes) && id < |nodes|
    ensures Chain(nodes, id) == ChainOf(nodes, nodes[id].parent) + [id]
  {
  }

  // Popping is possible whenever the stack is not empty, and leads to the parent's chain.
  lemma PopKeepsValid(s: TreeState)
    requires s.Valid() && s.nodeStack != []
    ensures var node := s.nodes[s.nodeStack[|s.nodeStack| - 1]];
      && s.nodeStack[|s.nodeStack| - 1] < |s.nodes|
      && (node.context.Some? ==> s.contextStack != []) && (node.viewId.Some? ==> s.viewStack != [])
      && PopNodeState(s).Valid()
      && PopNodeState(s).nodeStack == ChainOf(s.nodes, node.parent)
  {
    hide Chain, ContextsAlong, ViewsAlong;
    var id, rest := s.nodeStack[|s.nodeStack| - 1], s.nodeStack[..|s.nodeStack| - 1];
    assert s.nodeStack == rest + [id];
    ChainUnfolds(s.nodes, id);
    assert rest == ChainOf(s.nodes, s.nodes[id].parent);
    AlongSnoc(s.nodes, rest, id);
    DropOne(ContextsAlong(s.nodes, rest), s.nodes[id].context);
    DropOne(ViewsAlong(s.nodes, rest), s.nodes[id].viewId);
    if s.nodes[id].parent.Some? {
      ChainIsParentPath(s.nodes, s.nodes[id].parent.value);
    }
  }

  lemma DropOne<T>(above: seq<T>, own: Option<T>)
    ensures own.Some? ==> above + ToSeq(own) != [] && (above + ToSeq(own))[..|above + ToSeq(own)| - 1] == above
    ensures own.None? ==> above + ToSeq(own) == above
  {
  }

  /** Making a node active rebuilds all three stacks from it alone. */
  ghost function ActiveState(s: TreeState, id: nat): TreeState
    requires Rooted(s.nodes) && id < |s.nodes|
  {
    var path := Chain(s.nodes, id);
    TreeState(s.nodes, path, ContextsAlong(s.nodes, path), ViewsAlong(s.nodes, path))
  }

  lemma ActiveIsValid(s: TreeState, id: nat)
    requires Rooted(s.nodes) && id < |s.nodes|
    ensures ActiveState(s, id).Valid()
  {
    ChainIsParentPath(s.nodes, id);
    hide Chain;
  }

  function SetContextState(s: TreeState, context: Context): TreeState
    requires s.nodeStack != [] && s.nodeStack[|s.nodeStack| - 1] < |s.nodes|
  {
    var id := s.nodeStack[|s.nodeStack| - 1];
    s.(nodes := s.nodes[id := s.nodes[id].(context := Some(context))], contextStack := s.contextStack + [context])
  }

  function SetViewState(s: TreeState, viewId: ViewId): TreeState
    requires s.nodeStack != [] && s.nodeStack[|s.nodeStack| - 1] < |s.nodes|
  {
    var id := s.nodeStack[|s.nodeStack| - 1];
    if Last(s.viewStack) == Some(viewId) then s
    else s.(nodes := s.nodes[id := s.nodes[id].(viewId := Some(viewId))], viewStack := s.viewStack + [viewId])
  }

  // Rewriting the active node leaves the chain and everything above the active node as it was.
  lemma RewriteActive(s: TreeState, node: Node)
    requires s.Valid() && s.nodeStack != []
    requires node.parent == s.nodes[s.nodeStack[|s.nodeStack| - 1]].parent
    ensures var id, rest := s.nodeStack[|s.nodeStack| - 1], s.nodeStack[..|s.nodeStack| - 1];
            var nodes' := s.nodes[id := node];
      && Rooted(nodes') && Chain(nodes', id) == s.nodeStack
      && s.contextStack == ContextsAlong(s.nodes, rest) + ToSeq(s.nodes[id].context)
      && s.viewStack == ViewsAlong(s.nodes, rest) + ToSeq(s.nodes[id].viewId)
      && ContextsAlong(nodes', s.nodeStack) == ContextsAlong(s.nodes, rest) + ToSeq(node.context)
      && ViewsAlong(nodes', s.nodeStack) == ViewsAlong(s.nodes, rest) + ToSeq(node.viewId)
  {
    hide Chain, ContextsAlong, ViewsAlong;
    var id, rest := s.nodeStack[|s.nodeStack| - 1], s.nodeStack[..|s.nodeStack| - 1];
    var nodes' := s.nodes[id := node];
    PathInTree(s);
    ChainFrame(s.nodes, nodes', id);
    hide Rooted;
    assert s.nodeStack == rest + [id];
    AlongFrame(s.nodes, nodes', rest);
    AlongSnoc(s.nodes, rest, id);
    AlongSnoc(nodes', rest, id);
  }

  /** Setting a key context keeps the stacks in step exactly when the active node had none. */
  lemma SetContextKeepsValid(s: TreeState, context: Context)
    requires s.Valid() && s.nodeStack != []
    ensures SetContextState(s, context).Valid() <==> s.nodes[s.nodeStack[|s.nodeStack| - 1]].context.None?
  {
    var id := s.nodeStack[|s.nodeStack| - 1];
    RewriteActive(s, s.nodes[id].(context := Some(context)));
    hide Chain, ContextsAlong, ViewsAlong;
  }

  /** Setting a view id keeps the stacks in step exactly when the active node had none, or the id is
      already the innermost one (and then nothing happens). */
  lemma SetViewKeepsValid(s: TreeState, viewId: ViewId)
    requires s.Valid() && s.nodeStack != []
    ensures SetViewState(s, viewId).Valid()
       <==> s.nodes[s.nodeStack[|s.nodeStack| - 1]].viewId.None? || Last(s.viewStack) == Some(viewId)
  {
    hide Chain, ContextsAlong, ViewsAlong;
    var id, rest := s.nodeStack[|s.nodeStack| - 1], s.nodeStack[..|s.nodeStack| - 1];
    if Last(s.viewStack) != Some(viewId) {
      RewriteActive(s, s.nodes[id].(viewId := Some(viewId)));
      AppendOne(ViewsAlong(s.nodes, rest), s.nodes[id].viewId, viewId);
    }
  }

  lemma AppendOne<T>(above: seq<T>, own: Option<T>, x: T)
    ensures (above + ToSeq(own)) + [x] == above + [x] <==> own.None?
  {
    if own.Some? {
      assert |(above + ToSeq(own)) + [x]| == |above| + 2;
    }
  }

  function CutState(s: TreeState, length: nat): TreeState
    requires length <= |s.nodes|
  {
    s.(nodes := s.nodes[..length])
  }

  /** Cutting the tree off keeps the stacks in step exactly when the active node is not cut off. */
  lemma CutKeepsValid(s: TreeState, length: nat)
    requires s.Valid() && length <= |s.nodes|
    ensures CutState(s, length).Valid() <==> (s.Active().Some? ==> s.Active().value < length)
  {
    hide Chain, ContextsAlong, ViewsAlong;
    if s.Active().Some? && s.Active().value < length {
      PathInTree(s);
      ChainFrame(s.nodes, s.nodes[..length], s.Active().value);
      AlongFrame(s.nodes, s.nodes[..length], s.nodeStack);
    } else if s.nodeStack == [] {
      AlongEmpty(s.nodes);
      AlongEmpty(s.nodes[..length]);
    }
  }

  function FocusIds(nodes: seq<Node>): set<FocusId> {
    set node | node in nodes && node.focusId.Some? :: node.focusId.value
  }

  function ViewIds(nodes: seq<Node>): set<ViewId> {
    set node | node in nodes && node.viewId.Some? :: node.viewId.value
  }

  // ---------------------------------------------------------------------------------------
  // Moving nodes over from another tree
  // ---------------------------------------------------------------------------------------

  /** `set_view_id` skips an id that is already innermost, so a moved node may lose its own. */
  function MovedView(s: TreeState, source: Node): Option<ViewId> {
    if source.viewId == Last(s.viewStack) then None else source.viewId
  }

  function MovedNode(s: TreeState, source: Node): Node {
    Node(source.keyListeners, source.actionListeners, source.modifiersChangedListeners,
         source.context, source.focusId, MovedView(s, source), s.Active())
  }

  function Emptied(node: Node): Node {
    Node([], [], [], node.context, node.focusId, node.viewId, node.parent)
  }

  function MoveState(s: TreeState, source: Node): TreeState {
    TreeState(s.nodes + [MovedNode(s, source)], s.nodeStack + [|s.nodes|],
              s.contextStack + ToSeq(source.context), s.viewStack + ToSeq(MovedView(s, source)))
  }

  lemma MoveKeepsValid(s: TreeState, source: Node)
    requires s.Valid()
    ensures MoveState(s, source).Valid()
  {
    hide Chain, ContextsAlong, ViewsAlong, Rooted;
    var s' := PushNodeState(s);
    PushKeepsValid(s);
    RewriteActive(s', MovedNode(s, source));
    assert s'.nodes[|s.nodes| := MovedNode(s, source)] == MoveState(s, source).nodes;
    assert s'.nodeStack[..|s'.nodeStack| - 1] == s.nodeStack;
    assert ToSeq(s'.nodes[|s.nodes|].context) == [] && ToSeq(s'.nodes[|s.nodes|].viewId) == [];
  }

  // ---------------------------------------------------------------------------------------
  // Preorder ranges
  // ---------------------------------------------------------------------------------------

  /** The chain of a node within the nodes from `lo` on. */
  ghost function RangeChain(nodes: seq<Node>, lo: nat, id: nat): seq<nat>
    requires Rooted(nodes) && lo <= id < |nodes|
    decreases id
  {
    (if ParentInRange(nodes[id], lo) then RangeChain(nodes, lo, nodes[id].parent.value) else []) + [id]
  }

  predicate ParentInRange(node: Node, lo: nat) {
    node.parent.Some? && node.parent.value >= lo
  }

  /** Up to `hi`, every parent within the range is the previous node or one of its ancestors. */
  ghost predicate Preorder(nodes: seq<Node>, lo: nat, hi: nat)
    requires Rooted(nodes) && hi <= |nodes|
  {
    forall i :: lo <= i < hi && ParentInRange(nodes[i], lo) ==>
      i > lo && nodes[i].parent.value in RangeChain(nodes, lo, i - 1)
  }

  /** Where a node of a range that starts at `lo` goes when the range is copied to `base`. */
  function Refreshed(id: nat, lo: nat, base: nat): nat
    requires lo <= id
  {
    id - lo + base
  }

  function CopiedParent(node: Node, lo: nat, base: nat, outside: Option<nat>): Option<nat> {
    if ParentInRange(node, lo) then Some(Refreshed(node.parent.value, lo, base)) else outside
  }

  /** Parents within the range are shifted with it, all others become the node that was active. */
  ghost predicate ParentsCopied(nodes: seq<Node>, lo: nat, hi: nat, nodes': seq<Node>, base: nat, outside: Option<nat>)
    requires hi <= |nodes|
  {
    forall i :: lo <= i < hi ==>
      && Refreshed(i, lo, base) < |nodes'|
      && nodes'[Refreshed(i, lo, base)].parent == CopiedParent(nodes[i], lo, base, outside)
  }

  function Shift(stack: seq<nat>, lo: nat, base: nat): seq<nat>
    requires forall i :: 0 <= i < |stack| ==> stack[i] >= lo
  {
    seq(|stack|, i requires 0 <= i < |stack| => Refreshed(stack[i], lo, base))
  }

  lemma {:induction false} RangeChainBounds(nodes: seq<Node>, lo: nat, id: nat)
    requires Rooted(nodes) && lo <= id < |nodes|
    ensures var path := RangeChain(nodes, lo, id);
      && |path| >= 1 && path[|path| - 1] == id
      && forall i :: 0 <= i < |path| ==> lo <= path[i] <= id
    decreases id
  {
    if ParentInRange(nodes[id], lo) {
      RangeChainBounds(nodes, lo, nodes[id].parent.value);
    }
  }

  // Cutting a range chain back to one of its nodes gives that node's range chain.
  lemma {:induction false} RangeChainPrefix(nodes: seq<Node>, lo: nat, id: nat, k: nat)
    requires Rooted(nodes) && lo <= id < |nodes| && k < |RangeChain(nodes, lo, id)|
    ensures lo <= RangeChain(nodes, lo, id)[k] < |nodes|
    ensures RangeChain(nodes, lo, id)[..k + 1] == RangeChain(nodes, lo, RangeChain(nodes, lo, id)[k])
    decreases id
  {
    var path := RangeChain(nodes, lo, id);
    if k + 1 < |path| {
      RangeChainPrefix(nodes, lo, nodes[id].parent.value, k);
      assert path[..k + 1] == RangeChain(nodes, lo, nodes[id].parent.value)[..k + 1];
    } else {
      assert path[..k + 1] == path;
    }
  }

  // The stack of `reuse_subtree` before node `i`: in a preorder range, the range chain of the
  // previous node.
  ghost function ExpectedStack(nodes: seq<Node>, lo: nat, i: nat): seq<nat>
    requires Rooted(nodes) && lo <= i <= |nodes|
  {
    if i == lo then [] else RangeChain(nodes, lo, i - 1)
  }

  // After the pops for node `i`: `stack` is what is left of `before`.
  ghost predicate PoppedTo(before: seq<nat>, stack: seq<nat>, parent: Option<nat>) {
    && stack <= before
    && (stack != [] ==> parent == Some(stack[|stack| - 1]))
    && forall k :: |stack| <= k < |before| ==> parent != Some(before[k])
  }

  ghost function PushedParent(stack: seq<nat>, lo: nat, base: nat, outside: Option<nat>): Option<nat>
    requires forall i :: 0 <= i < |stack| ==> stack[i] >= lo
  {
    if stack == [] then outside else Some(Refreshed(stack[|stack| - 1], lo, base))
  }

  // One more node of the range: it gets the shifted parent exactly if the range is still preorder,
  // and then the stack is again the expected one.
  lemma PreorderStep(nodes: seq<Node>, lo: nat, i: nat, before: seq<nat>, stack: seq<nat>, base: nat,
                     outside: Option<nat>)
    requires Rooted(nodes) && lo <= i < |nodes|
    requires before == ExpectedStack(nodes, lo, i) && PoppedTo(before, stack, nodes[i].parent)
    requires outside.Some? ==> outside.value < base
    ensures forall k :: 0 <= k < |stack| ==> lo <= stack[k] < i
    ensures PushedParent(stack, lo, base, outside) == CopiedParent(nodes[i], lo, base, outside)
       <==> (ParentInRange(nodes[i], lo) ==> i > lo && nodes[i].parent.value in RangeChain(nodes, lo, i - 1))
    ensures PushedParent(stack, lo, base, outside) == CopiedParent(nodes[i], lo, base, outside)
        ==> stack + [i] == ExpectedStack(nodes, lo, i + 1)
  {
    hide RangeChain;
    RangeChainUnfolds(nodes, lo, i);
    if i > lo {
      RangeChainBounds(nodes, lo, i - 1);
      if stack != [] {
        RangeChainPrefix(nodes, lo, i - 1, |stack| - 1);
      }
    }
  }

  lemma RangeChainUnfolds(nodes: seq<Node>, lo: nat, id: nat)
    requires Rooted(nodes) && lo <= id < |nodes|
    ensures RangeChain(nodes, lo, id)
         == (if ParentInRange(nodes[id], lo) then RangeChain(nodes, lo, nodes[id].parent.value) else []) + [id]
  {
  }

  // ---------------------------------------------------------------------------------------
  // Nodes built in preorder from some node on
  // ---------------------------------------------------------------------------------------

  /** From `lo` on, the tree is in preorder, and the active node, if it is one of these nodes, is the
      newest of them or an ancestor of it. */
  ghost predicate InOrder(s: TreeState, lo: nat) {
    && Rooted(s.nodes) && lo <= |s.nodes|
    && Preorder(s.nodes, lo, |s.nodes|)
    && (s.Active().Some? && s.Active().value >= lo ==>
          lo < |s.nodes| && s.Active().value in RangeChain(s.nodes, lo, |s.nodes| - 1))
  }

  /** Whatever came before: a tree is in order from its end on. */
  lemma EndIsInOrder(s: TreeState)
    requires s.Valid()
    ensures InOrder(s, |s.nodes|)
  {
  }

  lemma {:induction false} RangeChainFrame(nodes: seq<Node>, nodes': seq<Node>, lo: nat, id: nat)
    requires Rooted(nodes) && Rooted(nodes') && lo <= id < |nodes| && id < |nodes'|
    requires forall i :: 0 <= i <= id ==> nodes'[i].parent == nodes[i].parent
    ensures RangeChain(nodes', lo, id) == RangeChain(nodes, lo, id)
    decreases id
  {
    if ParentInRange(nodes[id], lo) {
      RangeChainFrame(nodes, nodes', lo, nodes[id].parent.value);
    }
  }

  /** A range in preorder stays so, whatever happens to later nodes or to anything but parents. */
  lemma PreorderFrame(nodes: seq<Node>, nodes': seq<Node>, lo: nat, hi: nat)
    requires Rooted(nodes) && Rooted(nodes') && hi <= |nodes| && hi <= |nodes'|
    requires forall i :: 0 <= i < hi ==> nodes'[i].parent == nodes[i].parent
    requires Preorder(nodes, lo, hi)
    ensures Preorder(nodes', lo, hi)
  {
    hide RangeChain, Rooted;
    forall i | lo <= i < hi && ParentInRange(nodes'[i], lo)
      ensures i > lo && nodes'[i].parent.value in RangeChain(nodes', lo, i - 1)
    {
      assert ParentInRange(nodes[i], lo);
      RangeChainFrame(nodes, nodes', lo, i - 1);
    }
  }

  lemma OrderSnoc(nodes: seq<Node>, lo: nat, node: Node)
    requires Rooted(nodes) && Rooted(nodes + [node]) && lo <= |nodes| && Preorder(nodes, lo, |nodes|)
    requires ParentInRange(node, lo) ==> lo < |nodes| && node.parent.value in RangeChain(nodes, lo, |nodes| - 1)
    ensures Preorder(nodes + [node], lo, |nodes| + 1)
  {
    hide RangeChain, Rooted;
    var n, nodes' := |nodes|, nodes + [node];
    PreorderFrame(nodes, nodes', lo, n);
    if ParentInRange(node, lo) {
      RangeChainFrame(nodes, nodes', lo, n - 1);
    }
  }

  /** Adding a node under the active one, and making it active, keeps the order ... */
  lemma AddingKeepsOrder(s: TreeState, lo: nat, s': TreeState, node: Node)
    requires s.Valid() && InOrder(s, lo) && node.parent == s.Active()
    requires s'.Valid() && s'.nodes == s.nodes + [node] && s'.nodeStack == s.nodeStack + [|s.nodes|]
    ensures InOrder(s', lo)
  {
    hide RangeChain, Chain, ContextsAlong, ViewsAlong, Preorder;
    OrderSnoc(s.nodes, lo, node);
    RangeChainBounds(s'.nodes, lo, |s.nodes|);
  }

  lemma PushKeepsOrder(s: TreeState, lo: nat)
    requires s.Valid() && InOrder(s, lo)
    ensures PushNodeState(s).Valid() && InOrder(PushNodeState(s), lo)
  {
    hide TreeState.Valid, InOrder;
    PushKeepsValid(s);
    AddingKeepsOrder(s, lo, PushNodeState(s), EMPTY_NODE.(parent := s.Active()));
  }

  lemma MoveKeepsOrder(s: TreeState, lo: nat, source: Node)
    requires s.Valid() && InOrder(s, lo)
    ensures MoveState(s, source).Valid() && InOrder(MoveState(s, source), lo)
  {
    hide TreeState.Valid, InOrder;
    MoveKeepsValid(s, source);
    AddingKeepsOrder(s, lo, MoveState(s, source), MovedNode(s, source));
  }

  // Range chains contain the parents, as far as they are in range, of their members.
  lemma {:induction false} ParentOnChain(nodes: seq<Node>, lo: nat, newest: nat, id: nat)
    requires Rooted(nodes) && lo <= newest < |nodes| && id in RangeChain(nodes, lo, newest)
    ensures lo <= id <= newest
    ensures ParentInRange(nodes[id], lo) ==> nodes[id].parent.value in RangeChain(nodes, lo, newest)
    decreases newest
  {
    RangeChainUnfolds(nodes, lo, newest);
    if ParentInRange(nodes[newest], lo) {
      RangeChainBounds(nodes, lo, nodes[newest].parent.value);
      if id != newest {
        ParentOnChain(nodes, lo, nodes[newest].parent.value, id);
      }
    }
  }

  /** ... and so does popping one of these nodes ... */
  lemma PopKeepsOrder(s: TreeState, lo: nat, s': TreeState)
    requires s.Valid() && InOrder(s, lo) && s.nodeStack != [] && s.nodeStack[|s.nodeStack| - 1] >= lo
    requires s'.nodes == s.nodes && s'.nodeStack == s.nodeStack[..|s.nodeStack| - 1]
    ensures InOrder(s', lo)
  {
    hide RangeChain, Chain, ContextsAlong, ViewsAlong, Preorder;
    var id := s.nodeStack[|s.nodeStack| - 1];
    ParentOnChain(s.nodes, lo, |s.nodes| - 1, id);
    ChainIsParentPath(s.nodes, id);
    if s'.nodeStack != [] {
      assert s.nodes[id].parent == Some(s.nodeStack[|s.nodeStack| - 2]);
    }
  }

  /** ... and rewriting anything but parents ... */
  lemma RewritingKeepsOrder(s: TreeState, lo: nat, s': TreeState)
    requires InOrder(s, lo) && Rooted(s'.nodes)
    requires s'.nodeStack == s.nodeStack && |s'.nodes| == |s.nodes|
    requires forall i :: 0 <= i < |s.nodes| ==> s'.nodes[i].parent == s.nodes[i].parent
    ensures InOrder(s', lo)
  {
    hide RangeChain, Rooted, Preorder;
    PreorderFrame(s.nodes, s'.nodes, lo, |s.nodes|);
    if lo < |s.nodes| {
      RangeChainFrame(s.nodes, s'.nodes, lo, |s.nodes| - 1);
    }
  }

  // In preorder, an ancestor of a node is an ancestor of every node between the two.
  lemma {:induction false} AncestorOfBetween(nodes: seq<Node>, lo: nat, newest: nat, between: nat, id: nat)
    requires Rooted(nodes) && lo <= between <= newest < |nodes| && Preorder(nodes, lo, newest + 1)
    requires id in RangeChain(nodes, lo, newest) && id <= between
    ensures id in RangeChain(nodes, lo, between)
    decreases newest
  {
    hide RangeChain, Rooted;
    if between < newest {
      ProperAncestor(nodes, lo, newest, id);
      ChainTransitive(nodes, lo, id, nodes[newest].parent.value, newest - 1);
      AncestorOfBetween(nodes, lo, newest - 1, between, id);
    }
  }

  lemma ProperAncestor(nodes: seq<Node>, lo: nat, id: nat, a: nat)
    requires Rooted(nodes) && lo <= id < |nodes| && a in RangeChain(nodes, lo, id) && a != id
    ensures ParentInRange(nodes[id], lo) && nodes[id].parent.value < id
    ensures a in RangeChain(nodes, lo, nodes[id].parent.value)
  {
  }

  lemma ChainTransitive(nodes: seq<Node>, lo: nat, a: nat, b: nat, c: nat)
    requires Rooted(nodes) && lo <= b < |nodes| && lo <= c < |nodes|
    requires a in RangeChain(nodes, lo, b) && b in RangeChain(nodes, lo, c)
    ensures a in RangeChain(nodes, lo, c)
  {
    hide RangeChain;
    var k :| 0 <= k < |RangeChain(nodes, lo, c)| && RangeChain(nodes, lo, c)[k] == b;
    RangeChainPrefix(nodes, lo, c, k);
  }

  /** ... and cutting the tree off above the active node. */
  lemma CuttingKeepsOrder(s: TreeState, lo: nat, length: nat)
    requires InOrder(s, lo) && lo <= length <= |s.nodes|
    requires s.Active().Some? ==> s.Active().value < length
    ensures InOrder(CutState(s, length), lo)
  {
    hide RangeChain, Preorder;
    var nodes' := s.nodes[..length];
    PreorderPart(s.nodes, lo, |s.nodes|, lo, length);
    PreorderFrame(s.nodes, nodes', lo, length);
    if s.Active().Some? && s.Active().value >= lo {
      AncestorOfBetween(s.nodes, lo, |s.nodes| - 1, length - 1, s.Active().value);
      RangeChainFrame(s.nodes, nodes', lo, length - 1);
    }
  }

  /** Every part of a preorder range is a preorder range. */
  lemma PreorderPart(nodes: seq<Node>, lo: nat, hi: nat, from: nat, to: nat)
    requires Rooted(nodes) && lo <= from <= to <= hi <= |nodes| && Preorder(nodes, lo, hi)
    ensures Preorder(nodes, from, to)
  {
    hide RangeChain;
    forall i | from <= i < to && ParentInRange(nodes[i], from)
      ensures i > from && nodes[i].parent.value in RangeChain(nodes, from, i - 1)
    {
      assert ParentInRange(nodes[i], lo);
      InRangeChain(nodes, lo, from, i - 1, nodes[i].parent.value);
    }
  }

  lemma {:induction false} InRangeChain(nodes: seq<Node>, lo: nat, from: nat, id: nat, p: nat)
    requires Rooted(nodes) && lo <= from <= p <= id < |nodes| && p in RangeChain(nodes, lo, id)
    ensures p in RangeChain(nodes, from, id)
    decreases id
  {
    if p != id {
      RangeChainBounds(nodes, lo, nodes[id].parent.value);
      InRangeChain(nodes, lo, from, nodes[id].parent.value, p);
    }
  }

  /** The innermost view id on the chain of a node. */
  ghost function InnermostView(nodes: seq<Node>, id: Option<nat>): Option<ViewId>
    requires Rooted(nodes) && (id.Some? ==> id.value < |nodes|)
  {
    Last(ViewsAlong(nodes, ChainOf(nodes, id)))
  }

  /** `node` is the copy of `source`: everything but the parent carries over, and the view id does
      unless the copy already lies inside that view. */
  ghost predicate CopyOf(nodes: seq<Node>, node: Node, source: Node)
    requires Rooted(nodes) && (node.parent.Some? ==> node.parent.value < |nodes|)
  {
    && node.keyListeners == source.keyListeners
    && node.actionListeners == source.actionListeners
    && node.modifiersChangedListeners == source.modifiersChangedListeners
    && node.context == source.context
    && node.focusId == source.focusId
    && node.viewId == (if source.viewId == InnermostView(nodes, node.parent) then None else source.viewId)
  }

  ghost predicate ContentsCopied(nodes: seq<Node>, lo: nat, hi: nat, nodes': seq<Node>, base: nat)
    requires hi <= |nodes| && Rooted(nodes')
  {
    forall i :: lo <= i < hi ==>
      Refreshed(i, lo, base) < |nodes'| && CopyOf(nodes', nodes'[Refreshed(i, lo, base)], nodes[i])
  }

  lemma InnermostViewFrame(nodes: seq<Node>, nodes': seq<Node>, id: Option<nat>)
    requires Rooted(nodes) && Rooted(nodes') && nodes <= nodes' && (id.Some? ==> id.value < |nodes|)
    ensures InnermostView(nodes', id) == InnermostView(nodes, id)
  {
    if id.Some? {
      ChainFrame(nodes, nodes', id.value);
      ChainIsParentPath(nodes, id.value);
      hide Chain;
      AlongFrame(nodes, nodes', Chain(nodes, id.value));
    }
  }

  lemma MovedIsCopy(s: TreeState, source: Node)
    requires s.Valid() && MoveState(s, source).Valid()
    ensures CopyOf(MoveState(s, source).nodes, MovedNode(s, source), source)
  {
    hide Chain, ViewsAlong, ContextsAlong;
    InnermostViewFrame(s.nodes, MoveState(s, source).nodes, s.Active());
  }

  // Copies stay copies while the tree grows.
  lemma CopiesStay(nodes: seq<Node>, lo: nat, i: nat, nodes': seq<Node>, more: Node, base: nat)
    requires i < |nodes| && lo <= i && Rooted(nodes') && Rooted(nodes' + [more])
    requires ContentsCopied(nodes, lo, i, nodes', base) && |nodes'| == base + i - lo
    requires (more.parent.Some? ==> more.parent.value < |nodes'|) && CopyOf(nodes' + [more], more, nodes[i])
    ensures ContentsCopied(nodes, lo, i + 1, nodes' + [more], base)
  {
    hide InnermostView;
    forall j | lo <= j < i ensures CopyOf(nodes' + [more], (nodes' + [more])[Refreshed(j, lo, base)], nodes[j]) {
      assert CopyOf(nodes', nodes'[Refreshed(j, lo, base)], nodes[j]);
      InnermostViewFrame(nodes', nodes' + [more], nodes'[Refreshed(j, lo, base)].parent);
    }
  }

  /** `ReusedSubtree`: node ids of the old frame translate by the shift of the range. */
  datatype ReusedSubtree = ReusedSubtree(oldStart: nat, oldEnd: nat, newStart: nat, newEnd: nat, containsFocus: bool) {
    function RefreshNodeId(id: nat): nat
      requires oldStart <= id < oldEnd
    {
      Refreshed(id, oldStart, newStart)
    }

    /** Every node of the range was copied to its refreshed id. */
    ghost predicate ContentsMoved(source: seq<Node>, nodes: seq<Node>)
      requires oldEnd <= |source| && Rooted(nodes)
    {
      forall id :: oldStart <= id < oldEnd ==>
        RefreshNodeId(id) < |nodes| && CopyOf(nodes, nodes[RefreshNodeId(id)], source[id])
    }

    /** Every copy has the refreshed parent; parents outside the range became `outside`. */
    ghost predicate ParentsMoved(source: seq<Node>, nodes: seq<Node>, outside: Option<nat>)
      requires oldEnd <= |source| && Rooted(source)
    {
      forall id :: oldStart <= id < oldEnd ==>
        && RefreshNodeId(id) < |nodes|
        && nodes[RefreshNodeId(id)].parent
           == if ParentInRange(source[id], oldStart) then Some(RefreshNodeId(source[id].parent.value)) else outside
    }
  }

  lemma CopiedIsMoved(reused: ReusedSubtree, source: seq<Node>, nodes: seq<Node>, outside: Option<nat>)
    requires reused.oldEnd <= |source| && Rooted(source) && Rooted(nodes)
    ensures reused.ContentsMoved(source, nodes)
       <==> ContentsCopied(source, reused.oldStart, reused.oldEnd, nodes, reused.newStart)
    ensures reused.ParentsMoved(source, nodes, outside)
       <==> ParentsCopied(source, reused.oldStart, reused.oldEnd, nodes, reused.newStart, outside)
  {
    hide CopyOf, Refreshed;
    forall id: nat | reused.oldStart <= id < reused.oldEnd
      ensures reused.RefreshNodeId(id) == Refreshed(id, reused.oldStart, reused.newStart)
    {
    }
  }

  function AddFocus(ids: map<FocusId, nat>, node: Node, id: nat): map<FocusId, nat> {
    if node.focusId.Some? then ids[node.focusId.value := id] else ids
  }

  function FocusAfter(ids: map<FocusId, nat>, nodes: seq<Node>, lo: nat, i: nat, base: nat): map<FocusId, nat>
    requires lo <= i <= |nodes|
    decreases i
  {
    if i == lo then ids else AddFocus(FocusAfter(ids, nodes, lo, i - 1, base), nodes[i - 1], Refreshed(i - 1, lo, base))
  }

  function AddView(ids: map<ViewId, nat>, node: Node, id: nat): map<ViewId, nat> {
    if node.viewId.Some? then ids[node.viewId.value := id] else ids
  }

  /** The view index after the nodes `lo..hi` were added: each view id names its newest node. */
  function ViewsAfter(ids: map<ViewId, nat>, nodes: seq<Node>, lo: nat, hi: nat): map<ViewId, nat>
    requires lo <= hi <= |nodes|
    decreases hi
  {
    if hi == lo then ids else AddView(ViewsAfter(ids, nodes, lo, hi - 1), nodes[hi - 1], hi - 1)
  }

  lemma {:induction false} ViewsAfterFrame(ids: map<ViewId, nat>, nodes: seq<Node>, more: seq<Node>, lo: nat, hi: nat)
    requires lo <= hi <= |nodes|
    ensures ViewsAfter(ids, nodes + more, lo, hi) == ViewsAfter(ids, nodes, lo, hi)
    decreases hi
  {
    if hi > lo {
      ViewsAfterFrame(ids, nodes, more, lo, hi - 1);
    }
  }

  lemma ViewsAfterSnoc(ids: map<ViewId, nat>, nodes: seq<Node>, node: Node, lo: nat)
    requires lo <= |nodes|
    ensures ViewsAfter(ids, nodes + [node], lo, |nodes| + 1)
      == AddView(ViewsAfter(ids, nodes, lo, |nodes|), node, |nodes|)
    ensures lo == |nodes| ==> ViewsAfter(ids, nodes, lo, |nodes|) == ids
  {
    ViewsAfterFrame(ids, nodes, [node], lo, |nodes|);
  }

  // Wherever the tree was in order from before the copy, it still is.
  ghost predicate OrderKept(s0: TreeState, s: TreeState) {
    forall from: nat :: from <= |s0.nodes| && InOrder(s0, from) ==> InOrder(s, from)
  }

  lemma FromOrderKept(s0: TreeState, s: TreeState)
    requires OrderKept(s0, s)
    ensures forall from: nat :: from <= |s0.nodes| && InOrder(s0, from) ==> InOrder(s, from)
  {
  }

  lemma OrderKeptAtStart(s: TreeState)
    ensures OrderKept(s, s)
  {
  }

  lemma PopOrderKept(s0: TreeState, s: TreeState, s': TreeState)
    requires s.Valid() && OrderKept(s0, s) && s.nodeStack != [] && s.nodeStack[|s.nodeStack| - 1] >= |s0.nodes|
    requires s'.nodes == s.nodes && s'.nodeStack == s.nodeStack[..|s.nodeStack| - 1]
    ensures OrderKept(s0, s')
  {
    hide TreeState.Valid, InOrder;
    forall from: nat | from <= |s0.nodes| && InOrder(s0, from) ensures InOrder(s', from) {
      PopKeepsOrder(s, from, s');
    }
  }

  lemma MoveOrderKept(s0: TreeState, s: TreeState, source: Node)
    requires s.Valid() && OrderKept(s0, s)
    ensures OrderKept(s0, MoveState(s, source))
  {
    hide TreeState.Valid, InOrder;
    forall from: nat | from <= |s0.nodes| && InOrder(s0, from) ensures InOrder(MoveState(s, source), from) {
      MoveKeepsOrder(s, from, source);
    }
  }

  // What the loop of `reuse_subtree` keeps: `s0` is the state before it, `src` the source's nodes.
  ghost predicate Reusing(s0: TreeState, s: TreeState, src: seq<Node>, lo: nat, i: nat, stack: seq<nat>) {
    && Rooted(src) && lo <= i <= |src| && s.Valid()
    && s0.nodes <= s.nodes && |s.nodes| == |s0.nodes| + i - lo
    && (forall k :: 0 <= k < |stack| ==> lo <= stack[k] < i)
    && s.nodeStack == s0.nodeStack + Shift(stack, lo, |s0.nodes|)
    && ContentsCopied(src, lo, i, s.nodes, |s0.nodes|)
    && (ParentsCopied(src, lo, i, s.nodes, |s0.nodes|, s0.Active()) <==> Preorder(src, lo, i))
    && (Preorder(src, lo, i) ==> stack == ExpectedStack(src, lo, i))
  }

  // The pops for node `i` have been done, the node is about to be moved.
  ghost predicate ReadyToMove(s0: TreeState, s: TreeState, src: seq<Node>, lo: nat, i: nat, stack: seq<nat>) {
    && Rooted(src) && lo <= i < |src| && s.Valid() && (s0.Active().Some? ==> s0.Active().value < |s0.nodes|)
    && s0.nodes <= s.nodes && |s.nodes| == |s0.nodes| + i - lo
    && (forall k :: 0 <= k < |stack| ==> lo <= stack[k] < i)
    && s.nodeStack == s0.nodeStack + Shift(stack, lo, |s0.nodes|)
  }

  lemma ActiveAfterPops(s0: TreeState, s: TreeState, src: seq<Node>, lo: nat, i: nat, stack: seq<nat>)
    requires ReadyToMove(s0, s, src, lo, i, stack)
    requires forall k :: 0 <= k < |stack + [i]| ==> lo <= (stack + [i])[k]
    ensures s.Active() == PushedParent(stack, lo, |s0.nodes|, s0.Active())
    ensures MoveState(s, src[i]).nodeStack == s0.nodeStack + Shift(stack + [i], lo, |s0.nodes|)
  {
    hide TreeState.Valid, Rooted;
    assert Shift(stack + [i], lo, |s0.nodes|) == Shift(stack, lo, |s0.nodes|) + [|s.nodes|];
  }

  lemma MoveCopiesContents(s0: TreeState, s: TreeState, src: seq<Node>, lo: nat, i: nat, stack: seq<nat>)
    requires ReadyToMove(s0, s, src, lo, i, stack) && ContentsCopied(src, lo, i, s.nodes, |s0.nodes|)
    ensures MoveState(s, src[i]).Valid()
    ensures ContentsCopied(src, lo, i + 1, MoveState(s, src[i]).nodes, |s0.nodes|)
  {
    MoveKeepsValid(s, src[i]);
    MovedIsCopy(s, src[i]);
    hide Chain, ContextsAlong, ViewsAlong, CopyOf, ContentsCopied;
    CopiesStay(src, lo, i, s.nodes, MovedNode(s, src[i]), |s0.nodes|);
  }

  lemma MoveCopiesParent(s0: TreeState, s: TreeState, src: seq<Node>, lo: nat, i: nat, before: seq<nat>,
                         stack: seq<nat>)
    requires ReadyToMove(s0, s, src, lo, i, stack) && PoppedTo(before, stack, src[i].parent)
    requires ParentsCopied(src, lo, i, s.nodes, |s0.nodes|, s0.Active()) <==> Preorder(src, lo, i)
    requires Preorder(src, lo, i) ==> before == ExpectedStack(src, lo, i)
    ensures ParentsCopied(src, lo, i + 1, MoveState(s, src[i]).nodes, |s0.nodes|, s0.Active())
       <==> Preorder(src, lo, i + 1)
    ensures Preorder(src, lo, i + 1) ==> stack + [i] == ExpectedStack(src, lo, i + 1)
  {
    hide TreeState.Valid, Rooted, RangeChain, CopiedParent, PushedParent, ExpectedStack, PoppedTo, ParentInRange;
    var base, outside := |s0.nodes|, s0.Active();
    var nodes' := MoveState(s, src[i]).nodes;
    ActiveAfterPops(s0, s, src, lo, i, stack);
    assert nodes'[Refreshed(i, lo, base)].parent == PushedParent(stack, lo, base, outside);
    assert ParentsCopied(src, lo, i + 1, nodes', base, outside)
      <==> ParentsCopied(src, lo, i, s.nodes, base, outside)
           && nodes'[Refreshed(i, lo, base)].parent == CopiedParent(src[i], lo, base, outside) by {
      ParentsSnoc(src, lo, i, s.nodes, MovedNode(s, src[i]), base, outside);
    }
    if Preorder(src, lo, i) {
      PreorderStep(src, lo, i, before, stack, base, outside);
    }
  }

  lemma ParentsSnoc(src: seq<Node>, lo: nat, i: nat, nodes: seq<Node>, more: Node, base: nat, outside: Option<nat>)
    requires lo <= i < |src| && |nodes| == base + i - lo
    ensures ParentsCopied(src, lo, i + 1, nodes + [more], base, outside)
       <==> ParentsCopied(src, lo, i, nodes, base, outside) && more.parent == CopiedParent(src[i], lo, base, outside)
  {
    hide CopiedParent;
    var nodes' := nodes + [more];
    assert nodes'[Refreshed(i, lo, base)] == more;
    if ParentsCopied(src, lo, i + 1, nodes', base, outside) {
      forall j | lo <= j < i
        ensures Refreshed(j, lo, base) < |nodes|
          && nodes[Refreshed(j, lo, base)].parent == CopiedParent(src[j], lo, base, outside)
      {
        assert nodes'[Refreshed(j, lo, base)] == nodes[Refreshed(j, lo, base)];
      }
    }
  }

  lemma ReuseStep(s0: TreeState, s: TreeState, s1: TreeState, src: seq<Node>, lo: nat, i: nat, before: seq<nat>,
                  stack: seq<nat>)
    requires s0.Valid() && Reusing(s0, s, src, lo, i, before) && i < |src|
    requires s1.Valid() && s1.nodes == s.nodes && OrderKept(s0, s1)
    requires PoppedTo(before, stack, src[i].parent) && stack <= before
    requires forall k :: 0 <= k < |stack| ==> lo <= stack[k]
    requires s1.nodeStack == s0.nodeStack + Shift(stack, lo, |s0.nodes|)
    ensures Reusing(s0, MoveState(s1, src[i]), src, lo, i + 1, stack + [i])
    ensures OrderKept(s0, MoveState(s1, src[i]))
    ensures MoveState(s1, src[i]).nodes == s1.nodes + [MovedNode(s1, src[i])]
  {
    hide TreeState.Valid, Rooted, ContentsCopied, ParentsCopied, Preorder, ExpectedStack, PoppedTo, OrderKept;
    ActiveInTree(s0);
    MoveCopiesContents(s0, s1, src, lo, i, stack);
    MoveCopiesParent(s0, s1, src, lo, i, before, stack);
    ActiveAfterPops(s0, s1, src, lo, i, stack);
    MoveOrderKept(s0, s1, src[i]);
  }

  lemma ReuseStart(s0: TreeState, src: seq<Node>, lo: nat)
    requires s0.Valid() && Rooted(src) && lo <= |src|
    ensures Reusing(s0, s0, src, lo, lo, [])
  {
  }

  lemma ActiveInTree(s: TreeState)
    requires s.Valid()
    ensures s.Active().Some? ==> s.Active().value < |s.nodes|
  {
  }

  lemma ReusingFacts(s0: TreeState, s: TreeState, src: seq<Node>, lo: nat, i: nat, stack: seq<nat>)
    requires Reusing(s0, s, src, lo, i, stack)
    ensures s.Valid() && s0.nodes <= s.nodes && |s.nodes| == |s0.nodes| + i - lo
    ensures forall k :: 0 <= k < |stack| ==> lo <= stack[k] < i
    ensures s.nodeStack == s0.nodeStack + Shift(stack, lo, |s0.nodes|)
    ensures Rooted(src) && Rooted(s.nodes) && i <= |src| && ContentsCopied(src, lo, i, s.nodes, |s0.nodes|)
    ensures ParentsCopied(src, lo, i, s.nodes, |s0.nodes|, s0.Active()) <==> Preorder(src, lo, i)
  {
  }

  // With the node stack back to what it was, so are the other two.
  lemma StacksRestored(s0: TreeState, s: TreeState)
    requires s0.Valid() && s.Valid() && s0.nodes <= s.nodes && s.nodeStack == s0.nodeStack
    ensures s.contextStack == s0.contextStack && s.viewStack == s0.viewStack
  {
    hide Chain, ContextsAlong, ViewsAlong, Rooted;
    PathInTree(s0);
    AlongFrame(s0.nodes, s.nodes, s0.nodeStack);
  }

  // ---------------------------------------------------------------------------------------
  // The class
  // ---------------------------------------------------------------------------------------

  class DispatchTree {
    var nodeStack: seq<nat>
    var contextStack: seq<Context>
    var viewStack: seq<ViewId>
    var nodes: seq<Node>
    var focusableNodeIds: map<FocusId, nat>
    var viewNodeIds: map<ViewId, nat>

    ghost function State(): TreeState
      reads this
    {
      TreeState(nodes, nodeStack, contextStack, viewStack)
    }

    ghost predicate Valid()
      reads this
    {
      State().Valid()
    }

    constructor ()
      ensures Valid() && nodes == [] && nodeStack == []
      ensures focusableNodeIds == map[] && viewNodeIds == map[]
    {
      nodeStack, contextStack, viewStack, nodes := [], [], [], [];
      focusableNodeIds, viewNodeIds := map[], map[];
    }

    method Clear()
      modifies this
      ensures Valid() && nodes == [] && nodeStack == []
      ensures focusableNodeIds == map[] && viewNodeIds == map[]
    {
      nodeStack, contextStack, viewStack, nodes := [], [], [], [];
      focusableNodeIds, viewNodeIds := map[], map[];
    }

    method PushNode() returns (id: nat)
      requires Valid()
      modifies this`nodes, this`nodeStack
      ensures Valid() && id == |old(nodes)| && State() == PushNodeState(old(State()))
    {
      hide Chain, ContextsAlong, ViewsAlong;
      PushKeepsValid(State());
      var parent := Last(nodeStack);
      id := |nodes|;
      nodes := nodes + [EMPTY_NODE.(parent := parent)];
      nodeStack := nodeStack + [id];
    }

    method PopNode()
      requires Valid() && nodeStack != []
      modifies this`nodeStack, this`contextStack, this`viewStack
      ensures Valid() && nodeStack == old(nodeStack)[..|old(nodeStack)| - 1]
    {
      hide Chain, ContextsAlong, ViewsAlong, Rooted;
      PopKeepsValid(State());
      var node := nodes[nodeStack[|nodeStack| - 1]];
      if node.context.Some? {
        contextStack := contextStack[..|contextStack| - 1];
      }
      if node.viewId.Some? {
        viewStack := viewStack[..|viewStack| - 1];
      }
      nodeStack := nodeStack[..|nodeStack| - 1];
    }

    /** From any active node to any other: all three stacks are those of the new node's chain. */
    method SetActiveNode(id: nat)
      requires Valid() && id < |nodes|
      modifies this`nodeStack, this`contextStack, this`viewStack
      ensures Valid() && State() == ActiveState(old(State()), id)
    {
      hide Chain, ContextsAlong, ViewsAlong;
      ChainUnfolds(nodes, id);
      ChainIsParentPath(nodes, id);
      var nextNodeParent := nodes[id].parent;
      while Last(nodeStack) != nextNodeParent && nodeStack != []
        invariant Valid()
        decreases |nodeStack|
      {
        PopNode();
      }
      if Last(nodeStack) == nextNodeParent {
        AlongSnoc(nodes, nodeStack, id);
        nodeStack := nodeStack + [id];
        var activeNode := nodes[id];
        if activeNode.viewId.Some? {
          viewStack := viewStack + [activeNode.viewId.value];
        }
        if activeNode.context.Some? {
          contextStack := contextStack + [activeNode.context.value];
        }
      } else {
        Rebuild(id);
      }
    }

    // The other branch of `SetActiveNode`: the stacks are filled from the node up, then reversed.
    method Rebuild(id: nat)
      requires Valid() && id < |nodes| && nodeStack == []
      modifies this`nodeStack, this`contextStack, this`viewStack
      ensures Valid() && State() == ActiveState(old(State()), id)
    {
      hide Chain, ContextsAlong, ViewsAlong, Climbing;
      ghost var path := Chain(nodes, id);
      ChainIsParentPath(nodes, id);
      AlongEmpty(nodes);
      assert contextStack == [] && viewStack == [];
      ClimbStart(nodes, id);
      var current: Option<nat> := Some(id);
      while current.Some?
        invariant current.Some? ==> current.value < |nodes|
        invariant Climbing(nodes, path, current, nodeStack, contextStack, viewStack)
        decreases if current.Some? then current.value + 1 else 0
      {
        var node := nodes[current.value];
        ClimbStep(nodes, path, current.value, nodeStack, contextStack, viewStack);
        contextStack := contextStack + ToSeq(node.context);
        viewStack := viewStack + ToSeq(node.viewId);
        nodeStack := nodeStack + [current.value];
        current := node.parent;
      }
      ClimbEnd(nodes, path, nodeStack, contextStack, viewStack);
      contextStack := Reversed(contextStack);
      viewStack := Reversed(viewStack);
      nodeStack := Reversed(nodeStack);
      ActiveIsValid(State(), id);
    }

    /** At most once per node: a second context on the same node breaks the correspondence. */
    method SetKeyContext(context: Context)
      requires Valid() && nodeStack != []
      modifies this`nodes, this`contextStack
      ensures State() == SetContextState(old(State()), context)
      ensures Valid() <==> old(nodes)[nodeStack[|nodeStack| - 1]].context.None?
    {
      SetContextKeepsValid(State(), context);
      var id := nodeStack[|nodeStack| - 1];
      nodes := nodes[id := nodes[id].(context := Some(context))];
      contextStack := contextStack + [context];
    }

    method SetFocusId(focusId: FocusId)
      requires Valid() && nodeStack != []
      modifies this`nodes, this`focusableNodeIds
      ensures Valid()
      ensures var id := nodeStack[|nodeStack| - 1];
        && nodes == old(nodes)[id := old(nodes)[id].(focusId := Some(focusId))]
        && focusableNodeIds == old(focusableNodeIds)[focusId := id]
    {
      hide Chain, ContextsAlong, ViewsAlong, Rooted;
      var id := nodeStack[|nodeStack| - 1];
      RewriteActive(State(), nodes[id].(focusId := Some(focusId)));
      nodes := nodes[id := nodes[id].(focusId := Some(focusId))];
      focusableNodeIds := focusableNodeIds[focusId := id];
    }

    method SetViewId(viewId: ViewId)
      requires Valid() && nodeStack != []
      modifies this`nodes, this`viewStack, this`viewNodeIds
      ensures State() == SetViewState(old(State()), viewId)
      ensures Valid() <==> old(nodes)[nodeStack[|nodeStack| - 1]].viewId.None? || Last(old(viewStack)) == Some(viewId)
      ensures viewNodeIds == if Last(old(viewStack)) == Some(viewId) then old(viewNodeIds)
                             else old(viewNodeIds)[viewId := nodeStack[|nodeStack| - 1]]
    {
      SetViewKeepsValid(State(), viewId);
      if Last(viewStack) != Some(viewId) {
        var id := nodeStack[|nodeStack| - 1];
        nodes := nodes[id := nodes[id].(viewId := Some(viewId))];
        viewNodeIds := viewNodeIds[viewId := id];
        viewStack := viewStack + [viewId];
      }
    }

    /** Moves one node over: its listeners are taken out of the source node, which keeps the rest. */
    method MoveNode(source: Node) returns (emptied: Node)
      requires Valid()
      modifies this
      ensures Valid() && State() == MoveState(old(State()), source)
      ensures emptied == Emptied(source)
      ensures focusableNodeIds == AddFocus(old(focusableNodeIds), source, |old(nodes)|)
      ensures viewNodeIds == AddView(old(viewNodeIds), nodes[|old(nodes)|], |old(nodes)|)
    {
      hide Chain, ContextsAlong, ViewsAlong, Rooted;
      ghost var s := State();
      MoveKeepsValid(s, source);
      var id := PushNode();
      FillNode(source, s);
      var filled := nodes[id];
      nodes := nodes[id := Node(source.keyListeners, source.actionListeners, source.modifiersChangedListeners,
                                filled.context, filled.focusId, filled.viewId, filled.parent)];
      assert State() == MoveState(s, source);
      emptied := Emptied(source);
    }

    // The three `if let` of `MoveNode`: the fresh active node gets context, focus id and view id.
    method FillNode(source: Node, ghost s: TreeState)
      requires State() == PushNodeState(s) && Valid()
      modifies this
      ensures var id := |s.nodes|;
        && nodes == s.nodes + [Node([], [], [], source.context, source.focusId, MovedView(s, source), s.Active())]
        && nodeStack == s.nodeStack + [id]
        && contextStack == s.contextStack + ToSeq(source.context)
        && viewStack == s.viewStack + ToSeq(MovedView(s, source))
        && focusableNodeIds == AddFocus(old(focusableNodeIds), source, id)
        && viewNodeIds == AddView(old(viewNodeIds), nodes[id], id)
    {
      hide Chain, ContextsAlong, ViewsAlong, Rooted;
      if source.context.Some? {
        SetKeyContext(source.context.value);
      }
      assert nodes == s.nodes + [EMPTY_NODE.(parent := s.Active(), context := source.context)];
      if source.focusId.Some? {
        SetFocusId(source.focusId.value);
      }
      assert nodes == s.nodes + [EMPTY_NODE.(parent := s.Active(), context := source.context,
        focusId := source.focusId)];
      if source.viewId.Some? {
        SetViewId(source.viewId.value);
      }
    }

    // The inner loop of `ReuseSubtree`: both stacks are popped until `parent` is on top.
    method PopTo(sourceStack: seq<nat>, parent: Option<nat>, lo: nat, base: nat, ghost s0: TreeState)
      returns (stack: seq<nat>)
      requires Valid() && forall k :: 0 <= k < |sourceStack| ==> lo <= sourceStack[k]
      requires base == |s0.nodes| && OrderKept(s0, State())
      requires nodeStack == s0.nodeStack + Shift(sourceStack, lo, base)
      modifies this`nodeStack, this`contextStack, this`viewStack
      ensures Valid() && PoppedTo(sourceStack, stack, parent) && OrderKept(s0, State())
      ensures stack <= sourceStack
      ensures nodeStack == s0.nodeStack + Shift(stack, lo, base)
    {
      hide TreeState.Valid, OrderKept;
      stack := sourceStack;
      while stack != [] && parent != Some(stack[|stack| - 1])
        invariant Valid() && stack <= sourceStack && OrderKept(s0, State())
        invariant nodeStack == s0.nodeStack + Shift(stack, lo, base)
        invariant forall k :: |stack| <= k < |sourceStack| ==> parent != Some(sourceStack[k])
      {
        ghost var s := State();
        stack := stack[..|stack| - 1];
        PopNode();
        PopOrderKept(s0, s, State());
      }
    }

    /** Moves the nodes `lo..hi` of another tree over, under the active node. Contents carry over and
        the listeners leave the source; parents carry over under the shift exactly when the range is
        in preorder; and the three stacks are as before. */
    method ReuseSubtree(lo: nat, hi: nat, source: DispatchTree, focus: Option<FocusId>) returns (reused: ReusedSubtree)
      requires Valid() && source != this && lo <= hi <= |source.nodes| && Rooted(source.nodes)
      modifies this, source`nodes
      ensures Valid()
      ensures nodeStack == old(nodeStack) && contextStack == old(contextStack) && viewStack == old(viewStack)
      ensures |nodes| == |old(nodes)| + hi - lo && old(nodes) <= nodes
      ensures reused == ReusedSubtree(lo, hi, |old(nodes)|, |nodes|, reused.containsFocus)
      ensures reused.ContentsMoved(old(source.nodes), nodes)
      ensures reused.ParentsMoved(old(source.nodes), nodes, Last(nodeStack)) <==> Preorder(old(source.nodes), lo, hi)
      ensures forall from: nat :: from <= |old(nodes)| && InOrder(old(State()), from) ==> InOrder(State(), from)
      ensures |source.nodes| == |old(source.nodes)|
      ensures forall i :: 0 <= i < |source.nodes| ==>
        source.nodes[i] == if lo <= i < hi then Emptied(old(source.nodes)[i]) else old(source.nodes)[i]
      ensures focusableNodeIds == FocusAfter(old(focusableNodeIds), old(source.nodes), lo, hi, |old(nodes)|)
      ensures viewNodeIds == ViewsAfter(old(viewNodeIds), nodes, |old(nodes)|, |nodes|)
      ensures reused.containsFocus <==>
        exists i :: lo <= i < hi && old(source.nodes)[i].focusId.Some? && old(source.nodes)[i].focusId == focus
    {
      hide TreeState.Valid, Rooted, Reusing, Shift, MoveState, ContentsCopied, ParentsCopied, Preorder, OrderKept,
        ReusedSubtree.ContentsMoved, ReusedSubtree.ParentsMoved, InOrder, AddView, AddFocus;
      ghost var s0, src := State(), source.nodes;
      ReuseStart(s0, src, lo);
      OrderKeptAtStart(s0);
      var base := |nodes|;
      var containsFocus := false;
      var sourceStack: seq<nat> := [];
      var i := lo;
      while i < hi
        invariant lo <= i <= hi && |source.nodes| == |src|
        invariant Reusing(s0, State(), src, lo, i, sourceStack)
        invariant forall j :: 0 <= j < |src| ==> source.nodes[j] == if lo <= j < i then Emptied(src[j]) else src[j]
        invariant OrderKept(s0, State()) && base + i - lo == |nodes|
        invariant focusableNodeIds == FocusAfter(old(focusableNodeIds), src, lo, i, base)
        invariant viewNodeIds == ViewsAfter(old(viewNodeIds), nodes, base, |nodes|)
        invariant containsFocus <==> exists j :: lo <= j < i && src[j].focusId.Some? && src[j].focusId == focus
      {
        var sourceNode := source.nodes[i];
        if sourceNode.focusId.Some? && sourceNode.focusId == focus {
          containsFocus := true;
        }
        ghost var before := nodes;
        assert |nodes| == Refreshed(i, lo, base);
        var emptied;
        sourceStack, emptied := ReuseNode(lo, i, sourceStack, sourceNode, base, s0, src);
        assert nodes == before + [nodes[|before|]];
        ViewsAfterSnoc(old(viewNodeIds), before, nodes[|before|], base);
        source.nodes := source.nodes[i := emptied];
        i := i + 1;
      }
      ReusingFacts(s0, State(), src, lo, hi, sourceStack);
      PopAll(sourceStack, lo, base, s0);
      StacksRestored(s0, State());
      reused := ReusedSubtree(lo, hi, base, base + hi - lo, containsFocus);
      CopiedIsMoved(reused, src, nodes, s0.Active());
      FromOrderKept(s0, State());
    }

    // The body of the loop of `ReuseSubtree`: pops, then moves the node.
    method ReuseNode(lo: nat, i: nat, sourceStack: seq<nat>, sourceNode: Node, base: nat, ghost s0: TreeState,
                     ghost src: seq<Node>)
      returns (stack: seq<nat>, emptied: Node)
      requires Reusing(s0, State(), src, lo, i, sourceStack) && i < |src| && sourceNode == src[i]
      requires base == |s0.nodes| && s0.Valid() && OrderKept(s0, State())
      modifies this
      ensures Reusing(s0, State(), src, lo, i + 1, stack) && OrderKept(s0, State())
      ensures |nodes| == |old(nodes)| + 1 && nodes[..|old(nodes)|] == old(nodes)
      ensures viewNodeIds == AddView(old(viewNodeIds), nodes[|old(nodes)|], |old(nodes)|)
      ensures emptied == Emptied(sourceNode)
      ensures focusableNodeIds == AddFocus(old(focusableNodeIds), sourceNode, |old(nodes)|)
    {
      hide TreeState.Valid, Rooted, Reusing, Shift, OrderKept, AddFocus, AddView, PoppedTo, Emptied, MoveState,
        MovedNode, Chain, ContextsAlong, ViewsAlong, InOrder;
      ghost var s := State();
      ReusingFacts(s0, s, src, lo, i, sourceStack);
      stack := PopTo(sourceStack, sourceNode.parent, lo, base, s0);
      ReuseStep(s0, s, State(), src, lo, i, sourceStack, stack);
      emptied := MoveReused(sourceNode, s0, src, lo, i, stack);
      stack := stack + [i];
    }

    method MoveReused(sourceNode: Node, ghost s0: TreeState, ghost src: seq<Node>, ghost lo: nat, ghost i: nat,
                      ghost stack: seq<nat>)
      returns (emptied: Node)
      requires Valid() && Reusing(s0, MoveState(State(), sourceNode), src, lo, i + 1, stack + [i])
      requires OrderKept(s0, MoveState(State(), sourceNode))
      modifies this
      ensures Reusing(s0, State(), src, lo, i + 1, stack + [i]) && OrderKept(s0, State())
      ensures |nodes| == |old(nodes)| + 1 && nodes[..|old(nodes)|] == old(nodes)
      ensures viewNodeIds == AddView(old(viewNodeIds), nodes[|old(nodes)|], |old(nodes)|)
      ensures emptied == Emptied(sourceNode)
      ensures focusableNodeIds == AddFocus(old(focusableNodeIds), sourceNode, |old(nodes)|)
    {
      hide TreeState.Valid, Reusing, OrderKept, AddFocus, AddView, Emptied, MovedNode;
      emptied := MoveNode(sourceNode);
    }

    method PopAll(sourceStack: seq<nat>, lo: nat, base: nat, ghost s0: TreeState)
      requires Valid() && forall k :: 0 <= k < |sourceStack| ==> lo <= sourceStack[k]
      requires base == |s0.nodes| && OrderKept(s0, State())
      requires nodeStack == s0.nodeStack + Shift(sourceStack, lo, base)
      modifies this`nodeStack, this`contextStack, this`viewStack
      ensures Valid() && nodeStack == s0.nodeStack && OrderKept(s0, State())
    {
      hide TreeState.Valid, OrderKept;
      var stack := sourceStack;
      while stack != []
        invariant Valid() && stack <= sourceStack && OrderKept(s0, State())
        invariant nodeStack == s0.nodeStack + Shift(stack, lo, base)
      {
        ghost var s := State();
        stack := stack[..|stack| - 1];
        PopNode();
        PopOrderKept(s0, s, State());
      }
    }

    /** Cuts the tree off; the ids of the nodes cut off are no longer indexed. */
    method Truncate(length: nat)
      requires Valid() && length <= |nodes|
      modifies this`nodes, this`focusableNodeIds, this`viewNodeIds
      ensures State() == CutState(old(State()), length)
      ensures Valid() <==> (nodeStack != [] ==> nodeStack[|nodeStack| - 1] < length)
      ensures focusableNodeIds == old(focusableNodeIds) - FocusIds(old(nodes)[length..])
      ensures viewNodeIds == old(viewNodeIds) - ViewIds(old(nodes)[length..])
    {
      CutKeepsValid(State(), length);
      hide Chain, ContextsAlong, ViewsAlong, TreeState.Valid, FocusIds, ViewIds;
      var cut := nodes[length..];
      NoIds(focusableNodeIds, viewNodeIds);
      for i := 0 to |cut|
        invariant nodes == old(nodes)
        invariant focusableNodeIds == old(focusableNodeIds) - FocusIds(cut[..i])
        invariant viewNodeIds == old(viewNodeIds) - ViewIds(cut[..i])
      {
        assert cut[..i + 1] == cut[..i] + [cut[i]];
        IdsSnoc(old(focusableNodeIds), old(viewNodeIds), cut[..i], cut[i]);
        if cut[i].focusId.Some? {
          focusableNodeIds := focusableNodeIds - {cut[i].focusId.value};
        }
        if cut[i].viewId.Some? {
          viewNodeIds := viewNodeIds - {cut[i].viewId.value};
        }
      }
      assert cut[..|cut|] == cut;
      nodes := nodes[..length];
    }

    method DispatchPath(target: nat) returns (path: seq<nat>)
      requires Rooted(nodes) && target < |nodes|
      ensures path == Chain(nodes, target)
    {
      path := [];
      var current: Option<nat> := Some(target);
      while current.Some?
        invariant current.Some? ==> current.value < |nodes|
        invariant ChainOf(nodes, current) + Reversed(path) == Chain(nodes, target)
        decreases if current.Some? then current.value + 1 else 0
      {
        ChainUnfolds(nodes, current.value);
        ReversedSnoc(path, current);
        path := path + [current.value];
        current := nodes[current.value].parent;
      }
      path := Reversed(path);
    }
  }

  function Reversed<T>(s: seq<T>): seq<T> {
    seq(|s|, i requires 0 <= i < |s| => s[|s| - 1 - i])
  }

  // On the way from a node to its root: what is still above, then what was collected, is the path.
  ghost predicate Climbing(nodes: seq<Node>, path: seq<nat>, current: Option<nat>, ns: seq<nat>, cs: seq<Context>,
                           vs: seq<ViewId>)
    requires Rooted(nodes) && (current.Some? ==> current.value < |nodes|)
  {
    && ChainOf(nodes, current) + Reversed(ns) == path
    && ContextsAlong(nodes, ChainOf(nodes, current)) + Reversed(cs) == ContextsAlong(nodes, path)
    && ViewsAlong(nodes, ChainOf(nodes, current)) + Reversed(vs) == ViewsAlong(nodes, path)
  }

  lemma ClimbStart(nodes: seq<Node>, id: nat)
    requires Rooted(nodes) && id < |nodes|
    ensures Climbing(nodes, Chain(nodes, id), Some(id), [], [], [])
  {
    hide Chain, ContextsAlong, ViewsAlong;
  }

  lemma ClimbStep(nodes: seq<Node>, path: seq<nat>, id: nat, ns: seq<nat>, cs: seq<Context>, vs: seq<ViewId>)
    requires Rooted(nodes) && id < |nodes| && Climbing(nodes, path, Some(id), ns, cs, vs)
    ensures Climbing(nodes, path, nodes[id].parent, ns + [id], cs + ToSeq(nodes[id].context),
      vs + ToSeq(nodes[id].viewId))
  {
    hide Chain, ContextsAlong, ViewsAlong, Reversed;
    var node := nodes[id];
    var above := ChainOf(nodes, node.parent);
    ChainUnfolds(nodes, id);
    AlongSnoc(nodes, above, id);
    Carried(above, Some(id), ns);
    Carried(ContextsAlong(nodes, above), node.context, cs);
    Carried(ViewsAlong(nodes, above), node.viewId, vs);
  }

  lemma ClimbEnd(nodes: seq<Node>, path: seq<nat>, ns: seq<nat>, cs: seq<Context>, vs: seq<ViewId>)
    requires Rooted(nodes) && Climbing(nodes, path, None, ns, cs, vs)
    ensures Reversed(ns) == path && Reversed(cs) == ContextsAlong(nodes, path)
      && Reversed(vs) == ViewsAlong(nodes, path)
  {
    AlongEmpty(nodes);
    hide Chain, ContextsAlong, ViewsAlong, Reversed;
    assert [] + Reversed(ns) == Reversed(ns) && [] + Reversed(cs) == Reversed(cs) && [] + Reversed(vs) == Reversed(vs);
  }

  lemma Carried<T>(above: seq<T>, x: Option<T>, stack: seq<T>)
    ensures above + Reversed(stack + ToSeq(x)) == (above + ToSeq(x)) + Reversed(stack)
  {
    ReversedSnoc(stack, x);
    hide Reversed, ToSeq;
  }

  lemma ReversedSnoc<T>(s: seq<T>, x: Option<T>)
    ensures Reversed(s + ToSeq(x)) == ToSeq(x) + Reversed(s)
  {
  }

  lemma NoIds(focused: map<FocusId, nat>, viewed: map<ViewId, nat>)
    ensures focused - FocusIds([]) == focused && viewed - ViewIds([]) == viewed
  {
  }

  lemma IdsSnoc(focused: map<FocusId, nat>, viewed: map<ViewId, nat>, nodes: seq<Node>, node: Node)
    ensures focused - FocusIds(nodes + [node])
         == if node.focusId.Some? then focused - FocusIds(nodes) - {node.focusId.value} else focused - FocusIds(nodes)
    ensures viewed - ViewIds(nodes + [node])
         == if node.viewId.Some? then viewed - ViewIds(nodes) - {node.viewId.value} else viewed - ViewIds(nodes)
  {
    assert FocusIds(nodes + [node]) == FocusIds(nodes) + (if node.focusId.Some? then {node.focusId.value} else {});
    assert ViewIds(nodes + [node]) == ViewIds(nodes) + (if node.viewId.Some? then {node.viewId.value} else {});
    hide FocusIds, ViewIds;
  }

  lemma AlongEmpty(nodes: seq<Node>)
    ensures ContextsAlong(nodes, []) == [] && ViewsAlong(nodes, []) == []
  {
  }
}
