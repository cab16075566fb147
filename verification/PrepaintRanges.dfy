/** Which ranges of a frame's dispatch tree can be reused with their parents (src/window.rs, src/element.rs):
    those that were recorded between the start and the end of one prepaint. */
module PrepaintRanges {
  import opened Common
  import opened DispatchTrees

  // What a prepaint does to the tree: nodes of elements, of reused subtrees, and of abandoned layouts.
  datatype TreeOp =
    | Push
    | Pop
    | SetContext(context: Context)
    | SetView(viewId: ViewId)
    | Rewrite(node: Node)
    | Move(source: Node)
    | Truncate(length: nat)

  /** Inside a prepaint that began with `lo` nodes: only its own nodes are popped or cut off, and a node
      gets its context and view id once. Focus ids and listeners are rewritten freely. */
  ghost predicate Allowed(s: TreeState, op: TreeOp, lo: nat) {
    && s.Valid()
    && (op.Pop? ==> s.nodeStack != [] && s.nodeStack[|s.nodeStack| - 1] >= lo)
    && (op.SetContext? || op.SetView? || op.Rewrite? ==> s.nodeStack != [])
    && (op.SetContext? ==> ActiveNode(s).context.None?)
    && (op.SetView? ==> ActiveNode(s).viewId.None? || Last(s.viewStack) == Some(op.viewId))
    && (op.Rewrite? ==>
          && op.node.parent == ActiveNode(s).parent
          && op.node.context == ActiveNode(s).context && op.node.viewId == ActiveNode(s).viewId)
    && (op.Truncate? ==> lo <= op.length <= |s.nodes| && (s.Active().Some? ==> s.Active().value < op.length))
  }

  ghost function ActiveNode(s: TreeState): Node
    requires s.Valid() && s.nodeStack != []
  {
    s.nodes[s.nodeStack[|s.nodeStack| - 1]]
  }

  ghost function After(s: TreeState, op: TreeOp, lo: nat): TreeState
    requires Allowed(s, op, lo)
  {
    match op
    case Push => PushNodeState(s)
    case Pop => PopKeepsValid(s); PopNodeState(s)
    case SetContext(context) => SetContextState(s, context)
    case SetView(viewId) => SetViewState(s, viewId)
    case Rewrite(node) => s.(nodes := s.nodes[s.nodeStack[|s.nodeStack| - 1] := node])
    case Move(source) => MoveState(s, source)
    case Truncate(length) => CutState(s, length)
  }

  /** The tree goes from `s` to `s'` by the operations of a prepaint that began with `lo` nodes. */
  ghost predicate Prepaint(s: TreeState, ops: seq<TreeOp>, lo: nat, s': TreeState)
    decreases |ops|
  {
    if ops == [] then s == s'
    else Allowed(s, ops[0], lo) && Prepaint(After(s, ops[0], lo), ops[1..], lo, s')
  }

  /** Every operation of a prepaint keeps the stacks in step and the nodes of the prepaint in order. */
  lemma StepKeepsOrder(s: TreeState, op: TreeOp, lo: nat)
    requires Allowed(s, op, lo) && InOrder(s, lo)
    ensures After(s, op, lo).Valid() && InOrder(After(s, op, lo), lo)
  {
    hide TreeState.Valid, InOrder;
    match op
    case Push => PushKeepsOrder(s, lo);
    case Pop =>
      PopKeepsValid(s);
      PopKeepsOrder(s, lo, PopNodeState(s));
    case Move(source) => MoveKeepsOrder(s, lo, source);
    case Truncate(length) =>
      CutKeepsValid(s, length);
      CuttingKeepsOrder(s, lo, length);
    case SetContext(context) =>
      SetContextKeepsValid(s, context);
      RewriteInOrder(s, op, lo);
    case SetView(viewId) =>
      SetViewKeepsValid(s, viewId);
      RewriteInOrder(s, op, lo);
    case Rewrite(node) =>
      RewriteIsValid(s, node);
      RewriteInOrder(s, op, lo);
  }

  lemma RewriteIsValid(s: TreeState, node: Node)
    requires Allowed(s, Rewrite(node), 0)
    ensures After(s, Rewrite(node), 0).Valid()
  {
    RewriteActive(s, node);
    hide Chain, ContextsAlong, ViewsAlong;
  }

  lemma RewriteInOrder(s: TreeState, op: TreeOp, lo: nat)
    requires Allowed(s, op, lo) && InOrder(s, lo) && (op.SetContext? || op.SetView? || op.Rewrite?)
    requires After(s, op, lo).Valid()
    ensures InOrder(After(s, op, lo), lo)
  {
    hide Chain, ContextsAlong, ViewsAlong, InOrder;
    RewriteTouchesNoParent(s, op, lo);
    hide Allowed, After;
    RewritingKeepsOrder(s, lo, After(s, op, lo));
  }

  lemma RewriteTouchesNoParent(s: TreeState, op: TreeOp, lo: nat)
    requires Allowed(s, op, lo) && (op.SetContext? || op.SetView? || op.Rewrite?)
    ensures var s' := After(s, op, lo);
      && s'.nodeStack == s.nodeStack && |s'.nodes| == |s.nodes|
      && forall i :: 0 <= i < |s.nodes| ==> s'.nodes[i].parent == s.nodes[i].parent
  {
    hide Chain, ContextsAlong, ViewsAlong, Rooted;
  }

  lemma {:induction false} PrepaintKeepsOrder(s: TreeState, ops: seq<TreeOp>, lo: nat, s': TreeState)
    requires s.Valid() && InOrder(s, lo) && Prepaint(s, ops, lo, s')
    ensures s'.Valid() && InOrder(s', lo)
    decreases |ops|
  {
    hide TreeState.Valid, InOrder, Allowed, After;
    if ops != [] {
      StepKeepsOrder(s, ops[0], lo);
      PrepaintKeepsOrder(After(s, ops[0], lo), ops[1..], lo, s');
    }
  }

  /** Whatever the frame did before, in any order: the range recorded between the start and the end of a
      prepaint is in preorder, and stays so whatever the frame does afterwards to later nodes or to
      anything but parents. So every part of it is reused with its parents. */
  lemma RecordedRangeIsPreorder(s: TreeState, ops: seq<TreeOp>, s': TreeState, final: seq<Node>, from: nat, to: nat)
    requires s.Valid() && Prepaint(s, ops, |s.nodes|, s')
    requires Rooted(final) && |s'.nodes| <= |final|
    requires forall i :: 0 <= i < |s'.nodes| ==> final[i].parent == s'.nodes[i].parent
    requires |s.nodes| <= from <= to <= |s'.nodes|
    ensures Preorder(final, from, to)
  {
    hide Prepaint, Preorder;
    EndIsInOrder(s);
    PrepaintKeepsOrder(s, ops, |s.nodes|, s');
    PreorderFrame(s'.nodes, final, |s.nodes|, |s'.nodes|);
    PreorderPart(final, |s.nodes|, |s'.nodes|, from, to);
  }

  /** A range across two prepaints need not be: two siblings, then a deferred element prepainted under
      the first of them. */
  lemma DeferredElementBreaksOrder(s: TreeState, deferred: TreeState)
    requires s == Siblings() && deferred == PushNodeState(ActiveState(s, 1))
    ensures Rooted(deferred.nodes) && |deferred.nodes| == 4
    ensures !Preorder(deferred.nodes, 0, 4) && Preorder(deferred.nodes, 0, 3) && Preorder(deferred.nodes, 3, 4)
  {
    hide RangeChain, Preorder;
    ChainIsParentPath(s.nodes, 1);
    assert deferred.nodes == s.nodes + [EMPTY_NODE.(parent := Some(1))];
    OutOfOrder(deferred.nodes);
  }

  lemma OutOfOrder(nodes: seq<Node>)
    requires Rooted(nodes) && |nodes| == 4 && nodes[0].parent.None?
    requires nodes[1].parent == Some(0) && nodes[2].parent == Some(0) && nodes[3].parent == Some(1)
    ensures !Preorder(nodes, 0, 4) && Preorder(nodes, 0, 3) && Preorder(nodes, 3, 4)
  {
    assert RangeChain(nodes, 0, 0) == [0];
    assert RangeChain(nodes, 0, 1) == [0, 1];
    assert RangeChain(nodes, 0, 2) == [0, 2];
    assert ParentInRange(nodes[3], 0);
  }

  // A root with two children, as the pushes and pops of their prepaints leave it.
  ghost function Siblings(): (s: TreeState)
    ensures Rooted(s.nodes) && |s.nodes| == 3
  {
    var root := PushNodeState(TreeState([], [], [], []));
    var first := PopNodeState(PushNodeState(root));
    PopNodeState(PushNodeState(first))
  }
}
