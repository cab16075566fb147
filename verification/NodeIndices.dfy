/** The two indices of the dispatch tree (src/key_dispatch.rs), from focus ids and from view ids to nodes:
    which operations keep them in agreement with the nodes. */
module NodeIndices {
  import opened Common
  import opened DispatchTrees

  // The ids that the nodes carry, one index at a time.
  function FocusOf(nodes: seq<Node>): seq<Option<int>> {
    seq(|nodes|, i requires 0 <= i < |nodes| => nodes[i].focusId)
  }

  function ViewOf(nodes: seq<Node>): seq<Option<int>> {
    seq(|nodes|, i requires 0 <= i < |nodes| => nodes[i].viewId)
  }

  /** Every entry names a node that carries its id. */
  ghost predicate Sound(carried: seq<Option<int>>, ids: map<int, nat>) {
    forall id :: id in ids ==> ids[id] < |carried| && carried[ids[id]] == Some(id)
  }

  /** Every id that a node carries has an entry. */
  ghost predicate Complete(carried: seq<Option<int>>, ids: map<int, nat>) {
    forall i :: 0 <= i < |carried| && carried[i].Some? ==> carried[i].value in ids
  }

  ghost predicate Indexed(carried: seq<Option<int>>, ids: map<int, nat>) {
    Sound(carried, ids) && Complete(carried, ids)
  }

  // ---------------------------------------------------------------------------------------
  // One index
  // ---------------------------------------------------------------------------------------

  lemma AppendKeepsIndexed(carried: seq<Option<int>>, ids: map<int, nat>, o: Option<int>)
    requires Indexed(carried, ids)
    ensures Indexed(carried + [o], if o.Some? then ids[o.value := |carried|] else ids)
  {
  }

  /** Giving a node an id keeps the index exactly if its entry under the id it carried before, if that is
      another one, names some other node. */
  lemma SettingKeepsIndexed(carried: seq<Option<int>>, ids: map<int, nat>, n: nat, id: int)
    requires Indexed(carried, ids) && n < |carried|
    ensures Indexed(carried[n := Some(id)], ids[id := n])
       <==> (carried[n].Some? && carried[n].value != id ==> ids[carried[n].value] != n)
  {
    var carried', ids' := carried[n := Some(id)], ids[id := n];
    forall i | 0 <= i < |carried'| && carried'[i].Some? ensures carried'[i].value in ids' {
      if i != n {
        assert carried[i].value in ids;
      }
    }
    if carried[n].Some? && carried[n].value != id {
      var before := carried[n].value;
      assert before in ids && before in ids' && ids'[before] == ids[before];
    }
  }

  // The ids carried from a node on.
  function CarriedFrom(carried: seq<Option<int>>, length: nat): set<int>
    requires length <= |carried|
  {
    set i | length <= i < |carried| && carried[i].Some? :: carried[i].value
  }

  /** Cutting nodes off together with the entries of their ids leaves every entry right; it leaves an entry
      for every carried id exactly if no kept node carries an id of a node cut off. */
  lemma CuttingKeepsIndexed(carried: seq<Option<int>>, ids: map<int, nat>, length: nat)
    requires Indexed(carried, ids) && length <= |carried|
    ensures Sound(carried[..length], ids - CarriedFrom(carried, length))
    ensures Complete(carried[..length], ids - CarriedFrom(carried, length))
       <==> forall i :: 0 <= i < length && carried[i].Some? ==> carried[i].value !in CarriedFrom(carried, length)
  {
    var kept, ids' := carried[..length], ids - CarriedFrom(carried, length);
    forall i | 0 <= i < length && carried[i].Some?
      ensures carried[i].value in ids' <==> carried[i].value !in CarriedFrom(carried, length)
    {
    }
    if Complete(kept, ids') {
      forall i | 0 <= i < length && carried[i].Some? ensures carried[i].value in ids' {
        assert kept[i] == carried[i];
      }
    }
  }

  // ---------------------------------------------------------------------------------------
  // The tree
  // ---------------------------------------------------------------------------------------

  /** Both indices agree with the nodes. */
  ghost predicate BothIndexed(nodes: seq<Node>, focusIds: map<FocusId, nat>, viewIds: map<ViewId, nat>) {
    Indexed(FocusOf(nodes), focusIds) && Indexed(ViewOf(nodes), viewIds)
  }

  lemma EmptyIsIndexed()
    ensures BothIndexed([], map[], map[])
  {
  }

  lemma PushKeepsIndices(s: TreeState, focusIds: map<FocusId, nat>, viewIds: map<ViewId, nat>)
    requires BothIndexed(s.nodes, focusIds, viewIds)
    ensures BothIndexed(PushNodeState(s).nodes, focusIds, viewIds)
  {
    AddedNode(s.nodes, focusIds, viewIds, EMPTY_NODE.(parent := s.Active()));
  }

  /** A node that is added together with the entries of its own ids keeps both indices. */
  lemma AddedNode(nodes: seq<Node>, focusIds: map<FocusId, nat>, viewIds: map<ViewId, nat>, node: Node)
    requires BothIndexed(nodes, focusIds, viewIds)
    ensures BothIndexed(nodes + [node], AddFocus(focusIds, node, |nodes|), AddView(viewIds, node, |nodes|))
  {
    AppendKeepsIndexed(FocusOf(nodes), focusIds, node.focusId);
    AppendKeepsIndexed(ViewOf(nodes), viewIds, node.viewId);
    assert FocusOf(nodes + [node]) == FocusOf(nodes) + [node.focusId];
    assert ViewOf(nodes + [node]) == ViewOf(nodes) + [node.viewId];
    hide Indexed, FocusOf, ViewOf;
  }

  lemma MoveKeepsIndices(s: TreeState, source: Node, focusIds: map<FocusId, nat>, viewIds: map<ViewId, nat>)
    requires BothIndexed(s.nodes, focusIds, viewIds)
    ensures var n, nodes' := |s.nodes|, MoveState(s, source).nodes;
      BothIndexed(nodes', AddFocus(focusIds, source, n), AddView(viewIds, nodes'[n], n))
  {
    AddedNode(s.nodes, focusIds, viewIds, MovedNode(s, source));
  }

  // Adding copies one by one, up to the copy of node `hi`.
  lemma {:induction false} CopiesKeepIndices(source: seq<Node>, lo: nat, hi: nat, nodes': seq<Node>, base: nat,
                                             focusIds: map<FocusId, nat>, viewIds: map<ViewId, nat>)
    requires lo <= hi <= |source| && base + hi - lo <= |nodes'|
    requires BothIndexed(nodes'[..base], focusIds, viewIds)
    requires forall i :: lo <= i < hi ==> nodes'[Refreshed(i, lo, base)].focusId == source[i].focusId
    ensures var n := base + hi - lo;
      BothIndexed(nodes'[..n], FocusAfter(focusIds, source, lo, hi, base), ViewsAfter(viewIds, nodes', base, n))
    decreases hi
  {
    hide BothIndexed;
    if hi > lo {
      CopiesKeepIndices(source, lo, hi - 1, nodes', base, focusIds, viewIds);
      var n := base + hi - lo;
      var node := nodes'[n - 1];
      assert node.focusId == source[hi - 1].focusId by {
        assert Refreshed(hi - 1, lo, base) == n - 1;
      }
      assert nodes'[..n] == nodes'[..n - 1] + [node];
      AddedNode(nodes'[..n - 1], FocusAfter(focusIds, source, lo, hi - 1, base),
                ViewsAfter(viewIds, nodes', base, n - 1), node);
    }
  }

  /** Reusing a subtree keeps both indices. */
  lemma ReuseKeepsIndices(reused: ReusedSubtree, source: seq<Node>, nodes: seq<Node>, nodes': seq<Node>,
                          focusIds: map<FocusId, nat>, viewIds: map<ViewId, nat>)
    requires BothIndexed(nodes, focusIds, viewIds)
    requires reused.oldStart <= reused.oldEnd <= |source| && reused.newStart == |nodes|
    requires |nodes'| == |nodes| + reused.oldEnd - reused.oldStart && nodes <= nodes'
    requires Rooted(nodes') && reused.ContentsMoved(source, nodes')
    ensures BothIndexed(nodes', FocusAfter(focusIds, source, reused.oldStart, reused.oldEnd, |nodes|),
                        ViewsAfter(viewIds, nodes', |nodes|, |nodes'|))
  {
    CopiedFocus(reused, source, nodes');
    hide *;
    assert nodes'[..|nodes|] == nodes && nodes'[..|nodes'|] == nodes';
    CopiesKeepIndices(source, reused.oldStart, reused.oldEnd, nodes', |nodes|, focusIds, viewIds);
  }

  lemma CopiedFocus(reused: ReusedSubtree, source: seq<Node>, nodes': seq<Node>)
    requires reused.oldEnd <= |source| && Rooted(nodes') && reused.ContentsMoved(source, nodes')
    ensures forall i :: reused.oldStart <= i < reused.oldEnd ==>
      && Refreshed(i, reused.oldStart, reused.newStart) < |nodes'|
      && nodes'[Refreshed(i, reused.oldStart, reused.newStart)].focusId == source[i].focusId
  {
    forall i: nat | reused.oldStart <= i < reused.oldEnd
      ensures Refreshed(i, reused.oldStart, reused.newStart) < |nodes'|
      ensures nodes'[Refreshed(i, reused.oldStart, reused.newStart)].focusId == source[i].focusId
    {
      assert reused.RefreshNodeId(i) < |nodes'| && CopyOf(nodes', nodes'[reused.RefreshNodeId(i)], source[i]);
    }
    hide CopyOf;
  }

  /** Setting a focus id, on the active node, keeps the indices exactly if the entry of the focus id the node
      carried before, if that is another one, names some other node. */
  lemma SetFocusKeepsIndices(nodes: seq<Node>, n: nat, focusId: FocusId,
                             focusIds: map<FocusId, nat>, viewIds: map<ViewId, nat>)
    requires BothIndexed(nodes, focusIds, viewIds) && n < |nodes|
    ensures var before := nodes[n].focusId;
      && (before.Some? ==> before.value in focusIds)
      && (BothIndexed(nodes[n := nodes[n].(focusId := Some(focusId))], focusIds[focusId := n], viewIds)
          <==> (before.Some? && before.value != focusId ==> focusIds[before.value] != n))
  {
    var nodes' := nodes[n := nodes[n].(focusId := Some(focusId))];
    assert FocusOf(nodes)[n] == nodes[n].focusId;
    assert FocusOf(nodes') == FocusOf(nodes)[n := Some(focusId)] && ViewOf(nodes') == ViewOf(nodes);
    SettingKeepsIndexed(FocusOf(nodes), focusIds, n, focusId);
  }

  /** Setting a view id for the first time on a node keeps the indices. */
  lemma SetViewKeepsIndices(nodes: seq<Node>, n: nat, viewId: ViewId,
                            focusIds: map<FocusId, nat>, viewIds: map<ViewId, nat>)
    requires BothIndexed(nodes, focusIds, viewIds) && n < |nodes|
    ensures var before := nodes[n].viewId;
      && (before.Some? ==> before.value in viewIds)
      && (BothIndexed(nodes[n := nodes[n].(viewId := Some(viewId))], focusIds, viewIds[viewId := n])
          <==> (before.Some? && before.value != viewId ==> viewIds[before.value] != n))
  {
    var nodes' := nodes[n := nodes[n].(viewId := Some(viewId))];
    assert ViewOf(nodes)[n] == nodes[n].viewId;
    assert ViewOf(nodes') == ViewOf(nodes)[n := Some(viewId)] && FocusOf(nodes') == FocusOf(nodes);
    SettingKeepsIndexed(ViewOf(nodes), viewIds, n, viewId);
  }

  lemma IdsFrom(nodes: seq<Node>, length: nat)
    requires length <= |nodes|
    ensures FocusIds(nodes[length..]) == CarriedFrom(FocusOf(nodes), length)
    ensures ViewIds(nodes[length..]) == CarriedFrom(ViewOf(nodes), length)
    ensures FocusOf(nodes[..length]) == FocusOf(nodes)[..length] && ViewOf(nodes[..length]) == ViewOf(nodes)[..length]
  {
    var cut := nodes[length..];
    forall i | length <= i < |nodes| ensures nodes[i] in cut {
      assert cut[i - length] == nodes[i];
    }
    forall node | node in cut ensures exists i :: length <= i < |nodes| && nodes[i] == node {
      var k :| 0 <= k < |cut| && cut[k] == node;
      assert nodes[length + k] == node;
    }
    forall id | id in FocusIds(cut) ensures id in CarriedFrom(FocusOf(nodes), length) {
      var node :| node in cut && node.focusId == Some(id);
      var i :| length <= i < |nodes| && nodes[i] == node;
      assert FocusOf(nodes)[i] == Some(id);
    }
    forall id | id in ViewIds(cut) ensures id in CarriedFrom(ViewOf(nodes), length) {
      var node :| node in cut && node.viewId == Some(id);
      var i :| length <= i < |nodes| && nodes[i] == node;
      assert ViewOf(nodes)[i] == Some(id);
    }
  }

  /** No kept node carries a focus id or a view id of a node cut off. */
  ghost predicate NothingShared(nodes: seq<Node>, length: nat)
    requires length <= |nodes|
  {
    forall i :: 0 <= i < length ==>
      && (nodes[i].focusId.Some? ==> nodes[i].focusId.value !in FocusIds(nodes[length..]))
      && (nodes[i].viewId.Some? ==> nodes[i].viewId.value !in ViewIds(nodes[length..]))
  }

  /** `truncate` never leaves a wrong entry; it leaves both indices in agreement exactly if no kept node
      carries an id of a node cut off. */
  lemma TruncateKeepsIndices(nodes: seq<Node>, length: nat, focusIds: map<FocusId, nat>, viewIds: map<ViewId, nat>)
    requires BothIndexed(nodes, focusIds, viewIds) && length <= |nodes|
    ensures var focusIds', viewIds' := focusIds - FocusIds(nodes[length..]), viewIds - ViewIds(nodes[length..]);
      && Sound(FocusOf(nodes[..length]), focusIds') && Sound(ViewOf(nodes[..length]), viewIds')
      && (BothIndexed(nodes[..length], focusIds', viewIds') <==> NothingShared(nodes, length))
  {
    IdsFrom(nodes, length);
    CuttingKeepsIndexed(FocusOf(nodes), focusIds, length);
    CuttingKeepsIndexed(ViewOf(nodes), viewIds, length);
    hide FocusIds, ViewIds, CarriedFrom, Complete;
    forall i | 0 <= i < length
      ensures FocusOf(nodes)[i] == nodes[i].focusId && ViewOf(nodes)[i] == nodes[i].viewId
    {
    }
  }
}
