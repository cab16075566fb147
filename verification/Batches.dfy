/** Drawing a finished scene (src/scene.rs): an eight-way merge of the sorted vectors into batches. */
module Batches {
  import opened Common
  import opened Sorting
  import opened Scenes

  const DRAW_ORDER_MAX: nat := 0xFFFF_FFFF

  // A run of one vector. Sprite batches carry their texture.
  datatype Batch = Batch(kind: nat, start: nat, end: nat, textureId: Option<nat>)

  // What `peek` shows of one vector: the order of the next primitive, and the kind.
  datatype Peeked = Peeked(order: Option<nat>, kind: nat) {
    function OrderOrMax(): nat {
      if order.Some? then order.value else DRAW_ORDER_MAX
    }

    function ToKey(): Key {
      Key(OrderOrMax(), kind)
    }
  }

  ghost predicate Cursors(lists: seq<seq<Primitive>>, starts: seq<nat>) {
    && |lists| == KINDS && |starts| == KINDS
    && forall k :: 0 <= k < KINDS ==> starts[k] <= |lists[k]|
  }

  // A finished scene: every vector holds one kind, sorted by order, and no order is the maximum.
  ghost predicate Finished(lists: seq<seq<Primitive>>) {
    && |lists| == KINDS
    && (forall k :: 0 <= k < KINDS ==> Uniform(lists[k], k))
    && (forall k, i :: 0 <= k < KINDS && 0 <= i < |lists[k]| ==> lists[k][i].order < DRAW_ORDER_MAX)
    && (forall k, i, j :: 0 <= k < KINDS && 0 <= i < j < |lists[k]| ==> lists[k][i].order <= lists[k][j].order)
  }

  ghost predicate Uniform(list: seq<Primitive>, kind: nat) {
    forall i :: 0 <= i < |list| ==> list[i].Kind() == kind
  }

  function DrawKey(p: Primitive): Key {
    Key(p.order, p.Kind())
  }

  function Peek(list: seq<Primitive>, start: nat, kind: nat): Peeked {
    Peeked(if start < |list| then Some(list[start].order) else None, kind)
  }

  function PeekAll(lists: seq<seq<Primitive>>, starts: seq<nat>): (r: seq<Peeked>)
    requires |lists| == KINDS && |starts| == KINDS
    ensures |r| == KINDS
  {
    seq(KINDS, k requires 0 <= k < KINDS => Peek(lists[k], starts[k], k))
  }

  // The eight peeked pairs in merge order.
  function Ranked(lists: seq<seq<Primitive>>, starts: seq<nat>): (r: seq<Peeked>)
    requires |lists| == KINDS && |starts| == KINDS
    ensures |r| == KINDS
  {
    SortByIsStableSort(PeekAll(lists, starts), (p: Peeked) => p.ToKey());
    var r := SortBy(PeekAll(lists, starts), (p: Peeked) => p.ToKey());
    assert |r| == |multiset(r)| == |multiset(PeekAll(lists, starts))|;
    r
  }

  function TextureOf(p: Primitive): Option<nat> {
    if p.IsSprite() then Some(p.tile.textureId) else None
  }

  // Where a batch that may take `list[i]` and what follows ends.
  function RunEnd(list: seq<Primitive>, i: nat, kind: nat, bound: Key, textureId: Option<nat>): (end: nat)
    requires i <= |list|
    ensures i <= end <= |list|
    decreases |list| - i
  {
    if i < |list| && Key(list[i].order, kind).Less(bound) && TextureOf(list[i]) == textureId
    then RunEnd(list, i + 1, kind, bound, textureId)
    else i
  }

  function NextBatch(lists: seq<seq<Primitive>>, starts: seq<nat>): (b: Option<Batch>)
    requires Cursors(lists, starts)
    ensures b.Some? ==>
      var Batch(kind, start, end, _) := b.value;
      kind < KINDS && start == starts[kind] && start < end <= |lists[kind]|
  {
    var ranked := Ranked(lists, starts);
    RankedIsMerge(lists, starts);
    var first, second := ranked[0], ranked[1];
    if first.order.None? then None
    else
      var kind := first.kind;
      var start := starts[kind];
      var textureId := TextureOf(lists[kind][start]);
      Some(Batch(kind, start, RunEnd(lists[kind], start + 1, kind, second.ToKey(), textureId), textureId))
  }

  /** The first pair has the least key of all eight, the second the least key of the other seven. */
  lemma RankedIsMerge(lists: seq<seq<Primitive>>, starts: seq<nat>)
    requires Cursors(lists, starts)
    ensures var ranked := Ranked(lists, starts);
            var first, second := ranked[0], ranked[1];
      && first.kind < KINDS && second.kind < KINDS && first.kind != second.kind
      && first == Peek(lists[first.kind], starts[first.kind], first.kind)
      && second == Peek(lists[second.kind], starts[second.kind], second.kind)
      && (forall k :: 0 <= k < KINDS ==> first.ToKey().AtMost(Peek(lists[k], starts[k], k).ToKey()))
      && (forall k :: 0 <= k < KINDS && k != first.kind ==> second.ToKey().AtMost(Peek(lists[k], starts[k], k).ToKey()))
  {
    var ranked := Ranked(lists, starts);
    RankedFromPeeked(lists, starts, 0);
    RankedFromPeeked(lists, starts, 1);
    DistinctStaysDistinct(PeekAll(lists, starts), ranked) by {
      SortByIsStableSort(PeekAll(lists, starts), (p: Peeked) => p.ToKey());
    }
    RankedSorted(lists, starts);
    hide Ranked, Peek, Peeked.ToKey, Key.AtMost;
    forall k | 0 <= k < KINDS
      ensures ranked[0].ToKey().AtMost(Peek(lists[k], starts[k], k).ToKey())
      ensures k != ranked[0].kind ==> ranked[1].ToKey().AtMost(Peek(lists[k], starts[k], k).ToKey())
    {
      var i := PeekedIsRanked(lists, starts, k);
    }
  }

  lemma RankedSorted(lists: seq<seq<Primitive>>, starts: seq<nat>)
    requires Cursors(lists, starts)
    ensures var ranked := Ranked(lists, starts);
      forall i, j :: 0 <= i <= j < KINDS ==> ranked[i].ToKey().AtMost(ranked[j].ToKey())
  {
    SortByIsStableSort(PeekAll(lists, starts), (p: Peeked) => p.ToKey());
    hide SortBy, PeekAll;
  }

  lemma RankedFromPeeked(lists: seq<seq<Primitive>>, starts: seq<nat>, i: nat)
    requires Cursors(lists, starts) && i < KINDS
    ensures var p := Ranked(lists, starts)[i];
      p.kind < KINDS && p == Peek(lists[p.kind], starts[p.kind], p.kind)
  {
    var peeked, ranked := PeekAll(lists, starts), Ranked(lists, starts);
    SortByIsStableSort(peeked, (p: Peeked) => p.ToKey());
    hide SortBy;
    assert ranked[i] in multiset(peeked);
    var j :| 0 <= j < KINDS && peeked[j] == ranked[i];
    PeekKind(lists[j], starts[j], j);
  }

  lemma PeekedIsRanked(lists: seq<seq<Primitive>>, starts: seq<nat>, k: nat) returns (i: nat)
    requires Cursors(lists, starts) && k < KINDS
    ensures i < KINDS && Ranked(lists, starts)[i] == Peek(lists[k], starts[k], k)
    ensures i == 0 ==> Ranked(lists, starts)[0].kind == k
  {
    var peeked, ranked := PeekAll(lists, starts), Ranked(lists, starts);
    SortByIsStableSort(peeked, (p: Peeked) => p.ToKey());
    hide SortBy;
    assert peeked[k] in multiset(ranked);
    i :| 0 <= i < KINDS && ranked[i] == peeked[k];
    PeekKind(lists[k], starts[k], k);
  }

  lemma PeekKind(list: seq<Primitive>, start: nat, kind: nat)
    ensures Peek(list, start, kind).kind == kind
  {
  }

  lemma DistinctStaysDistinct<T>(s: seq<T>, r: seq<T>)
    requires forall i, j :: 0 <= i < j < |s| ==> s[i] != s[j]
    requires multiset(r) == multiset(s) && |r| >= 2
    ensures r[0] != r[1]
  {
    DistinctOnce(s, r[0]);
    assert r == [r[0]] + [r[1]] + r[2..];
  }

  // ---------------------------------------------------------------------------------------
  // The iterator
  // ---------------------------------------------------------------------------------------

  /** `BatchIterator`: the vectors, and for each the position of its peekable iterator. */
  class BatchIterator {
    const lists: seq<seq<Primitive>>
    var starts: seq<nat>

    ghost predicate Valid()
      reads this
    {
      Cursors(lists, starts)
    }

    constructor (lists: seq<seq<Primitive>>)
      requires |lists| == KINDS
      ensures Valid() && this.lists == lists && starts == [0, 0, 0, 0, 0, 0, 0, 0]
    {
      this.lists := lists;
      starts := [0, 0, 0, 0, 0, 0, 0, 0];
    }

    method Next() returns (batch: Option<Batch>)
      requires Valid()
      modifies this
      ensures Valid()
      ensures batch == NextBatch(lists, old(starts))
      ensures starts == if batch.None? then old(starts) else Advance(old(starts), batch.value)
    {
      RankedIsMerge(lists, starts);
      var ordersAndKinds := Ranked(lists, starts);
      var first, second := ordersAndKinds[0], ordersAndKinds[1];
      if first.order.None? {
        return None;
      }
      var kind, bound := first.kind, second.ToKey();
      var list, start := lists[kind], starts[kind];
      var textureId := TextureOf(list[start]);
      var end := start + 1;
      while end < |list| && Key(list[end].order, kind).Less(bound) && TextureOf(list[end]) == textureId
        invariant start < end <= |list|
        invariant RunEnd(list, start + 1, kind, bound, textureId) == RunEnd(list, end, kind, bound, textureId)
      {
        end := end + 1;
      }
      starts := starts[kind := end];
      batch := Some(Batch(kind, start, end, textureId));
    }
  }

  // ---------------------------------------------------------------------------------------
  // Whole iterations
  // ---------------------------------------------------------------------------------------

  function Advance(starts: seq<nat>, b: Batch): seq<nat>
    requires b.kind < |starts|
  {
    starts[b.kind := b.end]
  }

  function Remaining(lists: seq<seq<Primitive>>, starts: seq<nat>): nat
    requires Cursors(lists, starts)
  {
    (|lists[0]| - starts[0]) + (|lists[1]| - starts[1]) + (|lists[2]| - starts[2]) + (|lists[3]| - starts[3]) +
    (|lists[4]| - starts[4]) + (|lists[5]| - starts[5]) + (|lists[6]| - starts[6]) + (|lists[7]| - starts[7])
  }

  /** Every batch that repeated calls of `Next` yield. */
  function AllBatches(lists: seq<seq<Primitive>>, starts: seq<nat>): seq<Batch>
    requires Cursors(lists, starts)
    decreases Remaining(lists, starts)
  {
    var b := NextBatch(lists, starts);
    if b.None? then [] else [b.value] + AllBatches(lists, Advance(starts, b.value))
  }

  /** A consumer that calls `Next` until it returns `None` sees exactly `AllBatches`. */
  method Drain(lists: seq<seq<Primitive>>) returns (batches: seq<Batch>)
    requires |lists| == KINDS
    ensures batches == AllBatches(lists, [0, 0, 0, 0, 0, 0, 0, 0])
  {
    hide NextBatch, AllBatches, Remaining, Advance;
    var iter := new BatchIterator(lists);
    batches := [];
    ghost var starts: seq<nat> := iter.starts;
    var next := iter.Next();
    while next.Some?
      invariant iter.Valid() && iter.lists == lists
      invariant Cursors(lists, starts) && next == NextBatch(lists, starts)
      invariant iter.starts == if next.None? then starts else Advance(starts, next.value)
      invariant AllBatches(lists, [0, 0, 0, 0, 0, 0, 0, 0]) == batches + AllBatches(lists, starts)
      decreases Remaining(lists, starts)
    {
      AdvanceIsProgress(lists, starts);
      AllBatchesUnfolds(lists, starts);
      hide Cursors;
      assert batches + ([next.value] + AllBatches(lists, Advance(starts, next.value)))
          == (batches + [next.value]) + AllBatches(lists, Advance(starts, next.value));
      batches := batches + [next.value];
      starts := iter.starts;
      next := iter.Next();
    }
    AllBatchesUnfolds(lists, starts);
  }

  lemma AllBatchesUnfolds(lists: seq<seq<Primitive>>, starts: seq<nat>)
    requires Cursors(lists, starts)
    ensures var b := NextBatch(lists, starts);
      AllBatches(lists, starts) == if b.None? then [] else [b.value] + AllBatches(lists, Advance(starts, b.value))
  {
    hide NextBatch;
  }

  lemma AdvanceIsProgress(lists: seq<seq<Primitive>>, starts: seq<nat>)
    requires Cursors(lists, starts) && NextBatch(lists, starts).Some?
    ensures var b := NextBatch(lists, starts).value;
      && b.kind < KINDS && Cursors(lists, Advance(starts, b))
      && Remaining(lists, Advance(starts, b)) < Remaining(lists, starts)
  {
    hide NextBatch;
  }

  function Items(lists: seq<seq<Primitive>>, b: Batch): seq<Primitive>
    requires |lists| == KINDS
  {
    if b.kind < KINDS && b.start <= b.end <= |lists[b.kind]| then lists[b.kind][b.start..b.end] else []
  }

  /** All primitives in the order they are drawn. */
  function Drawn(lists: seq<seq<Primitive>>, batches: seq<Batch>): seq<Primitive>
    requires |lists| == KINDS
  {
    if batches == [] then [] else Items(lists, batches[0]) + Drawn(lists, batches[1..])
  }

  function OfKind(s: seq<Primitive>, k: nat): seq<Primitive> {
    if s == [] then [] else (if s[0].Kind() == k then [s[0]] else []) + OfKind(s[1..], k)
  }

  lemma {:induction false} OfKindAppend(s: seq<Primitive>, t: seq<Primitive>, k: nat)
    ensures OfKind(s + t, k) == OfKind(s, k) + OfKind(t, k)
  {
    hide Primitive.Kind;
    if s == [] {
      assert s + t == t;
    } else {
      var head := if s[0].Kind() == k then [s[0]] else [];
      assert (s + t)[0] == s[0] && (s + t)[1..] == s[1..] + t;
      OfKindAppend(s[1..], t, k);
      assert OfKind(s + t, k) == head + OfKind(s[1..] + t, k);
      assert OfKind(s, k) == head + OfKind(s[1..], k);
    }
  }

  lemma {:induction false} OfKindUniform(s: seq<Primitive>, kind: nat, k: nat)
    requires Uniform(s, kind)
    ensures OfKind(s, k) == if kind == k then s else []
  {
    if s != [] {
      OfKindUniform(s[1..], kind, k);
      assert s == [s[0]] + s[1..];
    }
  }

  // With no order at the maximum, the merge does not stop while anything is left.
  lemma GoesOnWhileAnythingIsLeft(lists: seq<seq<Primitive>>, starts: seq<nat>, k: nat)
    requires Cursors(lists, starts) && Finished(lists) && k < KINDS
    requires starts[k] < |lists[k]|
    ensures NextBatch(lists, starts).Some?
  {
    RankedIsMerge(lists, starts);
    hide Ranked;
    assert lists[k][starts[k]].order < DRAW_ORDER_MAX;
    assert Ranked(lists, starts)[0].ToKey().AtMost(Peek(lists[k], starts[k], k).ToKey());
  }

  lemma DrawnUnfolds(lists: seq<seq<Primitive>>, starts: seq<nat>)
    requires Cursors(lists, starts)
    ensures var b := NextBatch(lists, starts);
            var drawn := Drawn(lists, AllBatches(lists, starts));
      if b.None? then drawn == []
      else drawn == Items(lists, b.value) + Drawn(lists, AllBatches(lists, Advance(starts, b.value)))
  {
    var b := NextBatch(lists, starts);
    hide NextBatch;
    if b.Some? {
      assert AllBatches(lists, starts)[1..] == AllBatches(lists, Advance(starts, b.value));
    }
  }

  lemma SliceSplits<T>(s: seq<T>, i: nat, j: nat)
    requires i <= j <= |s|
    ensures s[i..j] + s[j..] == s[i..]
  {
  }

  lemma ItemsOfKind(list: seq<Primitive>, kind: nat, i: nat, j: nat, k: nat)
    requires Uniform(list, kind) && i <= j <= |list|
    ensures OfKind(list[i..j], k) == if kind == k then list[i..j] else []
  {
    OfKindUniform(list[i..j], kind, k);
  }

  // A batch is a run of its kind's vector, and nothing of any other kind.
  lemma BatchOfKind(lists: seq<seq<Primitive>>, starts: seq<nat>, k: nat)
    requires Cursors(lists, starts) && Finished(lists) && NextBatch(lists, starts).Some? && k < KINDS
    ensures var b := NextBatch(lists, starts).value;
      OfKind(Items(lists, b), k) + lists[k][Advance(starts, b)[k]..] == lists[k][starts[k]..]
  {
    var b := NextBatch(lists, starts).value;
    assert Uniform(lists[b.kind], b.kind);
    hide NextBatch, Finished, OfKind, Uniform;
    ItemsOfKind(lists[b.kind], b.kind, b.start, b.end, k);
    SliceSplits(lists[b.kind], b.start, b.end);
  }

  /** Nothing is lost, repeated or reordered within its kind: the primitives drawn of each kind are
      exactly that kind's vector. */
  lemma {:induction false} DrawnOnce(lists: seq<seq<Primitive>>, starts: seq<nat>, k: nat)
    requires Cursors(lists, starts) && Finished(lists) && k < KINDS
    ensures OfKind(Drawn(lists, AllBatches(lists, starts)), k) == lists[k][starts[k]..]
    decreases Remaining(lists, starts)
  {
    DrawnUnfolds(lists, starts);
    hide NextBatch, Drawn, AllBatches, Finished, Cursors, Remaining;
    var b := NextBatch(lists, starts);
    if b.None? {
      if starts[k] < |lists[k]| {
        GoesOnWhileAnythingIsLeft(lists, starts, k);
      }
    } else {
      AdvanceIsProgress(lists, starts);
      DrawnOnce(lists, Advance(starts, b.value), k);
      OfKindAppend(Items(lists, b.value), Drawn(lists, AllBatches(lists, Advance(starts, b.value))), k);
      hide OfKind, Items;
      BatchOfKind(lists, starts, k);
    }
  }

  // ---------------------------------------------------------------------------------------
  // Merge order
  // ---------------------------------------------------------------------------------------

  // Everything still to be drawn has at least this key.
  ghost predicate Frontier(lists: seq<seq<Primitive>>, starts: seq<nat>, key: Key)
    requires Cursors(lists, starts)
  {
    forall k, i :: 0 <= k < KINDS && starts[k] <= i < |lists[k]| ==> key.AtMost(Key(lists[k][i].order, k))
  }

  lemma {:induction false} RunEndBelowBound(list: seq<Primitive>, i: nat, kind: nat, bound: Key,
                                            textureId: Option<nat>, j: nat)
    requires i <= |list| && i <= j < RunEnd(list, i, kind, bound, textureId)
    ensures Key(list[j].order, kind).Less(bound) && TextureOf(list[j]) == textureId
    decreases |list| - i
  {
    if i < j {
      RunEndBelowBound(list, i + 1, kind, bound, textureId, j);
    }
  }

  lemma {:induction false} RunEndStops(list: seq<Primitive>, i: nat, kind: nat, bound: Key, textureId: Option<nat>)
    requires i <= |list|
    ensures var end := RunEnd(list, i, kind, bound, textureId);
      end < |list| ==> !Key(list[end].order, kind).Less(bound) || TextureOf(list[end]) != textureId
    decreases |list| - i
  {
    if i < |list| && Key(list[i].order, kind).Less(bound) && TextureOf(list[i]) == textureId {
      RunEndStops(list, i + 1, kind, bound, textureId);
    }
  }

  // Every item of a batch comes no later than the heads of the other vectors.
  lemma ItemBeforeHeads(lists: seq<seq<Primitive>>, starts: seq<nat>, j: nat)
    requires Cursors(lists, starts) && Finished(lists)
    requires NextBatch(lists, starts).Some?
    requires NextBatch(lists, starts).value.start <= j < NextBatch(lists, starts).value.end
    ensures var b := NextBatch(lists, starts).value;
      forall k :: 0 <= k < KINDS && k != b.kind ==>
        Key(lists[b.kind][j].order, b.kind).AtMost(Peek(lists[k], starts[k], k).ToKey())
  {
    RankedIsMerge(lists, starts);
    var first, second := Ranked(lists, starts)[0], Ranked(lists, starts)[1];
    var b := NextBatch(lists, starts).value;
    hide Ranked;
    if j == b.start {
      assert Key(lists[b.kind][j].order, b.kind) == first.ToKey();
    } else {
      RunEndBelowBound(lists[b.kind], b.start + 1, b.kind, second.ToKey(), b.textureId, j);
    }
    hide RunEnd;
  }

  /** Every item of a batch comes no later in (order, kind) than anything drawn after that batch. */
  lemma BatchBeforeRest(lists: seq<seq<Primitive>>, starts: seq<nat>, j: nat)
    requires Cursors(lists, starts) && Finished(lists)
    requires NextBatch(lists, starts).Some?
    requires NextBatch(lists, starts).value.start <= j < NextBatch(lists, starts).value.end
    ensures var b := NextBatch(lists, starts).value;
      Frontier(lists, Advance(starts, b), Key(lists[b.kind][j].order, b.kind))
  {
    hide Ranked, NextBatch, RunEnd;
    ItemBeforeHeads(lists, starts, j);
    var b := NextBatch(lists, starts).value;
    var item := Key(lists[b.kind][j].order, b.kind);
    forall k, i | 0 <= k < KINDS && Advance(starts, b)[k] <= i < |lists[k]|
      ensures item.AtMost(Key(lists[k][i].order, k))
    {
      if k != b.kind {
        assert item.AtMost(Peek(lists[k], starts[k], k).ToKey());
        assert lists[k][starts[k]].order <= lists[k][i].order;
      } else {
        assert lists[k][j].order <= lists[k][i].order;
      }
    }
  }

  lemma {:induction false} DrawnComesFromLists(lists: seq<seq<Primitive>>, starts: seq<nat>, key: Key, i: nat)
    requires Cursors(lists, starts) && Finished(lists) && Frontier(lists, starts, key)
    requires i < |Drawn(lists, AllBatches(lists, starts))|
    ensures key.AtMost(DrawKey(Drawn(lists, AllBatches(lists, starts))[i]))
    decreases Remaining(lists, starts)
  {
    hide NextBatch, Drawn, AllBatches, Remaining, Frontier, Finished, Items, Key.AtMost, DrawKey;
    DrawnUnfolds(lists, starts);
    var b := NextBatch(lists, starts).value;
    AdvanceIsProgress(lists, starts);
    var items := Items(lists, b);
    if i < |items| {
      ItemBehind(lists, starts, key, i);
    } else {
      FrontierAdvances(lists, starts, key);
      DrawnComesFromLists(lists, Advance(starts, b), key, i - |items|);
    }
  }

  lemma ItemBehind(lists: seq<seq<Primitive>>, starts: seq<nat>, key: Key, i: nat)
    requires Cursors(lists, starts) && Finished(lists) && Frontier(lists, starts, key)
    requires NextBatch(lists, starts).Some? && i < |Items(lists, NextBatch(lists, starts).value)|
    ensures key.AtMost(DrawKey(Items(lists, NextBatch(lists, starts).value)[i]))
  {
    hide NextBatch, Items, Key.AtMost, DrawKey;
    ItemKey(lists, NextBatch(lists, starts).value, i);
  }

  lemma ItemKey(lists: seq<seq<Primitive>>, b: Batch, i: nat)
    requires Finished(lists) && i < |Items(lists, b)|
    ensures b.kind < KINDS && b.start + i < b.end <= |lists[b.kind]|
    ensures Items(lists, b)[i] == lists[b.kind][b.start + i]
    ensures DrawKey(Items(lists, b)[i]) == Key(lists[b.kind][b.start + i].order, b.kind)
  {
    assert Uniform(lists[b.kind], b.kind);
  }

  lemma FrontierAdvances(lists: seq<seq<Primitive>>, starts: seq<nat>, key: Key)
    requires Cursors(lists, starts) && NextBatch(lists, starts).Some?
    requires Frontier(lists, starts, key)
    ensures var b := NextBatch(lists, starts).value;
      Cursors(lists, Advance(starts, b)) && Frontier(lists, Advance(starts, b), key)
  {
    hide NextBatch;
  }

  ghost predicate InOrder(s: seq<Primitive>) {
    forall i, j :: 0 <= i < j < |s| ==> DrawKey(s[i]).AtMost(DrawKey(s[j]))
  }

  lemma AppendInOrder(s: seq<Primitive>, t: seq<Primitive>)
    requires InOrder(s) && InOrder(t)
    requires forall i, j :: 0 <= i < |s| && 0 <= j < |t| ==> DrawKey(s[i]).AtMost(DrawKey(t[j]))
    ensures InOrder(s + t)
  {
    hide DrawKey, Key.AtMost;
  }

  lemma ItemsInOrder(lists: seq<seq<Primitive>>, b: Batch)
    requires Finished(lists)
    ensures InOrder(Items(lists, b))
  {
    forall i, j | 0 <= i < j < |Items(lists, b)|
      ensures DrawKey(Items(lists, b)[i]).AtMost(DrawKey(Items(lists, b)[j]))
    {
      ItemKey(lists, b, i);
      ItemKey(lists, b, j);
      assert lists[b.kind][b.start + i].order <= lists[b.kind][b.start + j].order;
    }
  }

  lemma ItemBeforeRest(lists: seq<seq<Primitive>>, starts: seq<nat>, i: nat, j: nat)
    requires Cursors(lists, starts) && Finished(lists) && NextBatch(lists, starts).Some?
    requires i < |Items(lists, NextBatch(lists, starts).value)|
    ensures Cursors(lists, Advance(starts, NextBatch(lists, starts).value))
    ensures var b := NextBatch(lists, starts).value;
            var rest := Drawn(lists, AllBatches(lists, Advance(starts, b)));
      j < |rest| ==> DrawKey(Items(lists, b)[i]).AtMost(DrawKey(rest[j]))
  {
    hide NextBatch, Drawn, AllBatches, DrawKey;
    var b := NextBatch(lists, starts).value;
    AdvanceIsProgress(lists, starts);
    ItemKey(lists, b, i);
    hide Items, Finished, Cursors;
    BatchBeforeRest(lists, starts, b.start + i);
    if j < |Drawn(lists, AllBatches(lists, Advance(starts, b)))| {
      DrawnComesFromLists(lists, Advance(starts, b), Key(lists[b.kind][b.start + i].order, b.kind), j);
    }
  }

  /** The whole drawing is in non-decreasing (order, kind). */
  lemma {:induction false} DrawnInOrder(lists: seq<seq<Primitive>>, starts: seq<nat>)
    requires Cursors(lists, starts) && Finished(lists)
    ensures InOrder(Drawn(lists, AllBatches(lists, starts)))
    decreases Remaining(lists, starts)
  {
    DrawnUnfolds(lists, starts);
    hide NextBatch, Drawn, AllBatches, Remaining, DrawKey, Items, Key.AtMost, Finished, Cursors;
    if NextBatch(lists, starts).Some? {
      var b := NextBatch(lists, starts).value;
      AdvanceIsProgress(lists, starts);
      DrawnInOrder(lists, Advance(starts, b));
      ItemsInOrder(lists, b);
      var items, rest := Items(lists, b), Drawn(lists, AllBatches(lists, Advance(starts, b)));
      forall i, j | 0 <= i < |items| && 0 <= j < |rest|
        ensures DrawKey(items[i]).AtMost(DrawKey(rest[j]))
      {
        ItemBeforeRest(lists, starts, i, j);
      }
      AppendInOrder(items, rest);
    }
  }

  // ---------------------------------------------------------------------------------------
  // Batches are as long as they can be
  // ---------------------------------------------------------------------------------------

  // What follows a batch in its own vector comes after the bound, or has another texture.
  lemma BatchStops(lists: seq<seq<Primitive>>, starts: seq<nat>)
    requires Cursors(lists, starts) && NextBatch(lists, starts).Some?
    ensures var b := NextBatch(lists, starts).value;
      b.end < |lists[b.kind]| ==>
        || !Key(lists[b.kind][b.end].order, b.kind).Less(Ranked(lists, starts)[1].ToKey())
        || TextureOf(lists[b.kind][b.end]) != b.textureId
    ensures NextBatch(lists, starts).value.kind == Ranked(lists, starts)[0].kind
    ensures var b := NextBatch(lists, starts).value; b.textureId == TextureOf(lists[b.kind][b.start])
  {
    var b := NextBatch(lists, starts).value;
    RunEndStops(lists[b.kind], b.start + 1, b.kind, Ranked(lists, starts)[1].ToKey(), b.textureId);
    hide RunEnd, Ranked, TextureOf;
  }

  // After a batch of kind `k`, the next batch is of kind `k` again only because of its texture.
  lemma SameKindOnlyForTexture(lists: seq<seq<Primitive>>, starts: seq<nat>)
    requires Cursors(lists, starts) && Finished(lists) && NextBatch(lists, starts).Some?
    ensures var b := NextBatch(lists, starts).value;
      && Cursors(lists, Advance(starts, b))
      && var next := NextBatch(lists, Advance(starts, b));
      next.Some? && next.value.kind == b.kind ==> next.value.textureId != b.textureId
  {
    hide Ranked, NextBatch, TextureOf, Remaining;
    var b := NextBatch(lists, starts).value;
    var starts' := Advance(starts, b);
    AdvanceIsProgress(lists, starts);
    var next := NextBatch(lists, starts');
    if next.Some? && next.value.kind == b.kind {
      BatchStops(lists, starts);
      BatchStops(lists, starts');
      RankedIsMerge(lists, starts);
      RankedIsMerge(lists, starts');
      var p, second := lists[b.kind][b.end], Ranked(lists, starts)[1];
      assert p.order < DRAW_ORDER_MAX;
      assert Peek(lists[second.kind], starts'[second.kind], second.kind) == second;
      assert Key(p.order, b.kind).AtMost(second.ToKey());
    }
  }

  /** Two neighbouring batches of the same kind are sprite batches of different textures. */
  lemma {:induction false} NeighboursDiffer(lists: seq<seq<Primitive>>, starts: seq<nat>, i: nat)
    requires Cursors(lists, starts) && Finished(lists)
    requires i + 1 < |AllBatches(lists, starts)|
    ensures var all := AllBatches(lists, starts);
      all[i].kind == all[i + 1].kind ==> all[i].textureId != all[i + 1].textureId
    decreases Remaining(lists, starts)
  {
    AllBatchesUnfolds(lists, starts);
    hide NextBatch, Remaining, Finished, AllBatches;
    var b := NextBatch(lists, starts).value;
    AdvanceIsProgress(lists, starts);
    if i == 0 {
      SameKindOnlyForTexture(lists, starts);
      AllBatchesUnfolds(lists, Advance(starts, b));
    } else {
      NeighboursDiffer(lists, Advance(starts, b), i - 1);
    }
  }

  // The texture of a sprite's tile, and none for everything else.
  predicate HasTexture(p: Primitive, textureId: Option<nat>) {
    match p
    case MonochromeSprite(_, _, _, _, tile, _) => textureId == Some(tile.textureId)
    case PolychromeSprite(_, _, _, _, _, tile, _) => textureId == Some(tile.textureId)
    case _ => textureId.None?
  }

  lemma TextureIsRead(p: Primitive, textureId: Option<nat>)
    ensures HasTexture(p, textureId) <==> TextureOf(p) == textureId
  {
  }

  /** Every batch is a non-empty slice of one vector, and all its items have the batch's texture
      (which only sprites have). */
  lemma {:induction false} BatchIsUniform(lists: seq<seq<Primitive>>, starts: seq<nat>, i: nat)
    requires Cursors(lists, starts) && Finished(lists)
    requires i < |AllBatches(lists, starts)|
    ensures var b := AllBatches(lists, starts)[i];
      && b.kind < KINDS && b.start < b.end <= |lists[b.kind]|
      && forall j :: b.start <= j < b.end ==>
           lists[b.kind][j].Kind() == b.kind && HasTexture(lists[b.kind][j], b.textureId)
    decreases Remaining(lists, starts)
  {
    hide Remaining, AllBatches, NextBatch, TextureOf, HasTexture, Primitive.Kind, Finished;
    AllBatchesUnfolds(lists, starts);
    if i == 0 {
      NextIsUniform(lists, starts);
      var b := NextBatch(lists, starts).value;
      forall j | b.start <= j < b.end ensures HasTexture(lists[b.kind][j], b.textureId) {
        TextureIsRead(lists[b.kind][j], b.textureId);
      }
    } else {
      AdvanceIsProgress(lists, starts);
      BatchIsUniform(lists, Advance(starts, NextBatch(lists, starts).value), i - 1);
    }
  }

  lemma NextIsUniform(lists: seq<seq<Primitive>>, starts: seq<nat>)
    requires Cursors(lists, starts) && Finished(lists) && NextBatch(lists, starts).Some?
    ensures var b := NextBatch(lists, starts).value;
      forall j :: b.start <= j < b.end ==>
        lists[b.kind][j].Kind() == b.kind && TextureOf(lists[b.kind][j]) == b.textureId
  {
    var b := NextBatch(lists, starts).value;
    assert Uniform(lists[b.kind], b.kind);
    var bound := Ranked(lists, starts)[1].ToKey();
    hide TextureOf, Primitive.Kind, Ranked, Finished, RunEnd;
    forall j | b.start < j < b.end ensures TextureOf(lists[b.kind][j]) == b.textureId {
      RunEndBelowBound(lists[b.kind], b.start + 1, b.kind, bound, b.textureId, j);
    }
  }
}
