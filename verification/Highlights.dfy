/** Merging highlights (src/style.rs, `combine_highlights`): a sweep over the sorted end points of all
    ranges, emitting a piece wherever the set of active highlights is constant and not empty.

    A piece carries the set of the highlights to be folded; the source folds them in the order of a
    `HashSet`. Equal positions may come in any order: the iterator is given any sorting of the end
    points, as `sort_unstable_by_key` promises no more. */
module Highlights {
  import opened Common

  type Style = int

  datatype Range = Range(start: nat, end: nat)

  datatype Highlight = Highlight(range: Range, style: Style)

  datatype Endpoint = Endpoint(position: nat, id: nat, isStart: bool)

  datatype Piece = Piece(start: nat, end: nat, ids: set<nat>)

  predicate Contains(range: Range, p: nat) {
    range.start <= p < range.end
  }

  /** The highlights to be seen at a position. */
  function Containing(ranges: seq<Range>, p: nat): set<nat> {
    set id | 0 <= id < |ranges| && Contains(ranges[id], p)
  }

  predicate IsEndpoint(ranges: seq<Range>, e: Endpoint) {
    e.id < |ranges| && e.position == if e.isStart then ranges[e.id].start else ranges[e.id].end
  }

  /** A sorting by position of the end points of some ranges that are not empty. */
  ghost predicate Endpoints(ranges: seq<Range>, sorted: seq<Endpoint>) {
    && (forall id :: 0 <= id < |ranges| ==> ranges[id].start < ranges[id].end)
    && (forall e :: e in sorted <==> IsEndpoint(ranges, e))
    && forall i, j :: 0 <= i < j < |sorted| ==> sorted[i].position <= sorted[j].position
  }

  // ---------------------------------------------------------------------------------------
  // The sweep
  // ---------------------------------------------------------------------------------------

  function Toggle(active: set<nat>, e: Endpoint): set<nat> {
    if e.isStart then active + {e.id} else active - {e.id}
  }

  /** The pieces still to come, with the end points before `at` consumed. */
  function Sweep(sorted: seq<Endpoint>, at: nat, active: set<nat>, ix: nat): seq<Piece>
    requires at <= |sorted|
    decreases |sorted| - at
  {
    if at == |sorted| then []
    else
      var e := sorted[at];
      var rest := Sweep(sorted, at + 1, Toggle(active, e), e.position);
      if e.position > ix && active != {} then [Piece(ix, e.position, active)] + rest else rest
  }

  /** What the pieces from position `from` on must be: not empty, ascending and disjoint, each with
      exactly the highlights containing its positions, cut nowhere but where a highlight starts or
      ends, and covering every highlighted position. */
  ghost predicate Correct(ranges: seq<Range>, pieces: seq<Piece>, from: nat) {
    && (forall k :: 0 <= k < |pieces| ==> from <= pieces[k].start < pieces[k].end && pieces[k].ids != {})
    && (forall k :: 0 <= k < |pieces| ==> Boundary(ranges, pieces[k].start) && Boundary(ranges, pieces[k].end))
    && (forall j, k :: 0 <= j < k < |pieces| ==> pieces[j].end <= pieces[k].start)
    && (forall k, p: nat :: 0 <= k < |pieces| && pieces[k].start <= p < pieces[k].end ==>
          pieces[k].ids == Containing(ranges, p))
    && forall p: nat :: from <= p && Containing(ranges, p) != {} ==> Covered(pieces, p)
  }

  ghost predicate Boundary(ranges: seq<Range>, p: nat) {
    exists id :: 0 <= id < |ranges| && (ranges[id].start == p || ranges[id].end == p)
  }

  ghost predicate Covered(pieces: seq<Piece>, p: nat) {
    exists k :: 0 <= k < |pieces| && pieces[k].start <= p < pieces[k].end
  }

  // The sweep's state once the end points before `at` are consumed.
  ghost predicate Swept(ranges: seq<Range>, sorted: seq<Endpoint>, at: nat, active: set<nat>, ix: nat)
    requires at <= |sorted|
  {
    && (at > 0 ==> Boundary(ranges, ix))
    && (forall i :: 0 <= i < at ==> sorted[i].position <= ix)
    && (forall i :: at <= i < |sorted| ==> ix <= sorted[i].position)
    && (forall id :: id in active ==> 0 <= id < |ranges|)
    && (forall id :: 0 <= id < |ranges| ==> (id in active <==>
          Endpoint(ranges[id].start, id, true) in sorted[..at] && Endpoint(ranges[id].end, id, false) !in sorted[..at]))
  }

  // Between the last consumed end point and the next, the active highlights are those in sight.
  lemma ActiveIsContaining(ranges: seq<Range>, sorted: seq<Endpoint>, at: nat, active: set<nat>, ix: nat, p: nat)
    requires Endpoints(ranges, sorted) && at <= |sorted| && Swept(ranges, sorted, at, active, ix)
    requires ix <= p && (at < |sorted| ==> p < sorted[at].position)
    ensures active == Containing(ranges, p)
  {
    forall id | 0 <= id < |ranges| ensures id in active <==> Contains(ranges[id], p) {
      Consumed(ranges, sorted, at, ix, p, Endpoint(ranges[id].start, id, true));
      Consumed(ranges, sorted, at, ix, p, Endpoint(ranges[id].end, id, false));
    }
  }

  lemma Consumed(ranges: seq<Range>, sorted: seq<Endpoint>, at: nat, ix: nat, p: nat, e: Endpoint)
    requires Endpoints(ranges, sorted) && at <= |sorted| && IsEndpoint(ranges, e)
    requires forall i :: 0 <= i < at ==> sorted[i].position <= ix
    requires ix <= p && (at < |sorted| ==> p < sorted[at].position)
    ensures e in sorted[..at] <==> e.position <= p
  {
    assert e in sorted;
    var i :| 0 <= i < |sorted| && sorted[i] == e;
    if i < at {
      assert sorted[..at][i] == e;
    }
  }

  lemma ToggleKeepsSwept(ranges: seq<Range>, sorted: seq<Endpoint>, at: nat, active: set<nat>, ix: nat)
    requires Endpoints(ranges, sorted) && at < |sorted| && Swept(ranges, sorted, at, active, ix)
    ensures Swept(ranges, sorted, at + 1, Toggle(active, sorted[at]), sorted[at].position)
  {
    var e := sorted[at];
    assert e in sorted;
    assert sorted[..at + 1] == sorted[..at] + [e];
    var start, end := Endpoint(ranges[e.id].start, e.id, true), Endpoint(ranges[e.id].end, e.id, false);
    if e.isStart {
      assert end !in sorted[..at + 1];
    }
  }

  /** From any point of the sweep, the pieces to come are correct. */
  lemma {:induction false} SweepIsCorrect(ranges: seq<Range>, sorted: seq<Endpoint>, at: nat, active: set<nat>, ix: nat)
    requires Endpoints(ranges, sorted) && at <= |sorted| && Swept(ranges, sorted, at, active, ix)
    ensures Correct(ranges, Sweep(sorted, at, active, ix), ix)
    decreases |sorted| - at
  {
    if at == |sorted| {
      forall p: nat | ix <= p ensures Containing(ranges, p) == {} {
        NothingLeft(ranges, sorted, active, ix, p);
      }
    } else {
      var e := sorted[at];
      ToggleKeepsSwept(ranges, sorted, at, active, ix);
      SweepIsCorrect(ranges, sorted, at + 1, Toggle(active, e), e.position);
      forall p: nat | ix <= p < e.position ensures active == Containing(ranges, p) {
        ActiveIsContaining(ranges, sorted, at, active, ix, p);
      }
      var rest := Sweep(sorted, at + 1, Toggle(active, e), e.position);
      assert ix <= e.position;
      assert Boundary(ranges, e.position) && (active != {} ==> Boundary(ranges, ix)) by {
        assert e in sorted;
      }
      hide Endpoints, Swept, Containing;
      OnePieceMore(ranges, rest, active, ix, e.position);
    }
  }

  lemma NothingLeft(ranges: seq<Range>, sorted: seq<Endpoint>, active: set<nat>, ix: nat, p: nat)
    requires Endpoints(ranges, sorted) && Swept(ranges, sorted, |sorted|, active, ix) && ix <= p
    ensures Containing(ranges, p) == {}
  {
    forall id | 0 <= id < |ranges| ensures !Contains(ranges[id], p) {
      assert Endpoint(ranges[id].end, id, false) in sorted;
    }
  }

  lemma OnePieceMore(ranges: seq<Range>, rest: seq<Piece>, active: set<nat>, ix: nat, end: nat)
    requires Correct(ranges, rest, end) && ix <= end && Boundary(ranges, end) && (active != {} ==> Boundary(ranges, ix))
    requires forall p: nat :: ix <= p < end ==> active == Containing(ranges, p)
    ensures Correct(ranges, if end > ix && active != {} then [Piece(ix, end, active)] + rest else rest, ix)
  {
    hide Containing, Boundary, Covered;
    forall p: nat | ix <= p && Containing(ranges, p) != {}
      ensures Covered(if end > ix && active != {} then [Piece(ix, end, active)] + rest else rest, p)
    {
      if p >= end {
        assert Covered(rest, p);
      }
      if end > ix && active != {} {
        CoveredMore(Piece(ix, end, active), rest, p);
      }
    }
  }

  lemma CoveredMore(piece: Piece, rest: seq<Piece>, p: nat)
    ensures piece.start <= p < piece.end || Covered(rest, p) ==> Covered([piece] + rest, p)
  {
    var pieces := [piece] + rest;
    assert pieces[0] == piece;
    if Covered(rest, p) {
      var k :| 0 <= k < |rest| && rest[k].start <= p < rest[k].end;
      assert pieces[k + 1] == rest[k];
    }
  }

  // ---------------------------------------------------------------------------------------
  // The inputs
  // ---------------------------------------------------------------------------------------

  function NonEmpty(inputs: seq<Highlight>): seq<Highlight> {
    if inputs == [] then []
    else
      var last := inputs[|inputs| - 1];
      NonEmpty(inputs[..|inputs| - 1]) + (if last.range.start < last.range.end then [last] else [])
  }

  function RangesOf(highlights: seq<Highlight>): seq<Range> {
    seq(|highlights|, i requires 0 <= i < |highlights| => highlights[i].range)
  }

  lemma {:induction false} NonEmptyFacts(inputs: seq<Highlight>)
    ensures forall h :: h in NonEmpty(inputs) <==> h in inputs && h.range.start < h.range.end
  {
    if inputs != [] {
      NonEmptyFacts(inputs[..|inputs| - 1]);
      assert inputs == inputs[..|inputs| - 1] + [inputs[|inputs| - 1]];
    }
  }

  ghost predicate Shows(inputs: seq<Highlight>, h: Highlight, p: nat) {
    h in inputs && Contains(h.range, p)
  }

  /** The pieces cover exactly the union of the input ranges, and at each of its positions a piece folds
      exactly the input highlights containing it. */
  lemma PiecesMatchInputs(inputs: seq<Highlight>, pieces: seq<Piece>)
    requires Correct(RangesOf(NonEmpty(inputs)), pieces, 0)
    ensures forall p: nat :: Covered(pieces, p) <==> exists h :: Shows(inputs, h, p)
    ensures forall k, p: nat, h :: 0 <= k < |pieces| && pieces[k].start <= p < pieces[k].end ==>
      (Shows(inputs, h, p) <==>
         exists id: nat :: id in pieces[k].ids && id < |NonEmpty(inputs)| && NonEmpty(inputs)[id] == h)
  {
    hide Correct, NonEmpty;
    forall p: nat ensures Covered(pieces, p) <==> exists h :: Shows(inputs, h, p) {
      CoveredIsShown(inputs, pieces, p);
    }
    forall k, p: nat, h | 0 <= k < |pieces| && pieces[k].start <= p < pieces[k].end
      ensures Shows(inputs, h, p) <==>
        exists id: nat :: id in pieces[k].ids && id < |NonEmpty(inputs)| && NonEmpty(inputs)[id] == h
    {
      IdsAreContaining(inputs, pieces, k, p);
      ShownIsContained(inputs, h, p);
    }
  }

  lemma IdsAreContaining(inputs: seq<Highlight>, pieces: seq<Piece>, k: nat, p: nat)
    requires Correct(RangesOf(NonEmpty(inputs)), pieces, 0)
    requires k < |pieces| && pieces[k].start <= p < pieces[k].end
    ensures pieces[k].ids == Containing(RangesOf(NonEmpty(inputs)), p) && pieces[k].ids != {}
  {
  }

  lemma ShownIsContained(inputs: seq<Highlight>, h: Highlight, p: nat)
    ensures Shows(inputs, h, p) <==>
      exists id: nat :: id in Containing(RangesOf(NonEmpty(inputs)), p) && id < |NonEmpty(inputs)|
        && NonEmpty(inputs)[id] == h
  {
    NonEmptyFacts(inputs);
    hide NonEmpty;
    if Shows(inputs, h, p) {
      var id: nat :| id < |NonEmpty(inputs)| && NonEmpty(inputs)[id] == h;
      assert id in Containing(RangesOf(NonEmpty(inputs)), p);
    }
  }

  lemma CoveredIsShown(inputs: seq<Highlight>, pieces: seq<Piece>, p: nat)
    requires Correct(RangesOf(NonEmpty(inputs)), pieces, 0)
    ensures Covered(pieces, p) <==> exists h :: Shows(inputs, h, p)
  {
    hide NonEmpty;
    var ids := Containing(RangesOf(NonEmpty(inputs)), p);
    if Covered(pieces, p) {
      var k :| 0 <= k < |pieces| && pieces[k].start <= p < pieces[k].end;
      var id :| id in ids;
      ShownIsContained(inputs, NonEmpty(inputs)[id], p);
    }
    if exists h :: Shows(inputs, h, p) {
      var h :| Shows(inputs, h, p);
      ShownIsContained(inputs, h, p);
      assert ids != {};
    }
  }

  // What an unstable sort by position promises.
  ghost predicate SortOf(endpoints: seq<Endpoint>, sorted: seq<Endpoint>) {
    && multiset(endpoints) == multiset(sorted)
    && forall i, j :: 0 <= i < j < |sorted| ==> sorted[i].position <= sorted[j].position
  }

  // The end points of the highlights that are not empty, in pairs, and those highlights.
  method Collect(a: seq<Highlight>, b: seq<Highlight>) returns (endpoints: seq<Endpoint>, highlights: seq<Highlight>)
    ensures highlights == NonEmpty(a + b)
    ensures |endpoints| == 2 * |highlights|
    ensures forall sorted :: SortOf(endpoints, sorted) ==> Endpoints(RangesOf(highlights), sorted)
  {
    endpoints, highlights := [], [];
    var inputs := a + b;
    for i := 0 to |inputs|
      invariant highlights == NonEmpty(inputs[..i])
      invariant |endpoints| == 2 * |highlights|
      invariant forall e :: e in endpoints <==> IsEndpoint(RangesOf(highlights), e)
    {
      assert inputs[..i + 1][..i] == inputs[..i];
      var range := inputs[i].range;
      if range.start < range.end {
        var id := |highlights|;
        endpoints := endpoints + [Endpoint(range.start, id, true), Endpoint(range.end, id, false)];
        highlights := highlights + [inputs[i]];
      }
    }
    assert inputs[..|inputs|] == inputs;
    forall sorted | SortOf(endpoints, sorted) ensures Endpoints(RangesOf(highlights), sorted) {
      SortedEndpoints(inputs, endpoints, sorted);
    }
  }

  lemma SortedEndpoints(inputs: seq<Highlight>, endpoints: seq<Endpoint>, sorted: seq<Endpoint>)
    requires forall e :: e in endpoints <==> IsEndpoint(RangesOf(NonEmpty(inputs)), e)
    requires SortOf(endpoints, sorted)
    ensures Endpoints(RangesOf(NonEmpty(inputs)), sorted)
  {
    NonEmptyFacts(inputs);
    hide NonEmpty;
    var highlights := NonEmpty(inputs);
    forall id | 0 <= id < |highlights| ensures highlights[id].range.start < highlights[id].range.end {
      assert highlights[id] in highlights;
    }
    forall e ensures e in sorted <==> e in endpoints {
      assert e in sorted <==> e in multiset(sorted);
      assert e in endpoints <==> e in multiset(endpoints);
    }
  }

  // ---------------------------------------------------------------------------------------
  // The iterator
  // ---------------------------------------------------------------------------------------

  class HighlightIterator {
    const ranges: seq<Range>
    const endpoints: seq<Endpoint>
    var at: nat
    var active: set<nat>
    var ix: nat

    ghost predicate Valid()
      reads this
    {
      Endpoints(ranges, endpoints) && at <= |endpoints| && Swept(ranges, endpoints, at, active, ix)
    }

    /** The pieces still to come. */
    ghost function Rest(): seq<Piece>
      reads this
      requires Valid()
    {
      Sweep(endpoints, at, active, ix)
    }

    constructor (ranges: seq<Range>, endpoints: seq<Endpoint>)
      requires Endpoints(ranges, endpoints)
      ensures Valid() && this.ranges == ranges && Rest() == Sweep(endpoints, 0, {}, 0)
    {
      this.ranges, this.endpoints := ranges, endpoints;
      at, active, ix := 0, {}, 0;
    }

    /** Hands out the pieces one by one; an end point is only consumed when it ends no piece. */
    method Next() returns (r: Option<Piece>)
      requires Valid()
      modifies this
      ensures Valid()
      ensures if old(Rest()) == [] then r.None? && Rest() == []
        else r == Some(old(Rest())[0]) && Rest() == old(Rest())[1..]
    {
      while at < |endpoints|
        invariant Valid() && Rest() == old(Rest())
        decreases |endpoints| - at
      {
        hide Swept, Endpoints, Sweep, Toggle;
        SweepUnfolds(endpoints, at, active, ix);
        var e := endpoints[at];
        var previous := ix;
        ToggleKeepsSwept(ranges, endpoints, at, active, ix);
        ix := e.position;
        if ix > previous && active != {} {
          r := Some(Piece(previous, ix, active));
          return;
        }
        active := Toggle(active, e);
        at := at + 1;
      }
      r := None;
    }
  }

  lemma SweepUnfolds(sorted: seq<Endpoint>, at: nat, active: set<nat>, ix: nat)
    requires at < |sorted|
    ensures var e := sorted[at];
            var rest := Sweep(sorted, at + 1, Toggle(active, e), e.position);
      Sweep(sorted, at, active, ix)
      == if e.position > ix && active != {} then [Piece(ix, e.position, active)] + rest else rest
    ensures Sweep(sorted, at, active, sorted[at].position)
         == Sweep(sorted, at + 1, Toggle(active, sorted[at]), sorted[at].position)
  {
  }

  lemma MoveFirst(pieces: seq<Piece>, rest: seq<Piece>)
    ensures rest != [] ==> (pieces + [rest[0]]) + rest[1..] == pieces + rest
    ensures pieces + [] == pieces
  {
  }

  lemma SweepFromStart(ranges: seq<Range>, endpoints: seq<Endpoint>)
    requires Endpoints(ranges, endpoints)
    ensures Correct(ranges, Sweep(endpoints, 0, {}, 0), 0)
  {
    SweepIsCorrect(ranges, endpoints, 0, {}, 0);
  }

  /** The whole iteration yields the correct pieces, whatever sorting of the end points it is given. */
  method Drain(ranges: seq<Range>, endpoints: seq<Endpoint>) returns (pieces: seq<Piece>)
    requires Endpoints(ranges, endpoints)
    ensures Correct(ranges, pieces, 0)
  {
    SweepFromStart(ranges, endpoints);
    hide *;
    var it := new HighlightIterator(ranges, endpoints);
    ghost var all := it.Rest();
    assert Correct(ranges, all, 0);
    pieces := [];
    while true
      invariant it.Valid() && it.ranges == ranges && pieces + it.Rest() == all
      decreases |it.Rest()|
    {
      ghost var rest := it.Rest();
      var r := it.Next();
      if r.None? {
        MoveFirst(pieces, rest);
        return;
      }
      MoveFirst(pieces, rest);
      pieces := pieces + [r.value];
    }
  }
}
