/** Nested opening and closing: which of the things opened have not been closed again. A closing with nothing
    open is ignored. */
module Brackets {
  datatype Mark = Open | Close | Other

  /** How many more are opened than closed. */
  function Depth(marks: seq<Mark>): int {
    if marks == [] then 0
    else
      var last := marks[|marks| - 1];
      Depth(marks[..|marks| - 1]) + if last.Open? then 1 else if last.Close? then -1 else 0
  }

  /** Nothing is closed that was not opened here. */
  ghost predicate Nested(marks: seq<Mark>) {
    forall n :: 0 <= n <= |marks| ==> Depth(marks[..n]) >= 0
  }

  ghost predicate Balanced(marks: seq<Mark>) {
    Nested(marks) && Depth(marks) == 0
  }

  // How much deeper it is at the end than just after `p`.
  function DepthSince(marks: seq<Mark>, p: nat): int
    requires p < |marks|
  {
    Depth(marks[p + 1..])
  }

  /** What was opened at `p` has not been closed again. */
  ghost predicate StillOpen(marks: seq<Mark>, p: nat) {
    p < |marks| && marks[p].Open? && Nested(marks[p + 1..])
  }

  /** `open` lists exactly what is still open, oldest first. */
  ghost predicate OpenAre(marks: seq<Mark>, open: seq<nat>) {
    && (forall k :: 0 <= k < |open| ==> StillOpen(marks, open[k]) && DepthSince(marks, open[k]) == |open| - 1 - k)
    && (forall p: nat :: StillOpen(marks, p) ==> p in open)
    && (forall k, l :: 0 <= k < l < |open| ==> open[k] < open[l])
  }

  lemma NestedPrefix(marks: seq<Mark>, n: nat)
    requires Nested(marks) && n <= |marks|
    ensures Nested(marks[..n]) && Depth(marks[..n]) >= 0
  {
    forall m | 0 <= m <= n ensures Depth(marks[..n][..m]) >= 0 {
      assert marks[..n][..m] == marks[..m];
    }
  }

  lemma NestedDepth(marks: seq<Mark>)
    requires Nested(marks)
    ensures Depth(marks) >= 0
  {
    assert marks[..|marks|] == marks;
  }

  lemma NestedSnoc(marks: seq<Mark>, mark: Mark)
    ensures Nested(marks + [mark]) <==> Nested(marks) && Depth(marks + [mark]) >= 0
  {
    assert (marks + [mark])[..|marks| + 1] == marks + [mark];
    assert forall n :: 0 <= n <= |marks| ==> (marks + [mark])[..n] == marks[..n];
    if Nested(marks + [mark]) {
      NestedDepth(marks + [mark]);
    }
  }

  lemma DepthSnoc(marks: seq<Mark>, mark: Mark)
    ensures Depth(marks + [mark]) == Depth(marks) + if mark.Open? then 1 else if mark.Close? then -1 else 0
  {
    assert (marks + [mark])[..|marks|] == marks;
  }

  // What one more mark does to what was opened before it.
  ghost predicate DepthMoves(marks: seq<Mark>, mark: Mark, delta: int, p: nat)
    requires p < |marks|
  {
    && DepthSince(marks + [mark], p) == DepthSince(marks, p) + delta
    && (StillOpen(marks + [mark], p) <==> StillOpen(marks, p) && DepthSince(marks, p) + delta >= 0)
  }

  lemma SnocMoves(marks: seq<Mark>, mark: Mark, p: nat)
    requires p < |marks|
    ensures DepthMoves(marks, mark, if mark.Open? then 1 else if mark.Close? then -1 else 0, p)
  {
    assert (marks + [mark])[p + 1..] == marks[p + 1..] + [mark];
    NestedSnoc(marks[p + 1..], mark);
    DepthSnoc(marks[p + 1..], mark);
    hide Nested, Depth;
  }

  lemma InRange(marks: seq<Mark>)
    ensures forall p: nat :: StillOpen(marks, p) ==> p < |marks|
  {
  }

  lemma NewestMark(marks: seq<Mark>, mark: Mark)
    ensures StillOpen(marks + [mark], |marks|) <==> mark.Open?
    ensures DepthSince(marks + [mark], |marks|) == 0
  {
    assert (marks + [mark])[|marks| + 1..] == [];
  }

  // What is open after one more mark.
  function OpenAfter(open: seq<nat>, mark: Mark, at: nat): seq<nat> {
    match mark
    case Open => open + [at]
    case Close => if open == [] then [] else open[..|open| - 1]
    case Other => open
  }

  // Those listed are still open.
  lemma ListedAreOpen(marks: seq<Mark>, mark: Mark, open: seq<nat>, k: nat)
    requires OpenAre(marks, open) && k < |OpenAfter(open, mark, |marks|)|
    ensures var marks', open' := marks + [mark], OpenAfter(open, mark, |marks|);
      StillOpen(marks', open'[k]) && DepthSince(marks', open'[k]) == |open'| - 1 - k
  {
    NewestMark(marks, mark);
    InRange(marks);
    if k < |open| {
      assert StillOpen(marks, open[k]);
      SnocMoves(marks, mark, open[k]);
    }
    hide DepthSince, StillOpen;
  }

  // Those still open are listed.
  lemma OpenAreListed(marks: seq<Mark>, mark: Mark, open: seq<nat>, p: nat)
    requires OpenAre(marks, open) && StillOpen(marks + [mark], p)
    ensures p in OpenAfter(open, mark, |marks|)
  {
    NewestMark(marks, mark);
    InRange(marks + [mark]);
    var open' := OpenAfter(open, mark, |marks|);
    if p == |marks| {
      assert open'[|open|] == p;
    } else {
      SnocMoves(marks, mark, p);
      hide DepthSince, StillOpen;
      var k :| 0 <= k < |open| && open[k] == p;
      assert k < |open'| && open'[k] == p;
    }
  }

  lemma OpenAreSnoc(marks: seq<Mark>, mark: Mark, open: seq<nat>)
    requires OpenAre(marks, open)
    ensures OpenAre(marks + [mark], OpenAfter(open, mark, |marks|))
  {
    var open' := OpenAfter(open, mark, |marks|);
    InRange(marks);
    hide DepthSince, StillOpen;
    forall k | 0 <= k < |open'|
      ensures StillOpen(marks + [mark], open'[k]) && DepthSince(marks + [mark], open'[k]) == |open'| - 1 - k
    {
      ListedAreOpen(marks, mark, open, k);
    }
    forall p: nat | StillOpen(marks + [mark], p) ensures p in open' {
      OpenAreListed(marks, mark, open, p);
    }
  }

  lemma NothingOpen()
    ensures OpenAre([], [])
  {
  }

  ghost predicate NewestOpen(marks: seq<Mark>, p: nat) {
    StillOpen(marks, p) && forall q: nat :: StillOpen(marks, q) ==> q <= p
  }

  /** The last one listed is the newest that is still open. */
  lemma LastIsNewest(marks: seq<Mark>, open: seq<nat>)
    requires OpenAre(marks, open)
    ensures open == [] <==> !exists q: nat :: StillOpen(marks, q)
    ensures forall p: nat :: NewestOpen(marks, p) <==> open != [] && p == open[|open| - 1]
  {
    hide StillOpen, DepthSince;
    if open != [] {
      assert StillOpen(marks, open[|open| - 1]);
    }
  }
}
