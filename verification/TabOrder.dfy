/** What the tab order of a window means (src/tab_stop.rs): where a handle stands, by the groups open around it
    and its tab index, and where tabbing begins. */
module TabOrder {
  import opened Brackets
  import opened Common
  import opened TabStops

  function MarkOf(op: Operation): Mark {
    match op
    case Insert(_) => Other
    case Group(_) => Open
    case GroupEnd => Close
  }

  function Marks(history: seq<Operation>): (marks: seq<Mark>)
    ensures |marks| == |history|
  {
    seq(|history|, i requires 0 <= i < |history| => MarkOf(history[i]))
  }

  // The path lists the tab indices of these group starts.
  ghost predicate PathOf(history: seq<Operation>, open: seq<nat>, path: seq<int>) {
    && |path| == |open|
    && forall k :: 0 <= k < |open| ==> open[k] < |history| && history[open[k]] == Group(path[k])
  }

  /** The path under which a handle is inserted is that of the groups begun and not ended again, outermost
      first. */
  lemma {:induction false} PathIsOpenGroups(history: seq<Operation>) returns (open: seq<nat>)
    ensures OpenAre(Marks(history), open) && PathOf(history, open, OpenGroups(history))
  {
    if history == [] {
      NothingOpen();
      open := [];
    } else {
      var rest, op := history[..|history| - 1], history[|history| - 1];
      assert history == rest + [op];
      var before := PathIsOpenGroups(rest);
      assert Marks(history) == Marks(rest) + [MarkOf(op)];
      open := OpenAfter(before, MarkOf(op), |rest|);
      hide OpenGroups, OpenAre, Marks, PathOf;
      OpenAreSnoc(Marks(rest), MarkOf(op), before);
      OpenGroupsSnoc(rest, op);
      PathOfSnoc(rest, op, before, OpenGroups(rest));
    }
  }

  lemma PathOfSnoc(history: seq<Operation>, op: Operation, open: seq<nat>, path: seq<int>)
    requires PathOf(history, open, path)
    ensures PathOf(history + [op], OpenAfter(open, MarkOf(op), |history|),
                   if op.Group? then path + [op.tabIndex]
                   else if op.GroupEnd? && path != [] then path[..|path| - 1] else path)
  {
  }

  /** Paths compare at the first place where they differ; where one ends first, it comes first. */
  lemma {:induction false} PathLessMeans(a: seq<int>, b: seq<int>)
    ensures PathLess(a, b) <==> exists n: nat :: DifferFirst(a, b, n)
  {
    if b == [] {
      assert forall n: nat :: !DifferFirst(a, b, n);
    } else if a == [] {
      assert DifferFirst(a, b, 0);
    } else if a[0] != b[0] {
      assert DifferFirst(a, b, 0) <==> a[0] < b[0];
    } else {
      PathLessMeans(a[1..], b[1..]);
      if n: nat :| DifferFirst(a[1..], b[1..], n) {
        assert forall k :: 1 <= k < n + 1 ==> a[k] == a[1..][k - 1] && b[k] == b[1..][k - 1];
        assert DifferFirst(a, b, n + 1);
      }
      if n: nat :| DifferFirst(a, b, n) {
        assert n >= 1;
        assert DifferFirst(a[1..], b[1..], n - 1);
      }
    }
  }

  ghost predicate DifferFirst(a: seq<int>, b: seq<int>, n: nat) {
    n <= |a| && n < |b| && (forall k :: 0 <= k < n ==> a[k] == b[k]) && (n == |a| || a[n] < b[n])
  }

  ghost predicate Precedes(s: TabState, i: nat, j: nat) {
    && i < |s.history| && s.history[i].Insert? && j < |s.history| && s.history[j].Insert?
    && exists p, q :: 0 <= p < q < |s.order| && s.order[p] == NodeAt(s.history, i) && s.order[q] == NodeAt(s.history, j)
  }

  /** Of two handles inserted in the same groups the one with the lower tab index comes first, and of equal ones
      the one inserted first. */
  lemma LowerTabIndexFirst(s: TabState, i: nat, j: nat)
    requires Valid(s) && i != j
    requires i < |s.history| && s.history[i].Insert? && j < |s.history| && s.history[j].Insert?
    requires OpenGroups(s.history[..i]) == OpenGroups(s.history[..j])
    ensures Precedes(s, i, j) <==>
      var a, b := s.history[i].handle.tabIndex, s.history[j].handle.tabIndex; a < b || (a == b && i < j)
  {
    var path, a, b := OpenGroups(s.history[..i]), s.history[i].handle.tabIndex, s.history[j].handle.tabIndex;
    SiblingPaths(path, a, b);
    hide OpenGroups, PathLess;
    PrecedesIsLess(s, i, j);
  }

  lemma {:induction false} SiblingPaths(path: seq<int>, a: int, b: int)
    ensures PathLess(path + [a], path + [b]) <==> a < b
    ensures path + [a] == path + [b] <==> a == b
  {
    if path == [] {
      assert path + [a] == [a] && path + [b] == [b];
    } else {
      SiblingPaths(path[1..], a, b);
      assert (path + [a])[1..] == path[1..] + [a] && (path + [b])[1..] == path[1..] + [b];
    }
    assert (path + [a])[|path|] == a && (path + [b])[|path|] == b;
  }

  /** A handle comes before those of a later group beside it, and after those of an earlier one: the tab index of
      the group counts against that of the handle. */
  lemma GroupIndexCounts(s: TabState, i: nat, j: nat, path: seq<int>, group: int, below: seq<int>)
    requires Valid(s)
    requires i < |s.history| && s.history[i].Insert? && j < |s.history| && s.history[j].Insert?
    requires OpenGroups(s.history[..i]) == path && OpenGroups(s.history[..j]) == path + [group] + below
    ensures Precedes(s, i, j) <==> s.history[i].handle.tabIndex <= group
    ensures Precedes(s, j, i) <==> s.history[i].handle.tabIndex > group
  {
    var a, b := s.history[i].handle.tabIndex, s.history[j].handle.tabIndex;
    BesideGroup(path, a, [group] + below + [b]);
    DeeperNode(s.history, j, path, group, below);
    PrecedesIsLess(s, i, j);
    PrecedesIsLess(s, j, i);
    assert NodeAt(s.history, i).path == path + [a];
    hide OpenGroups, PathLess, Precedes, Valid, NodeAt;
  }

  lemma DeeperNode(history: seq<Operation>, j: nat, path: seq<int>, group: int, below: seq<int>)
    requires j < |history| && history[j].Insert? && OpenGroups(history[..j]) == path + [group] + below
    ensures NodeAt(history, j).path == path + ([group] + below + [history[j].handle.tabIndex])
  {
    hide OpenGroups;
    assert (path + [group] + below) + [history[j].handle.tabIndex]
        == path + ([group] + below + [history[j].handle.tabIndex]);
  }

  lemma {:induction false} BesideGroup(path: seq<int>, a: int, rest: seq<int>)
    requires |rest| >= 2
    ensures PathLess(path + [a], path + rest) <==> a <= rest[0]
    ensures PathLess(path + rest, path + [a]) <==> rest[0] < a
    ensures path + [a] != path + rest
  {
    if path == [] {
      assert path + [a] == [a] && path + rest == rest;
      assert [a][1..] == [];
    } else {
      BesideGroup(path[1..], a, rest);
      assert (path + [a])[1..] == path[1..] + [a] && (path + rest)[1..] == path[1..] + rest;
    }
  }

  lemma PrecedesIsLess(s: TabState, i: nat, j: nat)
    requires Valid(s)
    requires i < |s.history| && s.history[i].Insert? && j < |s.history| && s.history[j].Insert?
    ensures Precedes(s, i, j) <==> Less(NodeAt(s.history, i), NodeAt(s.history, j))
  {
    hide Less, NodeAt, OpenGroups;
    var x, y := NodeAt(s.history, i), NodeAt(s.history, j);
    assert x in s.order && y in s.order;
    LessTotal(x, y);
    LessTotal(x, x);
    if Less(x, y) {
      var p :| 0 <= p < |s.order| && s.order[p] == x;
      var q :| 0 <= q < |s.order| && s.order[q] == y;
      assert p < q;
    }
  }

  /** With nothing focused, or something unknown, tabbing begins at the least stop, and backwards at the
      greatest. */
  lemma BeginsAtTheEnds(s: TabState, focused: Option<FocusId>)
    requires Valid(s) && (focused.None? || focused.value !in s.byId) && Stops(s) != []
    ensures var first, last := NextNode(s, focused), PrevNode(s, focused);
      && first.Some? && first.value in s.order && first.value.tabStop
      && last.Some? && last.value in s.order && last.value.tabStop
      && forall y :: y in s.order && y.tabStop ==>
           && (y == first.value || Less(first.value, y))
           && (y == last.value || Less(y, last.value))
  {
    hide Select, Less, OpenGroups, NodeAt, Sorted, FromHistory;
    FirstIsLeast(s.order, Stop());
    LastIsGreatest(s.order, Stop());
    hide Valid;
  }

  /** A node of the order gives back the handle it was inserted for. */
  lemma NodesHaveTheirHandles(s: TabState, node: Node)
    requires Valid(s) && node in s.order
    ensures node.index < |s.history| && s.history[node.index].Insert?
    ensures HandleFor(s, Some(node)) == Some(s.history[node.index].handle)
    ensures var handle := s.history[node.index].handle;
      && node.tabStop == handle.tabStop
      && node.path == OpenGroups(s.history[..node.index]) + [handle.tabIndex]
  {
    hide Less, OpenGroups, Sorted;
  }
}
