/** The tab order of a window (src/tab_stop.rs): focus handles sorted by the path of their groups and
    their tab index, and the cycle `next` and `prev` walk through the tab stops.

    The `SumTree` is the sorted sequence of its items; its cursor is an index into it. */
module TabStops {
  import opened Common
  import opened Arithmetic

  type FocusId = int

  datatype Handle = Handle(id: FocusId, tabIndex: int, tabStop: bool)

  datatype Operation = Insert(handle: Handle) | Group(tabIndex: int) | GroupEnd

  datatype Node = Node(path: seq<int>, index: nat, tabStop: bool)

  datatype TabState = TabState(path: seq<int>, history: seq<Operation>, byId: map<FocusId, Node>, order: seq<Node>)

  // ---------------------------------------------------------------------------------------
  // The order of nodes
  // ---------------------------------------------------------------------------------------

  /** Paths compare lexicographically; a proper prefix comes first. */
  predicate PathLess(a: seq<int>, b: seq<int>) {
    if b == [] then false
    else if a == [] then true
    else a[0] < b[0] || (a[0] == b[0] && PathLess(a[1..], b[1..]))
  }

  predicate Less(a: Node, b: Node) {
    PathLess(a.path, b.path) || (a.path == b.path && a.index < b.index)
  }

  lemma {:induction false} PathTotal(a: seq<int>, b: seq<int>)
    ensures PathLess(a, b) || a == b || PathLess(b, a)
    ensures !(PathLess(a, b) && PathLess(b, a)) && !PathLess(a, a)
  {
    if a != [] && b != [] {
      PathTotal(a[1..], b[1..]);
      if a[0] == b[0] && a[1..] == b[1..] {
        assert a == [a[0]] + a[1..] && b == [b[0]] + b[1..];
      }
    }
    PathIrreflexive(a);
  }

  lemma {:induction false} PathIrreflexive(a: seq<int>)
    ensures !PathLess(a, a)
  {
    if a != [] { PathIrreflexive(a[1..]); }
  }

  lemma {:induction false} PathTransitive(a: seq<int>, b: seq<int>, c: seq<int>)
    requires PathLess(a, b) && PathLess(b, c)
    ensures PathLess(a, c)
  {
    if a != [] && a[0] == b[0] && b[0] == c[0] {
      PathTransitive(a[1..], b[1..], c[1..]);
    }
  }

  lemma LessTotal(a: Node, b: Node)
    ensures Less(a, b) || Less(b, a) || (a.path == b.path && a.index == b.index)
    ensures !(Less(a, b) && Less(b, a)) && !Less(a, a)
  {
    PathTotal(a.path, b.path);
    hide PathLess;
  }

  lemma LessTransitive(a: Node, b: Node, c: Node)
    requires Less(a, b) && Less(b, c)
    ensures Less(a, c)
  {
    if PathLess(a.path, b.path) && PathLess(b.path, c.path) {
      PathTransitive(a.path, b.path, c.path);
    }
    hide PathLess;
  }

  ghost predicate Sorted(order: seq<Node>) {
    forall i, j :: 0 <= i < j < |order| ==> Less(order[i], order[j])
  }

  /** Where the cursor lands when it seeks `node`: before the first item that is not less. */
  function Seek(order: seq<Node>, node: Node): (at: nat)
    ensures at <= |order|
    ensures forall i :: 0 <= i < at ==> Less(order[i], node)
    ensures at < |order| ==> !Less(order[at], node)
  {
    if order == [] || !Less(order[0], node) then 0 else 1 + Seek(order[1..], node)
  }

  function InsertSorted(order: seq<Node>, node: Node): seq<Node> {
    order[..Seek(order, node)] + [node] + order[Seek(order, node)..]
  }

  // ---------------------------------------------------------------------------------------
  // What an operation does
  // ---------------------------------------------------------------------------------------

  const EMPTY := TabState([], [], map[], [])

  function NodeFor(path: seq<int>, handle: Handle, index: nat): Node {
    Node(path + [handle.tabIndex], index, handle.tabStop)
  }

  function Apply(s: TabState, op: Operation): TabState {
    var history := s.history + [op];
    match op
    case Insert(handle) =>
      var node := NodeFor(s.path, handle, |s.history|);
      TabState(s.path, history, s.byId[handle.id := node], InsertSorted(s.order, node))
    case Group(tabIndex) => s.(path := s.path + [tabIndex], history := history)
    case GroupEnd => s.(path := if s.path == [] then [] else s.path[..|s.path| - 1], history := history)
  }

  function Run(s: TabState, ops: seq<Operation>): TabState {
    if ops == [] then s else Apply(Run(s, ops[..|ops| - 1]), ops[|ops| - 1])
  }

  // ---------------------------------------------------------------------------------------
  // What the map holds, from its history alone
  // ---------------------------------------------------------------------------------------

  // The tab indices of the groups open after the operations; a superfluous end is ignored.
  function OpenGroups(history: seq<Operation>): seq<int> {
    if history == [] then []
    else
      var open := OpenGroups(history[..|history| - 1]);
      var op := history[|history| - 1];
      if op.Group? then open + [op.tabIndex]
      else if op.GroupEnd? && open != [] then open[..|open| - 1]
      else open
  }

  function NodeAt(history: seq<Operation>, i: nat): Node
    requires i < |history| && history[i].Insert?
  {
    NodeFor(OpenGroups(history[..i]), history[i].handle, i)
  }

  /** The order holds the nodes of the inserted handles, strictly sorted; an id stands for its last
      insertion. */
  ghost predicate Valid(s: TabState) {
    && s.path == OpenGroups(s.history)
    && Sorted(s.order)
    && (forall node :: node in s.order ==> FromHistory(s.history, node))
    && (forall i: nat :: i < |s.history| && s.history[i].Insert? ==> NodeAt(s.history, i) in s.order)
    && (forall id :: id in s.byId ==> FromHistory(s.history, s.byId[id]) && s.history[s.byId[id].index].handle.id == id)
    && (forall i: nat :: i < |s.history| && s.history[i].Insert? ==>
          s.history[i].handle.id in s.byId && i <= s.byId[s.history[i].handle.id].index)
  }

  ghost predicate FromHistory(history: seq<Operation>, node: Node) {
    node.index < |history| && history[node.index].Insert? && NodeAt(history, node.index) == node
  }

  lemma NodeAtAppend(history: seq<Operation>, op: Operation, i: nat)
    requires i < |history| && history[i].Insert?
    ensures NodeAt(history + [op], i) == NodeAt(history, i)
  {
    assert (history + [op])[..i] == history[..i];
  }

  lemma InsertSortedFacts(order: seq<Node>, node: Node)
    requires Sorted(order)
    requires forall i :: 0 <= i < |order| ==> order[i].index != node.index
    ensures Sorted(InsertSorted(order, node))
    ensures forall x :: x in InsertSorted(order, node) <==> x == node || x in order
  {
    var at := Seek(order, node);
    hide Less, Seek;
    forall i | at <= i < |order| ensures Less(node, order[i]) {
      LessTotal(order[at], node);
      if at < i { LessTransitive(node, order[at], order[i]); }
    }
    assert order == order[..at] + order[at..];
  }

  lemma OpenGroupsSnoc(history: seq<Operation>, op: Operation)
    ensures var open := OpenGroups(history);
      OpenGroups(history + [op]) == if op.Group? then open + [op.tabIndex]
        else if op.GroupEnd? && open != [] then open[..|open| - 1] else open
  {
    assert (history + [op])[..|history|] == history;
  }

  lemma ApplyKeepsValid(s: TabState, op: Operation)
    requires Valid(s)
    ensures Valid(Apply(s, op))
  {
    OpenGroupsSnoc(s.history, op);
    hide OpenGroups, Sorted, InsertSorted;
    var t := Apply(s, op);
    HistoryGrows(s, op);
    if op.Insert? {
      var node := NodeFor(s.path, op.handle, |s.history|);
      assert (s.history + [op])[..|s.history|] == s.history;
      assert NodeAt(t.history, |s.history|) == node;
      forall i | 0 <= i < |s.order| ensures s.order[i].index != node.index {
        assert s.order[i] in s.order;
      }
      InsertSortedFacts(s.order, node);
    }
    hide NodeAt;
  }

  lemma HistoryGrows(s: TabState, op: Operation)
    ensures forall node :: FromHistory(s.history, node) ==> FromHistory(s.history + [op], node)
    ensures forall i: nat :: i < |s.history| && s.history[i].Insert? ==>
      NodeAt(s.history + [op], i) == NodeAt(s.history, i)
  {
    forall i: nat | i < |s.history| && s.history[i].Insert?
      ensures NodeAt(s.history + [op], i) == NodeAt(s.history, i)
    {
      NodeAtAppend(s.history, op, i);
    }
  }

  lemma {:induction false} RunKeepsValid(s: TabState, ops: seq<Operation>)
    requires Valid(s)
    ensures Valid(Run(s, ops))
  {
    hide Valid;
    if ops != [] {
      RunKeepsValid(s, ops[..|ops| - 1]);
      ApplyKeepsValid(Run(s, ops[..|ops| - 1]), ops[|ops| - 1]);
    }
  }

  lemma {:induction false} RunRecords(s: TabState, ops: seq<Operation>)
    ensures Run(s, ops).history == s.history + ops
  {
    if ops != [] {
      RunRecords(s, ops[..|ops| - 1]);
      hide Run;
      assert ops == ops[..|ops| - 1] + [ops[|ops| - 1]];
      RunSnoc(s, ops);
    }
  }

  lemma RunSnoc(s: TabState, ops: seq<Operation>)
    requires ops != []
    ensures Run(s, ops) == Apply(Run(s, ops[..|ops| - 1]), ops[|ops| - 1])
    ensures Run(s, ops).history == Run(s, ops[..|ops| - 1]).history + [ops[|ops| - 1]]
  {
  }

  /** A valid state is determined by its history, and replaying the history rebuilds it. */
  lemma {:induction false} ReplayRebuilds(s: TabState)
    requires Valid(s)
    ensures Run(EMPTY, s.history) == s
  {
    var r := Run(EMPTY, s.history);
    EmptyIsValid();
    RunKeepsValid(EMPTY, s.history);
    RunRecords(EMPTY, s.history);
    hide Run;
    SameHistorySameState(r, s);
  }

  lemma EmptyIsValid()
    ensures Valid(EMPTY)
  {
  }

  lemma SameHistorySameState(a: TabState, b: TabState)
    requires Valid(a) && Valid(b) && a.history == b.history
    ensures a == b
  {
    hide NodeAt, OpenGroups, Less;
    forall id | id in a.byId ensures id in b.byId && a.byId[id] == b.byId[id] {
      SameEntry(a, b, id);
    }
    forall id | id in b.byId ensures id in a.byId {
      SameEntry(b, a, id);
    }
    assert a.byId == b.byId;
    SubsetByHistory(a, b);
    SubsetByHistory(b, a);
    SortedUnique(a.order, b.order);
  }

  lemma SameEntry(a: TabState, b: TabState, id: FocusId)
    requires Valid(a) && Valid(b) && a.history == b.history && id in a.byId
    ensures id in b.byId && a.byId[id] == b.byId[id]
  {
    hide NodeAt, OpenGroups, Sorted;
    var i := a.byId[id].index;
    assert a.history[i].handle.id == id;
    var j := b.byId[id].index;
    assert a.history[j].handle.id == id;
  }

  lemma SubsetByHistory(a: TabState, b: TabState)
    requires Valid(a) && Valid(b) && a.history == b.history
    ensures forall node :: node in a.order ==> node in b.order
  {
    hide NodeAt, OpenGroups, Sorted;
    forall node | node in a.order ensures node in b.order {
      assert FromHistory(a.history, node);
    }
  }

  lemma {:induction false} SortedUnique(a: seq<Node>, b: seq<Node>)
    requires Sorted(a) && Sorted(b)
    requires forall node :: node in a <==> node in b
    ensures a == b
  {
    if a == [] {
      assert forall i :: 0 <= i < |b| ==> b[i] in a;
    } else {
      hide Less;
      assert a[0] in b && b[0] in a by { assert a[0] in a; if b != [] { assert b[0] in b; } }
      assert a[0] == b[0] by {
        var i :| 0 <= i < |b| && b[i] == a[0];
        var j :| 0 <= j < |a| && a[j] == b[0];
        LessTotal(a[0], b[0]);
      }
      Tail(a);
      Tail(b);
      SortedUnique(a[1..], b[1..]);
      assert a == [a[0]] + a[1..] && b == [b[0]] + b[1..];
    }
  }

  lemma Tail(a: seq<Node>)
    requires Sorted(a) && a != []
    ensures Sorted(a[1..])
    ensures forall node :: node in a[1..] <==> node in a && node != a[0]
  {
    hide Less;
    forall node | node in a[1..] ensures node in a && node != a[0] {
      var i :| 0 <= i < |a| - 1 && a[1..][i] == node;
      LessTotal(a[0], a[0]);
      assert Less(a[0], a[i + 1]);
    }
  }

  /** The members of a group stand together: between two handles below a path there is no handle from
      outside it. */
  lemma {:induction false} GroupsAreContiguous(group: seq<int>, a: seq<int>, b: seq<int>, c: seq<int>)
    requires group <= a && group <= c
    requires PathLess(a, b) && PathLess(b, c)
    ensures group <= b
  {
    if group != [] {
      GroupsAreContiguous(group[1..], a[1..], b[1..], c[1..]);
    }
  }

  // ---------------------------------------------------------------------------------------
  // Next and previous
  // ---------------------------------------------------------------------------------------

  function Select(order: seq<Node>, p: Node -> bool): seq<Node> {
    if order == [] then [] else (if p(order[0]) then [order[0]] else []) + Select(order[1..], p)
  }

  function Stop(): Node -> bool {
    (x: Node) => x.tabStop
  }

  function After(node: Node): Node -> bool {
    (x: Node) => x.tabStop && Less(node, x)
  }

  function Before(node: Node): Node -> bool {
    (x: Node) => x.tabStop && Less(x, node)
  }

  function Stops(s: TabState): seq<Node> {
    Select(s.order, Stop())
  }

  /** The next tab stop: the least one after the focused handle, or else the first of all. */
  function NextNode(s: TabState, focused: Option<FocusId>): Option<Node> {
    var stops := Stops(s);
    if stops == [] then None
    else if focused.None? || focused.value !in s.byId then Some(stops[0])
    else
      var later := Select(s.order, After(s.byId[focused.value]));
      Some(if later == [] then stops[0] else later[0])
  }

  /** The previous tab stop: the greatest one before the focused handle, or else the last of all. */
  function PrevNode(s: TabState, focused: Option<FocusId>): Option<Node> {
    var stops := Stops(s);
    if stops == [] then None
    else if focused.None? || focused.value !in s.byId then Some(stops[|stops| - 1])
    else
      var earlier := Select(s.order, Before(s.byId[focused.value]));
      Some(if earlier == [] then stops[|stops| - 1] else earlier[|earlier| - 1])
  }

  function HandleFor(s: TabState, node: Option<Node>): Option<Handle> {
    if node.Some? && node.value.index < |s.history| && s.history[node.value.index].Insert?
      then Some(s.history[node.value.index].handle) else None
  }

  lemma {:induction false} FirstSelected(order: seq<Node>, p: Node -> bool, i: nat)
    requires i <= |order| && (forall j :: 0 <= j < i ==> !p(order[j])) && (i < |order| ==> p(order[i]))
    ensures if i < |order| then |Select(order, p)| > 0 && Select(order, p)[0] == order[i] else Select(order, p) == []
  {
    if i > 0 {
      FirstSelected(order[1..], p, i - 1);
    }
  }

  lemma {:induction false} SelectAppend(a: seq<Node>, b: seq<Node>, p: Node -> bool)
    ensures Select(a + b, p) == Select(a, p) + Select(b, p)
  {
    if a == [] {
      assert a + b == b;
    } else {
      var head := if p(a[0]) then [a[0]] else [];
      assert (a + b)[0] == a[0] && (a + b)[1..] == a[1..] + b;
      SelectAppend(a[1..], b, p);
      assert Select(a + b, p) == head + Select(a[1..] + b, p);
      assert Select(a, p) == head + Select(a[1..], p);
    }
  }

  lemma {:induction false} LastSelected(order: seq<Node>, p: Node -> bool, i: int)
    requires -1 <= i < |order| && (forall j :: i < j < |order| ==> !p(order[j])) && (i >= 0 ==> p(order[i]))
    ensures var selected := Select(order, p);
      if i >= 0 then |selected| > 0 && selected[|selected| - 1] == order[i] else selected == []
  {
    if i < 0 {
      SelectNone(order, p);
    } else {
      hide Select;
      var upTo, rest := order[..i + 1], order[i + 1..];
      SelectNone(rest, p);
      SelectAppend(order[..i], [order[i]], p);
      SelectAll([order[i]], p);
      SelectAppend(upTo, rest, p);
      assert order == upTo + rest && upTo == order[..i] + [order[i]];
    }
  }

  lemma {:induction false} SelectNone(order: seq<Node>, p: Node -> bool)
    requires forall j :: 0 <= j < |order| ==> !p(order[j])
    ensures Select(order, p) == []
  {
    if order != [] { SelectNone(order[1..], p); }
  }

  lemma {:induction false} SelectAll(order: seq<Node>, p: Node -> bool)
    requires forall j :: 0 <= j < |order| ==> p(order[j])
    ensures Select(order, p) == order
  {
    if order != [] { SelectAll(order[1..], p); }
  }

  lemma {:induction false} SelectTwice(order: seq<Node>, p: Node -> bool, q: Node -> bool)
    requires forall x :: q(x) ==> p(x)
    ensures Select(Select(order, p), q) == Select(order, q)
  {
    if order != [] {
      SelectTwice(order[1..], p, q);
      SelectAppend(if p(order[0]) then [order[0]] else [], Select(order[1..], p), q);
    }
  }

  lemma {:induction false} SelectFacts(order: seq<Node>, p: Node -> bool)
    requires Sorted(order)
    ensures Sorted(Select(order, p))
    ensures forall x :: x in Select(order, p) <==> x in order && p(x)
  {
    if order != [] {
      hide Less;
      SelectFacts(order[1..], p);
      assert order == [order[0]] + order[1..];
      hide Select;
      SelectCons(order, p);
      forall x | x in order[1..] ensures Less(order[0], x) {
      }
    }
  }

  lemma SelectCons(order: seq<Node>, p: Node -> bool)
    requires order != []
    ensures Select(order, p) == (if p(order[0]) then [order[0]] + Select(order[1..], p) else Select(order[1..], p))
  {
  }

  /** In a sorted order, the stops after and before the k-th stop are the rest of the stops. */
  lemma AroundStop(order: seq<Node>, k: nat)
    requires Sorted(order) && k < |Select(order, Stop())|
    ensures var stops := Select(order, Stop());
      Select(order, After(stops[k])) == stops[k + 1..] && Select(order, Before(stops[k])) == stops[..k]
  {
    var stops := Select(order, Stop());
    SelectFacts(order, Stop());
    SelectTwice(order, Stop(), After(stops[k]));
    SelectTwice(order, Stop(), Before(stops[k]));
    hide Select;
    forall j | 0 <= j < |stops|
      ensures After(stops[k])(stops[j]) <==> j > k
      ensures Before(stops[k])(stops[j]) <==> j < k
    {
      assert stops[j] in stops;
      LessTotal(stops[j], stops[k]);
      hide Less;
    }
    SelectSuffix(stops, After(stops[k]), k + 1);
    SelectPrefix(stops, Before(stops[k]), k);
  }

  lemma SelectSuffix(order: seq<Node>, p: Node -> bool, k: nat)
    requires k <= |order| && forall j :: 0 <= j < |order| ==> (p(order[j]) <==> j >= k)
    ensures Select(order, p) == order[k..]
  {
    hide Select;
    SelectNone(order[..k], p);
    SelectAll(order[k..], p);
    SelectAppend(order[..k], order[k..], p);
    assert order == order[..k] + order[k..];
  }

  lemma SelectPrefix(order: seq<Node>, p: Node -> bool, k: nat)
    requires k <= |order| && forall j :: 0 <= j < |order| ==> (p(order[j]) <==> j < k)
    ensures Select(order, p) == order[..k]
  {
    hide Select;
    SelectAll(order[..k], p);
    SelectNone(order[k..], p);
    SelectAppend(order[..k], order[k..], p);
    assert order == order[..k] + order[k..];
  }

  lemma {:induction false} SelectSame(order: seq<Node>, p: Node -> bool, q: Node -> bool)
    requires forall i :: 0 <= i < |order| ==> (p(order[i]) <==> q(order[i]))
    ensures Select(order, p) == Select(order, q)
  {
    if order != [] { SelectSame(order[1..], p, q); }
  }

  /** From any focused handle, a stop or not: `next` is the least later stop, or the least of all when
      there is none later. */
  lemma NextIsLeastLater(s: TabState, id: FocusId)
    requires Valid(s) && id in s.byId && Stops(s) != []
    ensures var x, r := s.byId[id], NextNode(s, Some(id));
      && r.Some? && r.value in s.order && r.value.tabStop
      && (Less(x, r.value) || !exists y :: y in s.order && y.tabStop && Less(x, y))
      && forall y :: y in s.order && y.tabStop && (Less(x, y) || !Less(x, r.value)) ==> y == r.value || Less(r.value, y)
  {
    hide Select, Less, OpenGroups, NodeAt, Sorted, FromHistory;
    FirstIsLeast(s.order, Stop());
    FirstIsLeast(s.order, After(s.byId[id]));
    hide Valid;
  }

  /** From any focused handle: `prev` is the greatest earlier stop, or the greatest of all. */
  lemma PrevIsGreatestEarlier(s: TabState, id: FocusId)
    requires Valid(s) && id in s.byId && Stops(s) != []
    ensures var x, r := s.byId[id], PrevNode(s, Some(id));
      && r.Some? && r.value in s.order && r.value.tabStop
      && (Less(r.value, x) || !exists y :: y in s.order && y.tabStop && Less(y, x))
      && forall y :: y in s.order && y.tabStop && (Less(y, x) || !Less(r.value, x)) ==> y == r.value || Less(y, r.value)
  {
    hide Select, Less, OpenGroups, NodeAt, Sorted, FromHistory;
    LastIsGreatest(s.order, Stop());
    LastIsGreatest(s.order, Before(s.byId[id]));
    hide Valid;
  }

  lemma FirstIsLeast(order: seq<Node>, p: Node -> bool)
    requires Sorted(order)
    ensures var selected := Select(order, p);
      if selected == [] then !exists y :: y in order && p(y)
      else
        && selected[0] in order && p(selected[0])
        && forall y :: y in order && p(y) ==> y == selected[0] || Less(selected[0], y)
  {
    var selected := Select(order, p);
    SelectFacts(order, p);
    hide Select, Less;
    if selected != [] {
      assert selected[0] in selected;
    }
    forall y | y in order && p(y)
      ensures selected != [] && (y == selected[0] || Less(selected[0], y))
    {
      assert y in selected;
    }
  }

  lemma LastIsGreatest(order: seq<Node>, p: Node -> bool)
    requires Sorted(order)
    ensures var selected := Select(order, p);
      if selected == [] then !exists y :: y in order && p(y)
      else
        var last := selected[|selected| - 1];
        last in order && p(last) && forall y :: y in order && p(y) ==> y == last || Less(y, last)
  {
    var selected := Select(order, p);
    SelectFacts(order, p);
    hide Select, Less;
    if selected != [] {
      assert selected[|selected| - 1] in selected;
    }
    forall y | y in order && p(y)
      ensures selected != [] && (y == selected[|selected| - 1] || Less(y, selected[|selected| - 1]))
    {
      assert y in selected;
    }
  }

  // ---------------------------------------------------------------------------------------
  // Next and previous by counting stops
  // ---------------------------------------------------------------------------------------

  function NotLater(node: Node): Node -> bool {
    (x: Node) => x.tabStop && !Less(node, x)
  }

  /** The number of tab stops up to a node, itself included. */
  function UpTo(s: TabState, node: Node): nat {
    |Select(s.order, NotLater(node))|
  }

  /** The number of tab stops before a node. */
  function Ahead(s: TabState, node: Node): nat {
    |Select(s.order, Before(node))|
  }

  // In a sorted sequence, the elements after a node are its end, those before a node its start.
  lemma {:induction false} CutAfter(order: seq<Node>, node: Node) returns (k: nat)
    requires Sorted(order)
    ensures k <= |order| && forall j :: 0 <= j < |order| ==> (Less(node, order[j]) <==> j >= k)
  {
    hide Less;
    if order == [] || !Less(node, order[|order| - 1]) {
      k := |order|;
      forall j | 0 <= j < |order| ensures !Less(node, order[j]) {
        if Less(node, order[j]) && j < |order| - 1 {
          LessTransitive(node, order[j], order[|order| - 1]);
        }
      }
    } else {
      k := CutAfter(order[..|order| - 1], node);
    }
  }

  lemma {:induction false} CutBefore(order: seq<Node>, node: Node) returns (k: nat)
    requires Sorted(order)
    ensures k <= |order| && forall j :: 0 <= j < |order| ==> (Less(order[j], node) <==> j < k)
  {
    hide Less;
    if order == [] || Less(order[|order| - 1], node) {
      k := |order|;
      forall j | 0 <= j < |order| ensures Less(order[j], node) {
        if j < |order| - 1 {
          LessTransitive(order[j], order[|order| - 1], node);
        }
      }
    } else {
      k := CutBefore(order[..|order| - 1], node);
    }
  }

  // The stops after a node are those past the count of stops up to it; those before it, the first ones.
  lemma StopsByCount(s: TabState, node: Node)
    requires Sorted(s.order)
    ensures var stops := Stops(s);
      && UpTo(s, node) <= |stops| && Select(s.order, After(node)) == stops[UpTo(s, node)..]
      && Ahead(s, node) <= |stops| && Select(s.order, Before(node)) == stops[..Ahead(s, node)]
  {
    var stops := Stops(s);
    SelectFacts(s.order, Stop());
    SelectTwice(s.order, Stop(), After(node));
    SelectTwice(s.order, Stop(), Before(node));
    SelectTwice(s.order, Stop(), NotLater(node));
    hide Select, Less, Sorted;
    var k := CutAfter(stops, node);
    var m := CutBefore(stops, node);
    forall j | 0 <= j < |stops|
      ensures After(node)(stops[j]) <==> j >= k
      ensures NotLater(node)(stops[j]) <==> j < k
      ensures Before(node)(stops[j]) <==> j < m
    {
      assert stops[j] in stops;
    }
    SelectSuffix(stops, After(node), k);
    SelectPrefix(stops, NotLater(node), k);
    SelectPrefix(stops, Before(node), m);
  }

  /** From a focused handle, whatever was inserted how often: `next` is the stop numbered by the count of stops
      up to it, `prev` the one numbered by the count of stops before it less one, both wrapping around. */
  lemma NeighboursByCount(s: TabState, id: FocusId)
    requires Valid(s) && id in s.byId && Stops(s) != []
    ensures var stops, node := Stops(s), s.byId[id];
      && NextNode(s, Some(id)) == Some(stops[UpTo(s, node) % |stops|])
      && PrevNode(s, Some(id)) == Some(stops[(Ahead(s, node) + |stops| - 1) % |stops|])
  {
    var node := s.byId[id];
    SortedOrder(s);
    hide *;
    StopsByCount(s, node);
    NextByCount(s, id, node, UpTo(s, node));
    PrevByCount(s, id, node, Ahead(s, node));
  }

  lemma NextByCount(s: TabState, id: FocusId, node: Node, u: nat)
    requires id in s.byId && s.byId[id] == node && Stops(s) != [] && u <= |Stops(s)|
    requires Select(s.order, After(node)) == Stops(s)[u..]
    ensures NextNode(s, Some(id)) == Some(Stops(s)[u % |Stops(s)|])
  {
    NextByLater(s, id);
    hide *;
    FirstFrom(Stops(s), u);
  }

  lemma PrevByCount(s: TabState, id: FocusId, node: Node, u: nat)
    requires id in s.byId && s.byId[id] == node && Stops(s) != [] && u <= |Stops(s)|
    requires Select(s.order, Before(node)) == Stops(s)[..u]
    ensures PrevNode(s, Some(id)) == Some(Stops(s)[(u + |Stops(s)| - 1) % |Stops(s)|])
  {
    PrevByEarlier(s, id);
    hide *;
    LastUpTo(Stops(s), u);
  }

  lemma FirstFrom(stops: seq<Node>, u: nat)
    requires stops != [] && u <= |stops|
    ensures (if stops[u..] == [] then stops[0] else stops[u..][0]) == stops[u % |stops|]
  {
    Wrapped(u, |stops|);
  }

  lemma LastUpTo(stops: seq<Node>, u: nat)
    requires stops != [] && u <= |stops|
    ensures (if stops[..u] == [] then stops[|stops| - 1] else stops[..u][u - 1]) == stops[(u + |stops| - 1) % |stops|]
  {
    Wrapped(u + |stops| - 1, |stops|);
  }

  lemma SortedOrder(s: TabState)
    requires Valid(s)
    ensures Sorted(s.order)
  {
  }

  lemma NextByLater(s: TabState, id: FocusId)
    requires id in s.byId && Stops(s) != []
    ensures var later := Select(s.order, After(s.byId[id]));
      NextNode(s, Some(id)) == Some(if later == [] then Stops(s)[0] else later[0])
  {
    hide Select;
  }

  lemma PrevByEarlier(s: TabState, id: FocusId)
    requires id in s.byId && Stops(s) != []
    ensures var earlier := Select(s.order, Before(s.byId[id]));
      PrevNode(s, Some(id)) == Some(if earlier == [] then Stops(s)[|Stops(s)| - 1] else earlier[|earlier| - 1])
  {
    hide Select;
  }

  lemma Wrapped(x: nat, n: nat)
    requires 0 < n && x < 2 * n
    ensures x % n == if x < n then x else x - n
  {
  }

  // ---------------------------------------------------------------------------------------
  // The cycle
  // ---------------------------------------------------------------------------------------

  function IdOf(s: TabState, node: Option<Node>): Option<FocusId> {
    var handle := HandleFor(s, node);
    if handle.Some? then Some(handle.value.id) else None
  }

  // The id of the k-th tab stop.
  function StopId(s: TabState, k: nat): Option<FocusId>
    requires k < |Stops(s)|
  {
    IdOf(s, Some(Stops(s)[k]))
  }

  // What the index holds under the id of the k-th tab stop: the last insertion of its handle.
  lemma StopIsFocusable(s: TabState, k: nat)
    requires Valid(s) && k < |Stops(s)|
    ensures StopId(s, k).Some? && StopId(s, k).value in s.byId
    ensures var node := s.byId[StopId(s, k).value];
      && node.index < |s.history| && s.history[node.index].Insert?
      && s.history[node.index].handle.id == StopId(s, k).value
      && NodeAt(s.history, node.index) == node && node in s.order
    ensures var stop := Stops(s)[k];
      && stop.index < |s.history| && s.history[stop.index].Insert?
      && s.history[stop.index].handle.id == StopId(s, k).value && s.history[stop.index].handle.tabStop
      && NodeAt(s.history, stop.index) == stop && stop.index <= s.byId[StopId(s, k).value].index
    ensures Sorted(s.order)
  {
    var node := Stops(s)[k];
    SelectFacts(s.order, Stop());
    hide Select, Sorted, OpenGroups;
    assert node in Stops(s);
    assert FromHistory(s.history, node);
  }

  ghost function LastInsertion(s: TabState, k: nat): Node
    requires Valid(s) && k < |Stops(s)|
  {
    StopIsFocusable(s, k);
    s.byId[StopId(s, k).value]
  }

  /** The number of the stop that `next`, and that `prev`, goes to from the k-th. */
  ghost function NextIndex(s: TabState, k: nat): (i: nat)
    requires Valid(s) && k < |Stops(s)|
    ensures i < |Stops(s)|
  {
    UpTo(s, LastInsertion(s, k)) % |Stops(s)|
  }

  ghost function PrevIndex(s: TabState, k: nat): (i: nat)
    requires Valid(s) && k < |Stops(s)|
    ensures i < |Stops(s)|
  {
    (Ahead(s, LastInsertion(s, k)) + |Stops(s)| - 1) % |Stops(s)|
  }

  /** From the k-th tab stop, `next` and `prev` go to the neighbours of the last insertion of its handle; so
      `next` goes to the following stop exactly if as many stops, modulo their number, lie up to that
      insertion as up to the stop itself. */
  lemma NeighbouringStops(s: TabState, k: nat)
    requires Valid(s) && k < |Stops(s)|
    ensures var stops := Stops(s);
      && NextNode(s, StopId(s, k)) == Some(stops[NextIndex(s, k)])
      && PrevNode(s, StopId(s, k)) == Some(stops[PrevIndex(s, k)])
      && (NextNode(s, StopId(s, k)) == Some(stops[(k + 1) % |stops|])
          <==> UpTo(s, LastInsertion(s, k)) % |stops| == UpTo(s, stops[k]) % |stops|)
  {
    StopIsFocusable(s, k);
    NeighboursByCount(s, StopId(s, k).value);
    CountsOfStop(s, k);
    hide Valid, StopId, Stops, UpTo, Ahead, NextNode, PrevNode;
    StopsDiffer(s, NextIndex(s, k), (k + 1) % |Stops(s)|);
  }

  lemma CountsOfStop(s: TabState, k: nat)
    requires Sorted(s.order) && k < |Stops(s)|
    ensures UpTo(s, Stops(s)[k]) == k + 1 && Ahead(s, Stops(s)[k]) == k
  {
    AroundStop(s.order, k);
    StopsByCount(s, Stops(s)[k]);
    hide Select, Less, Sorted, UpTo, Ahead;
    var u, v := UpTo(s, Stops(s)[k]), Ahead(s, Stops(s)[k]);
    assert |Stops(s)[u..]| == |Stops(s)[k + 1..]| && |Stops(s)[..v]| == |Stops(s)[..k]|;
  }

  lemma StopsDiffer(s: TabState, k: nat, m: nat)
    requires Valid(s) && k < |Stops(s)| && m < |Stops(s)|
    ensures Stops(s)[k] == Stops(s)[m] <==> k == m
  {
    SelectFacts(s.order, Stop());
    hide Select, OpenGroups, NodeAt, Less;
    var stops := Stops(s);
    LessTotal(stops[k], stops[m]);
    LessTotal(stops[k], stops[k]);
  }

  /** `prev` undoes `next`, and `next` undoes `prev`, exactly if the numbers of the stops say so. */
  lemma PrevUndoesNext(s: TabState, k: nat)
    requires Valid(s) && k < |Stops(s)|
    ensures PrevNode(s, IdOf(s, NextNode(s, StopId(s, k)))) == Some(Stops(s)[k])
       <==> PrevIndex(s, NextIndex(s, k)) == k
    ensures NextNode(s, IdOf(s, PrevNode(s, StopId(s, k)))) == Some(Stops(s)[k])
       <==> NextIndex(s, PrevIndex(s, k)) == k
  {
    hide Valid, NextNode, PrevNode, HandleFor, Stops, IdOf, NextIndex, PrevIndex, UpTo, Ahead, LastInsertion;
    var up, down := NextIndex(s, k), PrevIndex(s, k);
    NeighbouringStops(s, k);
    NeighbouringStops(s, up);
    NeighbouringStops(s, down);
    StopsDiffer(s, PrevIndex(s, up), k);
    StopsDiffer(s, NextIndex(s, down), k);
  }

  // The focus after pressing tab so many times.
  function TabTimes(s: TabState, focused: Option<FocusId>, times: nat): Option<FocusId> {
    if times == 0 then focused else IdOf(s, NextNode(s, TabTimes(s, focused, times - 1)))
  }

  /** Every stop leads to the handle of the following one. */
  ghost predicate EachLeadsOn(s: TabState)
    requires Valid(s)
  {
    forall k: nat :: k < |Stops(s)| ==> StopId(s, NextIndex(s, k)) == StopId(s, (k + 1) % |Stops(s)|)
  }

  /** Pressing tab walks a single cycle through all the tab stops in order. */
  ghost predicate TabsInACycle(s: TabState) {
    forall k: nat, times: nat :: k < |Stops(s)| ==>
      TabTimes(s, StopId(s, k), times) == StopId(s, (k + times) % |Stops(s)|)
  }

  /** It does exactly if the stop after the last insertion of each stop's handle has the handle of the stop
      after it. */
  lemma TabbingIsACycle(s: TabState)
    requires Valid(s)
    ensures TabsInACycle(s) <==> EachLeadsOn(s)
  {
    hide TabsInACycle, EachLeadsOn, Valid;
    if EachLeadsOn(s) {
      LeadingOnIsACycle(s);
    }
    if TabsInACycle(s) {
      CycleLeadsOn(s);
    }
  }

  lemma LeadingOnIsACycle(s: TabState)
    requires Valid(s) && EachLeadsOn(s)
    ensures TabsInACycle(s)
  {
    hide Valid, Stops, StopId, TabTimes, EachLeadsOn;
    forall k: nat, times: nat | k < |Stops(s)|
      ensures TabTimes(s, StopId(s, k), times) == StopId(s, (k + times) % |Stops(s)|)
    {
      TabbingFollows(s, k, times);
    }
  }

  lemma CycleLeadsOn(s: TabState)
    requires Valid(s) && TabsInACycle(s)
    ensures EachLeadsOn(s)
  {
    hide Valid, Stops, StopId, TabTimes, NextIndex;
    forall k: nat | k < |Stops(s)| ensures StopId(s, NextIndex(s, k)) == StopId(s, (k + 1) % |Stops(s)|) {
      TabOnce(s, k);
      assert TabTimes(s, StopId(s, k), 1) == StopId(s, (k + 1) % |Stops(s)|);
    }
  }

  lemma TabOnce(s: TabState, k: nat)
    requires Valid(s) && k < |Stops(s)|
    ensures IdOf(s, NextNode(s, StopId(s, k))) == StopId(s, NextIndex(s, k))
    ensures TabTimes(s, StopId(s, k), 1) == StopId(s, NextIndex(s, k))
  {
    NeighbouringStops(s, k);
    hide Valid, NextNode, HandleFor, Stops, NextIndex, IdOf;
    assert TabTimes(s, StopId(s, k), 0) == StopId(s, k);
  }

  lemma LeadsOn(s: TabState, k: nat)
    requires Valid(s) && EachLeadsOn(s) && k < |Stops(s)|
    ensures IdOf(s, NextNode(s, StopId(s, k))) == StopId(s, (k + 1) % |Stops(s)|)
  {
    TabOnce(s, k);
    hide Valid, NextNode, HandleFor, Stops, NextIndex, IdOf, StopId;
  }

  lemma {:induction false} TabbingFollows(s: TabState, k: nat, times: nat)
    requires Valid(s) && EachLeadsOn(s) && k < |Stops(s)|
    ensures TabTimes(s, StopId(s, k), times) == StopId(s, (k + times) % |Stops(s)|)
  {
    hide Valid, NextNode, HandleFor, Stops, StopId, IdOf, NextIndex, EachLeadsOn;
    var n := |Stops(s)|;
    if times > 0 {
      TabbingFollows(s, k, times - 1);
      LeadsOn(s, (k + times - 1) % n);
      OneMore(k + times - 1, n);
    }
  }

  lemma OneMore(x: nat, n: nat)
    requires n > 0
    ensures x % n < n && (x % n + 1) % n == (x + 1) % n
  {
    NextModulo(x, n);
    Wrapped(x % n + 1, n);
  }

  // ---------------------------------------------------------------------------------------
  // Handles inserted more than once
  // ---------------------------------------------------------------------------------------

  // The j-th operation inserts again the handle that the i-th did.
  ghost predicate InsertsAgain(history: seq<Operation>, i: nat, j: nat) {
    i < j < |history| && history[i].Insert? && history[j].Insert? && history[i].handle.id == history[j].handle.id
  }

  /** No handle inserted as a tab stop is inserted again later. */
  ghost predicate NoStopAgain(history: seq<Operation>) {
    forall i: nat, j: nat :: InsertsAgain(history, i, j) ==> !history[i].handle.tabStop
  }

  /** All insertions of a handle agree on whether it is a tab stop. */
  ghost predicate Steady(history: seq<Operation>) {
    forall i: nat, j: nat :: InsertsAgain(history, i, j) ==> history[i].handle.tabStop == history[j].handle.tabStop
  }

  /** With no stop inserted again, `next` follows the order and wraps around, and `prev` goes back. */
  lemma InsertedOnceLeadsOn(s: TabState, k: nat)
    requires Valid(s) && NoStopAgain(s.history) && k < |Stops(s)|
    ensures NextIndex(s, k) == (k + 1) % |Stops(s)| && PrevIndex(s, k) == (k + |Stops(s)| - 1) % |Stops(s)|
  {
    LastIsStop(s, k);
    SortedOrder(s);
    CountsOfStop(s, k);
    hide Valid, Stops, UpTo, Ahead, StopId, NodeAt, LastInsertion;
  }

  lemma LastIsStop(s: TabState, k: nat)
    requires Valid(s) && NoStopAgain(s.history) && k < |Stops(s)|
    ensures LastInsertion(s, k) == Stops(s)[k]
  {
    StopIsFocusable(s, k);
    hide Valid, Stops, StopId, NodeAt;
    var stop, last := Stops(s)[k], LastInsertion(s, k);
    assert stop.index < last.index ==> InsertsAgain(s.history, stop.index, last.index);
  }

  lemma InsertedOnceIsACycle(s: TabState)
    requires Valid(s) && NoStopAgain(s.history)
    ensures EachLeadsOn(s)
    ensures forall k: nat :: k < |Stops(s)| ==>
      PrevIndex(s, NextIndex(s, k)) == k && NextIndex(s, PrevIndex(s, k)) == k
  {
    hide Valid, Stops, StopId, NextIndex, PrevIndex, NoStopAgain;
    var n := |Stops(s)|;
    forall k: nat | k < n
      ensures StopId(s, NextIndex(s, k)) == StopId(s, (k + 1) % n)
      ensures PrevIndex(s, NextIndex(s, k)) == k && NextIndex(s, PrevIndex(s, k)) == k
    {
      InsertedOnceLeadsOn(s, k);
      InsertedOnceLeadsOn(s, NextIndex(s, k));
      InsertedOnceLeadsOn(s, PrevIndex(s, k));
      Wrapped(k + 1, n);
      Wrapped(k + n - 1, n);
      Wrapped((k + 1) % n + n - 1, n);
      Wrapped((k + n - 1) % n + 1, n);
    }
  }

  /** Where the insertions of a handle agree on its being a stop, `next` goes from every stop to the following
      one exactly if no stop is inserted again. */
  lemma NextFollowsExactlyIf(s: TabState)
    requires Valid(s) && Steady(s.history)
    ensures (forall k: nat :: k < |Stops(s)| ==> NextNode(s, StopId(s, k)) == Some(Stops(s)[(k + 1) % |Stops(s)|]))
       <==> NoStopAgain(s.history)
  {
    hide Valid, Stops, StopId, NextIndex, PrevIndex, NextNode, PrevNode, UpTo, Steady, NoStopAgain;
    if NoStopAgain(s.history) {
      forall k: nat | k < |Stops(s)|
        ensures NextNode(s, StopId(s, k)) == Some(Stops(s)[(k + 1) % |Stops(s)|])
      {
        NeighbouringStops(s, k);
        InsertedOnceLeadsOn(s, k);
      }
    } else {
      var k := MisledStop(s);
      assert NextNode(s, StopId(s, k)) != Some(Stops(s)[(k + 1) % |Stops(s)|]);
    }
  }

  // A stop whose handle was inserted again as a stop: `next` goes on from there.
  lemma MisledStop(s: TabState) returns (k: nat)
    requires Valid(s) && Steady(s.history) && !NoStopAgain(s.history)
    ensures k < |Stops(s)| && NextNode(s, StopId(s, k)) != Some(Stops(s)[(k + 1) % |Stops(s)|])
  {
    hide Valid, Stops, StopId, NextNode, PrevNode, NodeAt, LastInsertion, Steady;
    var i: nat, j: nat :| InsertsAgain(s.history, i, j) && s.history[i].handle.tabStop;
    InsertedNode(s, i);
    k := StopNumber(s, NodeAt(s.history, i));
    LastIsLaterStop(s, k, i, j);
    var m := StopNumber(s, LastInsertion(s, k));
    MisledTo(s, k, m);
  }

  lemma MisledTo(s: TabState, k: nat, m: nat)
    requires Valid(s) && k < |Stops(s)| && m < |Stops(s)| && k != m && LastInsertion(s, k) == Stops(s)[m]
    ensures NextNode(s, StopId(s, k)) != Some(Stops(s)[(k + 1) % |Stops(s)|])
  {
    hide Valid, Stops, StopId, NextNode, PrevNode, UpTo, Ahead, LastInsertion, NextIndex, PrevIndex;
    NeighbouringStops(s, k);
    SortedOrder(s);
    CountsOfStop(s, m);
    CountsOfStop(s, k);
    Wrapped(k + 1, |Stops(s)|);
    Wrapped(m + 1, |Stops(s)|);
  }

  lemma InsertedNode(s: TabState, i: nat)
    requires Valid(s) && i < |s.history| && s.history[i].Insert?
    ensures NodeAt(s.history, i) in s.order && NodeAt(s.history, i).index == i
    ensures NodeAt(s.history, i).tabStop == s.history[i].handle.tabStop
    ensures s.history[i].handle.id in s.byId && i <= s.byId[s.history[i].handle.id].index
  {
    hide OpenGroups, Sorted;
  }

  lemma LastIsLaterStop(s: TabState, k: nat, i: nat, j: nat)
    requires Valid(s) && Steady(s.history) && InsertsAgain(s.history, i, j) && s.history[i].handle.tabStop
    requires k < |Stops(s)| && Stops(s)[k] == NodeAt(s.history, i)
    ensures LastInsertion(s, k).tabStop && LastInsertion(s, k) in s.order && LastInsertion(s, k) != Stops(s)[k]
  {
    StopIsFocusable(s, k);
    InsertedNode(s, i);
    InsertedNode(s, j);
    var last := LastInsertion(s, k);
    InsertedNode(s, last.index);
    hide Valid, Stops, StopId, NodeAt;
    assert InsertsAgain(s.history, i, last.index);
  }

  lemma StopNumber(s: TabState, node: Node) returns (k: nat)
    requires Valid(s) && node in s.order && node.tabStop
    ensures k < |Stops(s)| && Stops(s)[k] == node
  {
    SelectFacts(s.order, Stop());
    hide Select, OpenGroups, NodeAt, Less;
    assert node in Stops(s);
    k :| 0 <= k < |Stops(s)| && Stops(s)[k] == node;
  }

  /** A handle tracked by two elements hides a stop between them: tabbing from it never leaves it. */
  lemma RepeatedHandleHidesAStop(s: TabState, times: nat)
    requires var twice, other := Operation.Insert(Handle(7, 0, true)), Operation.Insert(Handle(8, 0, true));
      Valid(s) && s.history == [twice, other, twice]
    ensures |Stops(s)| == 3 && StopId(s, 1) == Some(8)
    ensures TabTimes(s, Some(7), times) == Some(7)
  {
    hide Valid, TabTimes, NextNode;
    TwiceAndOther(s);
    SevenLeadsToSeven(s);
    TabbingStays(s, Some(7), times);
  }

  lemma {:induction false} TabbingStays(s: TabState, focused: Option<FocusId>, times: nat)
    requires IdOf(s, NextNode(s, focused)) == focused
    ensures TabTimes(s, focused, times) == focused
  {
    if times > 0 {
      TabbingStays(s, focused, times - 1);
    }
  }

  // The three nodes, all stops, in the order of their insertion.
  lemma TwiceAndOther(s: TabState)
    requires var twice, other := Operation.Insert(Handle(7, 0, true)), Operation.Insert(Handle(8, 0, true));
      Valid(s) && s.history == [twice, other, twice]
    ensures Stops(s) == [Node([0], 0, true), Node([0], 1, true), Node([0], 2, true)]
    ensures 7 in s.byId && s.byId[7] == Node([0], 2, true) && StopId(s, 1) == Some(8)
  {
    hide *;
    var nodes := [Node([0], 0, true), Node([0], 1, true), Node([0], 2, true)];
    forall i: nat | i < 3 ensures NodeAt(s.history, i) == nodes[i] {
      PlainNode(s.history, i);
    }
    ByInsertion(nodes);
    OrderIs(s, nodes);
    StopsAre(s, nodes);
    IndexOfSeven(s);
    SecondId(s);
  }

  lemma ByInsertion(nodes: seq<Node>)
    requires forall i, j :: 0 <= i < j < |nodes| ==> nodes[i].path == nodes[j].path && nodes[i].index < nodes[j].index
    ensures Sorted(nodes)
  {
    hide PathLess;
  }

  lemma PlainNode(history: seq<Operation>, i: nat)
    requires i < |history| && forall k :: 0 <= k < |history| ==> history[k].Insert?
    ensures NodeAt(history, i) == Node([history[i].handle.tabIndex], i, history[i].handle.tabStop)
  {
    WithoutGroups(history[..i]);
    hide OpenGroups;
  }

  lemma StopsAre(s: TabState, nodes: seq<Node>)
    requires s.order == nodes && forall i :: 0 <= i < |nodes| ==> nodes[i].tabStop
    ensures Stops(s) == nodes
  {
    SelectAll(nodes, Stop());
    hide Select;
  }

  lemma SecondId(s: TabState)
    requires |Stops(s)| > 1 && Stops(s)[1].index == 1
    requires |s.history| > 1 && s.history[1] == Operation.Insert(Handle(8, 0, true))
    ensures StopId(s, 1) == Some(8)
  {
    hide Stops;
  }

  lemma {:induction false} WithoutGroups(history: seq<Operation>)
    requires forall i :: 0 <= i < |history| ==> history[i].Insert?
    ensures OpenGroups(history) == []
  {
    if history != [] {
      WithoutGroups(history[..|history| - 1]);
    }
  }

  lemma IndexOfSeven(s: TabState)
    requires Valid(s) && |s.history| == 3 && s.history[2] == Operation.Insert(Handle(7, 0, true))
    requires NodeAt(s.history, 2) == Node([0], 2, true)
    ensures 7 in s.byId && s.byId[7] == Node([0], 2, true)
  {
    InsertedNode(s, 2);
    hide NodeAt, OpenGroups, Sorted;
  }

  lemma OrderIs(s: TabState, nodes: seq<Node>)
    requires Valid(s) && Sorted(nodes) && |nodes| == |s.history|
    requires forall i :: 0 <= i < |nodes| ==> s.history[i].Insert? && NodeAt(s.history, i) == nodes[i]
    ensures s.order == nodes
  {
    hide NodeAt, OpenGroups, Less;
    forall node ensures node in s.order <==> node in nodes {
      if node in s.order {
        assert FromHistory(s.history, node);
        assert nodes[node.index] == node;
      }
      if node in nodes {
        var i :| 0 <= i < |nodes| && nodes[i] == node;
        assert NodeAt(s.history, i) in s.order;
      }
    }
    SortedUnique(s.order, nodes);
  }

  lemma SevenLeadsToSeven(s: TabState)
    requires Valid(s) && Stops(s) == [Node([0], 0, true), Node([0], 1, true), Node([0], 2, true)]
    requires 7 in s.byId && s.byId[7] == Node([0], 2, true) && |s.history| == 3
    requires s.history[0] == Operation.Insert(Handle(7, 0, true))
    ensures IdOf(s, NextNode(s, Some(7))) == Some(7)
  {
    NeighboursByCount(s, 7);
    CountsOfStop(s, 2);
    hide Valid, NextNode, PrevNode, UpTo, Ahead, Stops;
  }

  // ---------------------------------------------------------------------------------------
  // The map itself
  // ---------------------------------------------------------------------------------------

  class TabStopMap {
    var currentPath: seq<int>
    var insertionHistory: seq<Operation>
    var byId: map<FocusId, Node>
    var order: seq<Node>

    function State(): TabState
      reads this
    {
      TabState(currentPath, insertionHistory, byId, order)
    }

    constructor ()
      ensures State() == EMPTY
    {
      currentPath, insertionHistory, byId, order := [], [], map[], [];
    }

    method Insert(handle: Handle)
      modifies this
      ensures State() == Apply(old(State()), Operation.Insert(handle))
    {
      insertionHistory := insertionHistory + [Operation.Insert(handle)];
      var path := currentPath + [handle.tabIndex];
      var node := Node(path, |insertionHistory| - 1, handle.tabStop);
      byId := byId[handle.id := node];
      order := InsertSorted(order, node);
    }

    method BeginGroup(tabIndex: int)
      modifies this
      ensures State() == Apply(old(State()), Group(tabIndex))
    {
      insertionHistory := insertionHistory + [Group(tabIndex)];
      currentPath := currentPath + [tabIndex];
    }

    method EndGroup()
      modifies this
      ensures State() == Apply(old(State()), GroupEnd)
    {
      insertionHistory := insertionHistory + [GroupEnd];
      if currentPath != [] {
        currentPath := currentPath[..|currentPath| - 1];
      }
    }

    method Clear()
      modifies this
      ensures State() == EMPTY
    {
      currentPath, insertionHistory, byId, order := [], [], map[], [];
    }

    /** Repeats recorded operations; from an empty map, the whole history of a map rebuilds that map. */
    method Replay(ops: seq<Operation>)
      modifies this
      ensures State() == Run(old(State()), ops)
      ensures forall s: TabState :: Valid(s) && old(State()) == EMPTY && s.history == ops ==> State() == s
    {
      for i := 0 to |ops|
        invariant State() == Run(old(State()), ops[..i])
      {
        assert ops[..i + 1][..i] == ops[..i];
        match ops[i] {
          case Insert(handle) => Insert(handle);
          case Group(tabIndex) => BeginGroup(tabIndex);
          case GroupEnd => EndGroup();
        }
      }
      assert ops[..|ops|] == ops;
      forall s: TabState | Valid(s) && old(State()) == EMPTY && s.history == ops ensures State() == s {
        ReplayRebuilds(s);
      }
    }

    method NextInner(node: Node) returns (r: Option<Node>)
      requires Valid(State()) && node in order
      ensures var later := Select(order, After(node)); r == if later == [] then None else Some(later[0])
    {
      hide Less, OpenGroups, NodeAt, Select;
      var at := Seek(order, node);
      SeekFinds(order, node);
      at := at + 1;
      while at < |order| && !order[at].tabStop
        invariant 0 < at <= |order|
        invariant forall j :: 0 <= j < at ==> !After(node)(order[j])
        invariant forall j :: at <= j < |order| ==> Less(node, order[j])
      {
        at := at + 1;
      }
      FirstSelected(order, After(node), at);
      r := if at < |order| then Some(order[at]) else None;
    }

    method Next(focused: Option<FocusId>) returns (r: Option<Handle>)
      requires Valid(State())
      ensures r == HandleFor(State(), NextNode(State(), focused))
      ensures r.None? <==> Stops(State()) == []
      decreases focused.Some?
    {
      hide Valid, Less, Select, HandleFor;
      ghost var s := State();
      assert s.byId == byId && s.order == order;
      StopsHaveHandles(s, focused);
      FirstStop(State());
      if focused.None? {
        if order == [] {
          NoHandle(State());
          r := None;
          return;
        }
        var first := order[0];
        if first.tabStop {
          r := HandleFor(State(), Some(first));
        } else {
          var item := NextInner(first);
          r := HandleFor(State(), item);
        }
        return;
      }
      if focused.value !in byId {
        r := Next(None);
        return;
      }
      FocusedIsInOrder(s, focused.value);
      NeighboursAreStops(s, byId[focused.value]);
      var item := NextInner(byId[focused.value]);
      if item.Some? {
        r := HandleFor(State(), item);
      } else {
        r := Next(None);
      }
    }

    method PrevInner(node: Node) returns (r: Option<Node>)
      requires Valid(State()) && node in order
      ensures var earlier := Select(order, Before(node));
        r == if earlier == [] then None else Some(earlier[|earlier| - 1])
    {
      hide Less, OpenGroups, NodeAt, Select;
      var at: int := Seek(order, node);
      SeekFinds(order, node);
      at := at - 1;
      while at >= 0 && !order[at].tabStop
        invariant -1 <= at < |order|
        invariant forall j :: at < j < |order| ==> !Before(node)(order[j])
        invariant forall j :: 0 <= j <= at ==> Less(order[j], node)
      {
        at := at - 1;
      }
      LastSelected(order, Before(node), at);
      r := if at >= 0 then Some(order[at]) else None;
    }

    method Prev(focused: Option<FocusId>) returns (r: Option<Handle>)
      requires Valid(State())
      ensures r == HandleFor(State(), PrevNode(State(), focused))
      ensures r.None? <==> Stops(State()) == []
      decreases focused.Some?
    {
      hide Valid, Less, Select, HandleFor;
      ghost var s := State();
      assert s.byId == byId && s.order == order;
      StopsHaveHandles(s, focused);
      LastStop(State());
      if focused.None? {
        if order == [] {
          NoHandle(State());
          r := None;
          return;
        }
        var last := order[|order| - 1];
        if last.tabStop {
          r := HandleFor(State(), Some(last));
        } else {
          var item := PrevInner(last);
          r := HandleFor(State(), item);
        }
        return;
      }
      if focused.value !in byId {
        r := Prev(None);
        return;
      }
      FocusedIsInOrder(s, focused.value);
      NeighboursAreStops(s, byId[focused.value]);
      var item := PrevInner(byId[focused.value]);
      if item.Some? {
        r := HandleFor(State(), item);
      } else {
        r := Prev(None);
      }
    }
  }

  lemma SeekFinds(order: seq<Node>, node: Node)
    requires Sorted(order) && node in order
    ensures var at := Seek(order, node);
      && at < |order| && order[at] == node
      && (forall j :: 0 <= j < at ==> Less(order[j], node)) && (forall j :: at < j < |order| ==> Less(node, order[j]))
      && forall j :: 0 <= j < |order| ==> (Less(node, order[j]) <==> j > at) && (Less(order[j], node) <==> j < at)
  {
    hide Less, Seek;
    var at := Seek(order, node);
    var i :| 0 <= i < |order| && order[i] == node;
    LessTotal(node, node);
    forall j | 0 <= j < |order|
      ensures (Less(node, order[j]) <==> j > at) && (Less(order[j], node) <==> j < at)
    {
      LessTotal(node, order[j]);
    }
  }

  lemma SelectedHaveHandles(s: TabState, p: Node -> bool, i: nat)
    requires Valid(s) && i < |Select(s.order, p)|
    ensures HandleFor(s, Some(Select(s.order, p)[i])).Some?
  {
    SelectFacts(s.order, p);
    hide Less, OpenGroups, NodeAt, Select, Sorted;
    assert Select(s.order, p)[i] in Select(s.order, p);
  }

  lemma StopsHaveHandles(s: TabState, focused: Option<FocusId>)
    requires Valid(s)
    ensures HandleFor(s, NextNode(s, focused)).Some? <==> Stops(s) != []
    ensures HandleFor(s, PrevNode(s, focused)).Some? <==> Stops(s) != []
  {
    hide Valid, HandleFor, Select, Less;
    assert HandleFor(s, None).None? by { NoHandle(s); }
    if Stops(s) != [] {
      SelectedHaveHandles(s, Stop(), 0);
      SelectedHaveHandles(s, Stop(), |Stops(s)| - 1);
      if focused.Some? && focused.value in s.byId {
        var node := s.byId[focused.value];
        if Select(s.order, After(node)) != [] { SelectedHaveHandles(s, After(node), 0); }
        var earlier := Select(s.order, Before(node));
        if earlier != [] { SelectedHaveHandles(s, Before(node), |earlier| - 1); }
      }
    }
  }

  lemma NoHandle(s: TabState)
    ensures HandleFor(s, None).None?
  {
  }

  lemma FocusedIsInOrder(s: TabState, id: FocusId)
    requires Valid(s) && id in s.byId
    ensures s.byId[id] in s.order
  {
    hide Less, OpenGroups, NodeAt, Sorted;
  }

  lemma FirstStop(s: TabState)
    requires Valid(s)
    ensures if s.order == [] then Stops(s) == []
      else if s.order[0].tabStop then Stops(s) != [] && Stops(s)[0] == s.order[0]
      else Select(s.order, After(s.order[0])) == Stops(s)
  {
    if s.order != [] && !s.order[0].tabStop {
      hide Less, Select;
      SelectSame(s.order, After(s.order[0]), Stop());
    }
  }

  lemma LastStop(s: TabState)
    requires Valid(s)
    ensures if s.order == [] then Stops(s) == []
      else
        var last := s.order[|s.order| - 1];
        if last.tabStop then Stops(s) != [] && Stops(s)[|Stops(s)| - 1] == last
        else Select(s.order, Before(last)) == Stops(s)
  {
    if s.order != [] {
      hide Less, Select;
      var last := s.order[|s.order| - 1];
      if last.tabStop {
        LastSelected(s.order, Stop(), |s.order| - 1);
      } else {
        SelectSame(s.order, Before(last), Stop());
      }
    }
  }

  lemma NeighboursAreStops(s: TabState, node: Node)
    ensures Stops(s) == [] ==> Select(s.order, After(node)) == [] && Select(s.order, Before(node)) == []
  {
    SelectTwice(s.order, Stop(), After(node));
    SelectTwice(s.order, Stop(), Before(node));
    hide Less;
  }
}
