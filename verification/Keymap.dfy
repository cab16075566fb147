/** The keymap (src/keymap.rs): bindings in the order they were added, two indices over them, and the
    precedence and disabling rules of a lookup.

    Actions are a type and a value; keystrokes, contexts and context predicates are opaque, and the
    functions of other files that compare them are gathered in `Matching`. */
module Keymaps {
  import opened Common
  import opened Sorting

  type Keystroke = int
  type KeyContext = int
  type Predicate = int

  datatype Action = Action(typeId: int, value: int)

  const NO_ACTION_TYPE: int := 0

  datatype Binding = Binding(action: Action, keystrokes: seq<Keystroke>, contextPredicate: Option<Predicate>,
                             meta: Option<nat>) {
    predicate IsNoAction() {
      action.typeId == NO_ACTION_TYPE
    }

    // A NoAction binding of the user: no meta index, or meta index 0.
    predicate Blocks() {
      IsNoAction() && (meta.None? || meta.value == 0)
    }
  }

  // Does a typed keystroke match a bound one; the depth at which a predicate holds; is a predicate
  // at least as general as another.
  datatype Matching = Matching(
    shouldMatch: (Keystroke, Keystroke) -> bool,
    depthOf: (Predicate, seq<KeyContext>) -> Option<nat>,
    isSuperset: (Predicate, Predicate) -> bool)

  /** The typed keys begin the binding, key by key. */
  predicate Begins(m: Matching, typed: seq<Keystroke>, b: Binding) {
    |typed| <= |b.keystrokes| && forall i :: 0 <= i < |typed| ==> m.shouldMatch(typed[i], b.keystrokes[i])
  }

  /** `match_keystrokes`: None if the typed keys do not begin the binding, else whether it goes on after them. */
  method MatchKeystrokes(m: Matching, b: Binding, typed: seq<Keystroke>) returns (pending: Option<bool>)
    ensures pending.Some? <==> Begins(m, typed, b)
    ensures pending.Some? ==> (pending.value <==> |typed| < |b.keystrokes|)
  {
    if |b.keystrokes| < |typed| {
      return None;
    }
    for i := 0 to |typed|
      invariant forall j :: 0 <= j < i ==> m.shouldMatch(typed[j], b.keystrokes[j])
    {
      if !m.shouldMatch(typed[i], b.keystrokes[i]) {
        return None;
      }
    }
    pending := Some(|b.keystrokes| > |typed|);
  }

  /** The binding is enabled at this depth: where its predicate holds, or without one as deep as can be. */
  predicate EnabledAt(m: Matching, b: Binding, contexts: seq<KeyContext>, depth: nat) {
    match b.contextPredicate
    case None => depth == |contexts|
    case Some(context) => m.depthOf(context, contexts) == Some(depth)
  }

  function BindingEnabled(m: Matching, b: Binding, contexts: seq<KeyContext>): (depth: Option<nat>)
    ensures forall d: nat :: EnabledAt(m, b, contexts, d) <==> depth == Some(d)
  {
    if b.contextPredicate.Some? then m.depthOf(b.contextPredicate.value, contexts) else Some(|contexts|)
  }

  // ---------------------------------------------------------------------------------------
  // The indices
  // ---------------------------------------------------------------------------------------

  /** The positions of the bindings with this action type, ascending. */
  function Positions(bindings: seq<Binding>, typeId: int): seq<nat> {
    if bindings == [] then []
    else
      var n := |bindings| - 1;
      Positions(bindings[..n], typeId) + if bindings[n].action.typeId == typeId then [n] else []
  }

  lemma {:induction false} PositionsAreExact(bindings: seq<Binding>, typeId: int)
    ensures var ps := Positions(bindings, typeId);
      && (forall k :: 0 <= k < |ps| ==> ps[k] < |bindings| && bindings[ps[k]].action.typeId == typeId)
      && (forall j, k :: 0 <= j < k < |ps| ==> ps[j] < ps[k])
      && (forall i :: 0 <= i < |bindings| && bindings[i].action.typeId == typeId ==> i in ps)
  {
    if bindings != [] {
      PositionsAreExact(bindings[..|bindings| - 1], typeId);
    }
  }

  lemma PositionsSnoc(bindings: seq<Binding>, b: Binding, typeId: int)
    ensures Positions(bindings + [b], typeId)
         == Positions(bindings, typeId) + if b.action.typeId == typeId then [|bindings|] else []
  {
    assert (bindings + [b])[..|bindings|] == bindings;
  }

  ghost predicate IndexExact(bindings: seq<Binding>, index: map<int, seq<nat>>) {
    && NO_ACTION_TYPE !in index
    && (forall id :: id in index ==> index[id] == Positions(bindings, id))
    && (forall id :: id !in index && id != NO_ACTION_TYPE ==> Positions(bindings, id) == [])
  }

  // ---------------------------------------------------------------------------------------
  // Bindings for an action
  // ---------------------------------------------------------------------------------------

  /** A later NoAction binding on the same keystrokes, at least as general, disables a binding. */
  predicate DisabledBy(m: Matching, b: Binding, other: Binding) {
    && other.IsNoAction() && other.keystrokes == b.keystrokes
    && (other.contextPredicate.None? ||
        (b.contextPredicate.Some? && m.isSuperset(other.contextPredicate.value, b.contextPredicate.value)))
  }

  predicate Disabled(m: Matching, bindings: seq<Binding>, i: nat)
    requires i < |bindings|
  {
    exists j :: i < j < |bindings| && DisabledBy(m, bindings[i], bindings[j])
  }

  /** The linear scan over all bindings. */
  function ScanForAction(m: Matching, bindings: seq<Binding>, action: Action, upTo: nat): seq<Binding>
    requires upTo <= |bindings|
  {
    if upTo == 0 then []
    else
      ScanForAction(m, bindings, action, upTo - 1)
      + if bindings[upTo - 1].action == action && !Disabled(m, bindings, upTo - 1) then [bindings[upTo - 1]] else []
  }

  // The scan restricted to given positions, which is what the index allows.
  function ScanPositions(m: Matching, bindings: seq<Binding>, action: Action, ps: seq<nat>): seq<Binding> {
    if ps == [] then []
    else ScanPositions(m, bindings, action, ps[..|ps| - 1]) + ScanOne(m, bindings, action, ps[|ps| - 1])
  }

  function ScanOne(m: Matching, bindings: seq<Binding>, action: Action, i: nat): seq<Binding> {
    if i < |bindings| && bindings[i].action == action && !Disabled(m, bindings, i) then [bindings[i]] else []
  }

  lemma ScanPositionsSnoc(m: Matching, bindings: seq<Binding>, action: Action, ps: seq<nat>, i: nat)
    ensures ScanPositions(m, bindings, action, ps + [i])
         == ScanPositions(m, bindings, action, ps) + ScanOne(m, bindings, action, i)
  {
    assert (ps + [i])[..|ps|] == ps;
  }

  lemma {:induction false} IndexedScanIsScan(m: Matching, bindings: seq<Binding>, action: Action, upTo: nat)
    requires upTo <= |bindings|
    ensures ScanPositions(m, bindings, action, Positions(bindings[..upTo], action.typeId))
         == ScanForAction(m, bindings, action, upTo)
  {
    hide Disabled, ScanOne, Positions, ScanPositions, ScanForAction;
    if upTo == 0 {
      NothingScanned(m, bindings, action);
    } else {
      IndexedScanIsScan(m, bindings, action, upTo - 1);
      ScanUnfolds(m, bindings, action, upTo - 1);
      var rest, last := bindings[..upTo - 1], bindings[upTo - 1];
      assert bindings[..upTo] == rest + [last];
      PositionsSnoc(rest, last, action.typeId);
      ScanPositionsSnoc(m, bindings, action, Positions(rest, action.typeId), upTo - 1);
      if last.action.typeId != action.typeId {
        assert Positions(bindings[..upTo], action.typeId) == Positions(rest, action.typeId);
      }
    }
  }

  lemma NothingScanned(m: Matching, bindings: seq<Binding>, action: Action)
    ensures ScanPositions(m, bindings, action, Positions(bindings[..0], action.typeId)) == []
    ensures ScanForAction(m, bindings, action, 0) == []
  {
  }

  lemma ScanUnfolds(m: Matching, bindings: seq<Binding>, action: Action, i: nat)
    requires i < |bindings|
    ensures ScanForAction(m, bindings, action, i + 1)
         == ScanForAction(m, bindings, action, i) + ScanOne(m, bindings, action, i)
    ensures bindings[i].action.typeId != action.typeId ==> ScanOne(m, bindings, action, i) == []
  {
    hide Disabled;
  }

  lemma ScanIndexed(m: Matching, bindings: seq<Binding>, index: map<int, seq<nat>>, action: Action)
    requires IndexExact(bindings, index)
    ensures ScanPositions(m, bindings, action, []) == []
    ensures var indices := if action.typeId in index then index[action.typeId] else [];
      && (forall k :: 0 <= k < |indices| ==> indices[k] < |bindings|)
      && ScanPositions(m, bindings, action, indices)
         == if action.typeId == NO_ACTION_TYPE then [] else ScanForAction(m, bindings, action, |bindings|)
  {
    PositionsAreExact(bindings, action.typeId);
    IndexedScanIsScan(m, bindings, action, |bindings|);
    assert bindings[..|bindings|] == bindings;
    hide Disabled, ScanForAction;
  }

  // ---------------------------------------------------------------------------------------
  // Bindings for an input
  // ---------------------------------------------------------------------------------------

  /** Binding `i` is enabled here and goes on after the input. */
  ghost predicate Continues(m: Matching, bindings: seq<Binding>, input: seq<Keystroke>, contexts: seq<KeyContext>,
                            i: nat)
    requires i < |bindings|
  {
    && Begins(m, input, bindings[i]) && |bindings[i].keystrokes| > |input|
    && exists depth :: EnabledAt(m, bindings[i], contexts, depth)
  }

  // A match: its depth and its index.
  datatype Match = Match(depth: nat, ix: nat) {
    /** Deeper contexts first, then later bindings. */
    predicate Precedes(other: Match) {
      depth > other.depth || (depth == other.depth && ix > other.ix)
    }
  }

  function KeyOf(x: Match): Key {
    Key(x.depth, x.ix)
  }

  /** The whole input is the keys of an enabled binding. */
  ghost predicate IsMatch(m: Matching, bindings: seq<Binding>, input: seq<Keystroke>, contexts: seq<KeyContext>,
                          match0: Match) {
    && match0.ix < |bindings|
    && Begins(m, input, bindings[match0.ix]) && |bindings[match0.ix].keystrokes| == |input|
    && EnabledAt(m, bindings[match0.ix], contexts, match0.depth)
  }

  /** A match that is returned: not a NoAction, and no blocking NoAction match precedes it. */
  ghost predicate Returned(m: Matching, bindings: seq<Binding>, input: seq<Keystroke>, contexts: seq<KeyContext>,
                           match0: Match) {
    && IsMatch(m, bindings, input, contexts, match0)
    && !bindings[match0.ix].IsNoAction()
    && forall other :: IsMatch(m, bindings, input, contexts, other) && bindings[other.ix].Blocks() ==>
         !other.Precedes(match0)
  }

  /** Enabled longer bindings that were not added before the first returned binding. */
  ghost predicate Live(m: Matching, bindings: seq<Binding>, input: seq<Keystroke>, contexts: seq<KeyContext>,
                       first: Option<nat>, i: nat) {
    i < |bindings| && Continues(m, bindings, input, contexts, i) && (first.Some? ==> first.value <= i)
  }

  /** Some key sequence's newest live binding does something. */
  ghost predicate SomethingPending(m: Matching, bindings: seq<Binding>, input: seq<Keystroke>,
                                   contexts: seq<KeyContext>, first: Option<nat>) {
    exists i: nat :: Live(m, bindings, input, contexts, first, i) && !bindings[i].IsNoAction()
      && forall j: nat :: Live(m, bindings, input, contexts, first, j) ==>
           bindings[j].keystrokes == bindings[i].keystrokes ==> j <= i
  }

  ghost predicate StrictlyPreceding(matches: seq<Match>) {
    forall j, k :: 0 <= j < k < |matches| ==> matches[j].Precedes(matches[k])
  }

  /** `found` are the bindings of exactly the matches to be returned, by descending precedence. */
  ghost predicate Answers(m: Matching, bindings: seq<Binding>, input: seq<Keystroke>, contexts: seq<KeyContext>,
                          chosen: seq<Match>, found: seq<Binding>) {
    && |chosen| == |found| && StrictlyPreceding(chosen)
    && (forall x :: x in chosen <==> Returned(m, bindings, input, contexts, x))
    && forall k :: 0 <= k < |found| ==> chosen[k].ix < |bindings| && found[k] == bindings[chosen[k].ix]
  }

  /** What the answers are, by lengths, keys and depths alone: a binding is among them exactly if it is not a
      NoAction, is as long as the input, matches it key by key, is enabled here, and no enabled and matching
      NoAction of the user is deeper, or as deep and added later. */
  lemma AnswersMean(m: Matching, bindings: seq<Binding>, input: seq<Keystroke>, contexts: seq<KeyContext>,
                    chosen: seq<Match>, found: seq<Binding>, b: Binding)
    requires Answers(m, bindings, input, contexts, chosen, found)
    ensures b in found <==> exists i, depth :: Unblocked(m, bindings, input, contexts, b, i, depth)
  {
    hide Begins, EnabledAt;
    if b in found {
      var k :| 0 <= k < |found| && found[k] == b;
      assert chosen[k] in chosen && Returned(m, bindings, input, contexts, chosen[k]);
      NotBlocked(m, bindings, input, contexts, chosen[k]);
      assert Unblocked(m, bindings, input, contexts, b, chosen[k].ix, chosen[k].depth);
    }
    if i, depth :| Unblocked(m, bindings, input, contexts, b, i, depth) {
      UnblockedIsReturned(m, bindings, input, contexts, b, i, depth);
      assert Match(depth, i) in chosen;
      var k :| 0 <= k < |chosen| && chosen[k] == Match(depth, i);
      assert found[k] == b;
    }
  }

  ghost predicate Unblocked(m: Matching, bindings: seq<Binding>, input: seq<Keystroke>, contexts: seq<KeyContext>,
                            b: Binding, i: nat, depth: nat) {
    && i < |bindings| && bindings[i] == b && b.action.typeId != NO_ACTION_TYPE && EnabledAt(m, b, contexts, depth)
    && |b.keystrokes| == |input| && (forall j :: 0 <= j < |input| ==> m.shouldMatch(input[j], b.keystrokes[j]))
    && forall o: nat, d: nat :: d > depth || (d == depth && o > i) ==> !BlockedBy(m, bindings, input, contexts, o, d)
  }

  ghost predicate BlockedBy(m: Matching, bindings: seq<Binding>, input: seq<Keystroke>, contexts: seq<KeyContext>,
                            o: nat, depth: nat) {
    && o < |bindings| && bindings[o].action.typeId == NO_ACTION_TYPE
    && (bindings[o].meta.None? || bindings[o].meta == Some(0))
    && EnabledAt(m, bindings[o], contexts, depth) && |bindings[o].keystrokes| == |input|
    && forall j :: 0 <= j < |input| ==> m.shouldMatch(input[j], bindings[o].keystrokes[j])
  }

  lemma BlockingMatches(m: Matching, bindings: seq<Binding>, input: seq<Keystroke>, contexts: seq<KeyContext>,
                        o: nat, depth: nat)
    ensures BlockedBy(m, bindings, input, contexts, o, depth) <==>
      IsMatch(m, bindings, input, contexts, Match(depth, o)) && bindings[o].Blocks()
  {
    hide EnabledAt;
  }

  lemma NotBlocked(m: Matching, bindings: seq<Binding>, input: seq<Keystroke>, contexts: seq<KeyContext>, x: Match)
    requires Returned(m, bindings, input, contexts, x)
    ensures Unblocked(m, bindings, input, contexts, bindings[x.ix], x.ix, x.depth)
  {
    hide EnabledAt, BlockedBy;
    forall o: nat, d: nat | d > x.depth || (d == x.depth && o > x.ix)
      ensures !BlockedBy(m, bindings, input, contexts, o, d)
    {
      BlockingMatches(m, bindings, input, contexts, o, d);
      assert Match(d, o).Precedes(x);
    }
  }

  lemma UnblockedIsReturned(m: Matching, bindings: seq<Binding>, input: seq<Keystroke>, contexts: seq<KeyContext>,
                            b: Binding, i: nat, depth: nat)
    requires Unblocked(m, bindings, input, contexts, b, i, depth)
    ensures Returned(m, bindings, input, contexts, Match(depth, i))
  {
    hide EnabledAt, BlockedBy;
    forall other | IsMatch(m, bindings, input, contexts, other) && bindings[other.ix].Blocks()
      ensures !other.Precedes(Match(depth, i))
    {
      BlockingMatches(m, bindings, input, contexts, other.ix, other.depth);
    }
  }

  /** The flag, by lengths and keys: it is only ever raised by an enabled longer binding that the input begins
      and that does something. */
  lemma PendingMeans(m: Matching, bindings: seq<Binding>, input: seq<Keystroke>, contexts: seq<KeyContext>,
                     first: Option<nat>)
    requires SomethingPending(m, bindings, input, contexts, first)
    ensures exists i: nat, depth: nat ::
      && i < |bindings| && bindings[i].action.typeId != NO_ACTION_TYPE && |bindings[i].keystrokes| > |input|
      && (forall j :: 0 <= j < |input| ==> m.shouldMatch(input[j], bindings[i].keystrokes[j]))
      && EnabledAt(m, bindings[i], contexts, depth) && (first.Some? ==> first.value <= i)
  {
    hide EnabledAt;
    var i: nat :| Live(m, bindings, input, contexts, first, i) && !bindings[i].IsNoAction();
    var depth :| EnabledAt(m, bindings[i], contexts, depth);
  }

  // Sorting by descending precedence: all keys differ, so this is the reverse of the ascending sort.
  function Ranked(matches: seq<Match>): seq<Match> {
    var ascending := SortBy(matches, KeyOf);
    seq(|ascending|, i requires 0 <= i < |ascending| => ascending[|ascending| - 1 - i])
  }

  lemma RankedIsRanking(matches: seq<Match>)
    requires forall j, k :: 0 <= j < k < |matches| ==> matches[j].ix != matches[k].ix
    ensures StrictlyPreceding(Ranked(matches))
    ensures forall x :: x in Ranked(matches) <==> x in matches
  {
    hide SortBy, Match.Precedes;
    var ascending := SortBy(matches, KeyOf);
    AscendingMatches(matches, ascending);
    assert forall x :: x in Ranked(matches) ==> x in ascending;
    forall x | x in ascending ensures x in Ranked(matches) {
      var i :| 0 <= i < |ascending| && ascending[i] == x;
      assert Ranked(matches)[|ascending| - 1 - i] == x;
    }
    forall j, k | 0 <= j < k < |Ranked(matches)| ensures Ranked(matches)[j].Precedes(Ranked(matches)[k]) {
      var first, second := |ascending| - 1 - k, |ascending| - 1 - j;
      assert first < second && ascending[second].Precedes(ascending[first]);
    }
  }

  lemma AscendingMatches(matches: seq<Match>, ascending: seq<Match>)
    requires forall j, k :: 0 <= j < k < |matches| ==> matches[j].ix != matches[k].ix
    requires ascending == SortBy(matches, KeyOf)
    ensures forall x :: x in ascending <==> x in matches
    ensures forall j, k :: 0 <= j < k < |ascending| ==> ascending[k].Precedes(ascending[j])
  {
    SortByIsStableSort(matches, KeyOf);
    hide SortBy;
    forall x ensures x in ascending <==> x in matches {
      assert x in ascending <==> x in multiset(ascending);
      assert x in matches <==> x in multiset(matches);
    }
    forall j, k | 0 <= j < k < |ascending| ensures ascending[k].Precedes(ascending[j]) {
      assert KeyOf(ascending[j]).AtMost(KeyOf(ascending[k]));
      if ascending[j] == ascending[k] {
        RepeatedTwice(ascending, j, k);
        DistinctOnce(matches, ascending[j]);
      }
    }
  }

  /** A binding without a predicate counts as being in the deepest context: it gives way only to bindings as
      deep that were added later. */
  lemma NoContextIsDeepest(m: Matching, bindings: seq<Binding>, input: seq<Keystroke>, contexts: seq<KeyContext>,
                           x: Match, y: Match)
    requires forall p :: m.depthOf(p, contexts).Some? ==> m.depthOf(p, contexts).value <= |contexts|
    requires IsMatch(m, bindings, input, contexts, x) && IsMatch(m, bindings, input, contexts, y)
    requires bindings[x.ix].contextPredicate.None? && x != y
    ensures y.Precedes(x) ==> y.ix > x.ix
    ensures y.ix <= x.ix ==> x.Precedes(y)
  {
    hide Begins;
  }

  ghost predicate LiveAmong(bindings: seq<Binding>, positions: seq<nat>, first: Option<nat>, keys: seq<Keystroke>,
                            i: nat) {
    i in positions && i < |bindings| && (first.Some? ==> first.value <= i) && bindings[i].keystrokes == keys
  }

  // Among these positions, the newest live one with keys `keys` exists and is not NoAction.
  ghost predicate PendingAmong(bindings: seq<Binding>, positions: seq<nat>, first: Option<nat>, keys: seq<Keystroke>) {
    exists i: nat :: LiveAmong(bindings, positions, first, keys, i) && !bindings[i].IsNoAction()
      && forall j: nat :: LiveAmong(bindings, positions, first, keys, j) ==> j <= i
  }

  lemma PendingAmongCons(bindings: seq<Binding>, ix: nat, rest: seq<nat>, first: Option<nat>, keys: seq<Keystroke>)
    requires ix < |bindings| && forall k :: 0 <= k < |rest| ==> rest[k] < ix
    ensures PendingAmong(bindings, [ix] + rest, first, keys) <==>
      if (first.Some? ==> first.value <= ix) && bindings[ix].keystrokes == keys then !bindings[ix].IsNoAction()
      else PendingAmong(bindings, rest, first, keys)
  {
    var all := [ix] + rest;
    forall i: nat ensures LiveAmong(bindings, all, first, keys, i) <==>
      LiveAmong(bindings, rest, first, keys, i) || LiveAmong(bindings, [ix], first, keys, i)
    {
    }
    if (first.Some? ==> first.value <= ix) && bindings[ix].keystrokes == keys {
      assert LiveAmong(bindings, all, first, keys, ix);
      assert forall i: nat :: LiveAmong(bindings, all, first, keys, i) ==> i <= ix;
    } else {
      assert forall i: nat :: LiveAmong(bindings, all, first, keys, i) <==> LiveAmong(bindings, rest, first, keys, i);
    }
  }

  lemma AmongIsSomething(m: Matching, bindings: seq<Binding>, input: seq<Keystroke>, contexts: seq<KeyContext>,
                         positions: seq<nat>, first: Option<nat>)
    requires forall i: nat :: i in positions <==> i < |bindings| && Continues(m, bindings, input, contexts, i)
    ensures SomethingPending(m, bindings, input, contexts, first) <==>
      exists keys :: PendingAmong(bindings, positions, first, keys)
  {
    hide Continues;
    assert forall i: nat, keys :: LiveAmong(bindings, positions, first, keys, i) <==>
      Live(m, bindings, input, contexts, first, i) && bindings[i].keystrokes == keys;
    if SomethingPending(m, bindings, input, contexts, first) {
      var i: nat :| Live(m, bindings, input, contexts, first, i) && !bindings[i].IsNoAction()
        && forall j: nat :: Live(m, bindings, input, contexts, first, j) ==>
             bindings[j].keystrokes == bindings[i].keystrokes ==> j <= i;
      assert LiveAmong(bindings, positions, first, bindings[i].keystrokes, i);
      assert PendingAmong(bindings, positions, first, bindings[i].keystrokes);
    }
    if exists keys :: PendingAmong(bindings, positions, first, keys) {
      var keys :| PendingAmong(bindings, positions, first, keys);
      var i: nat :| LiveAmong(bindings, positions, first, keys, i) && !bindings[i].IsNoAction()
        && forall j: nat :: LiveAmong(bindings, positions, first, keys, j) ==> j <= i;
      assert Live(m, bindings, input, contexts, first, i);
      forall j: nat | Live(m, bindings, input, contexts, first, j) && bindings[j].keystrokes == bindings[i].keystrokes
        ensures j <= i
      {
        assert LiveAmong(bindings, positions, first, keys, j);
      }
    }
  }

  class Keymap {
    var bindings: seq<Binding>
    var bindingIndicesByActionId: map<int, seq<nat>>
    var noActionBindingIndices: seq<nat>
    var version: nat

    /** Both indices list exactly the positions they should, in ascending order. */
    ghost predicate Valid()
      reads this
    {
      && IndexExact(bindings, bindingIndicesByActionId)
      && noActionBindingIndices == Positions(bindings, NO_ACTION_TYPE)
    }

    constructor ()
      ensures Valid() && bindings == []
    {
      bindings, bindingIndicesByActionId, noActionBindingIndices, version := [], map[], [], 0;
    }

    method AddBindings(added: seq<Binding>)
      requires Valid()
      modifies this
      ensures Valid() && bindings == old(bindings) + added && version == old(version) + 1
    {
      var k := 0;
      while k < |added|
        invariant k <= |added| && Valid() && version == old(version)
        invariant bindings == old(bindings) + added[..k]
      {
        AddBinding(added[k]);
        assert added[..k + 1] == added[..k] + [added[k]];
        k := k + 1;
      }
      assert added[..k] == added;
      version := version + 1;
    }

    // The body of the loop of `AddBindings`.
    method AddBinding(binding: Binding)
      requires Valid()
      modifies this`bindings, this`bindingIndicesByActionId, this`noActionBindingIndices
      ensures Valid() && bindings == old(bindings) + [binding]
    {
      var actionId := binding.action.typeId;
      forall id ensures Positions(bindings + [binding], id)
        == Positions(bindings, id) + if actionId == id then [|bindings|] else []
      {
        PositionsSnoc(bindings, binding, id);
      }
      hide Positions;
      if binding.IsNoAction() {
        noActionBindingIndices := noActionBindingIndices + [|bindings|];
      } else {
        var indices := if actionId in bindingIndicesByActionId then bindingIndicesByActionId[actionId] else [];
        bindingIndicesByActionId := bindingIndicesByActionId[actionId := indices + [|bindings|]];
      }
      bindings := bindings + [binding];
    }

    method Clear()
      modifies this
      ensures Valid() && bindings == [] && version == old(version) + 1
    {
      bindings := [];
      bindingIndicesByActionId := map[];
      noActionBindingIndices := [];
      version := version + 1;
    }

    /** The indexed lookup returns exactly what a linear scan of all bindings would, minus those that
        a later NoAction disables; for NoAction itself it returns nothing. */
    method BindingsForAction(m: Matching, action: Action) returns (found: seq<Binding>)
      requires Valid()
      ensures found == if action.typeId == NO_ACTION_TYPE then [] else ScanForAction(m, bindings, action, |bindings|)
    {
      hide Disabled, ScanForAction, ScanPositions, Positions;
      var actionId := action.typeId;
      var indices := if actionId in bindingIndicesByActionId then bindingIndicesByActionId[actionId] else [];
      ScanIndexed(m, bindings, bindingIndicesByActionId, action);
      found := [];
      assert indices[..0] == [];
      var k := 0;
      while k < |indices|
        invariant k <= |indices|
        invariant found == ScanPositions(m, bindings, action, indices[..k])
      {
        var ix := indices[k];
        assert indices[..k + 1] == indices[..k] + [ix];
        ScanPositionsSnoc(m, bindings, action, indices[..k], ix);
        if bindings[ix].action == action {
          var disabled := IsDisabled(m, ix);
          if !disabled {
            found := found + [bindings[ix]];
          }
        }
        k := k + 1;
      }
      assert indices[..k] == indices;
    }

    // The inner loop of `BindingsForAction`, over the NoAction index.
    method IsDisabled(m: Matching, ix: nat) returns (disabled: bool)
      requires Valid() && ix < |bindings|
      ensures disabled == Disabled(m, bindings, ix)
    {
      PositionsAreExact(bindings, NO_ACTION_TYPE);
      var binding := bindings[ix];
      var k := 0;
      while k < |noActionBindingIndices|
        invariant k <= |noActionBindingIndices|
        invariant forall j :: 0 <= j < |noActionBindingIndices| ==> noActionBindingIndices[j] < |bindings|
        invariant forall j :: 0 <= j < k && noActionBindingIndices[j] > ix ==>
          !DisabledBy(m, binding, bindings[noActionBindingIndices[j]])
      {
        var nullIx := noActionBindingIndices[k];
        if nullIx > ix {
          var nullBinding := bindings[nullIx];
          if nullBinding.keystrokes == binding.keystrokes {
            var nullBindingMatches := match (nullBinding.contextPredicate, binding.contextPredicate)
              case (None, _) => true
              case (Some(_), None) => false
              case (Some(nullPredicate), Some(context)) => m.isSuperset(nullPredicate, context);
            if nullBindingMatches {
              return true;
            }
          }
        }
        k := k + 1;
      }
      disabled := false;
    }

    /** The bindings returned are exactly the enabled full matches that are not NoAction and that no
        blocking NoAction match precedes, in strictly descending precedence; and the flag says
        whether a longer live input could still do something. */
    method BindingsForInput(m: Matching, input: seq<Keystroke>, contexts: seq<KeyContext>)
      returns (found: seq<Binding>, hasPending: bool)
      ensures exists chosen: seq<Match> ::
        && Answers(m, bindings, input, contexts, chosen, found)
        && var first := if chosen == [] then None else Some(chosen[0].ix);
           (hasPending <==> SomethingPending(m, bindings, input, contexts, first))
    {
      hide Begins, EnabledAt;
      var matched, pendingBindings := Collect(m, input, contexts);
      RankedIsRanking(matched);
      hide Ranked;
      assert forall k :: 0 <= k < |Ranked(matched)| ==> Ranked(matched)[k] in matched;
      var firstBindingIndex;
      ghost var chosen;
      found, firstBindingIndex, chosen := Select(Ranked(matched));
      assert Answers(m, bindings, input, contexts, chosen, found);
      hasPending := AnyPending(m, input, contexts, pendingBindings, firstBindingIndex);
    }

    // First loop: all enabled matches and continuations, newest binding first.
    method Collect(m: Matching, input: seq<Keystroke>, contexts: seq<KeyContext>)
      returns (matched: seq<Match>, pendingBindings: seq<nat>)
      ensures forall x :: x in matched <==> IsMatch(m, bindings, input, contexts, x)
      ensures forall j, k :: 0 <= j < k < |matched| ==> matched[j].ix != matched[k].ix
      ensures forall i: nat :: i in pendingBindings <==> i < |bindings| && Continues(m, bindings, input, contexts, i)
      ensures forall j, k :: 0 <= j < k < |pendingBindings| ==> pendingBindings[j] > pendingBindings[k]
    {
      matched, pendingBindings := [], [];
      var ix := |bindings|;
      while ix > 0
        invariant ix <= |bindings|
        invariant forall x :: x in matched <==> IsMatch(m, bindings, input, contexts, x) && x.ix >= ix
        invariant forall j, k :: 0 <= j < k < |matched| ==> matched[j].ix != matched[k].ix
        invariant forall i: nat :: i in pendingBindings <==>
          ix <= i < |bindings| && Continues(m, bindings, input, contexts, i)
        invariant forall j :: 0 <= j < |pendingBindings| ==> pendingBindings[j] >= ix
        invariant forall j, k :: 0 <= j < k < |pendingBindings| ==> pendingBindings[j] > pendingBindings[k]
      {
        hide Begins, EnabledAt;
        ix := ix - 1;
        var depth := BindingEnabled(m, bindings[ix], contexts);
        if depth.None? {
          continue;
        }
        var pending := MatchKeystrokes(m, bindings[ix], input);
        if pending.None? {
          continue;
        }
        if !pending.value {
          matched := matched + [Match(depth.value, ix)];
        } else {
          pendingBindings := pendingBindings + [ix];
        }
      }
    }

    // Second loop: NoAction matches end the list if they are the user's, and are skipped otherwise.
    method Select(ranked: seq<Match>)
        returns (found: seq<Binding>, firstBindingIndex: Option<nat>, ghost chosen: seq<Match>)
      requires StrictlyPreceding(ranked) && forall k :: 0 <= k < |ranked| ==> ranked[k].ix < |bindings|
      ensures |chosen| == |found| && StrictlyPreceding(chosen)
      ensures forall x :: x in chosen <==>
        && x in ranked && !bindings[x.ix].IsNoAction()
        && forall other :: other in ranked && bindings[other.ix].Blocks() ==> !other.Precedes(x)
      ensures forall k :: 0 <= k < |found| ==> chosen[k].ix < |bindings| && found[k] == bindings[chosen[k].ix]
      ensures firstBindingIndex == if chosen == [] then None else Some(chosen[0].ix)
    {
      found, firstBindingIndex, chosen := [], None, [];
      var k := 0;
      while k < |ranked|
        invariant k <= |ranked| && |chosen| == |found| && StrictlyPreceding(chosen)
        invariant forall x :: x in chosen <==> x in ranked[..k] && !bindings[x.ix].IsNoAction()
        invariant forall j :: 0 <= j < k ==> !bindings[ranked[j].ix].Blocks()
        invariant forall j :: 0 <= j < |found| ==> chosen[j].ix < |bindings| && found[j] == bindings[chosen[j].ix]
        invariant firstBindingIndex == if chosen == [] then None else Some(chosen[0].ix)
      {
        hide Match.Precedes;
        var x := ranked[k];
        assert ranked[..k + 1] == ranked[..k] + [x];
        if bindings[x.ix].IsNoAction() {
          if bindings[x.ix].Blocks() {
            break;
          }
        } else {
          found := found + [bindings[x.ix]];
          chosen := chosen + [x];
          if firstBindingIndex.None? {
            firstBindingIndex := Some(x.ix);
          }
        }
        k := k + 1;
      }
    }

    // Third loop: the key sequences whose newest live binding is not NoAction.
    method AnyPending(m: Matching, input: seq<Keystroke>, contexts: seq<KeyContext>,
                      pendingBindings: seq<nat>, first: Option<nat>) returns (hasPending: bool)
      requires forall i: nat :: i in pendingBindings <==> i < |bindings| && Continues(m, bindings, input, contexts, i)
      requires forall j, k :: 0 <= j < k < |pendingBindings| ==> pendingBindings[j] > pendingBindings[k]
      ensures hasPending <==> SomethingPending(m, bindings, input, contexts, first)
    {
      var pending: set<seq<Keystroke>> := {};
      var k: nat := |pendingBindings|;
      forall j | 0 <= j < |pendingBindings| ensures pendingBindings[j] < |bindings| {
        assert pendingBindings[j] in pendingBindings;
      }
      while k > 0
        invariant k <= |pendingBindings|
        invariant forall j :: 0 <= j < |pendingBindings| ==> pendingBindings[j] < |bindings|
        invariant forall keys :: keys in pending <==> PendingAmong(bindings, pendingBindings[k..], first, keys)
      {
        k := k - 1;
        var ix := pendingBindings[k];
        assert pendingBindings[k..] == [ix] + pendingBindings[k + 1..];
        forall keys
          ensures PendingAmong(bindings, pendingBindings[k..], first, keys) <==>
            if (first.Some? ==> first.value <= ix) && bindings[ix].keystrokes == keys then !bindings[ix].IsNoAction()
            else PendingAmong(bindings, pendingBindings[k + 1..], first, keys)
        {
          PendingAmongCons(bindings, ix, pendingBindings[k + 1..], first, keys);
        }
        hide PendingAmong;
        if first.Some? && first.value > ix {
          continue;
        }
        if bindings[ix].IsNoAction() {
          pending := pending - {bindings[ix].keystrokes};
        } else {
          pending := pending + {bindings[ix].keystrokes};
        }
      }
      assert pendingBindings[0..] == pendingBindings;
      hasPending := pending != {};
      AmongIsSomething(m, bindings, input, contexts, pendingBindings, first);
      hide PendingAmong, SomethingPending;
    }
  }
}
