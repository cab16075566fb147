/** Subscriber sets (src/subscription.rs): callbacks may subscribe and unsubscribe while they are
    being called.

    A `BTreeMap<usize, Subscriber>` is a sequence of subscribers with ascending ids; the shared
    `active` flags are the set of activated ids; callbacks and keys are opaque numbers. What a
    callback does during an emission is given by a reaction for its subscriber. */
module Subscriptions {
  import opened Common

  type EmitterKey = int
  type Callback = int

  datatype Subscriber = Subscriber(id: nat, callback: Callback)

  type Subscribers = seq<Subscriber>

  // An operation on the set: subscribing, activating a subscription, dropping a subscription; and the two
  // ends of an emission inside another one, with whatever its callbacks do in between.
  datatype Op =
    | Insert(key: EmitterKey, callback: Callback)
    | Activate(id: nat)
    | Unsubscribe(key: EmitterKey, id: nat)
    | BeginEmission(key: EmitterKey)
    | EndEmission(key: EmitterKey, kept: Subscribers)

  // What a callback does to the set, and what it returns.
  datatype Reaction = Reaction(ops: seq<Op>, keep: bool)

  datatype SetState = SetState(
    subscribers: map<EmitterKey, Option<Subscribers>>,
    dropped: set<(EmitterKey, nat)>,
    nextId: nat,
    active: set<nat>)

  function Without(subs: Subscribers, id: nat): Subscribers {
    if subs == [] then []
    else Without(subs[..|subs| - 1], id) + if subs[|subs| - 1].id == id then [] else [subs[|subs| - 1]]
  }

  function Minus(subs: Subscribers, ids: set<nat>): Subscribers {
    if subs == [] then []
    else Minus(subs[..|subs| - 1], ids) + if subs[|subs| - 1].id in ids then [] else [subs[|subs| - 1]]
  }

  /** The subscribers listed under a key; none when it is absent or its subscribers are taken out. */
  function EntryOf(s: SetState, key: EmitterKey): Subscribers {
    if key in s.subscribers && s.subscribers[key].Some? then s.subscribers[key].value else []
  }

  function InsertState(s: SetState, key: EmitterKey, callback: Callback): SetState {
    s.(subscribers := s.subscribers[key := Some(EntryOf(s, key) + [Subscriber(s.nextId, callback)])],
      nextId := s.nextId + 1)
  }

  function UnsubscribeState(s: SetState, key: EmitterKey, id: nat): SetState {
    if key !in s.subscribers then s
    else if s.subscribers[key].Some? then
      var rest := Without(s.subscribers[key].value, id);
      if rest == [] then s.(subscribers := s.subscribers - {key})
      else s.(subscribers := s.subscribers[key := Some(rest)])
    else s.(dropped := s.dropped + {(key, id)})
  }

  function Take(s: SetState, emitter: EmitterKey): SetState {
    s.(subscribers := s.subscribers[emitter := None])
  }

  function BeginState(s: SetState, key: EmitterKey): SetState {
    if key in s.subscribers && s.subscribers[key].Some? then Take(s, key) else s
  }

  function SecondOf(pairs: set<(EmitterKey, nat)>): set<nat> {
    set pair | pair in pairs :: pair.1
  }

  function DroppedIds(s: SetState): set<nat> {
    SecondOf(s.dropped)
  }

  // The end of an emission: append the new subscribers, remove all that are marked as dropped, whoever
  // they subscribed to, and put the rest back.
  function EndState(s: SetState, emitter: EmitterKey, kept: Subscribers): SetState {
    PutBack(s, emitter, Minus(kept + EntryOf(s, emitter), DroppedIds(s)))
  }

  function PutBack(s: SetState, emitter: EmitterKey, after: Subscribers): SetState {
    SetState(if after == [] then s.subscribers - {emitter} else s.subscribers[emitter := Some(after)],
             {}, s.nextId, s.active)
  }

  function Apply(s: SetState, op: Op): SetState {
    match op
    case Insert(key, callback) => InsertState(s, key, callback)
    case Activate(id) => s.(active := s.active + {id})
    case Unsubscribe(key, id) => UnsubscribeState(s, key, id)
    case BeginEmission(key) => BeginState(s, key)
    case EndEmission(key, kept) => EndState(s, key, kept)
  }

  function ApplyAll(s: SetState, ops: seq<Op>): SetState {
    if ops == [] then s else Apply(ApplyAll(s, ops[..|ops| - 1]), ops[|ops| - 1])
  }

  // The callbacks of the active subscribers, in insertion order.
  function ActiveCallbacks(subs: Subscribers, active: set<nat>): seq<Callback> {
    if subs == [] then []
    else
      var last := subs[|subs| - 1];
      ActiveCallbacks(subs[..|subs| - 1], active) + (if last.id in active then [last.callback] else [])
  }

  // ---------------------------------------------------------------------------------------
  // One emission
  // ---------------------------------------------------------------------------------------

  // The visit of the taken subscribers: the set's state, who is kept, who was called, all operations.
  datatype Visit = Visit(state: SetState, kept: Subscribers, calls: seq<nat>, log: seq<Op>)

  function VisitUpTo(s: SetState, subs: Subscribers, reaction: nat -> Reaction, n: nat): Visit
    requires n <= |subs|
  {
    if n == 0 then Visit(s, [], [], [])
    else
      var v := VisitUpTo(s, subs, reaction, n - 1);
      var sub := subs[n - 1];
      if sub.id in v.state.active then
        var r := reaction(sub.id);
        Visit(ApplyAll(v.state, r.ops), v.kept + (if r.keep then [sub] else []), v.calls + [sub.id], v.log + r.ops)
      else v.(kept := v.kept + [sub])
  }

  /** `retain`, as the source does it: take the subscribers out, visit them, and end the emission. */
  function RetainState(s: SetState, emitter: EmitterKey, reaction: nat -> Reaction): SetState {
    if emitter !in s.subscribers || s.subscribers[emitter].None? then s
    else
      var subs := s.subscribers[emitter].value;
      var v := VisitUpTo(Take(s, emitter), subs, reaction, |subs|);
      EndState(v.state, emitter, v.kept)
  }

  // ---------------------------------------------------------------------------------------
  // Between emissions
  // ---------------------------------------------------------------------------------------

  ghost predicate Ascending(subs: Subscribers, bound: nat) {
    && (forall i :: 0 <= i < |subs| ==> subs[i].id < bound)
    && (forall i, j :: 0 <= i < j < |subs| ==> subs[i].id < subs[j].id)
  }

  /** No emission in progress: every key present has subscribers, in ascending order of id. */
  ghost predicate AtRest(s: SetState) {
    && s.dropped == {}
    && forall key :: key in s.subscribers ==>
         s.subscribers[key].Some? && s.subscribers[key].value != [] && Ascending(s.subscribers[key].value, s.nextId)
  }

  lemma WithoutSnoc(subs: Subscribers, last: Subscriber, id: nat)
    ensures Without(subs + [last], id) == if last.id == id then Without(subs, id) else Without(subs, id) + [last]
  {
    assert (subs + [last])[..|subs|] == subs;
  }

  lemma MinusSnoc(subs: Subscribers, last: Subscriber, ids: set<nat>)
    ensures Minus(subs + [last], ids) == if last.id in ids then Minus(subs, ids) else Minus(subs, ids) + [last]
  {
    assert (subs + [last])[..|subs|] == subs;
  }

  lemma NothingListed(id: nat, ids: set<nat>, bound: nat)
    ensures Without([], id) == [] && Minus([], ids) == [] && Ascending([], bound)
  {
  }

  lemma AscendingPrefix(subs: Subscribers, bound: nat)
    requires Ascending(subs, bound) && subs != []
    ensures var rest, last := subs[..|subs| - 1], subs[|subs| - 1];
      Ascending(rest, last.id) && last.id < bound && forall sub :: sub in subs <==> sub in rest || sub == last
  {
    assert subs == subs[..|subs| - 1] + [subs[|subs| - 1]];
  }

  lemma AscendingSnoc(subs: Subscribers, last: Subscriber, bound: nat)
    requires Ascending(subs, last.id) && last.id < bound
    ensures Ascending(subs, bound) && Ascending(subs + [last], bound)
  {
  }

  lemma {:induction false} WithoutKeepsAscending(subs: Subscribers, id: nat, bound: nat)
    requires Ascending(subs, bound)
    ensures Ascending(Without(subs, id), bound)
    ensures forall sub :: sub in Without(subs, id) <==> sub in subs && sub.id != id
  {
    hide Ascending, Without;
    if subs == [] {
      NothingListed(id, {}, bound);
    } else {
      var rest, last := subs[..|subs| - 1], subs[|subs| - 1];
      AscendingPrefix(subs, bound);
      WithoutKeepsAscending(rest, id, last.id);
      AscendingSnoc(Without(rest, id), last, bound);
      assert subs == rest + [last];
      WithoutSnoc(rest, last, id);
    }
  }

  lemma {:induction false} MinusKeepsAscending(subs: Subscribers, ids: set<nat>, bound: nat)
    requires Ascending(subs, bound)
    ensures Ascending(Minus(subs, ids), bound)
    ensures forall sub :: sub in Minus(subs, ids) <==> sub in subs && sub.id !in ids
  {
    hide Ascending, Minus;
    if subs == [] {
      NothingListed(0, ids, bound);
    } else {
      var rest, last := subs[..|subs| - 1], subs[|subs| - 1];
      AscendingPrefix(subs, bound);
      MinusKeepsAscending(rest, ids, last.id);
      AscendingSnoc(Minus(rest, ids), last, bound);
      assert subs == rest + [last];
      MinusSnoc(rest, last, ids);
    }
  }

  lemma ApplyKeepsRest(s: SetState, op: Op)
    requires AtRest(s) && !op.BeginEmission? && !op.EndEmission?
    ensures AtRest(Apply(s, op))
  {
    if op.Unsubscribe? && op.key in s.subscribers {
      WithoutKeepsAscending(s.subscribers[op.key].value, op.id, s.nextId);
    }
    hide Without;
  }

  // ---------------------------------------------------------------------------------------
  // Counting what happened to one key during an emission
  // ---------------------------------------------------------------------------------------

  /** From the log alone: ids given out so far, whether the key was subscribed to, who was inserted, who is
      left of them, who is marked as dropped, who was unsubscribed at all, and which other emissions are
      open, with the ids given out when they began. */
  datatype Tally = Tally(nextId: nat, inserted: bool, all: Subscribers, alive: Subscribers,
                         marked: set<nat>, unsubscribed: set<nat>, open: map<EmitterKey, nat>)

  function TallyOp(t: Tally, emitter: EmitterKey, op: Op): Tally {
    match op
    case Insert(key, callback) =>
      if key == emitter then
        var sub := Subscriber(t.nextId, callback);
        t.(nextId := t.nextId + 1, inserted := true, all := t.all + [sub], alive := t.alive + [sub])
      else t.(nextId := t.nextId + 1)
    case Activate(_) => t
    case Unsubscribe(key, id) =>
      if key == emitter then
        t.(alive := Without(t.alive, id), unsubscribed := t.unsubscribed + {id},
           marked := if t.inserted then t.marked else t.marked + {id})
      else t
    case BeginEmission(key) => t.(open := t.open[key := t.nextId])
    case EndEmission(key, _) => t.(open := t.open - {key}, marked := {})
  }

  function TallyOf(nextId: nat, emitter: EmitterKey, log: seq<Op>): Tally {
    if log == [] then Tally(nextId, false, [], [], {}, {}, map[])
    else TallyOp(TallyOf(nextId, emitter, log[..|log| - 1]), emitter, log[|log| - 1])
  }

  /** Subscriptions are only dropped after they were handed out; other emissions are of other keys, nest, and
      end with subscribers that were there when they began. */
  ghost predicate Fits(t: Tally, emitter: EmitterKey, op: Op) {
    match op
    case Unsubscribe(_, id) => id < t.nextId
    case BeginEmission(key) => key != emitter && key !in t.open
    case EndEmission(key, kept) => key != emitter && key in t.open && Ascending(kept, t.open[key])
    case _ => true
  }

  ghost predicate Causal(nextId: nat, emitter: EmitterKey, log: seq<Op>) {
    forall i :: 0 <= i < |log| ==> Fits(TallyOf(nextId, emitter, log[..i]), emitter, log[i])
  }

  lemma CausalPrefix(nextId: nat, emitter: EmitterKey, log: seq<Op>, n: nat)
    requires Causal(nextId, emitter, log) && n <= |log|
    ensures Causal(nextId, emitter, log[..n])
    ensures n < |log| ==> Fits(TallyOf(nextId, emitter, log[..n]), emitter, log[n])
  {
    hide Fits, TallyOf;
    forall i | 0 <= i < n ensures Fits(TallyOf(nextId, emitter, log[..n][..i]), emitter, log[..n][i]) {
      assert log[..n][..i] == log[..i];
    }
  }

  // What the tally says about the set's state while the emitter's subscribers are taken out.
  ghost predicate Tracks(s: SetState, emitter: EmitterKey, t: Tally) {
    && s.nextId == t.nextId
    && OwnEntry(s, emitter, t)
    && Marks(s, emitter, t)
    && emitter !in t.open
    && (forall key :: key in s.subscribers && key != emitter && key !in t.open ==> RestingEntry(s, key))
    && (forall key :: key in t.open ==> OpenEntry(s, key, t.open[key]))
  }

  ghost predicate OwnEntry(s: SetState, emitter: EmitterKey, t: Tally) {
    && (!t.inserted ==> t.alive == [] && t.all == [] && emitter in s.subscribers && s.subscribers[emitter].None?)
    && (t.inserted && t.alive == [] ==> emitter !in s.subscribers)
    && (t.inserted && t.alive != [] ==> emitter in s.subscribers && s.subscribers[emitter] == Some(t.alive))
  }

  ghost predicate Marks(s: SetState, emitter: EmitterKey, t: Tally) {
    && (forall pair :: pair in s.dropped ==> (pair.0 == emitter && pair.1 in t.marked) || pair.0 in t.open)
    && (forall id :: id in t.marked ==> (emitter, id) in s.dropped)
  }

  ghost predicate RestingEntry(s: SetState, key: EmitterKey)
    requires key in s.subscribers
  {
    s.subscribers[key].Some? && s.subscribers[key].value != [] && Ascending(s.subscribers[key].value, s.nextId)
  }

  // Of an open emission, only subscribers newer than its beginning are listed.
  ghost predicate OpenEntry(s: SetState, key: EmitterKey, began: nat) {
    && began <= s.nextId && Ascending(EntryOf(s, key), s.nextId)
    && forall i :: 0 <= i < |EntryOf(s, key)| ==> EntryOf(s, key)[i].id >= began
  }

  lemma ApplyTracks(s: SetState, emitter: EmitterKey, t: Tally, op: Op)
    requires Tracks(s, emitter, t) && Fits(t, emitter, op)
    ensures Tracks(Apply(s, op), emitter, TallyOp(t, emitter, op))
  {
    hide Tracks, InsertState, UnsubscribeState, BeginState, EndState;
    match op
    case Insert(key, callback) => InsertTracks(s, emitter, t, key, callback);
    case Activate(id) => ActivateTracks(s, emitter, t, id);
    case Unsubscribe(key, id) => UnsubscribeTracks(s, emitter, t, key, id);
    case BeginEmission(key) => BeginTracks(s, emitter, t, key);
    case EndEmission(key, kept) => EndTracks(s, emitter, t, key, kept);
  }

  lemma ActivateTracks(s: SetState, emitter: EmitterKey, t: Tally, id: nat)
    requires Tracks(s, emitter, t)
    ensures Tracks(s.(active := s.active + {id}), emitter, t)
  {
    var after := s.(active := s.active + {id});
    hide Ascending;
    forall key | key in t.open ensures OpenEntry(after, key, t.open[key]) {
      assert OpenEntry(s, key, t.open[key]);
    }
    forall key | key in after.subscribers && key != emitter && key !in t.open ensures RestingEntry(after, key) {
      assert RestingEntry(s, key);
    }
  }

  // A change that touches one other key at most, and takes back no id.
  ghost predicate OnlyTouches(s: SetState, after: SetState, key: EmitterKey) {
    && after.nextId >= s.nextId
    && after.subscribers - {key} == s.subscribers - {key}
  }

  lemma OthersStay(s: SetState, after: SetState, key: EmitterKey, emitter: EmitterKey, t: Tally)
    requires Tracks(s, emitter, t) && OnlyTouches(s, after, key)
    ensures forall other :: other in after.subscribers && other != key && other != emitter && other !in t.open ==>
      RestingEntry(after, other)
    ensures forall other :: other in t.open && other != key ==> OpenEntry(after, other, t.open[other])
    ensures key != emitter ==> OwnEntry(after, emitter, t)
  {
    hide Marks;
    forall other | other in after.subscribers && other != key
      ensures other in s.subscribers && after.subscribers[other] == s.subscribers[other]
    {
      assert other in after.subscribers - {key};
    }
    forall other | other in s.subscribers && other != key ensures other in after.subscribers {
      assert other in s.subscribers - {key};
    }
    forall other | other in after.subscribers && other != key && other != emitter && other !in t.open
      ensures RestingEntry(after, other)
    {
      assert RestingEntry(s, other);
    }
    forall other | other in t.open && other != key ensures OpenEntry(after, other, t.open[other]) {
      assert OpenEntry(s, other, t.open[other]) && EntryOf(after, other) == EntryOf(s, other);
    }
  }

  lemma InsertTracks(s: SetState, emitter: EmitterKey, t: Tally, key: EmitterKey, callback: Callback)
    requires Tracks(s, emitter, t)
    ensures Tracks(InsertState(s, key, callback), emitter, TallyOp(t, emitter, Insert(key, callback)))
  {
    hide Ascending, OpenEntry, RestingEntry;
    var after, t' := InsertState(s, key, callback), TallyOp(t, emitter, Insert(key, callback));
    OthersStay(s, after, key, emitter, t);
    InsertedEntry(s, emitter, t, key, callback);
    assert t'.open == t.open;
    assert Marks(after, emitter, t');
    hide InsertState, TallyOp, Marks, OwnEntry;
  }

  lemma InsertedEntry(s: SetState, emitter: EmitterKey, t: Tally, key: EmitterKey, callback: Callback)
    requires Tracks(s, emitter, t)
    ensures var after := InsertState(s, key, callback);
      && key in after.subscribers
      && (key == emitter ==> OwnEntry(after, emitter, TallyOp(t, emitter, Insert(key, callback))))
      && (key in t.open ==> OpenEntry(after, key, t.open[key]))
      && (key != emitter && key !in t.open ==> RestingEntry(after, key))
  {
    hide Ascending, Marks;
    var entry, added := EntryOf(s, key), Subscriber(s.nextId, callback);
    if key in t.open {
      assert OpenEntry(s, key, t.open[key]);
      AscendingSnoc(entry, added, s.nextId + 1);
    } else if key != emitter {
      if key in s.subscribers { assert RestingEntry(s, key); } else { AscendingNothing(s.nextId); }
      AscendingSnoc(entry, added, s.nextId + 1);
    }
  }

  lemma UnsubscribeTracks(s: SetState, emitter: EmitterKey, t: Tally, key: EmitterKey, id: nat)
    requires Tracks(s, emitter, t)
    ensures Tracks(UnsubscribeState(s, key, id), emitter, TallyOp(t, emitter, Unsubscribe(key, id)))
  {
    hide Without, Ascending, OpenEntry, RestingEntry;
    var after, t' := UnsubscribeState(s, key, id), TallyOp(t, emitter, Unsubscribe(key, id));
    OthersStay(s, after, key, emitter, t);
    assert t'.open == t.open && after.nextId == t'.nextId;
    if key == emitter {
      UnsubscribedOwn(s, emitter, t, id);
    } else {
      UnsubscribedMarks(s, emitter, t, key, id);
      if key in s.subscribers {
        UnsubscribedEntry(s, emitter, t, key, id);
      } else {
        assert after == s;
      }
    }
    hide UnsubscribeState, Marks, OwnEntry;
  }

  lemma UnsubscribedOwn(s: SetState, emitter: EmitterKey, t: Tally, id: nat)
    requires Tracks(s, emitter, t)
    ensures var after, t' := UnsubscribeState(s, emitter, id), TallyOp(t, emitter, Unsubscribe(emitter, id));
      OwnEntry(after, emitter, t') && Marks(after, emitter, t')
  {
    assert Without([], id) == [];
    hide Without, Ascending, OpenEntry, RestingEntry;
  }

  lemma UnsubscribedMarks(s: SetState, emitter: EmitterKey, t: Tally, key: EmitterKey, id: nat)
    requires Tracks(s, emitter, t) && key != emitter
    ensures Marks(UnsubscribeState(s, key, id), emitter, t)
  {
    hide Without, Ascending, OpenEntry;
    if key in s.subscribers && key !in t.open {
      assert RestingEntry(s, key);
    }
  }

  lemma UnsubscribedEntry(s: SetState, emitter: EmitterKey, t: Tally, key: EmitterKey, id: nat)
    requires Tracks(s, emitter, t) && key != emitter && key in s.subscribers
    ensures var after := UnsubscribeState(s, key, id);
      && (key in t.open ==> OpenEntry(after, key, t.open[key]))
      && (key !in t.open && key in after.subscribers ==> RestingEntry(after, key))
  {
    hide Without, Ascending, Marks, OwnEntry;
    if key in t.open {
      assert OpenEntry(s, key, t.open[key]);
    } else {
      assert RestingEntry(s, key);
    }
    if s.subscribers[key].Some? {
      WithoutKeepsAscending(s.subscribers[key].value, id, s.nextId);
      var rest := Without(s.subscribers[key].value, id);
      forall i | 0 <= i < |rest| ensures rest[i] in s.subscribers[key].value {
        assert rest[i] in rest;
      }
      AscendingNothing(s.nextId);
    }
  }

  lemma AscendingNothing(bound: nat)
    ensures Ascending([], bound)
  {
  }

  lemma BeginTracks(s: SetState, emitter: EmitterKey, t: Tally, key: EmitterKey)
    requires Tracks(s, emitter, t) && Fits(t, emitter, BeginEmission(key))
    ensures Tracks(BeginState(s, key), emitter, TallyOp(t, emitter, BeginEmission(key)))
  {
    hide Ascending, OpenEntry, RestingEntry;
    var after, t' := BeginState(s, key), TallyOp(t, emitter, BeginEmission(key));
    OthersStay(s, after, key, emitter, t);
    NoneListed(s, emitter, t, key);
    hide BeginState, OwnEntry;
  }

  lemma NoneListed(s: SetState, emitter: EmitterKey, t: Tally, key: EmitterKey)
    requires Tracks(s, emitter, t) && key != emitter && key !in t.open
    ensures OpenEntry(BeginState(s, key), key, s.nextId)
  {
    hide Ascending, Marks, OwnEntry;
    if key in s.subscribers { assert RestingEntry(s, key); }
    AscendingNothing(s.nextId);
    assert EntryOf(BeginState(s, key), key) == [];
  }

  lemma EndTracks(s: SetState, emitter: EmitterKey, t: Tally, key: EmitterKey, kept: Subscribers)
    requires Tracks(s, emitter, t) && Fits(t, emitter, EndEmission(key, kept))
    ensures Tracks(EndState(s, key, kept), emitter, TallyOp(t, emitter, EndEmission(key, kept)))
  {
    hide Ascending, OpenEntry, RestingEntry, EndState, Minus;
    var after, t' := EndState(s, key, kept), TallyOp(t, emitter, EndEmission(key, kept));
    EndedEntry(s, key, t.open[key], kept);
    OthersStay(s, after, key, emitter, t);
    assert OwnEntry(after, emitter, t');
    hide OwnEntry;
  }

  lemma EndedEntry(s: SetState, key: EmitterKey, began: nat, kept: Subscribers)
    requires OpenEntry(s, key, began) && Ascending(kept, began)
    ensures OnlyTouches(s, EndState(s, key, kept), key)
    ensures var after := EndState(s, key, kept);
      && after.dropped == {} && after.nextId == s.nextId && OnlyTouches(s, after, key)
      && (key in after.subscribers ==> RestingEntry(after, key))
  {
    hide Minus;
    assert Ascending(kept + EntryOf(s, key), s.nextId);
    MinusKeepsAscending(kept + EntryOf(s, key), DroppedIds(s), s.nextId);
    hide Ascending;
  }

  lemma {:induction false} ApplyAllTracks(s: SetState, emitter: EmitterKey, nextId: nat, log: seq<Op>, ops: seq<Op>)
    requires Tracks(s, emitter, TallyOf(nextId, emitter, log)) && Causal(nextId, emitter, log + ops)
    ensures Tracks(ApplyAll(s, ops), emitter, TallyOf(nextId, emitter, log + ops))
  {
    hide Tracks, Apply, TallyOp, Causal, Fits;
    if ops == [] {
      assert log + ops == log;
    } else {
      var n := |ops| - 1;
      CausalPrefix(nextId, emitter, log + ops, |log| + n);
      assert (log + ops)[..|log| + n] == log + ops[..n];
      ApplyAllTracks(s, emitter, nextId, log, ops[..n]);
      ApplyTracks(ApplyAll(s, ops[..n]), emitter, TallyOf(nextId, emitter, log + ops[..n]), ops[n]);
    }
  }

  lemma VisitUnfolds(s: SetState, subs: Subscribers, reaction: nat -> Reaction, n: nat)
    requires n < |subs|
    ensures var before, after := VisitUpTo(s, subs, reaction, n), VisitUpTo(s, subs, reaction, n + 1);
      if subs[n].id in before.state.active
      then && after.state == ApplyAll(before.state, reaction(subs[n].id).ops)
           && after.log == before.log + reaction(subs[n].id).ops
      else after.state == before.state && after.log == before.log
  {
    hide ApplyAll;
  }

  lemma NoVisits(s: SetState, subs: Subscribers, reaction: nat -> Reaction)
    ensures VisitUpTo(s, subs, reaction, 0) == Visit(s, [], [], [])
  {
  }

  lemma {:induction false} VisitTracks(s: SetState, emitter: EmitterKey, subs: Subscribers,
                                       reaction: nat -> Reaction, n: nat)
    requires AtRest(s) && emitter in s.subscribers && n <= |subs|
    requires Causal(s.nextId, emitter, VisitUpTo(Take(s, emitter), subs, reaction, n).log)
    ensures var v := VisitUpTo(Take(s, emitter), subs, reaction, n);
      Tracks(v.state, emitter, TallyOf(s.nextId, emitter, v.log))
  {
    hide Tracks, AtRest, ApplyAll, TallyOf, Causal, VisitUpTo, Take;
    if n == 0 {
      TakenTracks(s, emitter);
      NoVisits(Take(s, emitter), subs, reaction);
    } else {
      VisitUnfolds(Take(s, emitter), subs, reaction, n - 1);
      var before, v := VisitUpTo(Take(s, emitter), subs, reaction, n - 1),
        VisitUpTo(Take(s, emitter), subs, reaction, n);
      CausalPrefix(s.nextId, emitter, v.log, |before.log|);
      assert v.log[..|before.log|] == before.log;
      VisitTracks(s, emitter, subs, reaction, n - 1);
      if subs[n - 1].id in before.state.active {
        ApplyAllTracks(before.state, emitter, s.nextId, before.log, reaction(subs[n - 1].id).ops);
      }
    }
  }

  lemma TakenTracks(s: SetState, emitter: EmitterKey)
    requires AtRest(s) && emitter in s.subscribers
    ensures Tracks(Take(s, emitter), emitter, TallyOf(s.nextId, emitter, []))
  {
    var taken := Take(s, emitter);
    forall key | key in taken.subscribers && key != emitter ensures RestingEntry(taken, key) {
      assert key in s.subscribers;
    }
  }

  // ---------------------------------------------------------------------------------------
  // Who is called, who is kept
  // ---------------------------------------------------------------------------------------

  /** The i-th subscriber present at the start is called: it was activated before the emission, or the callback
      of an earlier one that is called activates it. */
  ghost predicate IsCalled(active: set<nat>, subs: Subscribers, reaction: nat -> Reaction, i: nat)
    requires i < |subs|
    decreases i
  {
    subs[i].id in active || ActivatedBefore(active, subs, reaction, i, subs[i].id)
  }

  /** The callback of one of the first `n` subscribers that are called activates `id`. */
  ghost predicate ActivatedBefore(active: set<nat>, subs: Subscribers, reaction: nat -> Reaction, n: nat, id: nat)
    requires n <= |subs|
    decreases n, 0
  {
    exists j :: 0 <= j < n && IsCalled(active, subs, reaction, j) && Op.Activate(id) in reaction(subs[j].id).ops
  }

  ghost function CalledAt(s: SetState, subs: Subscribers, reaction: nat -> Reaction): nat -> bool {
    (i: nat) => i < |subs| && IsCalled(s.active, subs, reaction, i)
  }

  /** Holds of i when the i-th subscriber is not called, or its callback returns true. */
  ghost function KeptAt(s: SetState, subs: Subscribers, reaction: nat -> Reaction): nat -> bool {
    (i: nat) => i < |subs| && (!IsCalled(s.active, subs, reaction, i) || reaction(subs[i].id).keep)
  }

  /** After any operations exactly those are active that were so before or have been activated by one of them. */
  lemma {:induction false} ActiveExactlyIf(s: SetState, ops: seq<Op>, id: nat)
    ensures id in ApplyAll(s, ops).active <==> id in s.active || Op.Activate(id) in ops
  {
    if ops != [] {
      var rest, last := ops[..|ops| - 1], ops[|ops| - 1];
      assert ops == rest + [last];
      ActiveExactlyIf(s, rest, id);
      hide ApplyAll, Without, Minus;
      assert ApplyAll(s, ops) == Apply(ApplyAll(s, rest), last) by { ApplyAllSnoc(s, ops); }
    }
  }

  lemma ApplyAllSnoc(s: SetState, ops: seq<Op>)
    requires ops != []
    ensures ApplyAll(s, ops) == Apply(ApplyAll(s, ops[..|ops| - 1]), ops[|ops| - 1])
  {
    hide Apply;
  }

  // Who is active when the first `n` have been visited.
  lemma {:induction false} ActiveAfterVisits(s: SetState, subs: Subscribers, reaction: nat -> Reaction, n: nat, id: nat)
    requires n <= |subs|
    ensures id in VisitUpTo(s, subs, reaction, n).state.active <==>
            id in s.active || ActivatedBefore(s.active, subs, reaction, n, id)
    decreases n
  {
    hide ApplyAll, ActivatedBefore, VisitUpTo;
    if n == 0 {
      NothingVisited(s, subs, reaction, id);
    } else {
      ActiveAfterVisits(s, subs, reaction, n - 1, id);
      ActiveAfterVisits(s, subs, reaction, n - 1, subs[n - 1].id);
      ActiveAfterOne(s, subs, reaction, n - 1, id);
      ActivatedSnoc(s.active, subs, reaction, n - 1, id);
    }
  }

  lemma NothingVisited(s: SetState, subs: Subscribers, reaction: nat -> Reaction, id: nat)
    ensures VisitUpTo(s, subs, reaction, 0).state == s && !ActivatedBefore(s.active, subs, reaction, 0, id)
  {
  }

  lemma ActiveAfterOne(s: SetState, subs: Subscribers, reaction: nat -> Reaction, n: nat, id: nat)
    requires n < |subs|
    ensures var before, after := VisitUpTo(s, subs, reaction, n).state, VisitUpTo(s, subs, reaction, n + 1).state;
      id in after.active <==>
      id in before.active || (subs[n].id in before.active && Op.Activate(id) in reaction(subs[n].id).ops)
  {
    hide ApplyAll, VisitUpTo;
    VisitUnfolds(s, subs, reaction, n);
    ActiveExactlyIf(VisitUpTo(s, subs, reaction, n).state, reaction(subs[n].id).ops, id);
  }

  lemma ActivatedSnoc(active: set<nat>, subs: Subscribers, reaction: nat -> Reaction, n: nat, id: nat)
    requires n < |subs|
    ensures ActivatedBefore(active, subs, reaction, n + 1, id) <==>
      || ActivatedBefore(active, subs, reaction, n, id)
      || (IsCalled(active, subs, reaction, n) && Op.Activate(id) in reaction(subs[n].id).ops)
  {
    hide IsCalled;
  }

  /** The subscribers among the first `n` whose position satisfies `p`, in order. */
  function Picked(subs: Subscribers, p: nat -> bool, n: nat): Subscribers
    requires n <= |subs|
  {
    if n == 0 then [] else Picked(subs, p, n - 1) + if p(n - 1) then [subs[n - 1]] else []
  }

  function Ids(subs: Subscribers): seq<nat> {
    seq(|subs|, i requires 0 <= i < |subs| => subs[i].id)
  }

  lemma {:induction false} PickedFacts(subs: Subscribers, p: nat -> bool, n: nat, bound: nat)
    requires n <= |subs| && Ascending(subs, bound)
    ensures Ascending(Picked(subs, p, n), bound)
    ensures forall sub :: sub in Picked(subs, p, n) <==> exists i :: 0 <= i < n && p(i) && subs[i] == sub
    ensures n < |subs| ==> Ascending(Picked(subs, p, n), subs[n].id)
  {
    hide Picked, Ascending;
    if n == 0 {
      NonePicked(subs, p, bound);
    } else {
      PickedFacts(subs, p, n - 1, bound);
      PickedSnoc(subs, p, n - 1);
      var picked, last := Picked(subs, p, n - 1), subs[n - 1];
      BoundsAscend(subs, bound, n);
      AscendingSnoc(picked, last, bound);
      if n < |subs| {
        AscendingSnoc(picked, last, subs[n].id);
      }
      MembersSnoc(subs, p, n - 1, picked);
    }
  }

  lemma NonePicked(subs: Subscribers, p: nat -> bool, bound: nat)
    ensures Picked(subs, p, 0) == [] && forall b: nat :: Ascending([], b)
  {
  }

  lemma MembersSnoc(subs: Subscribers, p: nat -> bool, n: nat, picked: Subscribers)
    requires n < |subs|
    requires forall sub :: sub in picked <==> exists i :: 0 <= i < n && p(i) && subs[i] == sub
    ensures forall sub :: sub in picked || (p(n) && sub == subs[n]) <==>
      exists i :: 0 <= i < n + 1 && p(i) && subs[i] == sub
  {
  }

  lemma BoundsAscend(subs: Subscribers, bound: nat, n: nat)
    requires Ascending(subs, bound) && 0 < n <= |subs|
    ensures subs[n - 1].id < bound && (n < |subs| ==> subs[n - 1].id < subs[n].id)
  {
  }

  lemma PickedSnoc(subs: Subscribers, p: nat -> bool, n: nat)
    requires n < |subs|
    ensures Picked(subs, p, n + 1) == if p(n) then Picked(subs, p, n) + [subs[n]] else Picked(subs, p, n)
  {
  }

  /** Exactly the subscribers present at the start that had been activated, before the emission or by an earlier
      callback of it, are called, once each, in insertion order; and exactly those not called or whose callback
      returned true are kept. */
  lemma {:induction false} CalledOnceInOrder(s: SetState, emitter: EmitterKey, subs: Subscribers,
                                             reaction: nat -> Reaction, n: nat)
    requires n <= |subs|
    ensures var v := VisitUpTo(Take(s, emitter), subs, reaction, n);
      && v.calls == Ids(Picked(subs, CalledAt(s, subs, reaction), n))
      && v.kept == Picked(subs, KeptAt(s, subs, reaction), n)
  {
    hide *;
    if n == 0 {
      NoneVisited(s, emitter, subs, reaction);
    } else {
      var active, kept := CalledAt(s, subs, reaction), KeptAt(s, subs, reaction);
      CalledOnceInOrder(s, emitter, subs, reaction, n - 1);
      VisitSnoc(s, emitter, subs, reaction, n - 1);
      PickedSnoc(subs, active, n - 1);
      PickedSnoc(subs, kept, n - 1);
      IdsSnoc(Picked(subs, active, n - 1), subs[n - 1]);
    }
  }

  lemma NoneCalled(s: SetState, emitter: EmitterKey, reaction: nat -> Reaction)
    ensures Ids(Picked([], CalledAt(s, [], reaction), 0)) == []
  {
  }

  lemma NoneVisited(s: SetState, emitter: EmitterKey, subs: Subscribers, reaction: nat -> Reaction)
    ensures var v := VisitUpTo(Take(s, emitter), subs, reaction, 0);
      v.kept == Picked(subs, KeptAt(s, subs, reaction), 0)
      && v.calls == Ids(Picked(subs, CalledAt(s, subs, reaction), 0))
  {
  }

  lemma VisitSnoc(s: SetState, emitter: EmitterKey, subs: Subscribers, reaction: nat -> Reaction, n: nat)
    requires n < |subs|
    ensures var v, w := VisitUpTo(Take(s, emitter), subs, reaction, n),
      VisitUpTo(Take(s, emitter), subs, reaction, n + 1);
      && w.calls == (if CalledAt(s, subs, reaction)(n) then v.calls + [subs[n].id] else v.calls)
      && w.kept == (if KeptAt(s, subs, reaction)(n) then v.kept + [subs[n]] else v.kept)
  {
    hide ApplyAll;
    ActiveAfterVisits(Take(s, emitter), subs, reaction, n, subs[n].id);
    hide ActivatedBefore, Take;
    assert Take(s, emitter).active == s.active;
  }

  lemma IdsSnoc(subs: Subscribers, sub: Subscriber)
    ensures Ids(subs + [sub]) == Ids(subs) + [sub.id] && subs + [] == subs
  {
  }

  // ---------------------------------------------------------------------------------------
  // What is left afterwards
  // ---------------------------------------------------------------------------------------

  lemma {:induction false} MinusAppend(a: Subscribers, b: Subscribers, ids: set<nat>)
    ensures Minus(a + b, ids) == Minus(a, ids) + Minus(b, ids)
  {
    if b == [] {
      assert a + b == a;
    } else {
      assert (a + b)[..|a + b| - 1] == a + b[..|b| - 1];
      MinusAppend(a, b[..|b| - 1], ids);
    }
  }

  lemma {:induction false} WithoutMinus(subs: Subscribers, ids: set<nat>, id: nat)
    ensures Without(Minus(subs, ids), id) == Minus(subs, ids + {id})
  {
    if subs != [] {
      var rest, last := subs[..|subs| - 1], subs[|subs| - 1];
      WithoutMinus(rest, ids, id);
      WithoutSnoc(Minus(rest, ids), last, id);
      hide Without;
      if last.id in ids {
        assert Minus(subs, ids) == Minus(rest, ids);
        assert Minus(subs, ids + {id}) == Minus(rest, ids + {id});
      } else {
        assert Minus(subs, ids) == Minus(rest, ids) + [last];
      }
    }
  }

  lemma {:induction false} MinusSame(subs: Subscribers, a: set<nat>, b: set<nat>)
    requires forall i :: 0 <= i < |subs| ==> (subs[i].id in a <==> subs[i].id in b)
    ensures Minus(subs, a) == Minus(subs, b)
  {
    if subs != [] {
      MinusSame(subs[..|subs| - 1], a, b);
    }
  }

  lemma {:induction false} MinusNothing(subs: Subscribers, ids: set<nat>)
    requires forall i :: 0 <= i < |subs| ==> subs[i].id !in ids
    ensures Minus(subs, ids) == subs
  {
    if subs != [] {
      MinusNothing(subs[..|subs| - 1], ids);
      assert subs == subs[..|subs| - 1] + [subs[|subs| - 1]];
    }
  }

  /** Of the new subscribers, exactly those not unsubscribed are left; they are newer than everyone
      unsubscribed before the first of them. */
  ghost predicate Sound(nextId: nat, t: Tally) {
    && t.nextId >= nextId
    && t.alive == Minus(t.all, t.unsubscribed)
    && t.marked <= t.unsubscribed
    && (forall id :: id in t.unsubscribed ==> id < t.nextId)
    && Ascending(t.all, t.nextId)
    && (!t.inserted ==> t.all == [])
    && (forall i :: 0 <= i < |t.all| ==> t.all[i].id >= nextId)
    && (forall id, i :: id in t.marked && 0 <= i < |t.all| ==> id < t.all[i].id)
  }

  lemma InsertSound(nextId: nat, t: Tally, emitter: EmitterKey, callback: Callback)
    requires Sound(nextId, t)
    ensures Sound(nextId, TallyOp(t, emitter, Insert(emitter, callback)))
  {
    hide Minus, Without, Ascending;
    var added := Subscriber(t.nextId, callback);
    MinusAppend(t.all, [added], t.unsubscribed);
    MinusNothing([added], t.unsubscribed);
    AscendingSnoc(t.all, added, t.nextId + 1);
  }

  lemma UnsubscribeSound(nextId: nat, t: Tally, emitter: EmitterKey, id: nat)
    requires Sound(nextId, t) && id < t.nextId
    ensures Sound(nextId, TallyOp(t, emitter, Unsubscribe(emitter, id)))
  {
    WithoutMinus(t.all, t.unsubscribed, id);
    hide Minus, Without;
  }

  lemma TallyOpSound(nextId: nat, emitter: EmitterKey, t: Tally, op: Op)
    requires Sound(nextId, t) && Fits(t, emitter, op)
    ensures Sound(nextId, TallyOp(t, emitter, op))
  {
    if op.Insert? && op.key == emitter {
      InsertSound(nextId, t, emitter, op.callback);
    } else if op.Unsubscribe? && op.key == emitter {
      UnsubscribeSound(nextId, t, emitter, op.id);
    }
    hide Minus, Without;
  }

  lemma {:induction false} TallyFacts(nextId: nat, emitter: EmitterKey, log: seq<Op>)
    requires Causal(nextId, emitter, log)
    ensures Sound(nextId, TallyOf(nextId, emitter, log))
  {
    if log != [] {
      var n := |log| - 1;
      CausalPrefix(nextId, emitter, log, n);
      TallyFacts(nextId, emitter, log[..n]);
      TallyOpSound(nextId, emitter, TallyOf(nextId, emitter, log[..n]), log[n]);
      hide Causal, Sound, TallyOp, Fits;
    }
  }

  // The outcome of one emission: who was kept, and the tally of everything that happened.
  ghost predicate Emission(s: SetState, emitter: EmitterKey, reaction: nat -> Reaction, kept: Subscribers, t: Tally) {
    && emitter in s.subscribers && s.subscribers[emitter].Some?
    && var subs := s.subscribers[emitter].value;
    && var v := VisitUpTo(Take(s, emitter), subs, reaction, |subs|);
    && Causal(s.nextId, emitter, v.log)
    && kept == v.kept && t == TallyOf(s.nextId, emitter, v.log) && t.open == map[]
  }

  /** After an emission: the kept subscribers without those marked as dropped (before the first new
      subscription and after the last other emission ended), and the new ones without those unsubscribed. */
  lemma RetainOutcome(s: SetState, emitter: EmitterKey, reaction: nat -> Reaction, kept: Subscribers, t: Tally)
    requires AtRest(s) && Emission(s, emitter, reaction, kept, t)
    ensures EntryOf(RetainState(s, emitter, reaction), emitter) == Minus(kept, t.marked) + Minus(t.all, t.unsubscribed)
  {
    var subs := s.subscribers[emitter].value;
    var v := VisitUpTo(Take(s, emitter), subs, reaction, |subs|);
    VisitTracks(s, emitter, subs, reaction, |subs|);
    TallyFacts(s.nextId, emitter, v.log);
    hide VisitUpTo, TallyOf, Causal;
    DroppedAreMarked(v.state, emitter, t);
    assert EntryOf(v.state, emitter) == t.alive;
    MinusAppend(kept, t.alive, t.marked);
    AliveIsNewer(t);
    hide Minus;
  }

  lemma DroppedAreMarked(s: SetState, emitter: EmitterKey, t: Tally)
    requires Tracks(s, emitter, t) && t.open == map[]
    ensures DroppedIds(s) == t.marked
  {
    forall id: nat | id in t.marked ensures id in DroppedIds(s) {
      assert (emitter, id) in s.dropped;
    }
  }

  lemma AliveIsNewer(t: Tally)
    requires t.alive == Minus(t.all, t.unsubscribed) && Ascending(t.all, t.nextId)
    requires forall id, i :: id in t.marked && 0 <= i < |t.all| ==> id < t.all[i].id
    ensures Minus(t.alive, t.marked) == t.alive
  {
    MinusKeepsAscending(t.all, t.unsubscribed, t.nextId);
    hide Minus;
    forall i | 0 <= i < |t.alive| ensures t.alive[i].id !in t.marked {
      assert t.alive[i] in t.all;
    }
    MinusNothing(t.alive, t.marked);
  }

  /** The set afterwards is (kept) plus (new) minus (unsubscribed meanwhile) exactly when every kept subscriber
      that was unsubscribed is marked as dropped: it was unsubscribed before the first new subscription to the
      same key, and after the last emission of another key inside this one. */
  lemma RetainIsExact(s: SetState, emitter: EmitterKey, reaction: nat -> Reaction, kept: Subscribers, t: Tally)
    requires AtRest(s) && Emission(s, emitter, reaction, kept, t)
    ensures EntryOf(RetainState(s, emitter, reaction), emitter) == Minus(kept + t.all, t.unsubscribed)
       <==> forall i :: 0 <= i < |kept| && kept[i].id in t.unsubscribed ==> kept[i].id in t.marked
  {
    RetainOutcome(s, emitter, reaction, kept, t);
    EmissionFacts(s, emitter, reaction, kept, t);
    MinusAppend(kept, t.all, t.unsubscribed);
    MinusKeepsAscending(kept, t.marked, s.nextId);
    MinusKeepsAscending(kept, t.unsubscribed, s.nextId);
    hide RetainState, Emission, Minus;
    var after, ideal, added := Minus(kept, t.marked), Minus(kept, t.unsubscribed), Minus(t.all, t.unsubscribed);
    assert after + added == ideal + added <==> after == ideal by {
      if after + added == ideal + added {
        assert |after| == |ideal|;
        assert after == (after + added)[..|after|] == ideal;
      }
    }
    if forall i :: 0 <= i < |kept| && kept[i].id in t.unsubscribed ==> kept[i].id in t.marked {
      MinusSame(kept, t.marked, t.unsubscribed);
    } else {
      var i :| 0 <= i < |kept| && kept[i].id in t.unsubscribed && kept[i].id !in t.marked;
      assert kept[i] in after && kept[i] !in ideal;
    }
  }

  lemma EmissionFacts(s: SetState, emitter: EmitterKey, reaction: nat -> Reaction, kept: Subscribers, t: Tally)
    requires AtRest(s) && Emission(s, emitter, reaction, kept, t)
    ensures t.marked <= t.unsubscribed && Ascending(kept, s.nextId)
    ensures Ascending(t.all, t.nextId) && s.nextId <= t.nextId
    ensures forall i :: 0 <= i < |t.all| ==> t.all[i].id >= s.nextId
  {
    var subs := s.subscribers[emitter].value;
    CalledOnceInOrder(s, emitter, subs, reaction, |subs|);
    PickedFacts(subs, KeptAt(s, subs, reaction), |subs|, s.nextId);
    TallyFacts(s.nextId, emitter, VisitUpTo(Take(s, emitter), subs, reaction, |subs|).log);
    hide Picked, VisitUpTo, TallyOf, Causal;
  }

  /** The failing case exists: a callback that subscribes and then drops its own subscription stays
      subscribed. */
  lemma DroppedAfterInsertStays(key: EmitterKey, callback: Callback)
    ensures var s := SetState(map[key := Some([Subscriber(0, callback)])], {}, 1, {0});
            var reaction := (id: nat) => Reaction([Insert(key, callback), Unsubscribe(key, 0)], true);
      AtRest(s) && Subscriber(0, callback) in EntryOf(RetainState(s, key, reaction), key)
  {
    var s := SetState(map[key := Some([Subscriber(0, callback)])], {}, 1, {0});
    var reaction := (id: nat) => Reaction([Insert(key, callback), Unsubscribe(key, 0)], true);
    hide ApplyAll, VisitUpTo, Without, Minus, RetainState;
    var first, added := Subscriber(0, callback), Subscriber(1, callback);
    var taken := Take(s, key);
    var ops := [Insert(key, callback), Unsubscribe(key, 0)];
    ApplyTwo(taken, ops);
    OneVisit(taken, [first], reaction);
    WithoutOther(added, 0);
    var v := VisitUpTo(taken, [first], reaction, 1);
    assert v.kept == [first] && v.state == ApplyAll(taken, ops);
    assert v.state.subscribers == map[key := Some([added])] && v.state.dropped == {};
    AppendedStays(s, key, reaction, first, added, v);
  }

  lemma AppendedStays(s: SetState, key: EmitterKey, reaction: nat -> Reaction, first: Subscriber, added: Subscriber,
                      v: Visit)
    requires key in s.subscribers && s.subscribers[key] == Some([first])
    requires v == VisitUpTo(Take(s, key), [first], reaction, 1) && v.kept == [first]
    requires v.state.subscribers == map[key := Some([added])] && v.state.dropped == {}
    ensures first in EntryOf(RetainState(s, key, reaction), key)
  {
    MinusNothing([first] + [added], {});
    hide VisitUpTo, Minus;
    assert DroppedIds(v.state) == {};
  }

  lemma OneVisit(s: SetState, subs: Subscribers, reaction: nat -> Reaction)
    requires |subs| == 1 && subs[0].id in s.active && reaction(subs[0].id).keep
    ensures VisitUpTo(s, subs, reaction, 1).state == ApplyAll(s, reaction(subs[0].id).ops)
    ensures VisitUpTo(s, subs, reaction, 1).kept == subs
  {
    hide ApplyAll;
    assert VisitUpTo(s, subs, reaction, 0) == Visit(s, [], [], []);
  }

  lemma WithoutOther(sub: Subscriber, id: nat)
    requires sub.id != id
    ensures Without([sub], id) == [sub]
  {
    assert [sub][..0] == [];
  }

  lemma ApplyTwo(s: SetState, ops: seq<Op>)
    requires |ops| == 2
    ensures ApplyAll(s, ops) == Apply(Apply(s, ops[0]), ops[1])
  {
    assert ops[..1][..0] == [];
    hide Apply;
    assert ApplyAll(s, ops[..1]) == Apply(s, ops[0]);
  }

  // ---------------------------------------------------------------------------------------
  // Emissions inside emissions
  // ---------------------------------------------------------------------------------------

  lemma {:induction false} ApplyAllAppend(s: SetState, a: seq<Op>, b: seq<Op>)
    ensures ApplyAll(s, a + b) == ApplyAll(ApplyAll(s, a), b)
  {
    hide Apply;
    if b == [] {
      assert a + b == a;
    } else {
      assert (a + b)[..|a + b| - 1] == a + b[..|b| - 1];
      ApplyAllAppend(s, a, b[..|b| - 1]);
    }
  }

  lemma {:induction false} VisitIsFlattened(s: SetState, subs: Subscribers, reaction: nat -> Reaction, n: nat)
    requires n <= |subs|
    ensures var v := VisitUpTo(s, subs, reaction, n); v.state == ApplyAll(s, v.log)
  {
    if n > 0 {
      VisitIsFlattened(s, subs, reaction, n - 1);
      var v := VisitUpTo(s, subs, reaction, n - 1);
      ApplyAllAppend(s, v.log, reaction(subs[n - 1].id).ops);
    }
    hide Apply;
  }

  // What an emission amounts to: its beginning, all that its callbacks do, and its end.
  function Flattened(s: SetState, key: EmitterKey, reaction: nat -> Reaction): seq<Op>
    requires key in s.subscribers && s.subscribers[key].Some?
  {
    var subs := s.subscribers[key].value;
    var v := VisitUpTo(Take(s, key), subs, reaction, |subs|);
    [BeginEmission(key)] + v.log + [EndEmission(key, v.kept)]
  }

  /** An emission is its flattened operations, so a callback that emits another key, whose callbacks may emit
      others in turn, is a callback that does these. Its end fits: who is kept was there at the beginning. */
  lemma EmissionIsFlattened(s: SetState, key: EmitterKey, reaction: nat -> Reaction)
    requires key in s.subscribers && s.subscribers[key].Some?
    ensures ApplyAll(s, Flattened(s, key, reaction)) == RetainState(s, key, reaction)
    ensures forall bound: nat :: Ascending(s.subscribers[key].value, bound) ==>
      Ascending(Flattened(s, key, reaction)[|Flattened(s, key, reaction)| - 1].kept, bound)
  {
    var subs := s.subscribers[key].value;
    var v := VisitUpTo(Take(s, key), subs, reaction, |subs|);
    VisitIsFlattened(Take(s, key), subs, reaction, |subs|);
    CalledOnceInOrder(s, key, subs, reaction, |subs|);
    forall bound: nat | Ascending(subs, bound) ensures Ascending(v.kept, bound) {
      PickedFacts(subs, KeptAt(s, subs, reaction), |subs|, bound);
    }
    hide VisitUpTo, Picked, EndState;
    ApplyAllAppend(s, [BeginEmission(key)], v.log + [EndEmission(key, v.kept)]);
    ApplyAllAppend(Take(s, key), v.log, [EndEmission(key, v.kept)]);
    ApplyOne(s, BeginEmission(key));
    ApplyOne(v.state, EndEmission(key, v.kept));
    assert Flattened(s, key, reaction) == [BeginEmission(key)] + (v.log + [EndEmission(key, v.kept)]);
  }

  lemma ApplyOne(s: SetState, op: Op)
    ensures ApplyAll(s, [op]) == Apply(s, op)
  {
    hide Apply;
    assert [op][..0] == [];
  }

  /** The other failing case: a callback that drops its own subscription and then emits another key stays
      subscribed, because the end of the other emission takes all marks. */
  lemma OtherEmissionForgets(key: EmitterKey, otherKey: EmitterKey, callback: Callback)
    requires key != otherKey
    ensures var s := TwoKeys(key, otherKey, callback);
      var ops := [Unsubscribe(key, 0)] + Flattened(UnsubscribeState(Take(s, key), key, 0), otherKey, Idle());
      var reaction := (id: nat) => Reaction(if id == 0 then ops else [], true);
      AtRest(s) && Subscriber(0, callback) in EntryOf(RetainState(s, key, reaction), key)
  {
    var s := TwoKeys(key, otherKey, callback);
    var marked := UnsubscribeState(Take(s, key), key, 0);
    var ops := [Unsubscribe(key, 0)] + Flattened(marked, otherKey, Idle());
    var reaction := (id: nat) => Reaction(if id == 0 then ops else [], true);
    hide ApplyAll, VisitUpTo, Without, Minus, RetainState, Flattened, EndState;
    var first, second := Subscriber(0, callback), Subscriber(1, callback);
    TwoKeysRest(key, otherKey, callback);
    hide AtRest;
    OneVisit(Take(s, key), [first], reaction);
    ApplyAllAppend(Take(s, key), [Unsubscribe(key, 0)], Flattened(marked, otherKey, Idle()));
    ApplyOne(Take(s, key), Unsubscribe(key, 0));
    EmissionIsFlattened(marked, otherKey, Idle());
    IdleEmission(marked, otherKey, second);
    assert EntryOf(marked, key) == [];
    var v := VisitUpTo(Take(s, key), [first], reaction, 1);
    assert v.kept == [first] && v.state == RetainState(marked, otherKey, Idle());
    NothingMarked(s, key, reaction, first, v);
  }

  function TwoKeys(key: EmitterKey, otherKey: EmitterKey, callback: Callback): SetState {
    SetState(map[key := Some([Subscriber(0, callback)]), otherKey := Some([Subscriber(1, callback)])], {}, 2, {0, 1})
  }

  lemma TwoKeysRest(key: EmitterKey, otherKey: EmitterKey, callback: Callback)
    requires key != otherKey
    ensures AtRest(TwoKeys(key, otherKey, callback))
  {
  }

  // Callbacks that do nothing and stay.
  function Idle(): nat -> Reaction {
    (id: nat) => Reaction([], true)
  }

  lemma IdleEmission(s: SetState, key: EmitterKey, sub: Subscriber)
    requires key in s.subscribers && s.subscribers[key] == Some([sub]) && sub.id in s.active
    ensures var after := RetainState(s, key, Idle());
      after.dropped == {} && forall other :: other != key ==> EntryOf(after, other) == EntryOf(s, other)
  {
    hide VisitUpTo, ApplyAll, Minus;
    OneVisit(Take(s, key), [sub], Idle());
    assert ApplyAll(Take(s, key), []) == Take(s, key) by { NothingApplied(Take(s, key)); }
  }

  lemma NothingApplied(s: SetState)
    ensures ApplyAll(s, []) == s
  {
  }

  lemma NothingMarked(s: SetState, key: EmitterKey, reaction: nat -> Reaction, first: Subscriber, v: Visit)
    requires key in s.subscribers && s.subscribers[key] == Some([first])
    requires v == VisitUpTo(Take(s, key), [first], reaction, 1) && v.kept == [first]
    requires v.state.dropped == {} && EntryOf(v.state, key) == []
    ensures first in EntryOf(RetainState(s, key, reaction), key)
  {
    MinusNothing([first], {});
    hide VisitUpTo, Minus;
    assert DroppedIds(v.state) == {} && [first] + [] == [first];
  }

  /** Emissions keep the set at rest: nothing stays taken out or marked as dropped, and every list is
      ascending, so that appending the new subscribers is the same as merging by id. */
  lemma RetainKeepsRest(s: SetState, emitter: EmitterKey, reaction: nat -> Reaction, kept: Subscribers, t: Tally)
    requires AtRest(s) && Emission(s, emitter, reaction, kept, t)
    ensures AtRest(RetainState(s, emitter, reaction))
  {
    var subs := s.subscribers[emitter].value;
    var v := VisitUpTo(Take(s, emitter), subs, reaction, |subs|);
    VisitTracks(s, emitter, subs, reaction, |subs|);
    EmissionFacts(s, emitter, reaction, kept, t);
    AliveFacts(s, emitter, reaction, kept, t);
    var all := kept + EntryOf(v.state, emitter);
    hide *;
    PutBackKeepsRest(s.nextId, v.state, emitter, kept, t);
    assert RetainState(s, emitter, reaction) == PutBack(v.state, emitter, Minus(all, DroppedIds(v.state))) by {
      RetainIsPutBack(s, emitter, reaction, kept, t);
    }
  }

  lemma RetainIsPutBack(s: SetState, emitter: EmitterKey, reaction: nat -> Reaction, kept: Subscribers, t: Tally)
    requires Emission(s, emitter, reaction, kept, t)
    ensures var subs := s.subscribers[emitter].value;
      var v := VisitUpTo(Take(s, emitter), subs, reaction, |subs|);
      && kept == v.kept && t == TallyOf(s.nextId, emitter, v.log)
      && RetainState(s, emitter, reaction)
         == PutBack(v.state, emitter, Minus(kept + EntryOf(v.state, emitter), DroppedIds(v.state)))
  {
    hide VisitUpTo, TallyOf, Causal, Minus, PutBack;
  }

  lemma PutBackKeepsRest(bound: nat, s: SetState, emitter: EmitterKey, kept: Subscribers, t: Tally)
    requires Tracks(s, emitter, t) && t.open == map[] && bound <= t.nextId
    requires Ascending(kept, bound) && Ascending(t.alive, t.nextId)
    requires forall i :: 0 <= i < |t.alive| ==> t.alive[i].id >= bound
    ensures AtRest(PutBack(s, emitter, Minus(kept + EntryOf(s, emitter), DroppedIds(s))))
  {
    hide Minus;
    assert Ascending(kept + EntryOf(s, emitter), t.nextId);
    MinusKeepsAscending(kept + EntryOf(s, emitter), DroppedIds(s), t.nextId);
  }

  lemma AliveFacts(s: SetState, emitter: EmitterKey, reaction: nat -> Reaction, kept: Subscribers, t: Tally)
    requires AtRest(s) && Emission(s, emitter, reaction, kept, t)
    ensures Ascending(t.alive, t.nextId)
    ensures forall i :: 0 <= i < |t.alive| ==> t.alive[i].id >= s.nextId
  {
    var subs := s.subscribers[emitter].value;
    TallyFacts(s.nextId, emitter, VisitUpTo(Take(s, emitter), subs, reaction, |subs|).log);
    MinusKeepsAscending(t.all, t.unsubscribed, t.nextId);
    hide VisitUpTo, TallyOf, Causal, Minus;
    forall i | 0 <= i < |t.alive| ensures t.alive[i].id >= s.nextId {
      assert t.alive[i] in t.all;
    }
  }

  // ---------------------------------------------------------------------------------------
  // The set itself
  // ---------------------------------------------------------------------------------------

  class SubscriberSet {
    var subscribers: map<EmitterKey, Option<Subscribers>>
    var dropped: set<(EmitterKey, nat)>
    var nextId: nat
    var active: set<nat>

    function State(): SetState
      reads this
    {
      SetState(subscribers, dropped, nextId, active)
    }

    constructor ()
      ensures State() == SetState(map[], {}, 0, {}) && AtRest(State())
    {
      subscribers, dropped, nextId, active := map[], {}, 0, {};
    }

    method Insert(key: EmitterKey, callback: Callback) returns (id: nat)
      modifies this
      ensures State() == InsertState(old(State()), key, callback) && id == old(nextId)
    {
      id := nextId;
      nextId := nextId + 1;
      if key !in subscribers || subscribers[key].None? {
        subscribers := subscribers[key := Some([])];
      }
      subscribers := subscribers[key := Some(subscribers[key].value + [Subscriber(id, callback)])];
    }

    method Activate(id: nat)
      modifies this
      ensures State() == Apply(old(State()), Op.Activate(id))
    {
      active := active + {id};
    }

    method Unsubscribe(key: EmitterKey, id: nat)
      modifies this
      ensures State() == UnsubscribeState(old(State()), key, id)
    {
      if key !in subscribers {
        return;
      }
      if subscribers[key].Some? {
        var rest := Without(subscribers[key].value, id);
        subscribers := subscribers[key := Some(rest)];
        if rest == [] {
          subscribers := subscribers - {key};
        }
        return;
      }
      dropped := dropped + {(key, id)};
    }

    /** Takes a key out at once; the callbacks are filtered only when the result is consumed. */
    method Remove(emitter: EmitterKey) returns (removed: Subscribers)
      modifies this
      ensures State() == old(State()).(subscribers := old(subscribers) - {emitter})
      ensures removed == EntryOf(old(State()), emitter)
    {
      removed := if emitter in subscribers && subscribers[emitter].Some? then subscribers[emitter].value else [];
      subscribers := subscribers - {emitter};
    }

    /** One step of consuming what `Remove` returned: the callback of the first subscriber that is active now. */
    method NextRemoved(removed: Subscribers) returns (callback: Option<Callback>, rest: Subscribers)
      ensures |rest| <= |removed| && rest == removed[|removed| - |rest|..]
      ensures callback.None? ==> rest == [] && forall i :: 0 <= i < |removed| ==> removed[i].id !in active
      ensures callback.Some? ==>
        var k := |removed| - |rest| - 1;
        && 0 <= k && removed[k].id in active && callback == Some(removed[k].callback)
        && forall i :: 0 <= i < k ==> removed[i].id !in active
    {
      for i := 0 to |removed|
        invariant forall j :: 0 <= j < i ==> removed[j].id !in active
      {
        if removed[i].id in active {
          return Some(removed[i].callback), removed[i + 1..];
        }
      }
      callback, rest := None, [];
    }

    /** Consumed in one go: the callbacks of all active subscribers, in insertion order. */
    method DrainRemoved(removed: Subscribers) returns (callbacks: seq<Callback>)
      ensures callbacks == ActiveCallbacks(removed, active)
    {
      callbacks := [];
      var rest := removed;
      ghost var n := 0;
      while true
        invariant n <= |removed| && rest == removed[n..] && callbacks == ActiveCallbacks(removed[..n], active)
        decreases |rest|
      {
        var callback, later := NextRemoved(rest);
        if callback.None? {
          NoneActive(removed, n, |removed|, active);
          assert removed[..|removed|] == removed;
          return;
        }
        ghost var k := n + |rest| - |later| - 1;
        NoneActive(removed, n, k, active);
        assert removed[..k + 1][..k] == removed[..k];
        callbacks, rest, n := callbacks + [callback.value], later, k + 1;
      }
    }

    // What a callback does to the set while it runs.
    method Perform(ops: seq<Op>)
      modifies this
      ensures State() == ApplyAll(old(State()), ops)
    {
      for i := 0 to |ops|
        invariant State() == ApplyAll(old(State()), ops[..i])
      {
        assert ops[..i + 1][..i] == ops[..i];
        match ops[i] {
          case Insert(key, callback) => var _ := Insert(key, callback);
          case Activate(id) => Activate(id);
          case Unsubscribe(key, id) => Unsubscribe(key, id);
          case BeginEmission(key) => var _ := Begin(key);
          case EndEmission(key, kept) => End(key, kept);
        }
      }
      assert ops[..|ops|] == ops;
    }

    /** Calls the active subscribers of `emitter` in turn, each of which may change the set, and drops
        those whose callback returned false. */
    method Retain(emitter: EmitterKey, reaction: nat -> Reaction) returns (calls: seq<nat>)
      modifies this
      ensures State() == RetainState(old(State()), emitter, reaction)
      ensures calls == var subs := EntryOf(old(State()), emitter);
        Ids(Picked(subs, CalledAt(old(State()), subs, reaction), |subs|))
    {
      CalledOnceInOrder(State(), emitter, EntryOf(State(), emitter), reaction, |EntryOf(State(), emitter)|);
      hide VisitUpTo, ApplyAll, Minus, Picked, CalledAt, KeptAt, Ids, EndState;
      calls := [];
      var taken := Begin(emitter);
      if taken.None? {
        NoneCalled(State(), emitter, reaction);
        return;
      }
      var kept;
      kept, calls := VisitTaken(taken.value, reaction);
      End(emitter, kept);
    }

    method Begin(emitter: EmitterKey) returns (taken: Option<Subscribers>)
      modifies this
      ensures State() == BeginState(old(State()), emitter)
      ensures taken == if emitter in old(subscribers) then old(subscribers)[emitter] else None
    {
      taken := if emitter in subscribers then subscribers[emitter] else None;
      if taken.Some? {
        subscribers := subscribers[emitter := None];
      }
    }

    method End(emitter: EmitterKey, visited: Subscribers)
      modifies this
      ensures State() == EndState(old(State()), emitter, visited)
    {
      hide Minus;
      var kept := visited;
      if emitter in subscribers && subscribers[emitter].Some? {
        kept := kept + subscribers[emitter].value;
      }
      assert kept == visited + EntryOf(State(), emitter);
      subscribers := subscribers - {emitter};
      kept := RemoveDropped(kept);
      if kept != [] {
        subscribers := subscribers[emitter := Some(kept)];
      }
    }

    // Calls the active ones among the taken subscribers, and keeps those whose callback says so.
    method VisitTaken(subs: Subscribers, reaction: nat -> Reaction) returns (kept: Subscribers, calls: seq<nat>)
      modifies this
      ensures var v := VisitUpTo(old(State()), subs, reaction, |subs|);
        State() == v.state && kept == v.kept && calls == v.calls
    {
      kept, calls := [], [];
      ghost var log: seq<Op> := [];
      hide ApplyAll;
      for i := 0 to |subs|
        invariant Visit(State(), kept, calls, log) == VisitUpTo(old(State()), subs, reaction, i)
      {
        if subs[i].id in active {
          var r := reaction(subs[i].id);
          calls := calls + [subs[i].id];
          log := log + r.ops;
          Perform(r.ops);
          if r.keep {
            kept := kept + [subs[i]];
          }
        } else {
          kept := kept + [subs[i]];
        }
      }
    }

    method RemoveDropped(subs: Subscribers) returns (rest: Subscribers)
      modifies this
      ensures rest == Minus(subs, DroppedIds(old(State())))
      ensures State() == old(State()).(dropped := {})
    {
      var pending := dropped;
      dropped := {};
      rest := subs;
      ghost var done: set<(EmitterKey, nat)> := {};
      MinusNothing(subs, {});
      assert SecondOf(done) == {};
      while pending != {}
        invariant done + pending == old(dropped)
        invariant rest == Minus(subs, SecondOf(done))
        invariant State() == old(State()).(dropped := {})
        decreases |pending|
      {
        var pair :| pair in pending;
        WithoutMinus(subs, SecondOf(done), pair.1);
        assert SecondOf(done + {pair}) == SecondOf(done) + {pair.1};
        rest := Without(rest, pair.1);
        pending, done := pending - {pair}, done + {pair};
      }
      assert done == old(dropped);
    }
  }

  // Subscribers that are not active add no callback.
  lemma {:induction false} NoneActive(subs: Subscribers, n: nat, m: nat, active: set<nat>)
    requires n <= m <= |subs| && forall i :: n <= i < m ==> subs[i].id !in active
    ensures ActiveCallbacks(subs[..m], active) == ActiveCallbacks(subs[..n], active)
    decreases m
  {
    if n < m {
      NoneActive(subs, n, m - 1, active);
      assert subs[..m][..m - 1] == subs[..m - 1];
    }
  }
}
