/** What a subscriber set has become, read off the operations it was given (src/subscription.rs). */
module SubscriptionLog {
  import opened Common
  import opened Subscriptions

  function EmptySet(): SetState {
    SetState(map[], {}, 0, {})
  }

  /** The subscriptions handed out by the operations, whatever the key. */
  function HandedOut(ops: seq<Op>): nat {
    if ops == [] then 0
    else HandedOut(ops[..|ops| - 1]) + if ops[|ops| - 1].Insert? then 1 else 0
  }

  /** Everyone inserted under the key, in order. */
  function InsertedTo(ops: seq<Op>, key: EmitterKey): Subscribers {
    if ops == [] then []
    else
      var rest, last := ops[..|ops| - 1], ops[|ops| - 1];
      InsertedTo(rest, key)
      + if last.Insert? && last.key == key then [Subscriber(HandedOut(rest), last.callback)] else []
  }

  function DroppedFrom(ops: seq<Op>, key: EmitterKey): set<nat> {
    set i | 0 <= i < |ops| && ops[i].Unsubscribe? && ops[i].key == key :: ops[i].id
  }

  // A subscription is activated or dropped only after it was handed out.
  ghost predicate InTime(ops: seq<Op>) {
    forall i :: 0 <= i < |ops| && (ops[i].Activate? || ops[i].Unsubscribe?) ==> ops[i].id < HandedOut(ops[..i])
  }

  ghost predicate NoEmissions(ops: seq<Op>) {
    forall i :: 0 <= i < |ops| ==> !ops[i].BeginEmission? && !ops[i].EndEmission?
  }

  lemma InTimePrefix(ops: seq<Op>)
    requires InTime(ops) && ops != []
    ensures var rest, last := ops[..|ops| - 1], ops[|ops| - 1];
      InTime(rest) && (last.Activate? || last.Unsubscribe? ==> last.id < HandedOut(rest))
  {
    forall i | 0 <= i < |ops| - 1 && (ops[i].Activate? || ops[i].Unsubscribe?) ensures ops[i].id < HandedOut(ops[..i]) {
    }
    assert forall i :: 0 <= i < |ops| - 1 ==> ops[..|ops| - 1][..i] == ops[..i];
  }

  lemma {:induction false} IdsByLog(ops: seq<Op>)
    ensures ApplyAll(EmptySet(), ops).nextId == HandedOut(ops)
  {
    if ops != [] {
      IdsByLog(ops[..|ops| - 1]);
      ApplyAllSnoc(EmptySet(), ops);
      hide ApplyAll, Without, Minus;
    }
  }

  lemma {:induction false} IdsAreOld(ops: seq<Op>, key: EmitterKey, id: nat)
    requires InTime(ops)
    ensures Op.Activate(id) in ops ==> id < HandedOut(ops)
    ensures id in DroppedFrom(ops, key) ==> id < HandedOut(ops)
  {
    if ops != [] {
      var rest, last := ops[..|ops| - 1], ops[|ops| - 1];
      InTimePrefix(ops);
      IdsAreOld(rest, key, id);
      assert ops == rest + [last];
      DroppedSnoc(rest, last, key);
      hide DroppedFrom, InTime;
    }
  }

  lemma DroppedSnoc(ops: seq<Op>, op: Op, key: EmitterKey)
    ensures DroppedFrom(ops + [op], key)
         == DroppedFrom(ops, key) + if op.Unsubscribe? && op.key == key then {op.id} else {}
  {
    var ops' := ops + [op];
    forall id: nat | id in DroppedFrom(ops, key) ensures id in DroppedFrom(ops', key) {
      var i :| 0 <= i < |ops| && ops[i].Unsubscribe? && ops[i].key == key && ops[i].id == id;
      assert ops'[i] == ops[i];
    }
    if op.Unsubscribe? && op.key == key {
      assert ops'[|ops|] == op;
    }
  }

  /** Subscriptions are inert until activated: whatever was done so far, the next one to be handed out is not
      active, and any other is active exactly if it was activated. */
  lemma FreshIsInert(ops: seq<Op>, id: nat)
    requires InTime(ops)
    ensures var s := ApplyAll(EmptySet(), ops);
      && s.nextId !in s.active
      && (id in s.active <==> Op.Activate(id) in ops)
  {
    IdsByLog(ops);
    ActiveExactlyIf(EmptySet(), ops, id);
    ActiveExactlyIf(EmptySet(), ops, HandedOut(ops));
    IdsAreOld(ops, 0, HandedOut(ops));
    hide ApplyAll, InTime, DroppedFrom;
  }

  /** Who is called, from the operations alone: the i-th listed subscriber is called exactly if it was activated
      before the emission, or by the callback of an earlier one that is called. */
  lemma CalledByLog(ops: seq<Op>, emitter: EmitterKey, reaction: nat -> Reaction, i: nat)
    requires i < |EntryOf(ApplyAll(EmptySet(), ops), emitter)|
    ensures var s := ApplyAll(EmptySet(), ops);
            var subs := EntryOf(s, emitter);
      IsCalled(s.active, subs, reaction, i) <==>
        || Op.Activate(subs[i].id) in ops
        || exists j :: 0 <= j < i && IsCalled(s.active, subs, reaction, j) &&
                       Op.Activate(subs[i].id) in reaction(subs[j].id).ops
  {
    hide ApplyAll, EntryOf;
    ActiveExactlyIf(EmptySet(), ops, EntryOf(ApplyAll(EmptySet(), ops), emitter)[i].id);
  }

  lemma {:induction false} StaysAtRest(ops: seq<Op>)
    requires NoEmissions(ops)
    ensures AtRest(ApplyAll(EmptySet(), ops))
  {
    if ops != [] {
      StaysAtRest(ops[..|ops| - 1]);
      ApplyAllSnoc(EmptySet(), ops);
      hide ApplyAll, Apply, AtRest;
      ApplyKeepsRest(ApplyAll(EmptySet(), ops[..|ops| - 1]), ops[|ops| - 1]);
    } else {
      hide Apply;
    }
  }

  // What one operation does to the list of one key between emissions.
  lemma EntryAfter(s: SetState, op: Op, key: EmitterKey)
    requires AtRest(s) && !op.BeginEmission? && !op.EndEmission?
    ensures var before, after := EntryOf(s, key), EntryOf(Apply(s, op), key);
      if op.Insert? && op.key == key then after == before + [Subscriber(s.nextId, op.callback)]
      else if op.Unsubscribe? && op.key == key then after == Without(before, op.id)
      else after == before
  {
    assert op.Unsubscribe? ==> Without([], op.id) == [];
    hide Without, Ascending;
  }

  /** Between emissions, a key lists everyone inserted under it and not dropped, in order of insertion. */
  lemma {:induction false} ListedByLog(ops: seq<Op>, key: EmitterKey)
    requires InTime(ops) && NoEmissions(ops)
    ensures EntryOf(ApplyAll(EmptySet(), ops), key) == Minus(InsertedTo(ops, key), DroppedFrom(ops, key))
  {
    hide Without, Minus, AtRest, InTime, DroppedFrom, Apply, EntryOf;
    if ops == [] {
      NothingListedYet(key);
    } else {
      var rest, last := ops[..|ops| - 1], ops[|ops| - 1];
      var all, dropped := InsertedTo(rest, key), DroppedFrom(rest, key);
      assert ops == rest + [last];
      InTimePrefix(ops);
      ListedByLog(rest, key);
      StaysAtRest(rest);
      IdsByLog(rest);
      IdsAreOld(rest, key, HandedOut(rest));
      EntryAfter(ApplyAll(EmptySet(), rest), last, key);
      ApplyAllSnoc(EmptySet(), ops);
      DroppedSnoc(rest, last, key);
      if last.Insert? && last.key == key {
        var added := Subscriber(HandedOut(rest), last.callback);
        MinusAppend(all, [added], dropped);
        MinusNothing([added], dropped);
      } else if last.Unsubscribe? && last.key == key {
        WithoutMinus(all, dropped, last.id);
        assert InsertedTo(ops, key) == all;
      } else {
        assert InsertedTo(ops, key) == all && dropped + {} == dropped;
      }
    }
  }

  lemma NothingListedYet(key: EmitterKey)
    ensures EntryOf(ApplyAll(EmptySet(), []), key) == Minus(InsertedTo([], key), DroppedFrom([], key))
  {
  }
}
