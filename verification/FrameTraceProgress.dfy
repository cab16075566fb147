/** Stopping the bounded trace (src/frame_trace.rs) can always be completed: from every reachable state in
    which the snapshot is claimed, some continuation hands it out. */
module FrameTraceProgress {
  import opened FrameTrace
  import opened Sorting

  // How many steps a call of `write_registered` has left, at most.
  function StepsLeft(w: Writer): nat {
    match w
    case Entering(_) => 7
    case Loading(_, _) => 6
    case Claiming(_, _, _) => 5
    case Copying(_, _) => 4
    case HalfCopied(_, _) => 3
    case Publishing(_, _) => 2
    case Left(_) => 0
    case _ => 1
  }

  lemma WriterAdvances(sh: Shared, w: Writer)
    requires CanStep(sh, w)
    ensures var (sh', w') := WriterStep(sh, w);
      && StepsLeft(w') < StepsLeft(w) && !w'.Entering?
      && |sh'.slots| == |sh.slots|
      && sh'.nextId == sh.nextId + if w.Entering? then 1 else 0
  {
    hide SlotOf;
  }

  lemma {:induction false} RunAppend(s: State, a: seq<Action>, s1: State, b: seq<Action>, s2: State)
    requires Run(s, a, s1) && Run(s1, b, s2)
    ensures Run(s, a + b, s2)
    decreases |a|
  {
    hide Enabled, After;
    if a == [] {
      assert a + b == b;
    } else {
      assert (a + b)[1..] == a[1..] + b && (a + b)[0] == a[0];
      RunAppend(After(s, a[0]), a[1..], s1, b, s2);
    }
  }

  lemma RunCons(s: State, action: Action, rest: seq<Action>, s': State)
    requires Enabled(s, action) && Run(After(s, action), rest, s')
    ensures Run(s, [action] + rest, s')
  {
    hide Enabled, After;
    assert ([action] + rest)[1..] == rest;
  }

  // Every writer can take its next step, as long as there are ids.
  lemma WriterCanStep(s: State, a: int)
    requires Inv(s) && a in WritersOf(s) && !WritersOf(s)[a].Left?
    requires WritersOf(s)[a].Entering? ==> s.sh.nextId < WRITING_SEQUENCE_BIT
    ensures CanStep(s.sh, WritersOf(s)[a])
  {
    hide CallWriters, SlotsInv, OwnersInv, CountsInv, RegistrationInv, StopperInv;
  }

  // The other calls and the stopper are where they were.
  ghost predicate CallGone(s: State, t: nat, s': State) {
    && s'.calls == s.calls - {t} && s'.stopper == s.stopper && s'.snapshotClaimed == s.snapshotClaimed
    && s'.sh.nextId <= s.sh.nextId + 1
  }

  lemma CallDeregisters(s: State, t: nat)
    requires t in s.calls && (s.calls[t].Writing? ==> s.calls[t].w.Left?)
    ensures Enabled(s, Deregister(t)) && CallGone(s, t, After(s, Deregister(t)))
    ensures After(s, Deregister(t)).sh == s.sh
  {
  }

  lemma CallAdvances(s: State, t: nat)
    requires Inv(s) && t in s.calls && s.calls[t].Writing? && !s.calls[t].w.Left?
    requires s.calls[t].w.Entering? ==> s.sh.nextId < WRITING_SEQUENCE_BIT
    ensures Enabled(s, Advance(t))
    ensures var s' := After(s, Advance(t));
      && t in s'.calls && s'.calls[t].Writing? && !s'.calls[t].w.Entering?
      && StepsLeft(s'.calls[t].w) < StepsLeft(s.calls[t].w)
      && s'.sh.nextId == s.sh.nextId + (if s.calls[t].w.Entering? then 1 else 0)
      && s'.calls - {t} == s.calls - {t} && s'.stopper == s.stopper && s'.snapshotClaimed == s.snapshotClaimed
  {
    hide Inv, CanStep, WriterStep, StepsLeft, SortBy;
    SetCall(s.calls, s.stopper, t, s.calls[t]);
    WriterCanStep(s, t);
    WriterAdvances(s.sh, s.calls[t].w);
  }

  /** A call in flight can run to its end by itself. */
  lemma {:induction false} CallFinishes(s: State, t: nat) returns (actions: seq<Action>, s': State)
    requires Inv(s) && t in s.calls
    requires s.calls[t].Writing? && s.calls[t].w.Entering? ==> s.sh.nextId < WRITING_SEQUENCE_BIT
    ensures Run(s, actions, s') && Inv(s') && CallGone(s, t, s')
    ensures s.calls[t].Writing? && !s.calls[t].w.Entering? ==> s'.sh.nextId <= s.sh.nextId
    decreases if s.calls[t].Writing? then StepsLeft(s.calls[t].w) else 0
  {
    hide Inv, Enabled, After, StepsLeft;
    if s.calls[t].Writing? && !s.calls[t].w.Left? {
      CallAdvances(s, t);
      InvKept(s, Advance(t));
      var rest;
      rest, s' := CallFinishes(After(s, Advance(t)), t);
      RunCons(s, Advance(t), rest, s');
      actions := [Advance(t)] + rest;
    } else {
      CallDeregisters(s, t);
      InvKept(s, Deregister(t));
      s' := After(s, Deregister(t));
      RunCons(s, Deregister(t), [], s');
      actions := [Deregister(t)] + [];
    }
  }

  /** All calls in flight can run to their ends. */
  lemma {:induction false} CallsFinish(s: State) returns (actions: seq<Action>, s': State)
    requires Inv(s) && s.sh.nextId + |s.calls| < WRITING_SEQUENCE_BIT
    ensures Run(s, actions, s') && Inv(s') && s'.calls == map[]
    ensures s'.stopper == s.stopper && s'.snapshotClaimed == s.snapshotClaimed && s'.sh.nextId < WRITING_SEQUENCE_BIT
    decreases |s.calls|
  {
    hide Inv, Run;
    if s.calls == map[] {
      actions, s' := [], s;
      NoActions(s);
    } else {
      var t :| t in s.calls;
      var first, s1 := CallFinishes(s, t);
      RemovedCall(s.calls, t);
      var rest;
      rest, s' := CallsFinish(s1);
      RunAppend(s, first, s1, rest, s');
      actions := first + rest;
    }
  }

  lemma NoActions(s: State)
    ensures Run(s, [], s)
  {
  }

  // ---------------------------------------------------------------------------------------
  // The stopper by itself
  // ---------------------------------------------------------------------------------------

  // What the stopper does next when nobody else is there.
  function NextAction(s: State): Action {
    match s.stopper
    case Idle => ClaimSnapshot
    case SettingStop => SetStop
    case Draining => Poll
    case Marking(w) => if w.Left? then LeaveMarker else AdvanceMarker
    case ReadingCount => ReadCount
    case Scanning(_, next, _) => if next < |s.sh.slots| then ReadSequence else EndScan
    case ReadingEvent(_, _, _) => ReadEvent
    case Counting(_, _) => ReadSuperseded
    case Counted(_, _, _) => Assemble
    case Done(_) => Assemble
  }

  function Phase(stopper: Stopper): nat {
    match stopper
    case Idle => 9
    case SettingStop => 8
    case Draining => 7
    case Marking(_) => 6
    case ReadingCount => 5
    case Scanning(_, _, _) => 4
    case ReadingEvent(_, _, _) => 4
    case Counting(_, _) => 3
    case Counted(_, _, _) => 2
    case Done(_) => 0
  }

  // Within a phase: steps of the marker's writer, or slots still to be read.
  function Within(s: State): int {
    match s.stopper
    case Marking(w) => StepsLeft(w)
    case Scanning(_, next, _) => 2 * (|s.sh.slots| - next) + 1
    case ReadingEvent(_, next, _) => 2 * (|s.sh.slots| - next)
    case _ => 0
  }

  predicate NeedsId(stopper: Stopper) {
    stopper.SettingStop? || stopper.Draining? || (stopper.Marking? && stopper.w.Entering?)
  }

  ghost predicate Alone(s: State) {
    && Inv(s) && s.calls == map[] && s.snapshotClaimed
    && (NeedsId(s.stopper) ==> s.sh.nextId < WRITING_SEQUENCE_BIT)
  }

  lemma WithinIsNat(s: State)
    requires Inv(s)
    ensures Within(s) >= 0
  {
    hide WritersInv, RegistrationInv, SortBy, MarkerInPlace;
  }

  lemma MarkerAdvances(s: State)
    requires Alone(s) && s.stopper.Marking? && !s.stopper.w.Left?
    ensures Enabled(s, AdvanceMarker)
    ensures var s' := After(s, AdvanceMarker);
      && s'.stopper.Marking? && !s'.stopper.w.Entering? && StepsLeft(s'.stopper.w) < StepsLeft(s.stopper.w)
      && s'.calls == s.calls && s'.snapshotClaimed
  {
    hide Inv, CanStep, WriterStep, StepsLeft, SortBy;
    SetStopper(s.calls, s.stopper, s.stopper);
    WriterCanStep(s, STOPPER);
    WriterAdvances(s.sh, s.stopper.w);
  }

  lemma StopperAdvances(s: State)
    requires Alone(s) && !s.stopper.Done?
    ensures Enabled(s, NextAction(s)) && Alone(After(s, NextAction(s)))
    ensures var s' := After(s, NextAction(s));
      Phase(s'.stopper) < Phase(s.stopper) || (Phase(s'.stopper) == Phase(s.stopper) && Within(s') < Within(s))
  {
    hide Inv, WriterStep, CanStep, HasStop, ActiveBits, Accepts, SortBy;
    ClaimedIsNotIdle(s);
    if s.stopper.Marking? && !s.stopper.w.Left? {
      MarkerAdvances(s);
      InvKept(s, AdvanceMarker);
    } else {
      ReadingInRange(s);
      InvRegisters(s);
      hide StepsLeft;
      InvKept(s, NextAction(s));
    }
  }

  lemma ClaimedIsNotIdle(s: State)
    requires Inv(s) && s.snapshotClaimed
    ensures !s.stopper.Idle?
  {
    hide WritersInv, StopperInv;
  }

  lemma ReadingInRange(s: State)
    requires Inv(s)
    ensures s.stopper.ReadingEvent? ==> s.stopper.next < |s.sh.slots|
  {
    hide WritersInv, RegistrationInv, SortBy, MarkerInPlace;
  }

  lemma {:induction false} StopperFinishes(s: State) returns (actions: seq<Action>, s': State)
    requires Alone(s)
    ensures Run(s, actions, s') && s'.stopper.Done?
    decreases Phase(s.stopper), Within(s)
  {
    if s.stopper.Done? {
      actions, s' := [], s;
      NoActions(s);
    } else {
      hide Alone, Enabled, After, NextAction, Phase, Within, Run;
      StopperAdvances(s);
      var s1 := After(s, NextAction(s));
      AloneHasInv(s);
      AloneHasInv(s1);
      WithinIsNat(s);
      WithinIsNat(s1);
      var rest;
      rest, s' := StopperFinishes(s1);
      RunCons(s, NextAction(s), rest, s');
      actions := [NextAction(s)] + rest;
    }
  }

  lemma AloneHasInv(s: State)
    requires Alone(s)
    ensures Inv(s)
  {
    hide Inv;
  }

  /** From every reachable state in which the snapshot is claimed, and with sequence ids left for the calls
      in flight and the marker, some continuation completes the snapshot. */
  lemma SnapshotCanComplete(capacity: nat, actions: seq<Action>, s: State) returns (more: seq<Action>, s': State)
    requires capacity >= 1 && Run(Initial(capacity), actions, s) && s.snapshotClaimed
    requires s.sh.nextId + |s.calls| < WRITING_SEQUENCE_BIT
    ensures Run(s, more, s') && s'.stopper.Done?
  {
    InitialInv(capacity);
    RunKeepsInv(Initial(capacity), actions, s);
    hide Inv, Run;
    var first, s1 := CallsFinish(s);
    assert Alone(s1);
    var rest;
    rest, s' := StopperFinishes(s1);
    RunAppend(s, first, s1, rest, s');
    more := first + rest;
  }
}
