/** What becomes of a `record` call of the bounded trace (src/frame_trace.rs): when it is let in, when it
    gets its slot, and what it answers. */
module FrameTraceRecords {
  import opened FrameTrace
  import opened FrameTraceLosses
  import opened FrameTraceProgress

  // ---------------------------------------------------------------------------------------
  // Getting in
  // ---------------------------------------------------------------------------------------

  lemma WordAccepts(stopping: bool, n: nat)
    requires n < WRITER_STOP_BIT
    ensures Accepts((if stopping then WRITER_STOP_BIT else 0) + n) <==> !stopping && n < WRITER_OVERFLOW_BIT - 1
  {
  }

  /** In every interleaving, a call gets in exactly if the stopper has not set its bit and fewer calls than
      the count can hold are in flight; otherwise it is turned away. */
  lemma AdmittedExactlyIf(capacity: nat, actions: seq<Action>, s: State, t: nat, payload: Payload)
    requires capacity >= 1 && Run(Initial(capacity), actions, s) && t !in s.calls && |s.calls| + 1 < WRITER_STOP_BIT
    ensures Enabled(s, Register(t, payload)) && t in After(s, Register(t, payload)).calls
    ensures After(s, Register(t, payload)).calls[t]
         == if !Stopping(s) && |s.calls| < WRITER_OVERFLOW_BIT - 1 then Writing(Entering(payload)) else Rejecting
  {
    InitialInv(capacity);
    hide Inv, Run, Accepts, WritersInv, StopperInv;
    RunKeepsInv(Initial(capacity), actions, s);
    AdmittedByWord(s, t, payload);
  }

  lemma AdmittedByWord(s: State, t: nat, payload: Payload)
    requires Inv(s) && Enabled(s, Register(t, payload))
    ensures After(s, Register(t, payload)).calls
         == s.calls[t := if !Stopping(s) && |s.calls| < WRITER_OVERFLOW_BIT - 1
                         then Writing(Entering(payload)) else Rejecting]
  {
    hide WritersInv, StopperInv, Accepts;
    WordAccepts(Stopping(s), |s.calls|);
  }

  // ---------------------------------------------------------------------------------------
  // Getting the slot
  // ---------------------------------------------------------------------------------------

  /** `id` is the newest ever published to the slot, or zero when there is none. */
  ghost predicate NewestIn(sh: Shared, ix: nat, id: nat)
    requires |sh.slots| >= 1
  {
    && (id != 0 ==> id in sh.log && SlotOf(id, |sh.slots|) == ix)
    && forall other :: other in sh.log && 1 <= other && SlotOf(other, |sh.slots|) == ix ==> other <= id
  }

  // The slot's word, read off the writers and the log.
  lemma SlotWord(sh: Shared, ws: Writers, ix: nat)
    requires WritersInv(sh, ws) && ix < |sh.slots|
    ensures sh.slots[ix].Claimed() <==> HasOwner(sh, ws, ix)
    ensures !sh.slots[ix].Claimed() ==> NewestIn(sh, ix, sh.slots[ix].sequence)
  {
    hide SlotOf, IdsInv, CountsInv;
    if !sh.slots[ix].Claimed() {
      assert Settled(sh, ix);
    }
  }

  lemma NewestIsUnique(sh: Shared, ix: nat, a: nat, b: nat)
    requires |sh.slots| >= 1 && NewestIn(sh, ix, a) && NewestIn(sh, ix, b)
    ensures a == b
  {
    hide SlotOf;
  }

  /** What a writer finds at its slot, by who owns it and what was published to it: it is contended while
      someone owns it, superseded by a newer event, and otherwise free to be claimed. */
  lemma LookingAtTheSlot(sh: Shared, ws: Writers, a: int)
    requires WritersInv(sh, ws) && a in ws && ws[a].Loading?
    ensures |sh.slots| >= 1 && 1 <= ws[a].id
    ensures var (id, ix) := (ws[a].id, SlotOf(ws[a].id, |sh.slots|));
            var (sh', w') := WriterStep(sh, ws[a]);
      && sh' == sh
      && (w' == Contended(id) <==> HasOwner(sh, ws, ix))
      && (w' == Superseded(id) <==> !HasOwner(sh, ws, ix) && Outdone(sh, id))
      && (w'.Claiming? <==> !HasOwner(sh, ws, ix) && !Outdone(sh, id))
      && (w'.Claiming? ==> w' == Claiming(id, ws[a].payload, w'.previous) && NewestIn(sh, ix, w'.previous))
  {
    assert IdsInv(sh, ws) && ws[a].HasId() && ws[a].Open();
    var id, ix := ws[a].id, SlotOf(ws[a].id, |sh.slots|);
    SlotWord(sh, ws, ix);
    if !HasOwner(sh, ws, ix) {
      OutdoneByNewest(sh, id, sh.slots[ix].sequence);
    }
    hide SlotOf, SlotsInv, OwnersInv, CountsInv, HasOwner, Outdone, NewestIn;
  }

  lemma OutdoneByNewest(sh: Shared, id: nat, newest: nat)
    requires |sh.slots| >= 1 && 1 <= id && id !in sh.log && NewestIn(sh, SlotOf(id, |sh.slots|), newest)
    ensures Outdone(sh, id) <==> newest >= id
  {
    hide SlotOf;
  }

  /** The compare-exchange wins the slot exactly if nobody owns it and nothing was published to it since the
      writer looked. */
  lemma ClaimingTheSlot(sh: Shared, ws: Writers, a: int)
    requires WritersInv(sh, ws) && a in ws && ws[a].Claiming?
    ensures |sh.slots| >= 1 && 1 <= ws[a].id
    ensures var (id, ix) := (ws[a].id, SlotOf(ws[a].id, |sh.slots|));
            var w' := WriterStep(sh, ws[a]).1;
      && (w' == Copying(id, ws[a].payload) <==> !HasOwner(sh, ws, ix) && NewestIn(sh, ix, ws[a].previous))
      && (w' == Contended(id) <==> w' != Copying(id, ws[a].payload))
  {
    assert IdsInv(sh, ws) && ws[a].HasId();
    assert OwnersInv(sh, ws) && OwnerFacts(sh, ws, a);
    var ix := SlotOf(ws[a].id, |sh.slots|);
    SlotWord(sh, ws, ix);
    hide SlotOf, SlotsInv, OwnersInv, IdsInv, CountsInv, HasOwner;
    if !sh.slots[ix].Claimed() && NewestIn(sh, ix, ws[a].previous) {
      NewestIsUnique(sh, ix, ws[a].previous, sh.slots[ix].sequence);
    }
    hide NewestIn;
  }

  lemma ReachableWriters(capacity: nat, actions: seq<Action>, s: State)
    requires capacity >= 1 && Run(Initial(capacity), actions, s)
    ensures Inv(s) && WritersInv(s.sh, WritersOf(s)) && LossInv(s.sh, WritersOf(s)) && |s.sh.slots| == capacity
  {
    InitialInv(capacity);
    InitialLosses(capacity);
    InitialSlots(capacity);
    hide Run, Initial, WritersInv, RegistrationInv, StopperInv, LossInv;
    RunKeepsLosses(Initial(capacity), actions, s);
  }

  /** A call answers yes exactly if its event was published. */
  lemma AnswerTellsPublished(capacity: nat, actions: seq<Action>, s: State, a: int)
    requires capacity >= 1 && Run(Initial(capacity), actions, s)
    requires a in WritersOf(s) && CanStep(s.sh, WritersOf(s)[a])
    requires WriterStep(s.sh, WritersOf(s)[a]).1.Left?
    ensures var w := WritersOf(s)[a];
      w.HasId() && (WriterStep(s.sh, w).1 == Left(true) <==> w.id in s.sh.log)
  {
    hide Run, Initial, RegistrationInv, StopperInv, Inv;
    ReachableWriters(capacity, actions, s);
    AnswerByLog(s.sh, WritersOf(s), a);
  }

  lemma AnswerByLog(sh: Shared, ws: Writers, a: int)
    requires WritersInv(sh, ws) && LossInv(sh, ws) && a in ws && CanStep(sh, ws[a])
    requires WriterStep(sh, ws[a]).1.Left?
    ensures ws[a].HasId() && (WriterStep(sh, ws[a]).1 == Left(true) <==> ws[a].id in sh.log)
  {
    assert OutcomeKnown(sh, ws[a]);
    hide SlotOf, SlotsInv, OwnersInv, CountsInv, Outdone;
  }

  // ---------------------------------------------------------------------------------------
  // An undisturbed call
  // ---------------------------------------------------------------------------------------

  // A writer's next steps, with nobody else moving.
  ghost function Steps(sh: Shared, w: Writer, n: nat): (Shared, Writer)
    decreases n
  {
    if n == 0 || !CanStep(sh, w) then (sh, w)
    else var (sh', w') := WriterStep(sh, w); Steps(sh', w', n - 1)
  }

  ghost predicate CanSteps(sh: Shared, w: Writer, n: nat)
    decreases n
  {
    n == 0 || (CanStep(sh, w) && var (sh', w') := WriterStep(sh, w); CanSteps(sh', w', n - 1))
  }

  lemma StepsOn(sh: Shared, w: Writer, sh': Shared, w': Writer, n: nat)
    requires CanStep(sh, w) && WriterStep(sh, w) == (sh', w') && CanSteps(sh', w', n)
    ensures CanSteps(sh, w, n + 1) && Steps(sh, w, n + 1) == Steps(sh', w', n)
  {
    hide CanStep, WriterStep;
  }

  lemma NoSteps(sh: Shared, w: Writer)
    ensures CanSteps(sh, w, 0) && Steps(sh, w, 0) == (sh, w)
  {
  }

  function Times(t: nat, n: nat): seq<Action>
  {
    if n == 0 then [] else [Advance(t)] + Times(t, n - 1)
  }

  lemma {:induction false} StepsRun(s: State, t: nat, n: nat)
    requires t in s.calls && s.calls[t].Writing? && CanSteps(s.sh, s.calls[t].w, n)
    ensures var (sh', w') := Steps(s.sh, s.calls[t].w, n);
      Run(s, Times(t, n), s.(sh := sh', calls := s.calls[t := Writing(w')]))
    decreases n
  {
    hide WriterStep, CanStep;
    if n > 0 {
      var s1 := After(s, Advance(t));
      StepsRun(s1, t, n - 1);
      var (sh', w') := Steps(s1.sh, s1.calls[t].w, n - 1);
      assert s1.calls[t := Writing(w')] == s.calls[t := Writing(w')];
      RunCons(s, Advance(t), Times(t, n - 1), s.(sh := sh', calls := s.calls[t := Writing(w')]));
    } else {
      assert s.calls[t := s.calls[t]] == s.calls;
    }
  }

  // From an unclaimed slot with an older event to the publication, step by step.
  lemma FreeSlotIsWritten(sh: Shared, id: nat, payload: Payload, ix: nat)
    requires 1 <= id && |sh.slots| >= 1 && ix == SlotOf(id, |sh.slots|)
    requires !sh.slots[ix].Claimed() && sh.slots[ix].sequence < id
    ensures CanSteps(sh, Loading(id, payload), 6)
    ensures Steps(sh, Loading(id, payload), 6)
         == (sh.(slots := sh.slots[ix := Slot(id, Full(Event(id, payload)))],
                 published := sh.published + 1, log := sh.log[id := payload]), Left(true))
  {
    hide SlotOf, Steps, CanSteps;
    var w1 := Claiming(id, payload, sh.slots[ix].sequence);
    var sh2 := sh.(slots := sh.slots[ix := Slot(id + WRITING_SEQUENCE_BIT, sh.slots[ix].cell)]);
    var sh3 := sh.(slots := sh.slots[ix := Slot(id + WRITING_SEQUENCE_BIT, Torn)]);
    var sh4 := sh.(slots := sh.slots[ix := Slot(id + WRITING_SEQUENCE_BIT, Full(Event(id, payload)))]);
    var sh5 := sh.(slots := sh.slots[ix := Slot(id, Full(Event(id, payload)))], log := sh.log[id := payload]);
    assert sh2.slots[ix := sh3.slots[ix]] == sh3.slots;
    assert sh3.slots[ix := sh4.slots[ix]] == sh4.slots;
    assert sh4.slots[ix := sh5.slots[ix]] == sh5.slots;
    var sh6 := sh5.(published := sh.published + 1);
    NoSteps(sh6, Left(true));
    StepsOn(sh5, Published(id), sh6, Left(true), 0);
    StepsOn(sh4, Publishing(id, payload), sh5, Published(id), 1);
    StepsOn(sh3, HalfCopied(id, payload), sh4, Publishing(id, payload), 2);
    StepsOn(sh2, Copying(id, payload), sh3, HalfCopied(id, payload), 3);
    StepsOn(sh, w1, sh2, Copying(id, payload), 4);
    StepsOn(sh, Loading(id, payload), sh, w1, 5);
  }

  // With no owner about, the slot of the next id is free and holds something older.
  lemma NextSlotIsFree(sh: Shared, ws: Writers)
    requires WritersInv(sh, ws) && forall a :: a in ws ==> !ws[a].Owns()
    ensures |sh.slots| >= 1 && 1 <= sh.nextId && sh.nextId !in sh.log
    ensures !sh.slots[SlotOf(sh.nextId, |sh.slots|)].Claimed()
    ensures sh.slots[SlotOf(sh.nextId, |sh.slots|)].sequence < sh.nextId
  {
    hide SlotOf, CountsInv;
    var ix := SlotOf(sh.nextId, |sh.slots|);
    SlotWord(sh, ws, ix);
    assert Settled(sh, ix);
  }

  lemma FreshIdIsWritten(sh: Shared, ws: Writers, payload: Payload)
    requires WritersInv(sh, ws) && sh.nextId < WRITING_SEQUENCE_BIT && forall a :: a in ws ==> !ws[a].Owns()
    ensures |sh.slots| >= 1 && 1 <= sh.nextId && sh.nextId !in sh.log
    ensures CanSteps(sh, Entering(payload), 7)
    ensures var id := sh.nextId;
      Steps(sh, Entering(payload), 7)
      == (sh.(slots := sh.slots[SlotOf(id, |sh.slots|) := Slot(id, Full(Event(id, payload)))], nextId := id + 1,
              published := sh.published + 1, log := sh.log[id := payload]), Left(true))
  {
    hide SlotOf, Steps, CanSteps, WritersInv;
    NextSlotIsFree(sh, ws);
    var id, sh1 := sh.nextId, sh.(nextId := sh.nextId + 1);
    FreeSlotIsWritten(sh1, id, payload, SlotOf(id, |sh.slots|));
    StepsOn(sh, Entering(payload), sh1, Loading(id, payload), 6);
  }

  /** A call that arrives before the stop bit is set, with room in the count, an id left and no other call
      owning a slot, publishes its event under the next id when it runs undisturbed, and answers yes. */
  lemma UndisturbedCallPublishes(capacity: nat, before: seq<Action>, s: State, t: nat, payload: Payload)
    returns (actions: seq<Action>, s': State)
    requires capacity >= 1 && Run(Initial(capacity), before, s)
    requires t !in s.calls && !Stopping(s) && |s.calls| < WRITER_OVERFLOW_BIT - 1
    requires s.sh.nextId < WRITING_SEQUENCE_BIT
    requires forall u :: u in s.calls && s.calls[u].Writing? ==> !s.calls[u].w.Owns()
    ensures Run(s, [Register(t, payload)] + actions, s')
    ensures s'.calls == s.calls[t := Writing(Left(true))] && Enabled(s', Deregister(t))
    ensures var id := s.sh.nextId;
      && 1 <= id && id !in s.sh.log && |s.sh.slots| == capacity
      && s'.sh == s.sh.(slots := s.sh.slots[SlotOf(id, capacity) := Slot(id, Full(Event(id, payload)))],
                        nextId := id + 1, published := s.sh.published + 1, log := s.sh.log[id := payload])
  {
    hide Inv, WritersInv, LossInv, Run, After, Steps, CanSteps, WritersOf, SlotOf, Stopping, Initial, Enabled, CanStep;
    ReachableWriters(capacity, before, s);
    NobodyOwns(s);
    FreshIdIsWritten(s.sh, WritersOf(s), payload);
    var s1 := Admission(s, t, payload);
    StepsRun(s1, t, 7);
    actions := Times(t, 7);
    var (sh', w') := Steps(s1.sh, s1.calls[t].w, 7);
    s' := s1.(sh := sh', calls := s1.calls[t := Writing(w')]);
    assert s'.calls == s.calls[t := Writing(w')];
    RunCons(s, Register(t, payload), actions, s');
    MayLeave(s', t);
  }

  lemma NobodyOwns(s: State)
    requires !Stopping(s) && forall u :: u in s.calls && s.calls[u].Writing? ==> !s.calls[u].w.Owns()
    ensures forall a :: a in WritersOf(s) ==> !WritersOf(s)[a].Owns()
  {
  }

  lemma Admission(s: State, t: nat, payload: Payload) returns (s': State)
    requires Inv(s) && t !in s.calls && !Stopping(s) && |s.calls| < WRITER_OVERFLOW_BIT - 1
    ensures Enabled(s, Register(t, payload)) && s' == After(s, Register(t, payload))
    ensures s'.sh == s.sh && s'.calls == s.calls[t := Writing(Entering(payload))]
  {
    hide Inv, Accepts, Stopping;
    AdmittedByWord(s, t, payload);
    s' := After(s, Register(t, payload));
  }

  lemma MayLeave(s: State, t: nat)
    requires t in s.calls && s.calls[t] == Writing(Left(true))
    ensures Enabled(s, Deregister(t))
  {
  }
}
