/** What a bounded trace loses (src/frame_trace.rs): without contention, nothing but what newer events
    overwrote. */
module FrameTraceLosses {
  import opened Arithmetic
  import opened FrameTrace
  import opened Sorting

  // ---------------------------------------------------------------------------------------
  // Where every id is
  // ---------------------------------------------------------------------------------------

  /** A newer event was published to the slot of this id. */
  ghost predicate Outdone(sh: Shared, id: nat)
    requires |sh.slots| >= 1 && 1 <= id
  {
    exists newer: nat :: newer in sh.log && newer > id && SlotOf(newer, |sh.slots|) == SlotOf(id, |sh.slots|)
  }

  ghost predicate Held(ws: Writers, id: nat) {
    exists a :: a in ws && ws[a].HasId() && ws[a].id == id
  }

  ghost predicate NoContention(sh: Shared, ws: Writers) {
    sh.contended == 0 && forall a :: a in ws ==> !ws[a].Contended?
  }

  // What a writer on its way out knows of its id.
  ghost predicate OutcomeKnown(sh: Shared, w: Writer)
    requires |sh.slots| >= 1
  {
    && (w.Superseded? ==> 1 <= w.id && Outdone(sh, w.id))
    && (w.Published? ==> w.id in sh.log)
  }

  ghost predicate Accounted(sh: Shared, ws: Writers, id: nat)
    requires |sh.slots| >= 1 && 1 <= id
  {
    id in sh.log || Held(ws, id) || Outdone(sh, id)
  }

  /** Without contention, every id handed out was published, is still held by its writer, or lost its slot to
      a newer event. */
  ghost predicate LossInv(sh: Shared, ws: Writers) {
    && |sh.slots| >= 1
    && (forall a :: a in ws ==> OutcomeKnown(sh, ws[a]))
    && (NoContention(sh, ws) ==> forall id :: 1 <= id < sh.nextId ==> Accounted(sh, ws, id))
  }

  lemma OutdoneStays(sh: Shared, sh': Shared, id: nat)
    requires |sh.slots| >= 1 && |sh'.slots| == |sh.slots| && 1 <= id && Outdone(sh, id)
    requires forall i :: i in sh.log ==> i in sh'.log
    ensures Outdone(sh', id)
  {
  }

  // One step of a writer, as far as ids are concerned.
  lemma StepFacts(sh: Shared, ws: Writers, a: int)
    requires WritersInv(sh, ws) && a in ws && CanStep(sh, ws[a]) && OutcomeKnown(sh, ws[a])
    ensures var (sh', w') := WriterStep(sh, ws[a]);
      && |sh'.slots| == |sh.slots|
      && (forall i :: i in sh.log ==> i in sh'.log)
      && (w'.HasId() && !ws[a].Entering? ==> ws[a].HasId() && w'.id == ws[a].id)
      && (ws[a].Entering? ==> w'.HasId() && w'.id == sh.nextId && sh'.nextId == sh.nextId + 1)
      && (!ws[a].Entering? ==> sh'.nextId == sh.nextId)
      && OutcomeKnown(sh', w')
      && (ws[a].Contended? ==> sh'.contended == sh.contended + 1)
      && (!ws[a].Contended? ==> sh'.contended == sh.contended)
      && (ws[a].HasId() && !w'.HasId() ==> ws[a].Superseded? || ws[a].Published? || ws[a].Contended?)
  {
    hide SlotOf, SlotsInv, OwnersInv, CountsInv;
    if ws[a].Loading? {
      LoadingFacts(sh, ws, a);
    } else if ws[a].Publishing? {
    }
  }

  // A writer that finds its slot taken by a newer id was outdone.
  lemma LoadingFacts(sh: Shared, ws: Writers, a: int)
    requires WritersInv(sh, ws) && a in ws && ws[a].Loading?
    ensures |sh.slots| >= 1 && 1 <= ws[a].id
    ensures var slot := sh.slots[SlotOf(ws[a].id, |sh.slots|)];
      !slot.Claimed() && slot.sequence >= ws[a].id ==> Outdone(sh, ws[a].id)
  {
    hide SlotOf, OwnersInv, CountsInv;
    var ix := SlotOf(ws[a].id, |sh.slots|);
    var slot := sh.slots[ix];
    if !slot.Claimed() && slot.sequence >= ws[a].id {
      assert Settled(sh, ix);
      assert ws[a].Open();
    }
  }

  lemma HeldAfter(ws: Writers, a: int, w': Writer, id: nat)
    requires Held(ws, id)
    ensures Held(ws[a := w'], id) || (a in ws && ws[a].HasId() && ws[a].id == id && !(w'.HasId() && w'.id == id))
  {
    var b :| b in ws && ws[b].HasId() && ws[b].id == id;
    assert b != a ==> ws[a := w'][b] == ws[b];
    assert ws[a := w'][a] == w';
  }

  lemma StepKeepsAccounts(sh: Shared, ws: Writers, a: int, id: nat)
    requires WritersInv(sh, ws) && LossInv(sh, ws) && a in ws && CanStep(sh, ws[a])
    requires !ws[a].Contended?
    requires 1 <= id < sh.nextId && Accounted(sh, ws, id)
    ensures var (sh', w') := WriterStep(sh, ws[a]); |sh'.slots| >= 1 && Accounted(sh', ws[a := w'], id)
  {
    assert OutcomeKnown(sh, ws[a]);
    StepFacts(sh, ws, a);
    hide WritersInv, WriterStep, SlotOf, CanStep, LossInv;
    var (sh', w') := WriterStep(sh, ws[a]);
    if Outdone(sh, id) {
      OutdoneStays(sh, sh', id);
    } else if id !in sh.log {
      HeldAfter(ws, a, w', id);
      hide Held, Outdone;
    }
  }

  lemma StepKeepsLosses(sh: Shared, ws: Writers, a: int)
    requires WritersInv(sh, ws) && LossInv(sh, ws) && a in ws && CanStep(sh, ws[a])
    ensures var (sh', w') := WriterStep(sh, ws[a]); LossInv(sh', ws[a := w'])
  {
    var (sh', w') := WriterStep(sh, ws[a]);
    var ws' := ws[a := w'];
    assert OutcomeKnown(sh, ws[a]);
    StepFacts(sh, ws, a);
    hide WritersInv, WriterStep, SlotOf, CanStep;
    forall b | b in ws' ensures OutcomeKnown(sh', ws'[b]) {
      if b != a {
        assert OutcomeKnown(sh, ws[b]);
        if ws[b].Superseded? { OutdoneStays(sh, sh', ws[b].id); }
      }
    }
    hide OutcomeKnown, Outdone;
    if NoContention(sh', ws') {
      assert ws'[a] == w';
      assert forall b :: b in ws && b != a ==> ws'[b] == ws[b];
      assert NoContention(sh, ws);
      forall id | 1 <= id < sh'.nextId ensures Accounted(sh', ws', id) {
        if id < sh.nextId {
          StepKeepsAccounts(sh, ws, a, id);
        } else {
          assert ws'[a].HasId() && ws'[a].id == id;
        }
      }
    }
  }

  lemma ArrivalKeepsLosses(sh: Shared, ws: Writers, a: int, payload: Payload)
    requires LossInv(sh, ws) && a !in ws
    ensures LossInv(sh, ws[a := Entering(payload)])
  {
    var ws' := ws[a := Entering(payload)];
    hide Outdone;
    if NoContention(sh, ws') {
      assert forall b :: b in ws ==> ws'[b] == ws[b];
      assert NoContention(sh, ws);
      forall id | 1 <= id < sh.nextId ensures Accounted(sh, ws', id) {
        assert Accounted(sh, ws, id);
        if Held(ws, id) { HeldAfter(ws, a, Entering(payload), id); }
      }
    }
  }

  lemma DepartureKeepsLosses(sh: Shared, ws: Writers, a: int)
    requires LossInv(sh, ws) && a in ws && ws[a].Left?
    ensures LossInv(sh, ws - {a})
  {
    var ws' := ws - {a};
    hide Outdone;
    if NoContention(sh, ws') {
      assert forall b :: b in ws && b != a ==> b in ws' && ws'[b] == ws[b];
      assert NoContention(sh, ws);
      forall id | 1 <= id < sh.nextId ensures Accounted(sh, ws', id) {
        assert Accounted(sh, ws, id);
        if Held(ws, id) {
          var b :| b in ws && ws[b].HasId() && ws[b].id == id;
          assert b in ws' && ws'[b] == ws[b];
        }
      }
    }
  }

  // ---------------------------------------------------------------------------------------
  // The whole buffer
  // ---------------------------------------------------------------------------------------

  lemma CallsKeepLosses(s: State, action: Action)
    requires Enabled(s, action) && WritersInv(s.sh, WritersOf(s)) && LossInv(s.sh, WritersOf(s))
    requires action.Register? || action.Advance? || action.Deregister?
    ensures LossInv(After(s, action).sh, WritersOf(After(s, action)))
  {
    hide CallWriters, WritersInv, LossInv, WriterStep, CanStep, HasStop, ActiveBits, Accepts, SortBy;
    var ws, s' := WritersOf(s), After(s, action);
    match action
    case Register(t, payload) =>
      SetCall(s.calls, s.stopper, t, s'.calls[t]);
      if Accepts(s.writerState) {
        ArrivalKeepsLosses(s.sh, ws, t, payload);
      }
    case Advance(t) =>
      SetCall(s.calls, s.stopper, t, s'.calls[t]);
      StepKeepsLosses(s.sh, ws, t);
    case Deregister(t) =>
      RemoveCall(s.calls, s.stopper, t);
      if t in ws {
        DepartureKeepsLosses(s.sh, ws, t);
      } else {
        assert ws - {t as int} == ws;
      }
  }

  lemma StopperKeepsLosses(s: State, action: Action)
    requires Enabled(s, action) && WritersInv(s.sh, WritersOf(s)) && RegistrationInv(s) && LossInv(s.sh, WritersOf(s))
    requires !action.Register? && !action.Advance? && !action.Deregister?
    ensures LossInv(After(s, action).sh, WritersOf(After(s, action)))
  {
    hide CallWriters, WritersInv, LossInv, WriterStep, CanStep, HasStop, ActiveBits, Accepts, SortBy;
    var ws, s' := WritersOf(s), After(s, action);
    SetStopper(s.calls, s.stopper, s'.stopper);
    if action.AdvanceMarker? {
      StepKeepsLosses(s.sh, ws, STOPPER);
    } else if action.LeaveMarker? {
      DepartureKeepsLosses(s.sh, ws, STOPPER);
    } else if action.Poll? && ActiveBits(s.writerState) == 0 {
      ArrivalKeepsLosses(s.sh, ws, STOPPER, TraceStopped);
    } else {
      assert STOPPER !in ws;
      assert ws - {STOPPER} == ws;
    }
  }

  lemma SlotsStay(s: State, action: Action)
    requires Enabled(s, action)
    ensures |After(s, action).sh.slots| == |s.sh.slots|
  {
    hide HasStop, ActiveBits, Accepts, SortBy, SlotOf;
  }

  lemma {:induction false} RunKeepsLosses(s: State, actions: seq<Action>, s': State)
    requires Inv(s) && LossInv(s.sh, WritersOf(s)) && Run(s, actions, s')
    ensures Inv(s') && LossInv(s'.sh, WritersOf(s')) && |s'.sh.slots| == |s.sh.slots|
    decreases |actions|
  {
    hide WritersInv, RegistrationInv, StopperInv, LossInv, Enabled, After, WritersOf;
    if actions != [] {
      var action := actions[0];
      InvKept(s, action);
      SlotsStay(s, action);
      if action.Register? || action.Advance? || action.Deregister? {
        CallsKeepLosses(s, action);
      } else {
        StopperKeepsLosses(s, action);
      }
      RunKeepsLosses(After(s, action), actions[1..], s');
    }
  }

  lemma InitialLosses(capacity: nat)
    requires capacity >= 1
    ensures LossInv(Initial(capacity).sh, WritersOf(Initial(capacity)))
  {
    hide SlotOf;
  }

  // ---------------------------------------------------------------------------------------
  // The snapshot
  // ---------------------------------------------------------------------------------------

  // The oldest id that still has a slot of its own.
  function Oldest(nextId: nat, capacity: nat): nat
    requires nextId >= 1
  {
    if nextId <= capacity then 1 else nextId - capacity
  }

  lemma FarApart(id: nat, other: nat, capacity: nat)
    requires 1 <= id < other && capacity >= 1 && SlotOf(id, capacity) == SlotOf(other, capacity)
    ensures other >= id + capacity
  {
    var q, r := (id - 1) / capacity, (other - 1) / capacity;
    assert id - 1 == q * capacity + (id - 1) % capacity && other - 1 == r * capacity + (other - 1) % capacity;
    assert (r - q) * capacity == other - id;
    Multiples(r - q, capacity);
  }

  lemma Multiples(d: int, n: nat)
    requires n >= 1
    ensures d >= 1 ==> d * n >= n
    ensures d <= 0 ==> d * n <= 0
  {
  }

  lemma SlotOfShift(id: nat, capacity: nat)
    requires 1 <= id && 1 <= capacity
    ensures SlotOf(id + capacity, capacity) == SlotOf(id, capacity)
  {
    var q, r := (id - 1) / capacity, (id - 1) % capacity;
    assert id - 1 == q * capacity + r;
    assert id - 1 + capacity == (q + 1) * capacity + r;
    ModuloIs(id - 1 + capacity, capacity, q + 1, r);
  }

  // With every id published or outdone, the newest events are those of the last ids.
  lemma NewestAreLast(sh: Shared, id: nat)
    requires |sh.slots| >= 1 && sh.nextId >= 1 && (forall i :: i in sh.log ==> 1 <= i < sh.nextId)
    requires forall i :: 1 <= i < sh.nextId ==> i in sh.log || Outdone(sh, i)
    ensures Newest(sh.log, |sh.slots|, id) <==> Oldest(sh.nextId, |sh.slots|) <= id < sh.nextId
  {
    var capacity := |sh.slots|;
    if Oldest(sh.nextId, capacity) <= id < sh.nextId {
      forall other | other in sh.log && other > id && SlotOf(other, capacity) == SlotOf(id, capacity) ensures false {
        FarApart(id, other, capacity);
      }
    } else if 1 <= id < sh.nextId {
      LaterIsKept(sh, id);
    }
  }

  lemma {:induction false} LaterIsKept(sh: Shared, id: nat)
    requires |sh.slots| >= 1 && sh.nextId >= 1 && (forall i :: i in sh.log ==> 1 <= i < sh.nextId)
    requires forall i :: 1 <= i < sh.nextId ==> i in sh.log || Outdone(sh, i)
    requires 1 <= id && id + |sh.slots| < sh.nextId
    ensures exists other :: other in sh.log && other > id && SlotOf(other, |sh.slots|) == SlotOf(id, |sh.slots|)
  {
    var next := id + |sh.slots|;
    SlotOfShift(id, |sh.slots|);
    hide SlotOf;
    if next !in sh.log {
      var newer: nat :| newer in sh.log && newer > next && SlotOf(newer, |sh.slots|) == SlotOf(next, |sh.slots|);
      assert newer > id;
    }
  }

  ghost predicate HasEvent(cells: seq<Cell>, id: nat) {
    exists i :: 0 <= i < |cells| && cells[i].Full? && cells[i].event.id == id
  }

  // Ascending events with exactly the ids of an interval are those of the interval, one by one.
  lemma {:induction false} IntervalInOrder(cells: seq<Cell>, lo: nat, hi: nat)
    requires Increasing(cells) && lo <= hi
    requires forall i :: 0 <= i < |cells| ==> lo <= cells[i].event.id < hi
    requires forall id: nat :: lo <= id < hi ==> HasEvent(cells, id)
    ensures |cells| == hi - lo
    ensures forall i :: 0 <= i < |cells| ==> cells[i].event.id == lo + i
    decreases hi
  {
    assert |cells| == 0 || lo <= cells[0].event.id < hi;
    if lo < hi {
      assert HasEvent(cells, hi - 1);
      var last := |cells| - 1;
      var k :| 0 <= k <= last && cells[k].event.id == hi - 1;
      assert k == last;
      forall id: nat | lo <= id < hi - 1 ensures HasEvent(cells[..last], id) {
        assert HasEvent(cells, id);
        var i :| 0 <= i <= last && cells[i].event.id == id;
        assert cells[..last][i].event.id == id;
      }
      IntervalInOrder(cells[..last], lo, hi - 1);
    }
  }

  /** If no writer found its slot taken by another one at work, the snapshot holds the last ids handed out,
      one by one, as many as there are slots. */
  lemma WithoutContentionTheLastAreKept(capacity: nat, actions: seq<Action>, s: State)
    requires capacity >= 1 && Run(Initial(capacity), actions, s) && s.stopper.Done?
    requires s.stopper.snapshot.contended == 0
    ensures s.sh.nextId >= 1
    ensures var events, oldest := s.stopper.snapshot.events, Oldest(s.sh.nextId, capacity);
      && |events| == s.sh.nextId - oldest
      && forall i :: 0 <= i < |events| ==>
           |s.sh.slots| >= 1 && IsNewestCell(s.sh, events[i]) && events[i].event.id == oldest + i
  {
    hide *;
    InitialInv(capacity);
    InitialLosses(capacity);
    RunKeepsLosses(Initial(capacity), actions, s);
    InitialSlots(capacity);
    SnapshotIsExact(capacity, actions, s);
    EverythingAccounted(s);
    KeptInterval(s.sh, s.stopper.snapshot.events);
  }

  lemma InitialSlots(capacity: nat)
    ensures |Initial(capacity).sh.slots| == capacity
  {
  }

  lemma EverythingAccounted(s: State)
    requires Inv(s) && LossInv(s.sh, WritersOf(s)) && s.stopper.Done? && s.stopper.snapshot.contended == 0
    ensures |s.sh.slots| >= 1 && s.sh.nextId >= 1
    ensures forall i :: i in s.sh.log ==> 1 <= i < s.sh.nextId
    ensures forall id :: 1 <= id < s.sh.nextId ==> id in s.sh.log || Outdone(s.sh, id)
  {
    DoneIsQuiet(s);
    hide WritersInv, RegistrationInv, StopperInv, Outdone, CallWriters;
    NoWritersLeft(s);
    forall id | 1 <= id < s.sh.nextId ensures id in s.sh.log || Outdone(s.sh, id) {
      assert Accounted(s.sh, WritersOf(s), id);
    }
  }

  lemma NoWritersLeft(s: State)
    requires Inv(s) && s.stopper.Done?
    ensures WritersOf(s) == map[]
  {
    hide WritersInv, StopperInv;
    OnlyTheMarker(s);
  }

  lemma KeptInterval(sh: Shared, events: seq<Cell>)
    requires |sh.slots| >= 1 && sh.nextId >= 1 && (forall i :: i in sh.log ==> 1 <= i < sh.nextId)
    requires forall i :: 1 <= i < sh.nextId ==> i in sh.log || Outdone(sh, i)
    requires Increasing(events) && forall c :: c in events <==> IsNewestCell(sh, c)
    ensures var oldest := Oldest(sh.nextId, |sh.slots|);
      && |events| == sh.nextId - oldest
      && forall i :: 0 <= i < |events| ==> IsNewestCell(sh, events[i]) && events[i].event.id == oldest + i
  {
    hide SlotOf, Outdone, Newest;
    var oldest := Oldest(sh.nextId, |sh.slots|);
    forall id: nat | oldest <= id < sh.nextId ensures HasEvent(events, id) {
      NewestAreLast(sh, id);
      NewestIsLogged(sh, id);
      assert Full(Event(id, sh.log[id])) in events;
    }
    forall i | 0 <= i < |events| ensures oldest <= events[i].event.id < sh.nextId {
      assert events[i] in events;
      NewestAreLast(sh, events[i].event.id);
    }
    IntervalInOrder(events, oldest, sh.nextId);
    forall i | 0 <= i < |events| ensures IsNewestCell(sh, events[i]) {
      assert events[i] in events;
    }
  }

  lemma NewestIsLogged(sh: Shared, id: nat)
    requires |sh.slots| >= 1 && Newest(sh.log, |sh.slots|, id)
    ensures 1 <= id && id in sh.log
  {
  }
}
