/** The lock-free bounded trace (src/frame_trace.rs) as a state machine.

    Every step is one atomic access of the source, or one read of an event by the stopper, who is then
    alone; the copy of an event into its slot, which is not atomic, is two steps with a torn value in
    between. Any number of threads may have a `record` call
    in flight. The integers are those of a 64-bit target. */
module FrameTrace {
  import opened Sorting

  const WRITING_SEQUENCE_BIT: nat := 0x8000_0000_0000_0000
  const WRITER_STOP_BIT: nat := 0x8000_0000_0000_0000
  const WRITER_OVERFLOW_BIT: nat := 0x4000_0000_0000_0000
  const WORD: nat := 0x1_0000_0000_0000_0000

  datatype Payload = TraceStopped | Recorded(tag: int)

  datatype Event = Event(id: nat, payload: Payload)

  // What the memory of a slot holds; `Torn` while an event is being copied in.
  datatype Cell = Uninit | Torn | Full(event: Event)

  datatype Slot = Slot(sequence: nat, cell: Cell) {
    predicate Claimed() {
      sequence >= WRITING_SEQUENCE_BIT
    }
  }

  // Where one call of `write_registered` is.
  datatype Writer =
    | Entering(payload: Payload)                          // before taking a sequence id
    | Loading(id: nat, payload: Payload)                  // before reading the slot's sequence
    | Claiming(id: nat, payload: Payload, previous: nat)  // before the compare-exchange
    | Copying(id: nat, payload: Payload)                  // owns the slot, nothing copied yet
    | HalfCopied(id: nat, payload: Payload)               // owns the slot, event half copied
    | Publishing(id: nat, payload: Payload)               // owns the slot, event copied
    | Published(id: nat)                                  // before counting the publication
    | Superseded(id: nat)                                 // before counting the loss to a newer writer
    | Contended(id: nat)                                  // before counting the loss to an owner
    | Left(published: bool)
  {
    predicate HasId() {
      !Entering? && !Left?
    }

    predicate Owns() {
      Copying? || HalfCopied? || Publishing?
    }

    // The id is taken and not published.
    predicate Open() {
      HasId() && !Published?
    }
  }

  // The shared words of the buffer. `log` is a history variable: what was ever published.
  datatype Shared = Shared(slots: seq<Slot>, nextId: nat, published: nat, superseded: nat, contended: nat,
                           log: map<nat, Payload>)

  function SlotOf(id: nat, capacity: nat): (ix: nat)
    requires 1 <= id && 1 <= capacity
    ensures ix < capacity
  {
    (id - 1) % capacity
  }

  ghost predicate CanStep(sh: Shared, w: Writer) {
    && |sh.slots| >= 1 && !w.Left?
    && (w.HasId() ==> 1 <= w.id)
    && (w.Entering? ==> sh.nextId < WRITING_SEQUENCE_BIT)
  }

  /** One atomic step of `write_registered`. */
  function WriterStep(sh: Shared, w: Writer): (Shared, Writer)
    requires |sh.slots| >= 1 && (w.HasId() ==> 1 <= w.id)
  {
    var capacity := |sh.slots|;
    match w
    case Entering(payload) =>
      (sh.(nextId := sh.nextId + 1), Loading(sh.nextId, payload))
    case Loading(id, payload) =>
      var slot := sh.slots[SlotOf(id, capacity)];
      if slot.Claimed() then (sh, Contended(id))
      else if slot.sequence >= id then (sh, Superseded(id))
      else (sh, Claiming(id, payload, slot.sequence))
    case Claiming(id, payload, previous) =>
      var ix := SlotOf(id, capacity);
      if sh.slots[ix].sequence == previous
      then (sh.(slots := sh.slots[ix := Slot(id + WRITING_SEQUENCE_BIT, sh.slots[ix].cell)]), Copying(id, payload))
      else (sh, Contended(id))
    case Copying(id, payload) =>
      var ix := SlotOf(id, capacity);
      (sh.(slots := sh.slots[ix := Slot(sh.slots[ix].sequence, Torn)]), HalfCopied(id, payload))
    case HalfCopied(id, payload) =>
      var ix := SlotOf(id, capacity);
      (sh.(slots := sh.slots[ix := Slot(sh.slots[ix].sequence, Full(Event(id, payload)))]), Publishing(id, payload))
    case Publishing(id, payload) =>
      var ix := SlotOf(id, capacity);
      (sh.(slots := sh.slots[ix := Slot(id, sh.slots[ix].cell)], log := sh.log[id := payload]), Published(id))
    case Published(id) => (sh.(published := sh.published + 1), Left(true))
    case Superseded(id) => (sh.(superseded := sh.superseded + 1), Left(false))
    case Contended(id) => (sh.(contended := sh.contended + 1), Left(false))
    case Left(_) => (sh, w)
  }

  // ---------------------------------------------------------------------------------------
  // The writers among themselves
  // ---------------------------------------------------------------------------------------

  // The calls of `write_registered` in progress, by caller; the stopper writes its marker too.
  const STOPPER: int := -1

  type Writers = map<int, Writer>

  /** Ids are handed out once. */
  ghost predicate IdsInv(sh: Shared, ws: Writers) {
    && |sh.slots| >= 1 && 1 <= sh.nextId <= WRITING_SEQUENCE_BIT
    && (forall a :: a in ws && ws[a].HasId() ==> 1 <= ws[a].id < sh.nextId)
    && (forall a, b :: a in ws && b in ws && a != b && ws[a].HasId() && ws[b].HasId() ==> ws[a].id != ws[b].id)
    && (forall id :: id in sh.log ==> 1 <= id < sh.nextId)
    && (forall a :: a in ws && ws[a].Open() ==> ws[a].id !in sh.log)
  }

  /** A slot that is not claimed holds the newest event ever published there, whole. */
  ghost predicate Settled(sh: Shared, ix: nat)
    requires ix < |sh.slots|
  {
    var slot := sh.slots[ix];
    && (slot.sequence != 0 ==>
          && slot.sequence in sh.log
          && SlotOf(slot.sequence, |sh.slots|) == ix
          && slot.cell == Full(Event(slot.sequence, sh.log[slot.sequence])))
    && forall id :: id in sh.log && 1 <= id && SlotOf(id, |sh.slots|) == ix ==> id <= slot.sequence
  }

  ghost predicate SlotsInv(sh: Shared) {
    && |sh.slots| >= 1
    && (forall id :: id in sh.log ==> 1 <= id)
    && (forall ix :: 0 <= ix < |sh.slots| && !sh.slots[ix].Claimed() ==> Settled(sh, ix))
    && (forall ix, id :: 0 <= ix < |sh.slots| && sh.slots[ix].Claimed() && id in sh.log && SlotOf(id, |sh.slots|) == ix
          ==> id + WRITING_SEQUENCE_BIT < sh.slots[ix].sequence)
  }

  /** A writer that owns its slot has its own id, marked, in it; and every claimed slot has an owner. */
  ghost predicate OwnersInv(sh: Shared, ws: Writers) {
    && |sh.slots| >= 1
    && (forall a :: a in ws ==> OwnerFacts(sh, ws, a))
    && (forall ix :: 0 <= ix < |sh.slots| && sh.slots[ix].Claimed() ==> HasOwner(sh, ws, ix))
  }

  ghost predicate OwnerFacts(sh: Shared, ws: Writers, a: int)
    requires |sh.slots| >= 1 && a in ws
  {
    && (ws[a].Owns() ==>
          && 1 <= ws[a].id
          && sh.slots[SlotOf(ws[a].id, |sh.slots|)].sequence == ws[a].id + WRITING_SEQUENCE_BIT)
    && (ws[a].Publishing? ==>
          sh.slots[SlotOf(ws[a].id, |sh.slots|)].cell == Full(Event(ws[a].id, ws[a].payload)))
    && (ws[a].Claiming? ==> ws[a].previous < ws[a].id && ws[a].previous < WRITING_SEQUENCE_BIT)
  }

  ghost predicate HasOwner(sh: Shared, ws: Writers, ix: nat)
    requires ix < |sh.slots|
  {
    exists a :: a in ws && ws[a].Owns() && 1 <= ws[a].id && SlotOf(ws[a].id, |sh.slots|) == ix
  }

  ghost function Pending(ws: Writers): set<int> {
    set a | a in ws && ws[a].HasId()
  }

  ghost function Uncounted(ws: Writers): set<int> {
    set a | a in ws && ws[a].Published?
  }

  /** Every id handed out is accounted for. */
  ghost predicate CountsInv(sh: Shared, ws: Writers) {
    && sh.nextId == 1 + sh.published + sh.superseded + sh.contended + |Pending(ws)|
    && |sh.log| == sh.published + |Uncounted(ws)|
  }

  ghost predicate WritersInv(sh: Shared, ws: Writers) {
    IdsInv(sh, ws) && SlotsInv(sh) && OwnersInv(sh, ws) && CountsInv(sh, ws)
  }

  lemma StepKeepsIds(sh: Shared, ws: Writers, a: int)
    requires IdsInv(sh, ws) && a in ws && CanStep(sh, ws[a])
    ensures var (sh', w') := WriterStep(sh, ws[a]); IdsInv(sh', ws[a := w'])
  {
    hide SlotOf;
  }

  lemma StepKeepsSlots(sh: Shared, ws: Writers, a: int)
    requires IdsInv(sh, ws) && SlotsInv(sh) && OwnersInv(sh, ws) && a in ws && CanStep(sh, ws[a])
    ensures SlotsInv(WriterStep(sh, ws[a]).0)
  {
    if ws[a].Claiming? {
      ClaimKeepsSlots(sh, ws, a);
    } else if ws[a].Publishing? {
      PublishKeepsSlots(sh, ws, a);
    } else {
      hide SlotOf;
    }
  }

  lemma ClaimKeepsSlots(sh: Shared, ws: Writers, a: int)
    requires IdsInv(sh, ws) && SlotsInv(sh) && OwnersInv(sh, ws) && a in ws && ws[a].Claiming?
    ensures SlotsInv(WriterStep(sh, ws[a]).0)
  {
    assert OwnerFacts(sh, ws, a) && ws[a].HasId();
    hide SlotOf, CountsInv, OwnersInv, IdsInv;
  }

  lemma PublishKeepsSlots(sh: Shared, ws: Writers, a: int)
    requires IdsInv(sh, ws) && SlotsInv(sh) && OwnersInv(sh, ws) && a in ws && ws[a].Publishing?
    ensures SlotsInv(WriterStep(sh, ws[a]).0)
  {
    assert OwnerFacts(sh, ws, a) && ws[a].HasId() && ws[a].Owns();
    hide SlotOf, CountsInv, OwnersInv, IdsInv;
  }

  // Two owners never share a slot.
  lemma OwnersApart(sh: Shared, ws: Writers, a: int, b: int)
    requires IdsInv(sh, ws) && OwnersInv(sh, ws)
    requires a in ws && b in ws && a != b && ws[a].Owns() && ws[b].Owns()
    ensures SlotOf(ws[a].id, |sh.slots|) != SlotOf(ws[b].id, |sh.slots|)
  {
    hide SlotOf;
  }

  lemma StepKeepsOwned(sh: Shared, ws: Writers, a: int, b: int)
    requires IdsInv(sh, ws) && SlotsInv(sh) && OwnersInv(sh, ws) && a in ws && CanStep(sh, ws[a]) && b in ws
    ensures var (sh', w') := WriterStep(sh, ws[a]);
            var ws' := ws[a := w'];
      OwnerFacts(sh', ws', b)
  {
    if a != b && ws[a].Owns() && ws[b].Owns() {
      OwnersApart(sh, ws, a, b);
    }
    hide SlotOf, SlotsInv;
  }

  lemma StepKeepsHasOwner(sh: Shared, ws: Writers, a: int, ix: nat)
    requires IdsInv(sh, ws) && OwnersInv(sh, ws) && a in ws && CanStep(sh, ws[a]) && ix < |sh.slots|
    requires WriterStep(sh, ws[a]).0.slots[ix].Claimed()
    ensures var (sh', w') := WriterStep(sh, ws[a]); HasOwner(sh', ws[a := w'], ix)
  {
    var (sh', w') := WriterStep(sh, ws[a]);
    hide SlotOf;
    if sh.slots[ix].Claimed() {
      var b :| b in ws && ws[b].Owns() && 1 <= ws[b].id && SlotOf(ws[b].id, |sh.slots|) == ix;
      assert ws[a := w'][b].Owns();
    } else {
      assert ws[a := w'][a].Owns();
    }
  }

  lemma StepKeepsOwners(sh: Shared, ws: Writers, a: int)
    requires IdsInv(sh, ws) && SlotsInv(sh) && OwnersInv(sh, ws) && a in ws && CanStep(sh, ws[a])
    ensures var (sh', w') := WriterStep(sh, ws[a]); OwnersInv(sh', ws[a := w'])
  {
    var (sh', w') := WriterStep(sh, ws[a]);
    forall b | b in ws
      ensures OwnerFacts(sh', ws[a := w'], b)
    {
      StepKeepsOwned(sh, ws, a, b);
    }
    forall ix | 0 <= ix < |sh'.slots| && sh'.slots[ix].Claimed()
      ensures HasOwner(sh', ws[a := w'], ix)
    {
      StepKeepsHasOwner(sh, ws, a, ix);
    }
    hide WriterStep, SlotOf, HasOwner;
  }

  lemma StepKeepsCounts(sh: Shared, ws: Writers, a: int)
    requires IdsInv(sh, ws) && CountsInv(sh, ws) && a in ws && CanStep(sh, ws[a])
    ensures var (sh', w') := WriterStep(sh, ws[a]); CountsInv(sh', ws[a := w'])
  {
    var w' := WriterStep(sh, ws[a]).1;
    PendingAfter(ws, a, w');
    UncountedAfter(ws, a, w');
    CountersMove(sh, ws[a]);
    LogGrows(sh, ws, a);
    hide WriterStep, Pending, Uncounted, IdsInv, CanStep;
  }

  // How one step moves the counters.
  lemma CountersMove(sh: Shared, w: Writer)
    requires CanStep(sh, w)
    ensures var (sh', w') := WriterStep(sh, w);
            var held, holds := if w.HasId() then 1 else 0, if w'.HasId() then 1 else 0;
      && sh'.nextId - sh'.published - sh'.superseded - sh'.contended - holds
         == sh.nextId - sh.published - sh.superseded - sh.contended - held
      && sh'.published == sh.published + (if w.Published? then 1 else 0)
      && (w'.Published? <==> w.Publishing?)
  {
    hide SlotOf;
  }

  lemma LogMoves(sh: Shared, w: Writer)
    requires CanStep(sh, w)
    ensures WriterStep(sh, w).0.log == if w.Publishing? then sh.log[w.id := w.payload] else sh.log
  {
    hide SlotOf;
  }

  lemma LogGrows(sh: Shared, ws: Writers, a: int)
    requires IdsInv(sh, ws) && a in ws && CanStep(sh, ws[a])
    ensures |WriterStep(sh, ws[a]).0.log| == |sh.log| + (if ws[a].Publishing? then 1 else 0)
  {
    LogMoves(sh, ws[a]);
    if ws[a].Publishing? {
      assert ws[a].Open() && ws[a].id !in sh.log;
      hide IdsInv, WriterStep, CanStep;
      assert WriterStep(sh, ws[a]).0.log.Keys == sh.log.Keys + {ws[a].id};
    }
  }

  lemma PendingAfter(ws: Writers, a: int, w': Writer)
    ensures var was, now := a in ws && ws[a].HasId(), w'.HasId();
      |Pending(ws[a := w'])| == |Pending(ws)| + (if now then 1 else 0) - (if was then 1 else 0)
  {
    assert Pending(ws[a := w']) == if w'.HasId() then Pending(ws) + {a} else Pending(ws) - {a};
  }

  lemma UncountedAfter(ws: Writers, a: int, w': Writer)
    ensures var was, now := a in ws && ws[a].Published?, w'.Published?;
      |Uncounted(ws[a := w'])| == |Uncounted(ws)| + (if now then 1 else 0) - (if was then 1 else 0)
  {
    assert Uncounted(ws[a := w']) == if w'.Published? then Uncounted(ws) + {a} else Uncounted(ws) - {a};
  }

  lemma StepKeepsWriters(sh: Shared, ws: Writers, a: int)
    requires WritersInv(sh, ws) && a in ws && CanStep(sh, ws[a])
    ensures var (sh', w') := WriterStep(sh, ws[a]); WritersInv(sh', ws[a := w'])
  {
    hide IdsInv, SlotsInv, OwnersInv, CountsInv, WriterStep;
    StepKeepsIds(sh, ws, a);
    StepKeepsSlots(sh, ws, a);
    StepKeepsOwners(sh, ws, a);
    StepKeepsCounts(sh, ws, a);
  }

  lemma ArrivalKeepsWriters(sh: Shared, ws: Writers, a: int, payload: Payload)
    requires WritersInv(sh, ws) && a !in ws
    ensures WritersInv(sh, ws[a := Entering(payload)])
  {
    var ws' := ws[a := Entering(payload)];
    hide SlotOf, SlotsInv;
    PendingAfter(ws, a, Entering(payload));
    UncountedAfter(ws, a, Entering(payload));
    hide Pending, Uncounted;
    forall b | b in ws' ensures OwnerFacts(sh, ws', b) {
      if b != a {
        assert OwnerFacts(sh, ws, b);
      }
    }
    forall ix | 0 <= ix < |sh.slots| && sh.slots[ix].Claimed() ensures HasOwner(sh, ws', ix) {
      var b :| b in ws && ws[b].Owns() && 1 <= ws[b].id && SlotOf(ws[b].id, |sh.slots|) == ix;
      assert ws'[b].Owns();
    }
  }

  lemma DepartureKeepsWriters(sh: Shared, ws: Writers, a: int)
    requires WritersInv(sh, ws) && a in ws && ws[a].Left?
    ensures WritersInv(sh, ws - {a})
  {
    var ws' := ws - {a};
    hide SlotOf, SlotsInv;
    assert Pending(ws') == Pending(ws) && Uncounted(ws') == Uncounted(ws);
    hide Pending, Uncounted;
    forall b | b in ws' ensures OwnerFacts(sh, ws', b) {
      assert OwnerFacts(sh, ws, b);
    }
    forall ix | 0 <= ix < |sh.slots| && sh.slots[ix].Claimed() ensures HasOwner(sh, ws', ix) {
      var b :| b in ws && ws[b].Owns() && 1 <= ws[b].id && SlotOf(ws[b].id, |sh.slots|) == ix;
      assert ws'[b].Owns();
    }
  }

  // ---------------------------------------------------------------------------------------
  // The whole buffer
  // ---------------------------------------------------------------------------------------

  predicate HasStop(word: nat) {
    word / WRITER_STOP_BIT % 2 == 1
  }

  predicate HasOverflow(word: nat) {
    word / WRITER_OVERFLOW_BIT % 2 == 1
  }

  // The low 62 bits, and the low 63 bits that count every call in flight.
  function CountBits(word: nat): nat {
    word % WRITER_OVERFLOW_BIT
  }

  function ActiveBits(word: nat): nat {
    word % WRITER_STOP_BIT
  }

  // A `record` call in flight: turned away and about to deregister, or inside `write_registered`
  // (or, once `Left`, about to deregister).
  datatype Call = Rejecting | Writing(w: Writer)

  // `stop_and_snapshot`. The events read are memory cells, so that a torn read would show.
  datatype Snapshot = Snapshot(overwritten: nat, superseded: nat, contended: nat, events: seq<Cell>)

  datatype Stopper =
    | Idle
    | SettingStop
    | Draining
    | Marking(w: Writer)
    | ReadingCount
    | Scanning(publishedEvents: nat, next: nat, read: seq<Cell>)      // before reading a slot's sequence
    | ReadingEvent(publishedEvents: nat, next: nat, read: seq<Cell>)  // before reading its event
    | Counting(publishedEvents: nat, read: seq<Cell>)                 // before reading the superseded count
    | Counted(publishedEvents: nat, superseded: nat, read: seq<Cell>) // before reading the contended count
    | Done(snapshot: Snapshot)

  datatype State = State(sh: Shared, writerState: nat, calls: map<nat, Call>, snapshotClaimed: bool, stopper: Stopper)

  datatype Action =
    | Register(t: nat, payload: Payload)
    | Advance(t: nat)
    | Deregister(t: nat)
    | ClaimSnapshot
    | SetStop
    | Poll
    | AdvanceMarker
    | LeaveMarker
    | ReadCount
    | ReadSequence
    | ReadEvent
    | EndScan
    | ReadSuperseded
    | Assemble

  function Initial(capacity: nat): State {
    State(Shared(seq(capacity, _ => Slot(0, Uninit)), 1, 0, 0, 0, map[]), 0, map[], false, Idle)
  }

  // Fewer than 2^63 calls in flight, and sequence ids below 2^63.
  ghost predicate Enabled(s: State, action: Action) {
    match action
    case Register(t, _) => t !in s.calls && |s.calls| + 1 < WRITER_STOP_BIT
    case Advance(t) => t in s.calls && s.calls[t].Writing? && CanStep(s.sh, s.calls[t].w)
    case Deregister(t) => t in s.calls && (s.calls[t].Writing? ==> s.calls[t].w.Left?)
    case ClaimSnapshot => !s.snapshotClaimed
    case SetStop => s.stopper.SettingStop?
    case Poll => s.stopper.Draining?
    case AdvanceMarker => s.stopper.Marking? && CanStep(s.sh, s.stopper.w)
    case LeaveMarker => s.stopper.Marking? && s.stopper.w.Left?
    case ReadCount => s.stopper.ReadingCount?
    case ReadSequence => s.stopper.Scanning? && s.stopper.next < |s.sh.slots|
    case ReadEvent => s.stopper.ReadingEvent? && s.stopper.next < |s.sh.slots|
    case EndScan => s.stopper.Scanning? && s.stopper.next >= |s.sh.slots|
    case ReadSuperseded => s.stopper.Counting?
    case Assemble => s.stopper.Counted?
  }

  function Accepts(previous: nat): bool {
    !(HasStop(previous) || HasOverflow(previous) || CountBits(previous) == WRITER_OVERFLOW_BIT - 1)
  }

  // The slot was never published to, as its sequence without the mark says.
  predicate NeverUsed(slot: Slot) {
    slot.sequence % WRITING_SEQUENCE_BIT == 0
  }

  function ReadCell(slot: Slot): seq<Cell> {
    if NeverUsed(slot) then [] else [slot.cell]
  }

  function EventKey(cell: Cell): Key {
    Key(if cell.Full? then cell.event.id else 0, 0)
  }

  function Saturating(a: nat, b: nat): nat {
    if a < b then 0 else a - b
  }

  ghost function After(s: State, action: Action): State
    requires Enabled(s, action)
  {
    match action
    case Register(t, payload) =>
      s.(writerState := (s.writerState + 1) % WORD,
         calls := s.calls[t := if Accepts(s.writerState) then Writing(Entering(payload)) else Rejecting])
    case Advance(t) =>
      var (sh', w') := WriterStep(s.sh, s.calls[t].w);
      s.(sh := sh', calls := s.calls[t := Writing(w')])
    case Deregister(t) =>
      s.(writerState := (s.writerState + WORD - 1) % WORD, calls := s.calls - {t})
    case ClaimSnapshot => s.(snapshotClaimed := true, stopper := SettingStop)
    case SetStop =>
      s.(writerState := if HasStop(s.writerState) then s.writerState else s.writerState + WRITER_STOP_BIT,
         stopper := Draining)
    case Poll =>
      if ActiveBits(s.writerState) != 0 then s else s.(stopper := Marking(Entering(TraceStopped)))
    case AdvanceMarker =>
      var (sh', w') := WriterStep(s.sh, s.stopper.w);
      s.(sh := sh', stopper := Marking(w'))
    case LeaveMarker => s.(stopper := ReadingCount)
    case ReadCount => s.(stopper := Scanning(s.sh.published, 0, []))
    case ReadSequence =>
      var Scanning(publishedEvents, next, read) := s.stopper;
      s.(stopper := if NeverUsed(s.sh.slots[next]) then Scanning(publishedEvents, next + 1, read)
                    else ReadingEvent(publishedEvents, next, read))
    case ReadEvent =>
      var ReadingEvent(publishedEvents, next, read) := s.stopper;
      s.(stopper := Scanning(publishedEvents, next + 1, read + [s.sh.slots[next].cell]))
    case EndScan =>
      var Scanning(publishedEvents, _, read) := s.stopper;
      s.(stopper := Counting(publishedEvents, SortBy(read, EventKey)))
    case ReadSuperseded =>
      var Counting(publishedEvents, read) := s.stopper;
      s.(stopper := Counted(publishedEvents, s.sh.superseded, read))
    case Assemble =>
      var Counted(publishedEvents, superseded, read) := s.stopper;
      s.(stopper := Done(Snapshot(Saturating(publishedEvents, |read|), superseded, s.sh.contended, read)))
  }

  // ---------------------------------------------------------------------------------------
  // The invariant
  // ---------------------------------------------------------------------------------------

  ghost function CallWriters(calls: map<nat, Call>, stopper: Stopper): Writers {
    map a: int | a in calls.Keys + {STOPPER} && (if a == STOPPER then stopper.Marking? else calls[a].Writing?)
      :: if a == STOPPER then stopper.w else calls[a].w
  }

  ghost function WritersOf(s: State): Writers {
    CallWriters(s.calls, s.stopper)
  }

  /** The stopper has set the stop bit. */
  predicate Stopping(s: State) {
    !s.stopper.Idle? && !s.stopper.SettingStop?
  }

  /** The stopper has seen the active count at zero. */
  predicate Drained(s: State) {
    Stopping(s) && !s.stopper.Draining?
  }

  ghost predicate RegistrationInv(s: State) {
    && |s.calls| < WRITER_STOP_BIT
    && s.writerState == (if Stopping(s) then WRITER_STOP_BIT else 0) + |s.calls|
    && s.snapshotClaimed == !s.stopper.Idle?
    && (Drained(s) ==> forall t :: t in s.calls ==> s.calls[t].Rejecting?)
  }

  /** The stop marker has been published, and no id after it was handed out. */
  ghost predicate MarkerInPlace(sh: Shared) {
    && sh.nextId >= 2
    && sh.nextId - 1 in sh.log
    && sh.log[sh.nextId - 1] == TraceStopped
  }

  // With every other writer gone, the marker's writer cannot lose its slot.
  ghost predicate MarkerInv(sh: Shared, w: Writer) {
    match w
    case Entering(payload) => payload == TraceStopped
    case Loading(id, payload) => id == sh.nextId - 1 && payload == TraceStopped
    case Claiming(id, payload, previous) =>
      && id == sh.nextId - 1 && payload == TraceStopped
      && 1 <= id && 1 <= |sh.slots| && sh.slots[SlotOf(id, |sh.slots|)].sequence == previous
    case Copying(id, payload) => id == sh.nextId - 1 && payload == TraceStopped
    case HalfCopied(id, payload) => id == sh.nextId - 1 && payload == TraceStopped
    case Publishing(id, payload) => id == sh.nextId - 1 && payload == TraceStopped
    case Published(id) => MarkerInPlace(sh)
    case Superseded(_) => false
    case Contended(_) => false
    case Left(published) => published && MarkerInPlace(sh)
  }

  function Kept(slots: seq<Slot>): seq<Cell> {
    if slots == [] then [] else Kept(slots[..|slots| - 1]) + ReadCell(slots[|slots| - 1])
  }

  ghost predicate StopperInv(s: State) {
    match s.stopper
    case Marking(w) => MarkerInv(s.sh, w)
    case ReadingCount => MarkerInPlace(s.sh)
    case Scanning(publishedEvents, next, read) =>
      && MarkerInPlace(s.sh) && publishedEvents == s.sh.published
      && next <= |s.sh.slots| && read == Kept(s.sh.slots[..next])
    case ReadingEvent(publishedEvents, next, read) =>
      && MarkerInPlace(s.sh) && publishedEvents == s.sh.published
      && next < |s.sh.slots| && read == Kept(s.sh.slots[..next]) && !NeverUsed(s.sh.slots[next])
    case Counting(publishedEvents, read) =>
      && MarkerInPlace(s.sh) && publishedEvents == s.sh.published
      && read == SortBy(Kept(s.sh.slots), EventKey) && |read| == |Kept(s.sh.slots)|
    case Counted(publishedEvents, superseded, read) =>
      && MarkerInPlace(s.sh) && publishedEvents == s.sh.published && superseded == s.sh.superseded
      && read == SortBy(Kept(s.sh.slots), EventKey) && |read| == |Kept(s.sh.slots)|
    case Done(snapshot) => MarkerInPlace(s.sh) && snapshot == SnapshotOf(s.sh)
    case _ => true
  }

  function SnapshotOf(sh: Shared): Snapshot {
    Snapshot(Saturating(sh.published, |Kept(sh.slots)|), sh.superseded, sh.contended, SortBy(Kept(sh.slots), EventKey))
  }

  ghost predicate Inv(s: State) {
    WritersInv(s.sh, WritersOf(s)) && RegistrationInv(s) && StopperInv(s)
  }

  lemma InitialInv(capacity: nat)
    requires capacity >= 1
    ensures Inv(Initial(capacity))
  {
    var s := Initial(capacity);
    assert WritersOf(s) == map[];
    assert Pending(map[]) == {} && Uncounted(map[]) == {};
    hide SlotOf;
    forall ix | 0 <= ix < |s.sh.slots| ensures !s.sh.slots[ix].Claimed() && Settled(s.sh, ix) {
    }
  }

  // The registration word on its own: a stop bit and a count of calls in flight.
  lemma RegistrationWord(stopping: bool, n: nat)
    requires n < WRITER_STOP_BIT
    ensures var word := (if stopping then WRITER_STOP_BIT else 0) + n;
      && HasStop(word) == stopping
      && ActiveBits(word) == n
      && (n + 1 < WRITER_STOP_BIT ==> (word + 1) % WORD == word + 1)
      && (n > 0 ==> (word + WORD - 1) % WORD == word - 1)
      && (stopping ==> !Accepts(word))
  {
  }

  lemma RegisterKept(s: State, t: nat, payload: Payload)
    requires RegistrationInv(s) && Enabled(s, Register(t, payload))
    ensures RegistrationInv(After(s, Register(t, payload)))
  {
    RegistrationWord(Stopping(s), |s.calls|);
    hide HasStop, ActiveBits, Accepts;
    AddedCall(s.calls, t, if Accepts(s.writerState) then Writing(Entering(payload)) else Rejecting);
  }

  lemma AddedCall(calls: map<nat, Call>, t: nat, call: Call)
    requires t !in calls
    ensures |calls[t := call]| == |calls| + 1
  {
    assert calls[t := call].Keys == calls.Keys + {t};
  }

  lemma RemovedCall(calls: map<nat, Call>, t: nat)
    requires t in calls
    ensures |calls| == |calls - {t}| + 1
  {
    assert calls.Keys == (calls - {t}).Keys + {t};
  }

  lemma DeregisterKept(s: State, t: nat)
    requires RegistrationInv(s) && Enabled(s, Deregister(t))
    ensures RegistrationInv(After(s, Deregister(t)))
  {
    RegistrationWord(Stopping(s), |s.calls|);
    hide HasStop, ActiveBits, Accepts;
    RemovedCall(s.calls, t);
  }

  /** The stop bit is never lost to carries, turned-away calls leave no trace in the word, and the
      stopper sees a zero count only when no call is in flight. */
  lemma RegistrationKept(s: State, action: Action)
    requires RegistrationInv(s) && Enabled(s, action)
    ensures RegistrationInv(After(s, action))
  {
    hide WriterStep, HasStop, ActiveBits, Accepts, CanStep, SortBy;
    match action
    case Register(t, payload) =>
      RegisterKept(s, t, payload);
    case Advance(t) =>
      assert After(s, action).calls.Keys == s.calls.Keys;
    case Deregister(t) =>
      DeregisterKept(s, t);
    case SetStop =>
      RegistrationWord(Stopping(s), |s.calls|);
    case Poll =>
      RegistrationWord(Stopping(s), |s.calls|);
    case _ =>
  }

  lemma SetCall(calls: map<nat, Call>, stopper: Stopper, t: nat, call: Call)
    ensures var ws, ws' := CallWriters(calls, stopper), CallWriters(calls[t := call], stopper);
      && (t in ws <==> t in calls && calls[t].Writing?)
      && (t in ws ==> ws[t] == calls[t].w)
      && (call.Writing? ==> ws' == ws[t := call.w])
      && (call.Rejecting? && t !in ws ==> ws' == ws)
  {
  }

  lemma RemoveCall(calls: map<nat, Call>, stopper: Stopper, t: nat)
    ensures var ws, ws' := CallWriters(calls, stopper), CallWriters(calls - {t}, stopper);
      && (t in ws <==> t in calls && calls[t].Writing?)
      && (t in ws ==> ws[t] == calls[t].w)
      && ws' == ws - {t as int}
  {
  }

  lemma SetStopper(calls: map<nat, Call>, stopper: Stopper, stopper': Stopper)
    ensures var ws, ws' := CallWriters(calls, stopper), CallWriters(calls, stopper');
      && (STOPPER in ws <==> stopper.Marking?)
      && (STOPPER in ws ==> ws[STOPPER] == stopper.w)
      && ws' == if stopper'.Marking? then ws[STOPPER := stopper'.w] else ws - {STOPPER}
  {
  }

  lemma CallsKeepWriters(s: State, action: Action)
    requires Enabled(s, action) && WritersInv(s.sh, WritersOf(s))
    requires action.Register? || action.Advance? || action.Deregister?
    ensures WritersInv(After(s, action).sh, WritersOf(After(s, action)))
  {
    hide CallWriters, WritersInv, WriterStep, CanStep, HasStop, ActiveBits, Accepts, SortBy;
    var ws, s' := WritersOf(s), After(s, action);
    match action
    case Register(t, payload) =>
      SetCall(s.calls, s.stopper, t, s'.calls[t]);
      if Accepts(s.writerState) {
        ArrivalKeepsWriters(s.sh, ws, t, payload);
      }
    case Advance(t) =>
      SetCall(s.calls, s.stopper, t, s'.calls[t]);
      StepKeepsWriters(s.sh, ws, t);
    case Deregister(t) =>
      RemoveCall(s.calls, s.stopper, t);
      if t in ws {
        DepartureKeepsWriters(s.sh, ws, t);
      } else {
        assert ws - {t as int} == ws;
      }
  }

  lemma StopperKeepsWriters(s: State, action: Action)
    requires Enabled(s, action) && WritersInv(s.sh, WritersOf(s)) && RegistrationInv(s)
    requires !action.Register? && !action.Advance? && !action.Deregister?
    ensures WritersInv(After(s, action).sh, WritersOf(After(s, action)))
  {
    hide CallWriters, WritersInv, WriterStep, CanStep, HasStop, ActiveBits, Accepts, SortBy;
    var ws, s' := WritersOf(s), After(s, action);
    SetStopper(s.calls, s.stopper, s'.stopper);
    if action.AdvanceMarker? {
      StepKeepsWriters(s.sh, ws, STOPPER);
    } else if action.LeaveMarker? {
      DepartureKeepsWriters(s.sh, ws, STOPPER);
    } else if action.Poll? && ActiveBits(s.writerState) == 0 {
      ArrivalKeepsWriters(s.sh, ws, STOPPER, TraceStopped);
    } else {
      assert STOPPER !in ws;
      assert ws - {STOPPER} == ws;
    }
  }

  // ---------------------------------------------------------------------------------------
  // The stopper
  // ---------------------------------------------------------------------------------------

  // While the marker is being written nobody else is, so its slot is free and it is the newest id.
  lemma MarkerFindsItsSlotFree(sh: Shared, ws: Writers, id: nat, payload: Payload)
    requires WritersInv(sh, ws) && ws == map[STOPPER := Loading(id, payload)] && id == sh.nextId - 1
    ensures 1 <= id && !sh.slots[SlotOf(id, |sh.slots|)].Claimed() && sh.slots[SlotOf(id, |sh.slots|)].sequence < id
  {
    hide SlotOf, CountsInv;
    assert ws[STOPPER].HasId() && ws[STOPPER].Open();
    var ix := SlotOf(id, |sh.slots|);
    if sh.slots[ix].Claimed() {
      assert false;
    }
    assert Settled(sh, ix);
  }

  lemma MarkerKept(sh: Shared, ws: Writers)
    requires WritersInv(sh, ws) && ws.Keys == {STOPPER}
    requires CanStep(sh, ws[STOPPER]) && MarkerInv(sh, ws[STOPPER])
    ensures var (sh', w') := WriterStep(sh, ws[STOPPER]); MarkerInv(sh', w')
  {
    hide SlotOf, WritersInv;
    if ws[STOPPER].Loading? {
      assert ws == map[STOPPER := ws[STOPPER]];
      MarkerFindsItsSlotFree(sh, ws, ws[STOPPER].id, ws[STOPPER].payload);
    }
  }

  lemma OnlyTheMarker(s: State)
    requires RegistrationInv(s) && Drained(s)
    ensures WritersOf(s).Keys == if s.stopper.Marking? then {STOPPER} else {}
  {
  }

  lemma StopperKept(s: State, action: Action)
    requires Inv(s) && Enabled(s, action)
    ensures StopperInv(After(s, action))
  {
    hide Inv, StopperInv, Enabled, After;
    if action.Register? || action.Advance? || action.Deregister? {
      CallsKeepStopper(s, action);
    } else if s.stopper.Marking? || !Drained(s) {
      MarkingKept(s, action);
    } else {
      ReadingKept(s, action);
    }
  }

  lemma CallsKeepStopper(s: State, action: Action)
    requires Inv(s) && Enabled(s, action)
    requires action.Register? || action.Advance? || action.Deregister?
    ensures StopperInv(After(s, action))
  {
    hide WritersInv, RegistrationInv, WriterStep, CanStep, HasStop, ActiveBits, Accepts, SortBy, MarkerInPlace,
      CallWriters, Kept;
    if action.Advance? && Drained(s) {
      CallsAreTurnedAway(s, action.t);
    }
  }

  lemma MarkingKept(s: State, action: Action)
    requires Inv(s) && Enabled(s, action)
    requires !action.Register? && !action.Advance? && !action.Deregister? && (s.stopper.Marking? || !Drained(s))
    ensures StopperInv(After(s, action))
  {
    hide WritersInv, RegistrationInv, WriterStep, CanStep, HasStop, ActiveBits, Accepts, SortBy, MarkerInPlace,
      CallWriters, Kept;
    if action.AdvanceMarker? {
      OnlyTheMarker(s);
      SetStopper(s.calls, s.stopper, s.stopper);
      MarkerKept(s.sh, WritersOf(s));
    }
  }

  lemma ReadingKept(s: State, action: Action)
    requires Inv(s) && Enabled(s, action) && Drained(s) && !s.stopper.Marking?
    requires !action.Register? && !action.Advance? && !action.Deregister?
    ensures StopperInv(After(s, action))
  {
    hide WritersInv, HasStop, ActiveBits, Accepts, SortBy, MarkerInPlace, CallWriters;
    match action
    case ReadSequence =>
      KeptSnoc(s.sh.slots, s.stopper.next);
    case ReadEvent =>
      KeptSnoc(s.sh.slots, s.stopper.next);
    case EndScan =>
      assert s.sh.slots[..s.stopper.next] == s.sh.slots;
      SameLength(Kept(s.sh.slots));
    case _ =>
  }

  lemma CallsAreTurnedAway(s: State, t: nat)
    requires RegistrationInv(s) && Drained(s) && t in s.calls
    ensures s.calls[t].Rejecting?
  {
  }

  lemma SameLength(cells: seq<Cell>)
    ensures |SortBy(cells, EventKey)| == |cells|
  {
    SortByIsStableSort(cells, EventKey);
    hide SortBy;
    assert |multiset(SortBy(cells, EventKey))| == |SortBy(cells, EventKey)|;
  }

  lemma KeptSnoc(slots: seq<Slot>, n: nat)
    requires n < |slots|
    ensures Kept(slots[..n + 1]) == Kept(slots[..n]) + ReadCell(slots[n])
  {
    assert slots[..n + 1][..n] == slots[..n];
  }

  /** The invariant holds after every step. */
  lemma InvKept(s: State, action: Action)
    requires Inv(s) && Enabled(s, action)
    ensures Inv(After(s, action))
  {
    hide WritersInv, RegistrationInv, StopperInv, After, WritersOf, Enabled;
    if action.Register? || action.Advance? || action.Deregister? {
      CallsKeepWriters(s, action);
    } else {
      StopperKeepsWriters(s, action);
    }
    RegistrationKept(s, action);
    StopperKept(s, action);
  }

  // ---------------------------------------------------------------------------------------
  // Whole runs
  // ---------------------------------------------------------------------------------------

  /** `actions`, in this interleaving, lead from `s` to `s'`. */
  ghost predicate Run(s: State, actions: seq<Action>, s': State)
    decreases |actions|
  {
    if actions == [] then s' == s
    else Enabled(s, actions[0]) && Run(After(s, actions[0]), actions[1..], s')
  }

  lemma {:induction false} RunKeepsInv(s: State, actions: seq<Action>, s': State)
    requires Inv(s) && Run(s, actions, s')
    ensures Inv(s')
    decreases |actions|
  {
    hide Inv, Enabled, After;
    if actions != [] {
      InvKept(s, actions[0]);
      RunKeepsInv(After(s, actions[0]), actions[1..], s');
    }
  }

  /** In every interleaving, no two writers ever own the same slot, and each owner's slot carries
      the owner's own marked id. */
  lemma NoSharedSlot(capacity: nat, actions: seq<Action>, s: State, a: int, b: int)
    requires capacity >= 1 && Run(Initial(capacity), actions, s)
    requires a in WritersOf(s) && b in WritersOf(s) && a != b
    requires WritersOf(s)[a].Owns() && WritersOf(s)[b].Owns()
    ensures |s.sh.slots| >= 1 && WritersOf(s)[a].id >= 1 && WritersOf(s)[b].id >= 1
    ensures SlotOf(WritersOf(s)[a].id, |s.sh.slots|) != SlotOf(WritersOf(s)[b].id, |s.sh.slots|)
  {
    hide Run, Initial, SlotOf, CallWriters, SlotsInv, CountsInv, RegistrationInv, StopperInv;
    InitialInv(capacity);
    RunKeepsInv(Initial(capacity), actions, s);
    assert OwnerFacts(s.sh, WritersOf(s), a) && OwnerFacts(s.sh, WritersOf(s), b);
    OwnersApart(s.sh, WritersOf(s), a, b);
  }

  /** The registration word never loses the stop bit: it is that bit plus the calls in flight. */
  lemma StopBitSurvives(capacity: nat, actions: seq<Action>, s: State)
    requires capacity >= 1 && Run(Initial(capacity), actions, s)
    ensures HasStop(s.writerState) == Stopping(s) && ActiveBits(s.writerState) == |s.calls|
  {
    hide *;
    InitialInv(capacity);
    RunKeepsInv(Initial(capacity), actions, s);
    InvRegisters(s);
  }

  lemma InvRegisters(s: State)
    requires Inv(s)
    ensures HasStop(s.writerState) == Stopping(s) && ActiveBits(s.writerState) == |s.calls|
  {
    hide WritersInv, StopperInv, HasStop, ActiveBits;
    RegistrationWord(Stopping(s), |s.calls|);
  }

  lemma {:induction false} DrainedStays(s: State, actions: seq<Action>, s': State)
    requires Inv(s) && Drained(s) && Run(s, actions, s')
    ensures Drained(s')
    decreases |actions|
  {
    hide Inv, Enabled, After, Drained;
    if actions != [] {
      InvKept(s, actions[0]);
      DrainedStep(s, actions[0]);
      DrainedStays(After(s, actions[0]), actions[1..], s');
    }
  }

  lemma DrainedStep(s: State, action: Action)
    requires Inv(s) && Drained(s) && Enabled(s, action)
    ensures Drained(After(s, action))
  {
    hide WritersInv, StopperInv, WriterStep, CanStep, HasStop, ActiveBits, Accepts, SortBy;
  }

  /** Once the stopper has seen the count at zero, no `record` call is inside `write_registered`,
      then or at any later point of any run. */
  lemma NoWriterAfterDrain(capacity: nat, before: seq<Action>, s: State, after: seq<Action>, s': State, t: nat)
    requires capacity >= 1 && Run(Initial(capacity), before, s) && Drained(s) && Run(s, after, s')
    ensures Drained(s') && (t in s'.calls ==> s'.calls[t].Rejecting?)
  {
    hide Run, Drained, WritersInv, StopperInv, Initial;
    InitialInv(capacity);
    RunKeepsInv(Initial(capacity), before, s);
    DrainedStays(s, after, s');
    RunKeepsInv(s, after, s');
    if t in s'.calls {
      CallsAreTurnedAway(s', t);
    }
  }

  // ---------------------------------------------------------------------------------------
  // The snapshot
  // ---------------------------------------------------------------------------------------

  /** No newer event was ever published to the same slot. */
  ghost predicate Newest(log: map<nat, Payload>, capacity: nat, id: nat)
    requires capacity >= 1
  {
    && 1 <= id && id in log
    && forall other :: other in log && 1 <= other && SlotOf(other, capacity) == SlotOf(id, capacity) ==> other <= id
  }

  // No writer is left, so every slot is settled.
  ghost predicate Quiet(sh: Shared) {
    && |sh.slots| >= 1
    && forall ix :: 0 <= ix < |sh.slots| ==> !sh.slots[ix].Claimed() && Settled(sh, ix)
  }

  lemma DoneIsQuiet(s: State)
    requires Inv(s) && s.stopper.Done?
    ensures Quiet(s.sh) && MarkerInPlace(s.sh) && s.stopper.snapshot == SnapshotOf(s.sh)
    ensures |s.sh.slots| >= 1
    ensures s.stopper.snapshot.superseded == s.sh.superseded && s.stopper.snapshot.contended == s.sh.contended
    ensures s.sh.nextId == 1 + s.sh.published + s.sh.superseded + s.sh.contended
    ensures |s.sh.log| == s.sh.published
    ensures forall id :: id in s.sh.log ==> 1 <= id < s.sh.nextId
  {
    hide WritersInv, RegistrationInv, Quiet, SortBy, Kept, MarkerInPlace, CallWriters;
    OnlyTheMarker(s);
    assert WritersOf(s) == map[];
    NoWritersIsQuiet(s.sh);
  }

  lemma NoWritersIsQuiet(sh: Shared)
    requires WritersInv(sh, map[])
    ensures Quiet(sh) && |sh.slots| >= 1
    ensures sh.nextId == 1 + sh.published + sh.superseded + sh.contended
    ensures |sh.log| == sh.published
    ensures forall id :: id in sh.log ==> 1 <= id < sh.nextId
  {
    hide SlotOf, Settled;
    assert Pending(map[]) == {} && Uncounted(map[]) == {};
  }

  // Newest events, in the order of their slots.
  ghost predicate InSlotOrder(sh: Shared, kept: seq<Cell>)
    requires |sh.slots| >= 1
  {
    && (forall i :: 0 <= i < |kept| ==> IsNewestCell(sh, kept[i]))
    && (forall i, j :: 0 <= i < j < |kept| ==>
          SlotOf(kept[i].event.id, |sh.slots|) < SlotOf(kept[j].event.id, |sh.slots|))
  }

  // What is kept of a quiet prefix of the slots: one whole newest event per used slot, in slot order.
  ghost predicate KeptUpTo(sh: Shared, n: nat, kept: seq<Cell>)
    requires |sh.slots| >= 1 && n <= |sh.slots|
  {
    && InSlotOrder(sh, kept)
    && (forall i :: 0 <= i < |kept| ==> SlotOf(kept[i].event.id, |sh.slots|) < n)
    && (forall ix :: 0 <= ix < n && sh.slots[ix].sequence != 0 ==> sh.slots[ix].cell in kept)
  }

  lemma {:induction false} KeptIsNewest(sh: Shared, n: nat)
    requires Quiet(sh) && n <= |sh.slots|
    ensures |sh.slots| >= 1 && KeptUpTo(sh, n, Kept(sh.slots[..n]))
  {
    assert |sh.slots| >= 1;
    hide SlotOf, Quiet, Kept, KeptUpTo;
    if n == 0 {
      NothingKept(sh);
    } else {
      KeptIsNewest(sh, n - 1);
      KeptSnoc(sh.slots, n - 1);
      OneMoreKept(sh, n - 1, Kept(sh.slots[..n - 1]));
    }
  }

  lemma OneMoreKept(sh: Shared, n: nat, kept: seq<Cell>)
    requires Quiet(sh) && n < |sh.slots| && KeptUpTo(sh, n, kept)
    ensures KeptUpTo(sh, n + 1, kept + ReadCell(sh.slots[n]))
  {
    hide SlotOf, Quiet, ReadCell, InSlotOrder, IsNewestCell;
    SettledIsNewest(sh, n);
    NextInSlotOrder(sh, kept, ReadCell(sh.slots[n]), n);
  }

  lemma NothingKept(sh: Shared)
    requires |sh.slots| >= 1
    ensures KeptUpTo(sh, 0, Kept(sh.slots[..0]))
  {
  }

  lemma NextInSlotOrder(sh: Shared, kept: seq<Cell>, more: seq<Cell>, ix: nat)
    requires |sh.slots| >= 1 && InSlotOrder(sh, kept) && |more| <= 1
    requires forall i :: 0 <= i < |kept| ==> SlotOf(kept[i].event.id, |sh.slots|) < ix
    requires forall i :: 0 <= i < |more| ==> IsNewestCell(sh, more[i]) && SlotOf(more[i].event.id, |sh.slots|) == ix
    ensures InSlotOrder(sh, kept + more)
    ensures forall i :: 0 <= i < |kept + more| ==> SlotOf((kept + more)[i].event.id, |sh.slots|) < ix + 1
  {
    hide SlotOf, Newest;
  }

  ghost predicate IsNewestCell(sh: Shared, cell: Cell)
    requires |sh.slots| >= 1
  {
    && cell.Full?
    && Newest(sh.log, |sh.slots|, cell.event.id)
    && cell.event.payload == sh.log[cell.event.id]
  }

  lemma SettledIsNewest(sh: Shared, ix: nat)
    requires Quiet(sh) && ix < |sh.slots|
    ensures ReadCell(sh.slots[ix]) == if sh.slots[ix].sequence == 0 then [] else [sh.slots[ix].cell]
    ensures sh.slots[ix].sequence != 0 ==>
      IsNewestCell(sh, sh.slots[ix].cell) && SlotOf(sh.slots[ix].cell.event.id, |sh.slots|) == ix
  {
    assert Settled(sh, ix);
    hide SlotOf;
  }

  // Every newest event is the one in its slot.
  lemma NewestIsKept(sh: Shared, id: nat)
    requires Quiet(sh) && Newest(sh.log, |sh.slots|, id)
    ensures Full(Event(id, sh.log[id])) in Kept(sh.slots)
  {
    hide SlotOf, Kept, InSlotOrder;
    KeptIsNewest(sh, |sh.slots|);
    assert sh.slots[..|sh.slots|] == sh.slots;
    var ix := SlotOf(id, |sh.slots|);
    assert Settled(sh, ix);
  }

  ghost predicate Increasing(cells: seq<Cell>) {
    && (forall i :: 0 <= i < |cells| ==> cells[i].Full?)
    && (forall i, j :: 0 <= i < j < |cells| ==> cells[i].event.id < cells[j].event.id)
  }

  lemma DistinctKeysSortIncreasing(cells: seq<Cell>)
    requires forall i :: 0 <= i < |cells| ==> cells[i].Full?
    requires forall i, j :: 0 <= i < j < |cells| ==> cells[i].event.id != cells[j].event.id
    ensures Increasing(SortBy(cells, EventKey))
  {
    SortByIsStableSort(cells, EventKey);
    var sorted := SortBy(cells, EventKey);
    hide SortBy;
    forall i | 0 <= i < |sorted| ensures sorted[i] in multiset(cells) {
      assert sorted[i] in multiset(sorted);
    }
    forall i, j | 0 <= i < j < |sorted| ensures sorted[i].event.id < sorted[j].event.id {
      assert EventKey(sorted[i]).AtMost(EventKey(sorted[j]));
      if sorted[i].event.id == sorted[j].event.id {
        SameIdSameCell(cells, sorted[i], sorted[j]);
        RepeatedTwice(sorted, i, j);
        DistinctOnce(cells, sorted[i]);
      }
    }
  }

  lemma SameIdSameCell(cells: seq<Cell>, c: Cell, d: Cell)
    requires forall i :: 0 <= i < |cells| ==> cells[i].Full?
    requires forall i, j :: 0 <= i < j < |cells| ==> cells[i].event.id != cells[j].event.id
    requires c in cells && d in cells && c.event.id == d.event.id
    ensures c == d
  {
  }

  // Distinct ids, all in the log: no more events are kept than were published.
  lemma {:induction false} IdsFit(cells: seq<Cell>, ids: set<nat>)
    requires forall i :: 0 <= i < |cells| ==> cells[i].Full? && cells[i].event.id in ids
    requires forall i, j :: 0 <= i < j < |cells| ==> cells[i].event.id != cells[j].event.id
    ensures |cells| <= |ids|
  {
    if cells != [] {
      var last := cells[|cells| - 1].event.id;
      IdsFit(cells[..|cells| - 1], ids - {last});
    }
  }

  /** What a finished snapshot contains, in every run: for each slot that was ever published to,
      exactly its newest event, whole; ids strictly increase; the last event is the stop marker with
      the last id ever issued; and every issued id is counted once. */
  lemma SnapshotIsExact(capacity: nat, actions: seq<Action>, s: State)
    requires capacity >= 1 && Run(Initial(capacity), actions, s) && s.stopper.Done?
    ensures var snapshot, log, slots := s.stopper.snapshot, s.sh.log, |s.sh.slots|;
      && slots >= 1 && s.sh.nextId >= 1
      && Increasing(snapshot.events)
      && (forall c :: c in snapshot.events <==> IsNewestCell(s.sh, c))
      && |snapshot.events| >= 1
      && snapshot.events[|snapshot.events| - 1] == Full(Event(s.sh.nextId - 1, TraceStopped))
      && s.sh.nextId - 1 == |log| + snapshot.superseded + snapshot.contended
      && |snapshot.events| <= |log| && snapshot.overwritten == |log| - |snapshot.events|
  {
    hide Run, Inv, Initial, Quiet, SnapshotOf, Increasing, IsNewestCell;
    InitialInv(capacity);
    RunKeepsInv(Initial(capacity), actions, s);
    DoneIsQuiet(s);
    SnapshotOfQuiet(s.sh);
  }

  lemma SnapshotOfQuiet(sh: Shared)
    requires Quiet(sh) && MarkerInPlace(sh)
    requires |sh.log| == sh.published
    requires forall id :: id in sh.log ==> 1 <= id < sh.nextId
    ensures var snapshot := SnapshotOf(sh);
      && Increasing(snapshot.events)
      && (forall c :: c in snapshot.events <==> IsNewestCell(sh, c))
      && |snapshot.events| >= 1
      && snapshot.events[|snapshot.events| - 1] == Full(Event(sh.nextId - 1, TraceStopped))
      && |snapshot.events| <= |sh.log| && snapshot.overwritten == |sh.log| - |snapshot.events|
  {
    assert |sh.slots| >= 1;
    hide Kept, SlotOf, SortBy, Quiet, IsNewestCell, MarkerInPlace, Increasing;
    var kept, events := Kept(sh.slots), SortBy(Kept(sh.slots), EventKey);
    KeptAreNewest(sh, kept);
    DistinctKeysSortIncreasing(kept);
    SameElements(kept);
    MarkerIsLast(sh, events);
  }

  lemma KeptAreNewest(sh: Shared, kept: seq<Cell>)
    requires Quiet(sh) && kept == Kept(sh.slots)
    ensures forall c :: c in kept <==> IsNewestCell(sh, c)
    ensures forall i :: 0 <= i < |kept| ==> kept[i].Full?
    ensures forall i, j :: 0 <= i < j < |kept| ==> kept[i].event.id != kept[j].event.id
    ensures |kept| <= |sh.log|
  {
    KeptIsNewest(sh, |sh.slots|);
    assert sh.slots[..|sh.slots|] == sh.slots;
    hide Kept, SlotOf, Quiet, IsNewestCell;
    KeptIds(sh, kept);
    forall c | IsNewestCell(sh, c) ensures c in kept {
      NewestCellIsKept(sh, c);
    }
    IdsFit(kept, sh.log.Keys);
  }

  lemma KeptIds(sh: Shared, kept: seq<Cell>)
    requires |sh.slots| >= 1
    requires InSlotOrder(sh, kept)
    ensures forall i :: 0 <= i < |kept| ==> kept[i].Full? && kept[i].event.id in sh.log
    ensures forall i, j :: 0 <= i < j < |kept| ==> kept[i].event.id != kept[j].event.id
  {
    hide SlotOf;
  }

  lemma NewestCellIsKept(sh: Shared, c: Cell)
    requires Quiet(sh) && IsNewestCell(sh, c)
    ensures c in Kept(sh.slots)
  {
    hide Kept, Quiet;
    NewestIsKept(sh, c.event.id);
  }

  lemma SameElements(cells: seq<Cell>)
    ensures |SortBy(cells, EventKey)| == |cells|
    ensures forall c :: c in SortBy(cells, EventKey) <==> c in cells
  {
    SortByIsStableSort(cells, EventKey);
    var sorted := SortBy(cells, EventKey);
    hide SortBy;
    assert |sorted| == |multiset(sorted)| == |multiset(cells)| == |cells|;
    forall c ensures c in sorted <==> c in cells {
      assert c in sorted <==> c in multiset(sorted);
      assert c in cells <==> c in multiset(cells);
    }
  }

  lemma MarkerIsLast(sh: Shared, events: seq<Cell>)
    requires |sh.slots| >= 1 && MarkerInPlace(sh) && Increasing(events)
    requires forall id :: id in sh.log ==> 1 <= id < sh.nextId
    requires forall c :: c in events <==> IsNewestCell(sh, c)
    ensures |events| >= 1 && events[|events| - 1] == Full(Event(sh.nextId - 1, TraceStopped))
  {
    var marker := Full(Event(sh.nextId - 1, TraceStopped));
    assert IsNewestCell(sh, marker);
    var i :| 0 <= i < |events| && events[i] == marker;
    var last := events[|events| - 1];
    assert IsNewestCell(sh, last);
    assert i == |events| - 1;
  }
}
