/** The multi-writer sequence lock of the raster compositor transform (src/raster_cache.rs) as a
    state machine. Every step is one atomic access, or one critical section of the `updates` mutex;
    any number of threads may be in `snapshot` or `update_at`. Transform components are exact reals. */
module RasterCache {
  import opened Common

  const WORD: nat := 0x1_0000_0000_0000_0000
  const KEPT_UPDATES: nat := 128

  datatype Transform = Transform(scale: real, x: real, y: real)

  // A revision and the time of the input that published it.
  datatype Update = Update(revision: nat, time: int)

  // Where a pass of `snapshot` is.
  datatype Read =
    | LoadBefore
    | LoadScale(before: nat)
    | LoadX(before: nat, scale: real)
    | LoadY(before: nat, scale: real, x: real)
    | LoadAfter(before: nat, scale: real, x: real, y: real)

  // A call in flight. `floor` is a history variable: the newest revision when the call began.
  datatype Call =
    | Snapshotting(floor: nat, read: Read)
    | Comparing(transform: Transform, time: int, read: Read)
    | LoadGeneration(transform: Transform, time: int)
    | Swapping(transform: Transform, time: int, generation: nat)
    | StoreScale(transform: Transform, time: int, generation: nat)
    | StoreX(transform: Transform, time: int, generation: nat)
    | StoreY(transform: Transform, time: int, generation: nat)
    | PushUpdate(transform: Transform, time: int, generation: nat)
    | Publish(transform: Transform, time: int, generation: nat)
  {
    predicate IsReading() {
      Snapshotting? || Comparing?
    }

    // Between winning the compare-exchange and publishing.
    predicate InCriticalSection() {
      StoreScale? || StoreX? || StoreY? || PushUpdate? || Publish?
    }
  }

  // What one `snapshot` returned, with the floor of that call.
  datatype Observation = Observation(floor: nat, revision: nat, transform: Transform)

  // A published transform; the list of all of them, indexed by revision, is a history variable.
  datatype Revision = Revision(transform: Transform, time: int)

  datatype State = State(
    generation: nat, scale: real, x: real, y: real,
    updates: seq<Update>,
    calls: map<nat, Call>,
    history: seq<Revision>,
    holder: Option<nat>,
    observed: map<nat, seq<Observation>>)

  datatype Action =
    | BeginSnapshot(t: nat)
    | BeginUpdate(t: nat, transform: Transform, time: int)
    | Step(t: nat)

  // `RasterCompositorTransform::new`: over the reals only the sign of the scale is left to check.
  predicate Acceptable(transform: Transform) {
    transform.scale > 0.0
  }

  function Initial(initial: Transform, time: int): State {
    State(0, initial.scale, initial.x, initial.y, [Update(0, time)], map[], [Revision(initial, time)], None, map[])
  }

  datatype ReadResult = Continue(read: Read) | Return(revision: nat, transform: Transform)

  /** One step of the retry loop of `snapshot`. */
  function ReadStep(s: State, read: Read): ReadResult {
    match read
    case LoadBefore => if s.generation % 2 != 0 then Continue(LoadBefore) else Continue(LoadScale(s.generation))
    case LoadScale(before) => Continue(LoadX(before, s.scale))
    case LoadX(before, scale) => Continue(LoadY(before, scale, s.x))
    case LoadY(before, scale, x) => Continue(LoadAfter(before, scale, x, s.y))
    case LoadAfter(before, scale, x, y) =>
      if before == s.generation then Return(s.generation / 2, Transform(scale, x, y)) else Continue(LoadBefore)
  }

  function Trim(updates: seq<Update>): seq<Update> {
    if |updates| > KEPT_UPDATES then Trim(updates[1..]) else updates
  }

  function ObservedBy(s: State, t: nat): seq<Observation> {
    if t in s.observed then s.observed[t] else []
  }

  // The generation does not wrap around.
  ghost predicate Enabled(s: State, action: Action) {
    match action
    case BeginSnapshot(t) => t !in s.calls
    case BeginUpdate(t, _, _) => t !in s.calls
    case Step(t) => t in s.calls && (s.calls[t].Swapping? ==> s.calls[t].generation + 2 < WORD)
  }

  function AfterStep(s: State, t: nat): State
    requires t in s.calls
  {
    match s.calls[t]
    case Snapshotting(floor, read) =>
      (match ReadStep(s, read)
       case Continue(next) => s.(calls := s.calls[t := Snapshotting(floor, next)])
       case Return(revision, transform) =>
         s.(calls := s.calls - {t},
            observed := s.observed[t := ObservedBy(s, t) + [Observation(floor, revision, transform)]]))
    case Comparing(transform, time, read) =>
      (match ReadStep(s, read)
       case Continue(next) => s.(calls := s.calls[t := Comparing(transform, time, next)])
       case Return(_, current) =>
         if current == transform then s.(calls := s.calls - {t})
         else s.(calls := s.calls[t := LoadGeneration(transform, time)]))
    case LoadGeneration(transform, time) =>
      if s.generation % 2 != 0 then s else s.(calls := s.calls[t := Swapping(transform, time, s.generation)])
    case Swapping(transform, time, generation) =>
      if s.generation == generation
      then s.(generation := (generation + 1) % WORD, holder := Some(t),
              calls := s.calls[t := StoreScale(transform, time, generation)])
      else s.(calls := s.calls[t := LoadGeneration(transform, time)])
    case StoreScale(transform, time, generation) =>
      s.(scale := transform.scale, calls := s.calls[t := StoreX(transform, time, generation)])
    case StoreX(transform, time, generation) =>
      s.(x := transform.x, calls := s.calls[t := StoreY(transform, time, generation)])
    case StoreY(transform, time, generation) =>
      s.(y := transform.y, calls := s.calls[t := PushUpdate(transform, time, generation)])
    case PushUpdate(transform, time, generation) =>
      s.(updates := Trim(s.updates + [Update((generation + 2) % WORD / 2, time)]),
         calls := s.calls[t := Publish(transform, time, generation)])
    case Publish(transform, time, generation) =>
      s.(generation := (generation + 2) % WORD, holder := None, calls := s.calls - {t},
         history := s.history + [Revision(transform, time)])
  }

  ghost function After(s: State, action: Action): State
    requires Enabled(s, action)
  {
    match action
    case BeginSnapshot(t) => s.(calls := s.calls[t := Snapshotting(s.generation / 2, LoadBefore)])
    case BeginUpdate(t, transform, time) =>
      // An invalid transform is refused before anything is read.
      if Acceptable(transform) then s.(calls := s.calls[t := Comparing(transform, time, LoadBefore)]) else s
    case Step(t) => AfterStep(s, t)
  }

  // ---------------------------------------------------------------------------------------
  // The invariant
  // ---------------------------------------------------------------------------------------

  /** The generation is odd exactly while one writer, the holder, is in its critical section. */
  ghost predicate LockInv(s: State) {
    && s.generation < WORD
    && |s.history| == s.generation / 2 + 1
    && (s.generation % 2 == 0 <==> s.holder.None?)
    && (s.holder.Some? ==>
          && s.holder.value in s.calls
          && s.calls[s.holder.value].InCriticalSection()
          && s.calls[s.holder.value].generation + 1 == s.generation
          && s.generation + 1 < WORD)
    && (forall t :: t in s.calls && s.calls[t].InCriticalSection() ==> s.holder == Some(t))
    && (forall t :: t in s.calls && s.calls[t].Swapping? ==> s.calls[t].generation % 2 == 0)
  }

  function Words(s: State): Transform {
    Transform(s.scale, s.x, s.y)
  }

  /** Without a holder the words are the newest revision; a holder has overwritten them one by one. */
  ghost predicate WordsInv(s: State) {
    && |s.history| >= 1
    && (s.holder.None? ==> Words(s) == s.history[|s.history| - 1].transform)
    && (s.holder.Some? && s.holder.value in s.calls ==>
          match s.calls[s.holder.value]
          case StoreX(transform, _, _) => s.scale == transform.scale
          case StoreY(transform, _, _) => s.scale == transform.scale && s.x == transform.x
          case PushUpdate(transform, _, _) => Words(s) == transform
          case Publish(transform, _, _) => Words(s) == transform
          case _ => true)
  }

  /** A pass that can still succeed has only read words of the revision it started on. */
  ghost predicate ReadInv(s: State, floor: nat, read: Read) {
    read.LoadBefore? ||
    (&& read.before % 2 == 0 && floor <= read.before / 2
     && read.before <= s.generation
     && (read.before == s.generation && |s.history| >= 1 ==>
           var current := s.history[|s.history| - 1].transform;
           match read
           case LoadBefore => true
           case LoadScale(_) => true
           case LoadX(_, scale) => scale == current.scale
           case LoadY(_, scale, x) => scale == current.scale && x == current.x
           case LoadAfter(_, scale, x, y) => Transform(scale, x, y) == current))
  }

  ghost predicate ReadsInv(s: State) {
    forall t :: t in s.calls ==> CallInv(s, s.calls[t])
  }

  ghost predicate CallInv(s: State, call: Call) {
    && (call.Snapshotting? ==> call.floor <= s.generation / 2 && ReadInv(s, call.floor, call.read))
    && (call.Comparing? ==> ReadInv(s, 0, call.read))
  }

  /** Every observation is a published revision, whole, not older than the newest one when the call
      began; one thread's observations never go back. */
  ghost predicate ObservationsInv(s: State) {
    forall t :: t in s.observed ==>
      && ThreadInv(s, s.observed[t])
      && (t in s.calls && s.calls[t].Snapshotting? ==> NoneAbove(s.observed[t], s.calls[t].floor))
  }

  ghost predicate ThreadInv(s: State, observations: seq<Observation>) {
    && (forall i :: 0 <= i < |observations| ==> Truthful(s, observations[i]))
    && (forall i, j :: 0 <= i < j < |observations| ==> observations[i].revision <= observations[j].floor)
  }

  ghost predicate NoneAbove(observations: seq<Observation>, floor: nat) {
    forall i :: 0 <= i < |observations| ==> observations[i].revision <= floor
  }

  ghost predicate Truthful(s: State, o: Observation) {
    o.floor <= o.revision < |s.history| && o.transform == s.history[o.revision].transform
  }

  /** The newest revision whose time has been pushed: one ahead of the published ones while the
      holder is about to publish. */
  ghost function Pushed(s: State): nat
    requires |s.history| >= 1
  {
    if s.holder.Some? && s.holder.value in s.calls && s.calls[s.holder.value].Publish?
    then |s.history| else |s.history| - 1
  }

  ghost function TimeOf(s: State, revision: nat): int {
    if revision < |s.history| then s.history[revision].time
    else if s.holder.Some? && s.holder.value in s.calls && s.calls[s.holder.value].InCriticalSection()
    then s.calls[s.holder.value].time
    else 0
  }

  /** The deque holds the newest revisions, at most 128, contiguous and ascending, with their times. */
  ghost predicate UpdatesInv(s: State) {
    && |s.history| >= 1
    && var pushed := Pushed(s);
    && |s.updates| == (if pushed + 1 <= KEPT_UPDATES then pushed + 1 else KEPT_UPDATES)
    && forall i :: 0 <= i < |s.updates| ==>
         var revision := pushed + 1 - |s.updates| + i;
         s.updates[i] == Update(revision, TimeOf(s, revision))
  }

  ghost predicate Inv(s: State) {
    LockInv(s) && WordsInv(s) && ReadsInv(s) && ObservationsInv(s) && UpdatesInv(s)
  }

  lemma InitialInv(initial: Transform, time: int)
    ensures Inv(Initial(initial, time))
  {
  }

  lemma LockKept(s: State, action: Action)
    requires LockInv(s) && Enabled(s, action)
    ensures LockInv(After(s, action))
  {
    if action.Step? {
      var t := action.t;
      if s.calls[t].InCriticalSection() {
        HolderKeepsLock(s, t);
      } else if s.calls[t].IsReading() {
        ReaderKeepsLock(s, t);
      } else {
        WaiterKeepsLock(s, t);
      }
      hide LockInv, AfterStep;
    }
  }

  lemma HolderKeepsLock(s: State, t: nat)
    requires LockInv(s) && t in s.calls && s.calls[t].InCriticalSection()
    ensures LockInv(AfterStep(s, t))
  {
    hide Trim, ReadStep, ObservedBy;
  }

  lemma ReaderKeepsLock(s: State, t: nat)
    requires LockInv(s) && t in s.calls && s.calls[t].IsReading()
    ensures LockInv(AfterStep(s, t))
  {
    hide ReadStep, ObservedBy;
  }

  lemma WaiterKeepsLock(s: State, t: nat)
    requires LockInv(s) && Enabled(s, Step(t))
    requires !s.calls[t].InCriticalSection() && !s.calls[t].IsReading()
    ensures LockInv(AfterStep(s, t))
  {
  }

  lemma WordsKept(s: State, action: Action)
    requires LockInv(s) && WordsInv(s) && Enabled(s, action)
    ensures WordsInv(After(s, action))
  {
    hide ReadStep, Trim, ObservedBy;
  }

  // What a step can do to the words that a reader depends on.
  lemma ReadSurvives(s: State, action: Action, floor: nat, read: Read)
    requires LockInv(s) && WordsInv(s) && Enabled(s, action) && ReadInv(s, floor, read)
    ensures ReadInv(After(s, action), floor, read)
  {
    hide ReadStep, Trim, ObservedBy;
  }

  lemma ReadAdvances(s: State, floor: nat, read: Read)
    requires LockInv(s) && WordsInv(s) && ReadInv(s, floor, read) && floor <= s.generation / 2
    ensures match ReadStep(s, read)
      case Continue(next) => ReadInv(s, floor, next)
      case Return(revision, transform) =>
        floor <= revision < |s.history| && transform == s.history[revision].transform
  {
  }

  lemma ReadsKept(s: State, action: Action)
    requires LockInv(s) && WordsInv(s) && ReadsInv(s) && Enabled(s, action)
    ensures ReadsInv(After(s, action))
  {
    var s' := After(s, action);
    forall t | t in s'.calls ensures CallInv(s', s'.calls[t]) {
      if t in s.calls && s'.calls[t] == s.calls[t] {
        CallSurvives(s, action, s.calls[t]);
      } else {
        NewCall(s, action, t);
      }
    }
  }

  lemma CallSurvives(s: State, action: Action, call: Call)
    requires LockInv(s) && WordsInv(s) && Enabled(s, action) && CallInv(s, call)
    ensures CallInv(After(s, action), call)
  {
    GenerationGrows(s, action);
    hide ReadInv, After, Enabled, LockInv, WordsInv;
    if call.Snapshotting? {
      ReadSurvives(s, action, call.floor, call.read);
    } else if call.Comparing? {
      ReadSurvives(s, action, 0, call.read);
    }
  }

  lemma GenerationGrows(s: State, action: Action)
    requires LockInv(s) && Enabled(s, action)
    ensures s.generation <= After(s, action).generation
    ensures s.history <= After(s, action).history
  {
    hide ReadStep, Trim, ObservedBy;
  }

  lemma NewCall(s: State, action: Action, t: nat)
    requires LockInv(s) && WordsInv(s) && ReadsInv(s) && Enabled(s, action)
    requires t in After(s, action).calls && (t in s.calls ==> After(s, action).calls[t] != s.calls[t])
    ensures CallInv(After(s, action), After(s, action).calls[t])
  {
    assert t == action.t;
    hide ReadStep, LockInv, WordsInv, Trim, ObservedBy;
    if action.Step? && s.calls[t].IsReading() {
      assert CallInv(s, s.calls[t]);
      ReaderCall(s, t);
    }
  }

  lemma ReaderCall(s: State, t: nat)
    requires LockInv(s) && WordsInv(s) && t in s.calls && s.calls[t].IsReading() && CallInv(s, s.calls[t])
    ensures t in AfterStep(s, t).calls ==> CallInv(AfterStep(s, t), AfterStep(s, t).calls[t])
  {
    hide ReadStep, LockInv, WordsInv, ObservedBy, ReadInv;
    var call := s.calls[t];
    ReadAdvances(s, if call.Snapshotting? then call.floor else 0, call.read);
    ReadingTouchesNothing(s, t);
  }

  lemma ReadingTouchesNothing(s: State, t: nat)
    requires t in s.calls && s.calls[t].IsReading()
    ensures var s' := AfterStep(s, t);
      && s'.generation == s.generation && Words(s') == Words(s) && s'.history == s.history
      && (forall floor, read :: ReadInv(s, floor, read) ==> ReadInv(s', floor, read))
  {
    hide ReadStep, ObservedBy;
  }

  lemma ThreadSurvives(s: State, action: Action, observations: seq<Observation>)
    requires LockInv(s) && Enabled(s, action) && ThreadInv(s, observations)
    ensures ThreadInv(After(s, action), observations)
  {
    GenerationGrows(s, action);
    hide After, Enabled, LockInv;
  }

  lemma ObservationsKept(s: State, action: Action)
    requires LockInv(s) && WordsInv(s) && ReadsInv(s) && ObservationsInv(s) && Enabled(s, action)
    ensures ObservationsInv(After(s, action))
  {
    var s' := After(s, action);
    forall t | t in s'.observed
      ensures ThreadInv(s', s'.observed[t])
      ensures t in s'.calls && s'.calls[t].Snapshotting? ==> NoneAbove(s'.observed[t], s'.calls[t].floor)
    {
      ObservationsKeptBy(s, action, t);
    }
  }

  lemma ObservationsKeptBy(s: State, action: Action, t: nat)
    requires LockInv(s) && WordsInv(s) && ReadsInv(s) && ObservationsInv(s) && Enabled(s, action)
    requires t in After(s, action).observed
    ensures var s' := After(s, action);
      && ThreadInv(s', s'.observed[t])
      && (t in s'.calls && s'.calls[t].Snapshotting? ==> NoneAbove(s'.observed[t], s'.calls[t].floor))
  {
    hide ReadStep, WordsInv, ReadsInv, Trim;
    ThreadSurvives(s, action, ObservedBy(s, t));
    if action.Step? && action.t == t && s.calls[t].Snapshotting? {
      ReturnIsTruthful(s, t);
    }
  }

  lemma ReturnIsTruthful(s: State, t: nat)
    requires LockInv(s) && WordsInv(s) && ReadsInv(s) && ObservationsInv(s)
    requires t in s.calls && s.calls[t].Snapshotting? && t in AfterStep(s, t).observed
    ensures var s' := AfterStep(s, t);
      && ThreadInv(s', s'.observed[t])
      && (t in s'.calls ==> s'.calls[t].Snapshotting? && NoneAbove(s'.observed[t], s'.calls[t].floor))
  {
    assert CallInv(s, s.calls[t]);
    hide ReadStep, WordsInv, ReadsInv;
    ReadAdvances(s, s.calls[t].floor, s.calls[t].read);
    hide LockInv, ReadInv;
  }

  lemma TrimOnce(updates: seq<Update>)
    requires |updates| <= KEPT_UPDATES + 1
    ensures Trim(updates) == if |updates| > KEPT_UPDATES then updates[1..] else updates
  {
  }

  lemma UpdatesKept(s: State, action: Action)
    requires LockInv(s) && UpdatesInv(s) && Enabled(s, action)
    ensures UpdatesInv(After(s, action))
  {
    hide ReadStep, ObservedBy, Trim;
    if action.Step? && s.calls[action.t].InCriticalSection() {
      HolderKeepsUpdates(s, action.t);
    }
  }

  lemma HolderKeepsUpdates(s: State, t: nat)
    requires LockInv(s) && UpdatesInv(s) && t in s.calls && s.calls[t].InCriticalSection()
    ensures UpdatesInv(AfterStep(s, t))
  {
    hide ReadStep, ObservedBy, Trim;
    if s.calls[t].PushUpdate? {
      TrimOnce(s.updates + [Update(|s.history|, s.calls[t].time)]);
    }
  }

  /** The invariant holds after every step. */
  lemma InvKept(s: State, action: Action)
    requires Inv(s) && Enabled(s, action)
    ensures Inv(After(s, action))
  {
    hide LockInv, WordsInv, ReadsInv, ObservationsInv, UpdatesInv, After, Enabled;
    LockKept(s, action);
    WordsKept(s, action);
    ReadsKept(s, action);
    ObservationsKept(s, action);
    UpdatesKept(s, action);
  }

  // ---------------------------------------------------------------------------------------
  // Whole runs
  // ---------------------------------------------------------------------------------------

  /** `actions`, in this interleaving, lead from `s` to `s'`. */
  ghost predicate Run(s: State, actions: seq<Action>, s': State)
    decreases |actions|
  {
    if actions == [] then s' == s
    else Enabled(s, actions[0]) && Run(After(s, actions[0]), actions[1..], s')
  }

  lemma {:induction false} RunKeepsInv(s: State, actions: seq<Action>, s': State)
    requires Inv(s) && Run(s, actions, s')
    ensures Inv(s')
    decreases |actions|
  {
    hide Inv, Enabled, After;
    if actions != [] {
      InvKept(s, actions[0]);
      RunKeepsInv(After(s, actions[0]), actions[1..], s');
    }
  }

  /** No torn reads, in any interleaving: whatever a `snapshot` returned is one published transform,
      under its own revision, at least as new as the newest revision when the call began; and a
      later `snapshot` of the same thread never returns an older revision. */
  lemma SnapshotsAreCoherent(initial: Transform, time: int, actions: seq<Action>, s: State, t: nat, i: nat, j: nat)
    requires Run(Initial(initial, time), actions, s)
    requires t in s.observed && i <= j < |s.observed[t]|
    ensures var o := s.observed[t][j];
      && o.floor <= o.revision < |s.history|
      && o.transform == s.history[o.revision].transform
      && s.observed[t][i].revision <= o.revision
  {
    hide Run, Initial, LockInv, WordsInv, ReadsInv, UpdatesInv;
    InitialInv(initial, time);
    RunKeepsInv(Initial(initial, time), actions, s);
    assert ThreadInv(s, s.observed[t]);
  }

  /** At most one writer is between its compare-exchange and its publication. */
  lemma OneWriterAtATime(initial: Transform, time: int, actions: seq<Action>, s: State, t: nat, u: nat)
    requires Run(Initial(initial, time), actions, s)
    requires t in s.calls && s.calls[t].InCriticalSection() && u in s.calls && s.calls[u].InCriticalSection()
    ensures t == u && s.generation % 2 == 1
  {
    hide Run, Initial, WordsInv, ReadsInv, UpdatesInv, ObservationsInv;
    InitialInv(initial, time);
    RunKeepsInv(Initial(initial, time), actions, s);
  }

  /** `updated_at`: the time of the last entry for `revision`. */
  function UpdatedAt(updates: seq<Update>, revision: nat): Option<int> {
    if updates == [] then None
    else if updates[|updates| - 1].revision == revision then Some(updates[|updates| - 1].time)
    else UpdatedAt(updates[..|updates| - 1], revision)
  }

  lemma {:induction false} UpdatedAtIsExact(updates: seq<Update>, first: nat, revision: nat)
    requires forall i :: 0 <= i < |updates| ==> updates[i].revision == first + i
    ensures UpdatedAt(updates, revision)
         == if first <= revision < first + |updates| then Some(updates[revision - first].time) else None
  {
    if updates != [] {
      UpdatedAtIsExact(updates[..|updates| - 1], first, revision);
    }
  }

  /** The time of a revision can be looked up exactly from the moment it is pushed, which is before
      any reader can observe it, until 128 newer revisions have been pushed. */
  lemma TimesAreAvailable(initial: Transform, time: int, actions: seq<Action>, s: State, revision: nat)
    requires Run(Initial(initial, time), actions, s)
    ensures |s.history| >= 1 && |s.history| - 1 <= Pushed(s) <= |s.history|
    ensures UpdatedAt(s.updates, revision)
         == if revision <= Pushed(s) < revision + KEPT_UPDATES then Some(TimeOf(s, revision)) else None
    ensures UpdatedAt(s.updates, s.generation / 2) == Some(s.history[|s.history| - 1].time)
  {
    hide Run, Initial, WordsInv, ReadsInv, ObservationsInv;
    InitialInv(initial, time);
    RunKeepsInv(Initial(initial, time), actions, s);
    hide Inv;
    var first := Pushed(s) + 1 - |s.updates|;
    UpdatedAtIsExact(s.updates, first, revision);
    UpdatedAtIsExact(s.updates, first, s.generation / 2);
  }
}
