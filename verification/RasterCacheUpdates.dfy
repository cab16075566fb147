/** What becomes of the calls of the raster compositor transform (src/raster_cache.rs): which updates take
    effect, and what an undisturbed call does. */
module RasterCacheUpdates {
  import opened Common
  import opened RasterCache

  // ---------------------------------------------------------------------------------------
  // Which updates take effect
  // ---------------------------------------------------------------------------------------

  function Newest(s: State): Transform
    requires |s.history| >= 1
  {
    s.history[|s.history| - 1].transform
  }

  lemma ReachableInv(initial: Transform, time: int, actions: seq<Action>, s: State)
    requires Run(Initial(initial, time), actions, s)
    ensures Inv(s) && |s.history| >= 1 && s.generation < WORD
  {
    hide Run, Initial, WordsInv, ReadsInv, ObservationsInv;
    InitialInv(initial, time);
    RunKeepsInv(Initial(initial, time), actions, s);
  }

  // A pass that ends has read the newest revision.
  lemma PassReadsNewest(s: State, t: nat)
    requires Inv(s) && t in s.calls && s.calls[t].Comparing?
    ensures |s.history| >= 1
    ensures var result := ReadStep(s, s.calls[t].read);
      && (result.Return? <==> s.calls[t].read.LoadAfter? && s.calls[t].read.before == s.generation)
      && (result.Return? ==> result == Return(|s.history| - 1, Newest(s)))
  {
    assert CallInv(s, s.calls[t]);
    hide ReadsInv, ObservationsInv, UpdatesInv, WordsInv;
  }

  /** The comparison at the end of a coherent pass: a call for the newest transform leaves, a call for another
      one goes on to publish; a pass that was overtaken starts again. Nothing else changes. */
  lemma ComparisonDecides(initial: Transform, time: int, actions: seq<Action>, s: State, t: nat)
    requires Run(Initial(initial, time), actions, s)
    requires t in s.calls && s.calls[t].Comparing? && s.calls[t].read.LoadAfter?
    ensures Enabled(s, Step(t)) && |s.history| >= 1
    ensures var call, s' := s.calls[t], After(s, Step(t));
      if call.read.before != s.generation
      then s' == s.(calls := s.calls[t := Comparing(call.transform, call.time, LoadBefore)])
      else if call.transform == Newest(s) then s' == s.(calls := s.calls - {t})
      else s' == s.(calls := s.calls[t := LoadGeneration(call.transform, call.time)])
  {
    hide Run, Initial, Inv;
    ReachableInv(initial, time, actions, s);
    PassReadsNewest(s, t);
  }

  /** When an update returns, its transform is the newest one published: either it was so already and the
      history stays as it was, or the call added it with its time. */
  lemma UpdateTakesEffect(initial: Transform, time: int, actions: seq<Action>, s: State, t: nat)
    requires Run(Initial(initial, time), actions, s)
    requires Enabled(s, Step(t)) && !s.calls[t].Snapshotting? && t !in After(s, Step(t)).calls
    ensures var call, s' := s.calls[t], After(s, Step(t));
      && |s'.history| >= 1 && Newest(s') == call.transform
      && (s'.history == s.history || s'.history == s.history + [Revision(call.transform, call.time)])
      && (s'.history == s.history <==> call.Comparing?)
  {
    hide Run, Initial, Inv, Trim;
    ReachableInv(initial, time, actions, s);
    if s.calls[t].Comparing? {
      PassReadsNewest(s, t);
    }
    hide ReadStep;
  }

  /** Nothing is published but by an update that returns with this step. */
  lemma OnlyUpdatesPublish(s: State, action: Action)
    requires Enabled(s, action) && After(s, action).history != s.history
    ensures action.Step? && action.t in s.calls && action.t !in After(s, action).calls
    ensures !s.calls[action.t].Snapshotting?
    ensures var call := s.calls[action.t];
      After(s, action).history == s.history + [Revision(call.transform, call.time)]
  {
    hide ReadStep, Trim;
  }

  ghost predicate AllAcceptable(s: State) {
    && (forall r :: 0 <= r < |s.history| ==> Acceptable(s.history[r].transform))
    && (forall t :: t in s.calls && !s.calls[t].Snapshotting? ==> Acceptable(s.calls[t].transform))
  }

  lemma StepKeepsAcceptable(s: State, action: Action)
    requires AllAcceptable(s) && Enabled(s, action)
    ensures AllAcceptable(After(s, action))
  {
    hide ReadStep, Trim, Acceptable;
  }

  lemma {:induction false} RunKeepsAcceptable(s: State, actions: seq<Action>, s': State)
    requires AllAcceptable(s) && Run(s, actions, s')
    ensures AllAcceptable(s')
    decreases |actions|
  {
    hide AllAcceptable, Enabled, After;
    if actions != [] {
      StepKeepsAcceptable(s, actions[0]);
      RunKeepsAcceptable(After(s, actions[0]), actions[1..], s');
    }
  }

  /** An invalid value never gets published, whoever passes it. */
  lemma OnlyValidIsPublished(initial: Transform, time: int, actions: seq<Action>, s: State, r: nat)
    requires initial.scale > 0.0 && Run(Initial(initial, time), actions, s) && r < |s.history|
    ensures s.history[r].transform.scale > 0.0
  {
    assert AllAcceptable(Initial(initial, time));
    hide Initial, Run;
    RunKeepsAcceptable(Initial(initial, time), actions, s);
  }

  // ---------------------------------------------------------------------------------------
  // Undisturbed calls
  // ---------------------------------------------------------------------------------------

  // The state after the next `n` steps of `t`, nobody else moving.
  ghost function Going(s: State, t: nat, n: nat): State
    decreases n
  {
    if n == 0 || t !in s.calls then s else Going(AfterStep(s, t), t, n - 1)
  }

  ghost predicate CanGo(s: State, t: nat, n: nat)
    decreases n
  {
    n == 0 || (Enabled(s, Step(t)) && CanGo(AfterStep(s, t), t, n - 1))
  }

  lemma GoOn(s: State, t: nat, s': State, n: nat)
    requires Enabled(s, Step(t)) && AfterStep(s, t) == s' && CanGo(s', t, n)
    ensures CanGo(s, t, n + 1) && Going(s, t, n + 1) == Going(s', t, n)
  {
    hide AfterStep;
  }

  lemma Gone(s: State, t: nat)
    ensures CanGo(s, t, 0) && Going(s, t, 0) == s
  {
  }

  function Times(t: nat, n: nat): seq<Action> {
    if n == 0 then [] else [Step(t)] + Times(t, n - 1)
  }

  lemma RunCons(s: State, action: Action, rest: seq<Action>, s': State)
    requires Enabled(s, action) && Run(After(s, action), rest, s')
    ensures Run(s, [action] + rest, s')
  {
    hide Enabled, After;
    assert ([action] + rest)[1..] == rest;
  }

  lemma {:induction false} GoingRuns(s: State, t: nat, n: nat)
    requires CanGo(s, t, n)
    ensures Run(s, Times(t, n), Going(s, t, n))
    decreases n
  {
    hide AfterStep;
    if n > 0 {
      GoingRuns(AfterStep(s, t), t, n - 1);
      RunCons(s, Step(t), Times(t, n - 1), Going(s, t, n));
    }
  }

  // `s` with the call of `t` at `call`.
  function At(s: State, t: nat, call: Call): State {
    s.(calls := s.calls[t := call])
  }

  lemma AtStep(s: State, t: nat, call: Call, call': Call)
    ensures At(At(s, t, call), t, call') == At(s, t, call')
  {
  }

  function WithRead(call: Call, read: Read): Call
    requires call.IsReading()
  {
    call.(read := read)
  }

  // One load of a pass that is not overtaken.
  lemma PassOn(s: State, t: nat, call: Call, read: Read, read': Read, n: nat)
    requires call.IsReading() && ReadStep(s, read) == Continue(read')
    requires CanGo(At(s, t, WithRead(call, read')), t, n)
    ensures CanGo(At(s, t, WithRead(call, read)), t, n + 1)
    ensures Going(At(s, t, WithRead(call, read)), t, n + 1) == Going(At(s, t, WithRead(call, read')), t, n)
  {
    hide Going, CanGo;
    var s1 := At(s, t, WithRead(call, read));
    SameWords(s, t, WithRead(call, read), read);
    AtStep(s, t, WithRead(call, read), WithRead(call, read'));
    hide ReadStep;
    GoOn(s1, t, At(s, t, WithRead(call, read')), n);
  }

  lemma SameWords(s: State, t: nat, call: Call, read: Read)
    ensures ReadStep(At(s, t, call), read) == ReadStep(s, read)
  {
  }

  lemma WholePass(s: State, t: nat, call: Call, n: nat)
    requires call.IsReading() && s.generation % 2 == 0
    requires CanGo(At(s, t, WithRead(call, LoadAfter(s.generation, s.scale, s.x, s.y))), t, n)
    ensures CanGo(At(s, t, WithRead(call, LoadBefore)), t, n + 4)
    ensures Going(At(s, t, WithRead(call, LoadBefore)), t, n + 4)
         == Going(At(s, t, WithRead(call, LoadAfter(s.generation, s.scale, s.x, s.y))), t, n)
  {
    hide Going, CanGo;
    PassOn(s, t, call, LoadY(s.generation, s.scale, s.x), LoadAfter(s.generation, s.scale, s.x, s.y), n);
    PassOn(s, t, call, LoadX(s.generation, s.scale), LoadY(s.generation, s.scale, s.x), n + 1);
    PassOn(s, t, call, LoadScale(s.generation), LoadX(s.generation, s.scale), n + 2);
    PassOn(s, t, call, LoadBefore, LoadScale(s.generation), n + 3);
  }

  // Nobody is writing: the words are the newest revision.
  lemma NobodyWrites(s: State)
    requires Inv(s) && s.holder.None?
    ensures |s.history| >= 1 && s.generation % 2 == 0 && s.generation / 2 == |s.history| - 1 && Words(s) == Newest(s)
  {
    hide ReadsInv, ObservationsInv, UpdatesInv;
  }

  /** A snapshot taken while nobody is writing returns the newest revision. */
  lemma UndisturbedSnapshot(initial: Transform, time: int, before: seq<Action>, s: State, t: nat)
    returns (actions: seq<Action>, s': State)
    requires Run(Initial(initial, time), before, s) && t !in s.calls && s.holder.None?
    ensures Run(s, [BeginSnapshot(t)] + actions, s')
    ensures |s.history| >= 1
    ensures var newest := |s.history| - 1;
      s' == s.(observed := s.observed[t := ObservedBy(s, t) + [Observation(newest, newest, Newest(s))]])
  {
    hide Run, Initial, Going, CanGo, Inv, AfterStep;
    ReachableInv(initial, time, before, s);
    NobodyWrites(s);
    var newest := |s.history| - 1;
    s' := s.(observed := s.observed[t := ObservedBy(s, t) + [Observation(newest, newest, Newest(s))]]);
    SnapshotReturns(s, t, newest);
    Gone(s', t);
    var last := At(s, t, Snapshotting(newest, LoadAfter(s.generation, s.scale, s.x, s.y)));
    GoOn(last, t, s', 0);
    WholePass(s, t, Snapshotting(newest, LoadBefore), 1);
    GoingRuns(At(s, t, Snapshotting(newest, LoadBefore)), t, 5);
    actions := Times(t, 5);
    RunCons(s, BeginSnapshot(t), actions, s');
  }

  lemma SnapshotReturns(s: State, t: nat, floor: nat)
    requires t !in s.calls
    ensures var last := At(s, t, Snapshotting(floor, LoadAfter(s.generation, s.scale, s.x, s.y)));
      && Enabled(last, Step(t))
      && AfterStep(last, t)
      == s.(observed := s.observed[t := ObservedBy(s, t) + [Observation(floor, s.generation / 2, Words(s))]])
  {
    assert s.calls[t := Snapshotting(floor, LoadAfter(s.generation, s.scale, s.x, s.y))] - {t} == s.calls;
  }

  // What a writer leaves behind, when it began at an even generation.
  function Written(s: State, t: nat, transform: Transform, time: int): State {
    s.(generation := s.generation + 2, scale := transform.scale, x := transform.x, y := transform.y,
       updates := Trim(s.updates + [Update(s.generation / 2 + 1, time)]), holder := None,
       calls := s.calls - {t}, history := s.history + [Revision(transform, time)])
  }

  // The generation taken by `t`.
  function Held(s: State, t: nat): State {
    s.(generation := s.generation + 1, holder := Some(t))
  }

  lemma StoringGoes(s: State, t: nat, transform: Transform, time: int)
    requires s.generation % 2 == 0 && s.generation + 2 < WORD
    ensures var start := At(Held(s, t), t, StoreScale(transform, time, s.generation));
      CanGo(start, t, 5) && Going(start, t, 5) == Written(s, t, transform, time)
  {
    hide Going, CanGo, Trim, At, Enabled, AfterStep;
    var g, held := s.generation, Held(s, t);
    var stored := held.(scale := transform.scale, x := transform.x, y := transform.y);
    PushGoes(stored, t, transform, time, g);
    WordsGo(held, t, transform, time, g, 2);
  }

  lemma WordsGo(s: State, t: nat, transform: Transform, time: int, g: nat, n: nat)
    requires var stored := s.(scale := transform.scale, x := transform.x, y := transform.y);
      CanGo(At(stored, t, PushUpdate(transform, time, g)), t, n)
    ensures var start := At(s, t, StoreScale(transform, time, g));
            var stored := s.(scale := transform.scale, x := transform.x, y := transform.y);
      && CanGo(start, t, n + 3)
      && Going(start, t, n + 3) == Going(At(stored, t, PushUpdate(transform, time, g)), t, n)
  {
    hide Going, CanGo;
    var x1 := s.(scale := transform.scale);
    var x2 := x1.(x := transform.x);
    var x3 := x2.(y := transform.y);
    NextCall(x2, t, StoreY(transform, time, g), x3, PushUpdate(transform, time, g), n);
    NextCall(x1, t, StoreX(transform, time, g), x2, StoreY(transform, time, g), n + 1);
    NextCall(s, t, StoreScale(transform, time, g), x1, StoreX(transform, time, g), n + 2);
  }

  lemma PushGoes(s: State, t: nat, transform: Transform, time: int, g: nat)
    requires g % 2 == 0 && g + 2 < WORD
    ensures var start := At(s, t, PushUpdate(transform, time, g));
      && CanGo(start, t, 2)
      && Going(start, t, 2)
      == s.(updates := Trim(s.updates + [Update(g / 2 + 1, time)]), generation := g + 2, holder := None,
            calls := s.calls - {t}, history := s.history + [Revision(transform, time)])
  {
    hide Going, CanGo, Trim;
    var pushed := s.(updates := Trim(s.updates + [Update(g / 2 + 1, time)]));
    PublishGoes(pushed, t, transform, time, g);
    NextCall(s, t, PushUpdate(transform, time, g), pushed, Publish(transform, time, g), 1);
  }

  lemma PublishGoes(s: State, t: nat, transform: Transform, time: int, g: nat)
    requires g + 2 < WORD
    ensures var last := At(s, t, Publish(transform, time, g));
      && CanGo(last, t, 1)
      && Going(last, t, 1) == s.(generation := g + 2, holder := None, calls := s.calls - {t},
                                 history := s.history + [Revision(transform, time)])
  {
    assert s.calls[t := Publish(transform, time, g)] - {t} == s.calls - {t};
    var last := At(s, t, Publish(transform, time, g));
    Gone(AfterStep(last, t), t);
    GoOn(last, t, AfterStep(last, t), 0);
  }

  // The writer's own steps, from looking at the generation to the publication.
  lemma WritingGoes(s: State, t: nat, transform: Transform, time: int)
    requires s.generation % 2 == 0 && s.generation + 2 < WORD
    ensures CanGo(At(s, t, LoadGeneration(transform, time)), t, 7)
    ensures Going(At(s, t, LoadGeneration(transform, time)), t, 7) == Written(s, t, transform, time)
  {
    hide Going, CanGo, Trim, Written;
    var g := s.generation;
    StoringGoes(s, t, transform, time);
    NextCall(s, t, Swapping(transform, time, g), Held(s, t), StoreScale(transform, time, g), 5);
    NextCall(s, t, LoadGeneration(transform, time), s, Swapping(transform, time, g), 6);
  }

  lemma NextCall(s: State, t: nat, call: Call, s': State, call': Call, n: nat)
    requires Enabled(At(s, t, call), Step(t)) && s'.calls == s.calls
    requires AfterStep(At(s, t, call), t) == s'.(calls := At(s, t, call).calls[t := call'])
    requires CanGo(At(s', t, call'), t, n)
    ensures CanGo(At(s, t, call), t, n + 1) && Going(At(s, t, call), t, n + 1) == Going(At(s', t, call'), t, n)
  {
    hide AfterStep, Enabled, Going, CanGo;
    AtStep(s, t, call, call');
    GoOn(At(s, t, call), t, At(s', t, call'), n);
  }

  /** An update made while nobody is writing publishes its transform as the next revision, unless it is already
      the newest one: then it leaves everything as it was. */
  lemma UndisturbedUpdate(initial: Transform, time: int, before: seq<Action>, s: State, t: nat,
                          transform: Transform, at: int) returns (actions: seq<Action>, s': State)
    requires Run(Initial(initial, time), before, s) && t !in s.calls && s.holder.None?
    requires transform.scale > 0.0 && s.generation + 2 < WORD
    ensures Run(s, [BeginUpdate(t, transform, at)] + actions, s')
    ensures |s.history| >= 1 && s'.calls == s.calls && s'.observed == s.observed && s'.holder.None?
    ensures s'.history == s.history + if transform == Newest(s) then [] else [Revision(transform, at)]
    ensures s'.generation == s.generation + (if transform == Newest(s) then 0 else 2) && Words(s') == transform
  {
    hide Run, Initial, Going, CanGo, Inv, AfterStep, Trim;
    ReachableInv(initial, time, before, s);
    NobodyWrites(s);
    var first := At(s, t, Comparing(transform, at, LoadBefore));
    var last := At(s, t, Comparing(transform, at, LoadAfter(s.generation, s.scale, s.x, s.y)));
    UpdateCompares(s, t, transform, at);
    if transform == Newest(s) {
      s' := s;
      Gone(s', t);
      GoOn(last, t, s', 0);
      WholePass(s, t, Comparing(transform, at, LoadBefore), 1);
      GoingRuns(first, t, 5);
      actions := Times(t, 5);
    } else {
      WritingGoes(s, t, transform, at);
      s' := Going(At(s, t, LoadGeneration(transform, at)), t, 7);
      GoOn(last, t, At(s, t, LoadGeneration(transform, at)), 7);
      WholePass(s, t, Comparing(transform, at, LoadBefore), 8);
      GoingRuns(first, t, 12);
      actions := Times(t, 12);
    }
    RunCons(s, BeginUpdate(t, transform, at), actions, s');
  }

  lemma UpdateCompares(s: State, t: nat, transform: Transform, at: int)
    requires t !in s.calls
    ensures var last := At(s, t, Comparing(transform, at, LoadAfter(s.generation, s.scale, s.x, s.y)));
      && Enabled(last, Step(t))
      && AfterStep(last, t) == if transform == Words(s) then s else At(s, t, LoadGeneration(transform, at))
  {
    var call := Comparing(transform, at, LoadAfter(s.generation, s.scale, s.x, s.y));
    assert s.calls[t := call] - {t} == s.calls;
    AtStep(s, t, call, LoadGeneration(transform, at));
  }

  // How many steps a holder has left.
  function StepsLeft(call: Call): nat {
    match call
    case StoreScale(_, _, _) => 5
    case StoreX(_, _, _) => 4
    case StoreY(_, _, _) => 3
    case PushUpdate(_, _, _) => 2
    case Publish(_, _, _) => 1
    case _ => 0
  }

  lemma HolderAdvances(s: State, t: nat)
    requires t in s.calls && s.calls[t].InCriticalSection()
    ensures Enabled(s, Step(t))
    ensures var call, s' := s.calls[t], After(s, Step(t));
      if call.Publish?
      then && s'.holder.None? && s'.calls == s.calls - {t}
           && s'.history == s.history + [Revision(call.transform, call.time)]
      else && s'.holder == s.holder && t in s'.calls && s'.calls[t].InCriticalSection()
           && s'.calls - {t} == s.calls - {t} && StepsLeft(s'.calls[t]) < StepsLeft(call) && s'.history == s.history
           && s'.calls[t].transform == call.transform && s'.calls[t].time == call.time
  {
    hide Trim;
  }

  /** A writer in its critical section never waits: by itself it publishes and lets go. */
  lemma {:induction false} HolderFinishes(s: State, t: nat) returns (actions: seq<Action>, s': State)
    requires t in s.calls && s.calls[t].InCriticalSection()
    ensures Run(s, actions, s') && s'.holder.None? && s'.calls == s.calls - {t}
    ensures s'.history == s.history + [Revision(s.calls[t].transform, s.calls[t].time)]
    decreases StepsLeft(s.calls[t])
  {
    HolderAdvances(s, t);
    var s1 := After(s, Step(t));
    if s.calls[t].Publish? {
      hide After, Enabled;
      actions, s' := [Step(t)] + [], s1;
      RunCons(s, Step(t), [], s1);
    } else {
      hide After, Enabled, StepsLeft;
      var rest;
      rest, s' := HolderFinishes(s1, t);
      RunCons(s, Step(t), rest, s');
      actions := [Step(t)] + rest;
    }
  }
}
