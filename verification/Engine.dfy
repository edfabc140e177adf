/** The runtime object (`src/engine.rs`, `struct Engine`): the tables the loop updates in
    place, with every hash-map walk done in an arbitrary order. Each method is tied to the
    step function it implements, so what is proved of runs holds of the object, and two
    engines driven alike cannot be told apart. */
module Engine {
  import opened Model
  import opened StateStore
  import opened Rules
  import opened Scheduler
  import opened Scenes
  import opened EngineSpec
  import opened EngineInvariants
  import opened AnyRun
  import opened Reachable
  import opened Drain

  // --- composition of dispatches ---------------------------------------------------------

  lemma {:induction false} DeliverAllAppend(w: Wiring, answers: Answers, s: State, a: seq<Command>, b: seq<Command>,
      depth: nat)
    requires forall c <- a :: !c.ActivateScene?
    requires forall c <- b :: !c.ActivateScene?
    ensures DeliverAll(w, answers, s, a + b, depth) ==
      DeliverAll(w, answers, DeliverAll(w, answers, s, a, depth), b, depth)
    decreases |a|
  {
    if a == [] {
      assert a + b == b;
    } else {
      assert (a + b)[1..] == a[1..] + b;
      DeliverAllAppend(w, answers, Deliver(w, answers, s, a[0], 1, depth, None), a[1..], b, depth);
    }
  }

  /** What dispatching a list of commands, scene by scene, comes to. */
  function Expanded(w: Wiring, answers: Answers, s: State, commands: seq<Command>, depth: nat,
      avail: set<SceneId>): State {
    DeliverAll(w, answers, s, Leaves(w.scenes, commands, avail), depth)
  }

  /** One command of `dispatch_at`. */
  function Dispatched(w: Wiring, answers: Answers, s: State, command: Command, attempt: nat, depth: nat,
      via: Option<TimerKey>, avail: set<SceneId>): State {
    if command.ActivateScene? then Expanded(w, answers, s, [command], depth, avail)
    else Deliver(w, answers, s, command, attempt, depth, via)
  }

  lemma ExpandedStep(w: Wiring, answers: Answers, s: State, commands: seq<Command>, depth: nat, avail: set<SceneId>)
    requires commands != []
    ensures Expanded(w, answers, s, commands, depth, avail) ==
      Expanded(w, answers, Dispatched(w, answers, s, commands[0], 1, depth, None, avail), commands[1..], depth, avail)
  {
    var head, rest := [commands[0]], commands[1..];
    assert head[1..] == [] && Leaves(w.scenes, head[1..], avail) == [];
    var first := Leaves(w.scenes, head, avail);
    if commands[0].ActivateScene? {
      assert Leaves(w.scenes, commands, avail) == first + Leaves(w.scenes, rest, avail);
      DeliverAllAppend(w, answers, s, first, Leaves(w.scenes, rest, avail), depth);
    } else {
      var leaves := Leaves(w.scenes, commands, avail);
      assert leaves == [commands[0]] + Leaves(w.scenes, rest, avail);
      assert leaves[1..] == Leaves(w.scenes, rest, avail);
    }
  }

  lemma SceneExpands(w: Wiring, answers: Answers, s: State, command: Command, depth: nat, avail: set<SceneId>)
    requires command.ActivateScene? && NoRevisit(w.scenes, [command], avail)
    ensures Expanded(w, answers, s, [command], depth, avail) ==
      if command.scene in w.scenes then
        Expanded(w, answers, s, w.scenes[command.scene], depth, avail - {command.scene})
      else s
  {
    var rest := [command][1..];
    assert rest == [] && Leaves(w.scenes, rest, avail) == [];
    if command.scene in w.scenes {
      var inner := Leaves(w.scenes, w.scenes[command.scene], avail - {command.scene});
      assert Leaves(w.scenes, [command], avail) == inner + [];
      assert inner + [] == inner;
    }
  }

  // --- host calls -----------------------------------------------------------------------------

  datatype HostCall =
    | Inject(event: Event)
    | Advance(dt: Millis, produced: seq<Event>)
    | Start(produced: seq<Event>)

  predicate CleanCall(call: HostCall) {
    match call
    case Inject(event) => Clean(event)
    case Advance(_, produced) => forall e <- produced :: Clean(e)
    case Start(produced) => forall e <- produced :: Clean(e)
  }

  /** A state between two host calls. */
  ghost predicate AtRest(w: Wiring, s: State) {
    Steady(w, s) && s.queue == []
  }

  /** Whatever the host puts in front of an idle loop, at depth 0, leaves it steady. */
  lemma FilledSteady(w: Wiring, s: State, t: State)
    requires AtRest(w, s) && (forall q <- t.queue :: q.depth == 0)
    requires t.retries == s.retries && t.pendingFor == s.pendingFor && t.forCounter == s.forCounter
    requires t.store == s.store
    ensures Steady(w, t)
  {
    FewerTabled(w, s, t);
  }

  ghost function Injected(w: Wiring, s: State, event: Event): (t: State)
    requires AtRest(w, s)
    ensures Steady(w, t)
  {
    var t := s.(queue := s.queue + [Queued(event, 0)]);
    FilledSteady(w, s, t);
    t
  }

  ghost function Advanced(w: Wiring, s: State, dt: Millis, produced: seq<Event>): (t: State)
    requires AtRest(w, s)
    ensures Steady(w, t)
  {
    FilledSteady(w, s, Tick(s, dt, produced));
    Tick(s, dt, produced)
  }

  ghost function Called(w: Wiring, answers: Answers, s: State, call: HostCall): (t: State)
    requires Acyclic(w.scenes) && w.keys.Valid() && HonestAnswers(w, answers) && AtRest(w, s)
    ensures AtRest(w, t)
  {
    match call
    case Inject(event) => Drained(w, answers, Injected(w, s, event))
    case Advance(dt, produced) => Drained(w, answers, Advanced(w, s, dt, produced))
    case Start(produced) => Synced(w, Drained(w, answers, Advanced(w, s, 0, produced)))
  }

  ghost function Synced(w: Wiring, s: State): (t: State)
    requires AtRest(w, s)
    ensures AtRest(w, t)
  {
    FilledSteady(w, s, s.(mirror := s.mirror + s.store));
    s.(mirror := s.mirror + s.store)
  }

  ghost function Served(w: Wiring, answers: Answers, s: State, calls: seq<HostCall>): (t: State)
    requires Acyclic(w.scenes) && w.keys.Valid() && HonestAnswers(w, answers) && AtRest(w, s)
    ensures AtRest(w, t)
    decreases |calls|
  {
    if calls == [] then s
    else Served(w, answers, Called(w, answers, s, calls[0]), calls[1..])
  }

  lemma ServedStep(w: Wiring, answers: Answers, s: State, calls: seq<HostCall>, i: nat)
    requires Acyclic(w.scenes) && w.keys.Valid() && HonestAnswers(w, answers) && AtRest(w, s) && i < |calls|
    ensures Served(w, answers, s, calls[i..]) == Served(w, answers, Called(w, answers, s, calls[i]), calls[i + 1..])
  {
    var rest := calls[i..];
    assert rest[0] == calls[i] && rest[1..] == calls[i + 1..];
  }

  /** Moving the clock first and ticking then is one advance. */
  lemma MovedTicks(s: State, moved: State, dt: Millis, produced: seq<Event>)
    requires moved == s.(now := s.now + dt)
    ensures Ticked(moved, moved.now, Due(moved.timers, moved.now), produced) == Tick(s, dt, produced)
  {
  }

  // --- host calls are runs -------------------------------------------------------------------

  lemma {:induction false} DrainedRuns(w: Wiring, answers: Answers, states: seq<State>, inputs: seq<Input>, s: State)
    returns (moreStates: seq<State>, moreInputs: seq<Input>)
    requires Acyclic(w.scenes) && w.keys.Valid() && HonestAnswers(w, answers) && Steady(w, s)
    requires RunTo(w, answers, states, inputs, s)
    ensures RunTo(w, answers, moreStates, moreInputs, Drained(w, answers, s))
    ensures CleanInputs(inputs) ==> CleanInputs(moreInputs)
    decreases LayersLeft(w, s.queue), FrontSize(s.queue)
  {
    if s.queue == [] {
      moreStates, moreInputs := states, inputs;
    } else {
      var t := Process(w, answers, s);
      ProcessIsProgress(w, answers, s, t);
      RunGrows(w, answers, states, inputs, s, Pop, t);
      moreStates, moreInputs := DrainedRuns(w, answers, states + [t], inputs + [Pop], t);
    }
  }

  lemma CalledRuns(w: Wiring, answers: Answers, states: seq<State>, inputs: seq<Input>, s: State, call: HostCall)
    returns (moreStates: seq<State>, moreInputs: seq<Input>)
    requires Acyclic(w.scenes) && w.keys.Valid() && HonestAnswers(w, answers) && AtRest(w, s)
    requires RunTo(w, answers, states, inputs, s)
    ensures RunTo(w, answers, moreStates, moreInputs, Called(w, answers, s, call))
    ensures CleanInputs(inputs) && CleanCall(call) ==> CleanInputs(moreInputs)
  {
    match call
    case Inject(event) =>
      moreStates, moreInputs :=
        StepThenDrain(w, answers, states, inputs, s, Input.Inject(event), Injected(w, s, event));
    case Advance(dt, produced) =>
      moreStates, moreInputs :=
        StepThenDrain(w, answers, states, inputs, s, Input.Advance(dt, produced), Advanced(w, s, dt, produced));
    case Start(produced) =>
      var drainedStates, drainedInputs :=
        StepThenDrain(w, answers, states, inputs, s, Input.Advance(0, produced), Advanced(w, s, 0, produced));
      var drained := drainedStates[|drainedInputs|];
      RunGrows(w, answers, drainedStates, drainedInputs, drained, Sync, Synced(w, drained));
      moreStates, moreInputs := drainedStates + [Synced(w, drained)], drainedInputs + [Sync];
  }

  lemma StepThenDrain(w: Wiring, answers: Answers, states: seq<State>, inputs: seq<Input>, s: State, input: Input,
      t: State)
    returns (moreStates: seq<State>, moreInputs: seq<Input>)
    requires Acyclic(w.scenes) && w.keys.Valid() && HonestAnswers(w, answers) && RunTo(w, answers, states, inputs, s)
    requires StepsTo(w, answers, s, input, t) && Steady(w, t)
    ensures RunTo(w, answers, moreStates, moreInputs, Drained(w, answers, t))
    ensures CleanInputs(inputs) && CleanInput(input) ==> CleanInputs(moreInputs)
  {
    RunGrows(w, answers, states, inputs, s, input, t);
    moreStates, moreInputs := DrainedRuns(w, answers, states + [t], inputs + [input], t);
  }

  /** Whatever an engine has been asked to do, its state is one that a run leads to: what is
      proved of runs holds of it. */
  lemma {:induction false} ServedRuns(w: Wiring, answers: Answers, states: seq<State>, inputs: seq<Input>, s: State,
      calls: seq<HostCall>)
    returns (moreStates: seq<State>, moreInputs: seq<Input>)
    requires Acyclic(w.scenes) && w.keys.Valid() && HonestAnswers(w, answers) && AtRest(w, s)
    requires RunTo(w, answers, states, inputs, s)
    ensures RunTo(w, answers, moreStates, moreInputs, Served(w, answers, s, calls))
    ensures CleanInputs(inputs) && (forall c <- calls :: CleanCall(c)) ==> CleanInputs(moreInputs)
    decreases |calls|
  {
    if calls == [] {
      moreStates, moreInputs := states, inputs;
    } else {
      var t := Called(w, answers, s, calls[0]);
      var nextStates, nextInputs := CalledRuns(w, answers, states, inputs, s, calls[0]);
      moreStates, moreInputs := ServedRuns(w, answers, nextStates, nextInputs, t, calls[1..]);
    }
  }

  /** What one iteration of the object's loop needs of the tables. */
  lemma ForEachKeyed(w: Wiring, s: State)
    requires Tabled(w, s)
    ensures OneRulePerKey(s) && forall key <- s.retries.Keys :: s.retries[key].command.TargetsDevice()
  {
    forall key <- s.retries.Keys ensures s.retries[key].command.TargetsDevice() {
      assert KeyedRetry(w, s, key);
    }
  }

  // --- spec of the pieces ---------------------------------------------------------------------

  function Settled(w: Wiring, s: State, outcome: DispatchOutcome, command: Command, attempt: nat, depth: nat): State {
    var again := Retryable(w, outcome, attempt);
    var key := w.keys.retry(s.retryCounter + 1);
    s.(queue := s.queue + Reply(w, outcome, command, attempt, depth),
       retryCounter := if again then s.retryCounter + 1 else s.retryCounter,
       retries := if again then s.retries[key := PendingRetry(command, attempt + 1)] else s.retries,
       timers := if again then s.timers[key := s.now + Backoff(w.retry, attempt)] else s.timers)
  }

  lemma AttemptedSettles(w: Wiring, answers: Answers, s: State, command: Command, attempt: nat, depth: nat,
      via: Option<TimerKey>)
    requires command.TargetsDevice()
    ensures var outcome := Answer(w, answers, s, command.device);
      var next := if Retryable(w, outcome, attempt) then Some(w.keys.retry(s.retryCounter + 1)) else None;
      Attempted(w, answers, s, command, attempt, depth, via) ==
      Settled(w, s.(attempts := s.attempts + [Attempt(command, attempt, s.now, outcome, via, next)]),
              outcome, command, attempt, depth)
  {
  }

  lemma FireElapsedIs(w: Wiring, answers: Answers, s: State, id: RuleId, key: TimerKey)
    requires OneRulePerKey(s) && AwaitedBy(s, id, key)
    ensures FireElapsed(w, answers, s, key) ==
      var taken := s.(pendingFor := s.pendingFor - {id});
      if Sustains(w, id, s.store) then Run(w, answers, taken, FindRule(w.rules, id).value.commands, 0) else taken
  {
    forall a: RuleId ensures AwaitedBy(s, a, key) ==> a == id {
    }
  }

  lemma FirstNeverRevisits(scenes: SceneTable, commands: seq<Command>, avail: set<SceneId>)
    requires commands != [] && NoRevisit(scenes, commands, avail)
    ensures NoRevisit(scenes, [commands[0]], avail) && NoRevisit(scenes, commands[1..], avail)
  {
    var head := [commands[0]];
    assert head[1..] == [] && NoRevisit(scenes, head[1..], avail);
  }

  // --- matching and arming, as the loop does them --------------------------------------------

  function ArmList(fired: seq<Rule>): seq<(RuleId, Millis)> {
    if fired == [] then []
    else (if fired[0].forDuration.Some? then [(fired[0].id, fired[0].forDuration.value)] else []) + ArmList(fired[1..])
  }

  function ArmPairs(w: Wiring, s: State, arms: seq<(RuleId, Millis)>): State
    decreases |arms|
  {
    if arms == [] then s else ArmPairs(w, Arm(w, s, arms[0].0, arms[0].1), arms[1..])
  }

  lemma {:induction false} ArmListArmsAll(w: Wiring, s: State, fired: seq<Rule>)
    ensures ArmPairs(w, s, ArmList(fired)) == ArmAll(w, s, fired)
    decreases |fired|
  {
    if fired != [] {
      if fired[0].forDuration.Some? {
        assert ArmList(fired)[1..] == ArmList(fired[1..]);
        ArmListArmsAll(w, Arm(w, s, fired[0].id, fired[0].forDuration.value), fired[1..]);
      } else {
        assert ArmList(fired) == ArmList(fired[1..]);
        ArmListArmsAll(w, s, fired[1..]);
      }
    }
  }

  /** What is left of the rule loop from here on: commands to run now, waits to arm. */
  ghost predicate Collected(w: Wiring, event: Event, prior: Option<CapabilityState>, store: Store, i: nat,
      arms: seq<(RuleId, Millis)>, commands: seq<Command>)
    requires i <= |w.rules|
  {
    var all, rest := Fired(w.rules, event, prior, store), Fired(w.rules[i..], event, prior, store);
    arms + ArmList(rest) == ArmList(all) && commands + Immediate(rest) == Immediate(all)
  }

  /** What one considered rule adds to the waits to arm and the commands to run. */
  function WaitOf(rule: Rule, fires: bool): seq<(RuleId, Millis)> {
    if fires && rule.forDuration.Some? then [(rule.id, rule.forDuration.value)] else []
  }

  function RunOf(rule: Rule, fires: bool): seq<Command> {
    if fires && rule.forDuration.None? then rule.commands else []
  }

  lemma CollectStart(w: Wiring, event: Event, prior: Option<CapabilityState>, store: Store)
    ensures Collected(w, event, prior, store, 0, [], [])
  {
    assert w.rules[0..] == w.rules;
  }

  lemma CollectEnd(w: Wiring, event: Event, prior: Option<CapabilityState>, store: Store,
      arms: seq<(RuleId, Millis)>, commands: seq<Command>)
    requires Collected(w, event, prior, store, |w.rules|, arms, commands)
    ensures var fired := Fired(w.rules, event, prior, store); arms == ArmList(fired) && commands == Immediate(fired)
  {
  }

  lemma CollectStep(w: Wiring, event: Event, prior: Option<CapabilityState>, store: Store, i: nat,
      arms: seq<(RuleId, Millis)>, commands: seq<Command>)
    requires i < |w.rules| && Collected(w, event, prior, store, i, arms, commands)
    ensures var rule := w.rules[i];
      var fires := rule.Fires(event, prior, store);
      Collected(w, event, prior, store, i + 1, arms + WaitOf(rule, fires), commands + RunOf(rule, fires))
  {
    assert w.rules[i..][0] == w.rules[i] && w.rules[i..][1..] == w.rules[i + 1..];
    FiredHead(w.rules[i..], event, prior, store);
    var rule, rest := w.rules[i], Fired(w.rules[i + 1..], event, prior, store);
    var fires := rule.Fires(event, prior, store);
    Regroup(arms, WaitOf(rule, fires), ArmList(rest));
    Regroup(commands, RunOf(rule, fires), Immediate(rest));
  }

  lemma Regroup<T>(a: seq<T>, b: seq<T>, c: seq<T>)
    ensures (a + b) + c == a + (b + c)
  {
  }

  lemma FiredHead(rules: seq<Rule>, event: Event, prior: Option<CapabilityState>, store: Store)
    requires rules != []
    ensures var fires := rules[0].Fires(event, prior, store);
      var all, rest := Fired(rules, event, prior, store), Fired(rules[1..], event, prior, store);
      && ArmList(all) == WaitOf(rules[0], fires) + ArmList(rest)
      && Immediate(all) == RunOf(rules[0], fires) + Immediate(rest)
  {
    var rest := Fired(rules[1..], event, prior, store);
    assert ([rules[0]] + rest)[1..] == rest;
  }

  lemma DeviceNeverRevisits(scenes: SceneTable, command: Command)
    requires !command.ActivateScene?
    ensures NoRevisit(scenes, [command], {})
  {
    var rest := [command][1..];
    assert rest == [] && NoRevisit(scenes, rest, {});
  }

  ghost predicate IsLeastWake(delays: seq<Option<Millis>>, least: Option<Millis>) {
    match least
    case None => forall d <- delays :: d == None
    case Some(ms) => least in delays && forall d <- delays :: d.Some? ==> ms <= d.value
  }

  lemma LeastWakeGrows(delays: seq<Option<Millis>>, least: Option<Millis>, delay: Option<Millis>)
    requires IsLeastWake(delays, least)
    ensures IsLeastWake(delays + [delay],
      if delay.Some? && (least.None? || delay.value < least.value) then delay else least)
  {
    var grown := delays + [delay];
    assert grown[|delays|] == delay;
    assert forall d :: d in grown <==> d in delays || d == delay;
  }

  lemma WithoutNone(s: State)
    ensures WithoutWaits(s, {}) == s
  {
    var t := WithoutWaits(s, {});
    assert t.pendingFor == s.pendingFor && t.timers == s.timers;
  }

  lemma WithoutWaitsStep(s: State, ids: set<RuleId>, id: RuleId)
    requires ids <= s.pendingFor.Keys && id in s.pendingFor && id !in ids
    ensures var t := WithoutWaits(s, ids);
      id in t.pendingFor && t.pendingFor[id] == s.pendingFor[id]
      && WithoutWaits(s, ids + {id}) == t.(pendingFor := t.pendingFor - {id}, timers := t.timers - {s.pendingFor[id]})
  {
    var t := WithoutWaits(s, ids);
    assert s.pendingFor - (ids + {id}) == t.pendingFor - {id};
    assert (set a | a in ids + {id} :: s.pendingFor[a]) == (set a | a in ids :: s.pendingFor[a]) + {s.pendingFor[id]};
    assert s.timers - ((set a | a in ids :: s.pendingFor[a]) + {s.pendingFor[id]}) == t.timers - {s.pendingFor[id]};
  }

  class Engine {
    const wiring: Wiring
    const answers: Answers
    const state: StateTable
    const scheduler: SchedulerAdapter

    var now: Millis
    var queue: seq<Queued>
    var retries: map<TimerKey, PendingRetry>
    var retryCounter: nat
    var pendingFor: map<RuleId, TimerKey>
    var forCounter: nat
    var mirror: Store
    var inbox: seq<Event>
    var attempts: seq<Attempt>
    var received: seq<Event>

    ghost function View(): State
      reads this, state, scheduler
    {
      State(now, queue, state.entries, scheduler.pending, retries, retryCounter, pendingFor, forCounter,
            mirror, inbox, attempts, received)
    }

    constructor (wiring: Wiring, answers: Answers)
      ensures this.wiring == wiring && this.answers == answers
      ensures fresh(state) && fresh(scheduler)
      ensures View() == INITIAL
    {
      this.wiring, this.answers := wiring, answers;
      this.state := new StateTable();
      this.scheduler := new SchedulerAdapter();
      now, queue, retries, retryCounter := 0, [], map[], 0;
      pendingFor, forCounter, mirror, inbox, attempts, received := map[], 0, map[], [], [], [];
    }

    // --- outcomes ---

    method EnqueueAll(events: seq<Event>, depth: nat)
      modifies this`queue
      ensures queue == old(queue) + Tagged(events, depth)
    {
      for i := 0 to |events|
        invariant queue == old(queue) + Tagged(events[..i], depth)
      {
        queue := queue + [Queued(events[i], depth)];
        assert Tagged(events[..i + 1], depth) == Tagged(events[..i], depth) + [Queued(events[i], depth)];
      }
      assert events[..|events|] == events;
    }

    method ScheduleRetry(command: Command, failed: nat)
      modifies this`retryCounter, this`retries, scheduler
      ensures var key := wiring.keys.retry(old(retryCounter) + 1);
        View() == old(View()).(
          retryCounter := old(retryCounter) + 1,
          retries := old(retries)[key := PendingRetry(command, failed + 1)],
          timers := old(scheduler.pending)[key := now + Backoff(wiring.retry, failed)])
    {
      retryCounter := retryCounter + 1;
      var key := wiring.keys.retry(retryCounter);
      retries := retries[key := PendingRetry(command, failed + 1)];
      var _ := scheduler.Dispatch(ScheduleTimer(key, Backoff(wiring.retry, failed)), now);
    }

    method GiveUp(command: Command, reason: string, attempt: nat, depth: nat)
      modifies this`queue
      ensures View() == old(View()).(queue := old(queue) + [Queued(CommandFailed(command, reason, attempt), depth + 1)])
    {
      queue := queue + [Queued(CommandFailed(command, reason, attempt), depth + 1)];
    }

    method HandleOutcome(outcome: DispatchOutcome, command: Command, attempt: nat, depth: nat)
      modifies this`queue, this`retryCounter, this`retries, scheduler
      ensures View() == Settled(wiring, old(View()), outcome, command, attempt, depth)
    {
      match outcome {
        case Ok(events) =>
          EnqueueAll(events, depth + 1);
        case Transient(reason) =>
          if attempt < wiring.retry.maxAttempts {
            ScheduleRetry(command, attempt);
          } else {
            GiveUp(command, reason, attempt, depth);
          }
        case Permanent(reason) =>
          GiveUp(command, reason, attempt, depth);
      }
    }

    /** The bound adapter's answer: the next line of the script. */
    method AdapterDispatch(command: Command) returns (outcome: DispatchOutcome)
      requires command.TargetsDevice()
      ensures outcome == Answer(wiring, answers, View(), command.device)
    {
      if command.device in wiring.bound {
        outcome := answers(|attempts|);
      } else {
        outcome := Permanent(UNBOUND);
      }
    }

    method DispatchDevice(command: Command, attempt: nat, depth: nat, via: Option<TimerKey>)
      requires command.TargetsDevice()
      modifies this`queue, this`retryCounter, this`retries, this`attempts, scheduler
      ensures View() == Attempted(wiring, answers, old(View()), command, attempt, depth, via)
    {
      AttemptedSettles(wiring, answers, View(), command, attempt, depth, via);
      var outcome := AdapterDispatch(command);
      var next := if Retryable(wiring, outcome, attempt) then Some(wiring.keys.retry(retryCounter + 1)) else None;
      attempts := attempts + [Attempt(command, attempt, now, outcome, via, next)];
      HandleOutcome(outcome, command, attempt, depth);
    }

    // --- dispatch ---

    /** Recursion into scenes ends because no scene on the way can be entered again. */
    method DispatchAt(command: Command, attempt: nat, depth: nat, via: Option<TimerKey>, ghost avail: set<SceneId>)
      requires NoRevisit(wiring.scenes, [command], avail)
      modifies this`queue, this`retryCounter, this`retries, this`attempts, scheduler
      ensures View() == Dispatched(wiring, answers, old(View()), command, attempt, depth, via, avail)
      decreases avail, 0
    {
      var resolved := ResolveImplicit(state.entries, command);
      match resolved {
        case ActivateScene(scene) =>
          SceneExpands(wiring, answers, View(), command, depth, avail);
          if scene in wiring.scenes {
            DispatchEach(wiring.scenes[scene], depth, avail - {scene});
          }
        case ScheduleTimer(_, _) =>
          var _ := scheduler.Dispatch(resolved, now);
        case CancelTimer(_) =>
          var _ := scheduler.Dispatch(resolved, now);
        case _ =>
          DispatchDevice(resolved, attempt, depth, via);
      }
    }

    method DispatchEach(commands: seq<Command>, depth: nat, ghost avail: set<SceneId>)
      requires NoRevisit(wiring.scenes, commands, avail)
      modifies this`queue, this`retryCounter, this`retries, this`attempts, scheduler
      ensures View() == Expanded(wiring, answers, old(View()), commands, depth, avail)
      decreases avail, 1
    {
      for i := 0 to |commands|
        invariant NoRevisit(wiring.scenes, commands[i..], avail)
        invariant Expanded(wiring, answers, View(), commands[i..], depth, avail) ==
                  Expanded(wiring, answers, old(View()), commands, depth, avail)
      {
        ghost var rest := commands[i..];
        assert rest[0] == commands[i] && rest[1..] == commands[i + 1..];
        ExpandedStep(wiring, answers, View(), rest, depth, avail);
        FirstNeverRevisits(wiring.scenes, rest, avail);
        DispatchAt(commands[i], 1, depth, None, avail);
      }
    }

    // --- the mirror and the store ---

    method FanStateFolded(device: DeviceId, folded: CapabilityState)
      modifies this`mirror
      ensures mirror == Put(old(mirror), device, folded)
    {
      mirror := mirror[(device, folded.Kind()) := folded];
    }

    method FoldState(event: Event)
      modifies this`mirror, state
      ensures View() == if event.StateReported? then Fold(old(View()), event.device, event.state) else old(View())
    {
      if event.StateReported? {
        FanStateFolded(event.device, event.state);
        state.Set(event.device, event.state);
      }
    }

    /** Replays the whole store into the mirror, in whatever order the map yields it. */
    method SyncNorthbound()
      requires WellKeyed(state.entries)
      modifies this`mirror
      ensures mirror == old(mirror) + state.entries
    {
      var unvisited := state.entries.Keys;
      while unvisited != {}
        invariant unvisited <= state.entries.Keys
        invariant mirror == old(mirror) + (map key | key in state.entries && key !in unvisited :: state.entries[key])
      {
        var key :| key in unvisited;
        unvisited := unvisited - {key};
        FanStateFolded(key.0, state.entries[key]);
      }
    }

    // --- sustained edges ---

    method ArmForTimer(id: RuleId, after: Millis)
      modifies this`pendingFor, this`forCounter, scheduler
      ensures View() == Arm(wiring, old(View()), id, after)
    {
      ghost var was := View();
      if id in pendingFor {
        CancelWait(id);
      }
      forCounter := forCounter + 1;
      var key := wiring.keys.sustained(forCounter);
      pendingFor := pendingFor[id := key];
      assert pendingFor == was.pendingFor[id := key];
      var _ := scheduler.Dispatch(ScheduleTimer(key, after), now);
    }

    /** Which waits have lost their predicate, walking the map in an arbitrary order. */
    method FindReverted() returns (reverted: set<RuleId>)
      ensures reverted == Reverted(wiring, View())
    {
      reverted := {};
      var unvisited := pendingFor.Keys;
      while unvisited != {}
        invariant unvisited <= pendingFor.Keys
        invariant reverted == set id | id in pendingFor && id !in unvisited && !Sustains(wiring, id, state.entries)
      {
        var id :| id in unvisited;
        unvisited := unvisited - {id};
        if !Sustains(wiring, id, state.entries) {
          reverted := reverted + {id};
        }
      }
    }

    method CancelRevertedForTimers()
      modifies this`pendingFor, scheduler
      ensures View() == CancelReverted(wiring, old(View()))
    {
      var reverted := FindReverted();
      CancelWaits(reverted);
    }

    method CancelWaits(ids: set<RuleId>)
      requires ids <= pendingFor.Keys
      modifies this`pendingFor, scheduler
      ensures View() == WithoutWaits(old(View()), ids)
    {
      ghost var was := View();
      ghost var done: set<RuleId> := {};
      var left := ids;
      WithoutNone(was);
      while left != {}
        invariant done + left == ids && done !! left
        invariant View() == WithoutWaits(was, done)
        decreases left
      {
        var id :| id in left;
        WithoutWaitsStep(was, done, id);
        CancelWait(id);
        left, done := left - {id}, done + {id};
      }
      assert done == ids;
    }

    method CancelWait(id: RuleId)
      requires id in pendingFor
      modifies this`pendingFor, scheduler
      ensures View() == old(View()).(pendingFor := old(pendingFor) - {id},
                                     timers := old(scheduler.pending) - {old(pendingFor)[id]})
    {
      var key := pendingFor[id];
      pendingFor := pendingFor - {id};
      var _ := scheduler.Dispatch(CancelTimer(key), now);
    }

    /** The rule a timer key belongs to, found in an arbitrary walk. */
    method FindWaiting(key: TimerKey) returns (id: Option<RuleId>)
      ensures id.Some? ==> AwaitedBy(View(), id.value, key)
      ensures id.None? ==> forall a: RuleId :: !AwaitedBy(View(), a, key)
    {
      var unvisited := pendingFor.Keys;
      while unvisited != {}
        invariant unvisited <= pendingFor.Keys
        invariant forall a <- pendingFor.Keys - unvisited :: pendingFor[a] != key
      {
        var a :| a in unvisited;
        if pendingFor[a] == key {
          return Some(a);
        }
        unvisited := unvisited - {a};
      }
      return None;
    }

    method FireElapsedFor(key: TimerKey)
      requires Acyclic(wiring.scenes) && OneRulePerKey(View())
      modifies this`queue, this`retryCounter, this`retries, this`attempts, this`pendingFor, scheduler
      ensures View() == FireElapsed(wiring, answers, old(View()), key)
    {
      var found := FindWaiting(key);
      if found == None {
        return;
      }
      var id := found.value;
      FireElapsedIs(wiring, answers, View(), id, key);
      pendingFor := pendingFor - {id};
      var rule := FindRule(wiring.rules, id);
      if rule.Some? && rule.value.trigger.PredicateHolds(state.entries) {
        AcyclicNeverRevisits(wiring.scenes, rule.value.commands);
        DispatchEach(rule.value.commands, 0, wiring.scenes.Keys);
      }
    }

    // --- one event ---

    method MatchRules(event: Event, prior: Option<CapabilityState>) returns (arms: seq<(RuleId, Millis)>,
        commands: seq<Command>)
      ensures var fired := Fired(wiring.rules, event, prior, state.entries);
        arms == ArmList(fired) && commands == Immediate(fired)
    {
      arms, commands := [], [];
      CollectStart(wiring, event, prior, state.entries);
      for i := 0 to |wiring.rules|
        invariant Collected(wiring, event, prior, state.entries, i, arms, commands)
      {
        CollectStep(wiring, event, prior, state.entries, i, arms, commands);
        var armed, immediate := ConsiderRule(wiring.rules[i], event, prior);
        arms, commands := arms + armed, commands + immediate;
      }
      CollectEnd(wiring, event, prior, state.entries, arms, commands);
    }

    method ConsiderRule(rule: Rule, event: Event,
        prior: Option<CapabilityState>) returns (armed: seq<(RuleId, Millis)>, immediate: seq<Command>)
      ensures armed == WaitOf(rule, rule.Fires(event, prior, state.entries))
      ensures immediate == RunOf(rule, rule.Fires(event, prior, state.entries))
    {
      armed, immediate := [], [];
      if rule.trigger.Matches(event, prior) {
        var truth := rule.condition.Eval(state.entries);
        if truth == True {
          match rule.forDuration {
            case Some(after) => armed := [(rule.id, after)];
            case None => immediate := rule.commands;
          }
        }
      }
    }

    method ReactTo(event: Event, depth: nat)
      requires Acyclic(wiring.scenes)
      modifies this, state, scheduler
      ensures View() == React(wiring, answers, old(View()), event, depth)
    {
      var prior: Option<CapabilityState> :=
        if event.StateReported? then Get(state.entries, event.device, event.state.Kind()) else None;
      FoldState(event);
      if event.StateReported? {
        CancelRevertedForTimers();
      }
      ghost var folded := View();
      var arms, commands := MatchRules(event, prior);
      ArmEach(arms);
      ArmListArmsAll(wiring, folded, Fired(wiring.rules, event, prior, folded.store));
      AcyclicNeverRevisits(wiring.scenes, commands);
      DispatchEach(commands, depth, wiring.scenes.Keys);
    }

    method ArmEach(arms: seq<(RuleId, Millis)>)
      modifies this`pendingFor, this`forCounter, scheduler
      ensures View() == ArmPairs(wiring, old(View()), arms)
    {
      for i := 0 to |arms|
        invariant ArmPairs(wiring, View(), arms[i..]) == ArmPairs(wiring, old(View()), arms)
      {
        ghost var rest := arms[i..];
        assert rest[0] == arms[i] && rest[1..] == arms[i + 1..];
        ArmForTimer(arms[i].0, arms[i].1);
      }
    }

    /** The body of the loop for an event within the depth limit. */
    method HandleEvent(event: Event, depth: nat)
      requires Acyclic(wiring.scenes) && OneRulePerKey(View())
      requires forall key <- retries.Keys :: retries[key].command.TargetsDevice()
      modifies this, state, scheduler
      ensures View() == Handle(wiring, answers, old(View()), event, depth)
    {
      match event {
        case TimerElapsed(key) =>
          if key in retries {
            var pending := retries[key];
            retries := retries - {key};
            DispatchDeviceAgain(pending.command, pending.attempt, key);
          } else if wiring.keys.isFor(key) {
            FireElapsedFor(key);
          } else {
            ReactTo(event, depth);
          }
        case RequestedChange(device, desired) =>
          HandleRequest(device, desired, depth);
        case RequestedScene(scene) =>
          AcyclicNeverRevisits(wiring.scenes, [ActivateScene(scene)]);
          DispatchEach([ActivateScene(scene)], depth, wiring.scenes.Keys);
        case _ =>
          ReactTo(event, depth);
      }
    }

    method DispatchDeviceAgain(command: Command, attempt: nat, key: TimerKey)
      requires command.TargetsDevice()
      modifies this`queue, this`retryCounter, this`retries, this`attempts, scheduler
      ensures View() == Deliver(wiring, answers, old(View()), command, attempt, 0, Some(key))
    {
      DeviceNeverRevisits(wiring.scenes, command);
      DispatchAt(command, attempt, 0, Some(key), {});
    }

    method HandleRequest(device: DeviceId, desired: Desired, depth: nat)
      requires Acyclic(wiring.scenes)
      modifies this, state, scheduler
      ensures View() == Request(wiring, answers, old(View()), device, desired, depth)
    {
      var command := CommandForRequest(device, desired);
      if command.Some? {
        AcyclicNeverRevisits(wiring.scenes, [command.value]);
        DispatchEach([command.value], depth, wiring.scenes.Keys);
      }
      assert View() == RunRequest(wiring, answers, old(View()), device, desired, depth);
      var settled := Get(state.entries, device, desired.Kind());
      if settled.Some? {
        FanStateFolded(device, settled.value);
      }
    }

    /** One iteration of the loop. */
    method PopOne()
      requires Acyclic(wiring.scenes) && OneRulePerKey(View()) && queue != []
      requires forall key <- retries.Keys :: retries[key].command.TargetsDevice()
      modifies this, state, scheduler
      ensures View() == Process(wiring, answers, old(View()))
    {
      var front := queue[0];
      queue := queue[1..];
      if front.depth > wiring.maxDepth {
        return;
      }
      received := received + [front.event];
      HandleEvent(front.event, front.depth);
    }

    // --- the loop and the host's calls ---

    /** Runs to quiescence, and gets there. */
    method Drain()
      requires Acyclic(wiring.scenes) && wiring.keys.Valid() && HonestAnswers(wiring, answers) && Steady(wiring, View())
      modifies this, state, scheduler
      ensures View() == Drained(wiring, answers, old(View()))
    {
      while queue != []
        invariant Steady(wiring, View())
        invariant Drained(wiring, answers, View()) == Drained(wiring, answers, old(View()))
        decreases LayersLeft(wiring, queue), FrontSize(queue)
      {
        ProcessIsProgress(wiring, answers, View(), Process(wiring, answers, View()));
        ForEachKeyed(wiring, View());
        PopOne();
      }
    }

    method TickAdapters(produced: seq<Event>)
      modifies this`queue, this`inbox, scheduler
      ensures View() == Ticked(old(View()), now, Due(old(scheduler.pending), now), produced)
    {
      var due := scheduler.Tick(now);
      EnqueueAll(due + (produced + inbox), 0);
      inbox := [];
    }

    method InjectEvent(event: Event)
      requires Acyclic(wiring.scenes) && wiring.keys.Valid() && HonestAnswers(wiring, answers) && AtRest(wiring, View())
      modifies this, state, scheduler
      ensures View() == Called(wiring, answers, old(View()), HostCall.Inject(event))
    {
      ghost var injected := Injected(wiring, View(), event);
      queue := queue + [Queued(event, 0)];
      assert View() == injected;
      Drain();
    }

    method AdvanceBy(dt: Millis, produced: seq<Event>)
      requires Acyclic(wiring.scenes) && wiring.keys.Valid() && HonestAnswers(wiring, answers) && AtRest(wiring, View())
      modifies this, state, scheduler
      ensures View() == Called(wiring, answers, old(View()), HostCall.Advance(dt, produced))
    {
      ghost var was := View();
      ghost var advanced := Advanced(wiring, was, dt, produced);
      now := now + dt;
      MovedTicks(was, View(), dt, produced);
      TickAdapters(produced);
      assert View() == advanced;
      Drain();
    }

    method StartUp(produced: seq<Event>)
      requires Acyclic(wiring.scenes) && wiring.keys.Valid() && HonestAnswers(wiring, answers) && AtRest(wiring, View())
      modifies this, state, scheduler
      ensures View() == Called(wiring, answers, old(View()), HostCall.Start(produced))
    {
      ghost var advanced := Advanced(wiring, View(), 0, produced);
      MovedTicks(View(), View(), 0, produced);
      TickAdapters(produced);
      assert View() == advanced;
      Drain();
      SyncNorthbound();
    }

    method ServeOne(call: HostCall)
      requires Acyclic(wiring.scenes) && wiring.keys.Valid() && HonestAnswers(wiring, answers) && AtRest(wiring, View())
      modifies this, state, scheduler
      ensures View() == Called(wiring, answers, old(View()), call)
    {
      match call {
        case Inject(event) => InjectEvent(event);
        case Advance(dt, produced) => AdvanceBy(dt, produced);
        case Start(produced) => StartUp(produced);
      }
    }

    method Serve(calls: seq<HostCall>)
      requires Acyclic(wiring.scenes) && wiring.keys.Valid() && HonestAnswers(wiring, answers) && AtRest(wiring, View())
      modifies this, state, scheduler
      ensures View() == Served(wiring, answers, old(View()), calls)
    {
      ghost var was := View();
      ghost var s := was;
      assert calls[0..] == calls;
      for i := 0 to |calls|
        invariant s == View() && AtRest(wiring, s)
        invariant Served(wiring, answers, s, calls[i..]) == Served(wiring, answers, was, calls)
      {
        ServedStep(wiring, answers, s, calls, i);
        ServeOne(calls[i]);
        s := Called(wiring, answers, s, calls[i]);
      }
    }

    /** The smallest delay any adapter asks for: the scheduler's, or one of the others'. */
    method NextWakeDelay(others: seq<Option<Millis>>) returns (delay: Option<Millis>)
      ensures exists own :: IsWake(scheduler.pending, now, own) && IsLeastWake([own] + others, delay)
    {
      delay := scheduler.NextWake(now);
      ghost var own := delay;
      assert ([own] + others)[..1] == [own];
      for i := 0 to |others|
        invariant IsLeastWake(([own] + others)[..i + 1], delay)
      {
        LeastWakeGrows(([own] + others)[..i + 1], delay, others[i]);
        assert ([own] + others)[..i + 2] == ([own] + others)[..i + 1] + [others[i]];
        if others[i].Some? && (delay.None? || others[i].value < delay.value) {
          delay := others[i];
        }
      }
      assert ([own] + others)[..|others| + 1] == [own] + others;
    }
  }

  /** Deterministic replay: two engines with the same wiring, the same adapter answers and
      the same host calls end in the same state, trace of attempts included, however their
      hash maps were walked. */
  method ReplayTwice(wiring: Wiring, answers: Answers, calls: seq<HostCall>) returns (a: Engine, b: Engine)
    requires Acyclic(wiring.scenes) && wiring.keys.Valid() && HonestAnswers(wiring, answers)
    ensures a.View() == b.View()
    ensures AtRest(wiring, a.View())
  {
    a := new Engine(wiring, answers);
    a.Serve(calls);
    b := new Engine(wiring, answers);
    b.Serve(calls);
  }
}
