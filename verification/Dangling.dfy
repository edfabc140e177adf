/** Timer keys in circulation (`src/engine.rs`, `src/compile/resolve.rs`): the scheduler and
    the queue only ever hold generated keys and keys some configured command schedules, so
    a `timer:` trigger on a key nothing schedules is dead on every run. */
module Dangling {
  import opened Model
  import opened TimerKeys
  import opened Rules
  import opened Scheduler
  import opened Scenes
  import opened EngineSpec
  import opened EngineInvariants
  import opened Reachable

  predicate SchedulesKey(commands: seq<Command>, key: TimerKey) {
    exists c <- commands :: c.ScheduleTimer? && c.key == key
  }

  /** Some rule or scene of the configuration schedules the key. */
  predicate Scheduled(w: Wiring, key: TimerKey) {
    (exists rule <- w.rules :: SchedulesKey(rule.commands, key))
    || (exists scene <- w.scenes.Keys :: SchedulesKey(w.scenes[scene], key))
  }

  predicate Allowed(w: Wiring, key: TimerKey) {
    w.keys.Reserved(key) || Scheduled(w, key)
  }

  predicate Configured(w: Wiring, command: Command) {
    command.ScheduleTimer? ==> Scheduled(w, command.key)
  }

  /** Every key in the scheduler or in a queued `TimerElapsed` is generated or configured. */
  ghost predicate Circulating(w: Wiring, s: State) {
    KnownTimers(w, s) && forall key <- Elapsing(s.queue) :: Allowed(w, key)
  }

  ghost predicate KnownTimers(w: Wiring, s: State) {
    forall key <- s.timers.Keys :: Allowed(w, key)
  }

  // --- commands --------------------------------------------------------------------------

  lemma MemberConfigured(w: Wiring, commands: seq<Command>)
    requires (exists rule <- w.rules :: rule.commands == commands)
      || (exists scene <- w.scenes.Keys :: w.scenes[scene] == commands)
    ensures forall c <- commands :: Configured(w, c)
  {
    forall c <- commands ensures Configured(w, c) {
      if c.ScheduleTimer? {
        assert SchedulesKey(commands, c.key);
      }
    }
  }

  lemma {:induction false} LeavesConfigured(w: Wiring, commands: seq<Command>, avail: set<SceneId>)
    requires forall c <- commands :: Configured(w, c)
    ensures forall c <- Leaves(w.scenes, commands, avail) :: Configured(w, c)
    decreases avail, |commands|
  {
    if commands != [] {
      if Opens(w.scenes, commands[0]) && commands[0].scene in avail {
        MemberConfigured(w, w.scenes[commands[0].scene]);
        LeavesConfigured(w, w.scenes[commands[0].scene], avail - {commands[0].scene});
      }
      LeavesConfigured(w, commands[1..], avail);
    }
  }

  lemma DeliverKnown(w: Wiring, answers: Answers, s: State, command: Command, attempt: nat, depth: nat,
      via: Option<TimerKey>)
    requires w.keys.Valid() && !command.ActivateScene? && Configured(w, command) && KnownTimers(w, s)
    ensures KnownTimers(w, Deliver(w, answers, s, command, attempt, depth, via))
  {
    ResolvedTarget(s.store, command);
    assert w.keys.isRetry(w.keys.retry(s.retryCounter + 1));
  }

  lemma {:induction false} DeliverAllKnown(w: Wiring, answers: Answers, s: State, commands: seq<Command>, depth: nat)
    requires w.keys.Valid() && (forall c <- commands :: !c.ActivateScene? && Configured(w, c)) && KnownTimers(w, s)
    ensures KnownTimers(w, DeliverAll(w, answers, s, commands, depth))
    decreases |commands|
  {
    if commands != [] {
      DeliverKnown(w, answers, s, commands[0], 1, depth, None);
      DeliverAllKnown(w, answers, Deliver(w, answers, s, commands[0], 1, depth, None), commands[1..], depth);
    }
  }

  lemma RunKnown(w: Wiring, answers: Answers, s: State, commands: seq<Command>, depth: nat)
    requires w.keys.Valid() && (forall c <- commands :: Configured(w, c)) && KnownTimers(w, s)
    ensures KnownTimers(w, Run(w, answers, s, commands, depth))
  {
    LeavesConfigured(w, commands, w.scenes.Keys);
    DeliverAllKnown(w, answers, s, Flatten(w.scenes, commands), depth);
  }

  // --- events ----------------------------------------------------------------------------

  lemma {:induction false} ArmAllKnown(w: Wiring, s: State, fired: seq<Rule>)
    requires w.keys.Valid() && KnownTimers(w, s)
    ensures KnownTimers(w, ArmAll(w, s, fired))
    decreases |fired|
  {
    if fired != [] && fired[0].forDuration.Some? {
      assert w.keys.isFor(w.keys.sustained(s.forCounter + 1));
      ArmAllKnown(w, Arm(w, s, fired[0].id, fired[0].forDuration.value), fired[1..]);
    } else if fired != [] {
      ArmAllKnown(w, s, fired[1..]);
    }
  }

  lemma ReactKnown(w: Wiring, answers: Answers, s: State, event: Event, depth: nat)
    requires w.keys.Valid() && KnownTimers(w, s)
    ensures KnownTimers(w, React(w, answers, s, event, depth))
  {
    var folded := Folded(w, s, event);
    var fired := Fired(w.rules, event, Prior(s, event), folded.store);
    ArmAllKnown(w, folded, fired);
    FiredMembers(w.rules, event, Prior(s, event), folded.store);
    ImmediateMembers(fired);
    forall c <- Immediate(fired) ensures Configured(w, c) {
      var r :| r in fired && c in r.commands;
      MemberConfigured(w, r.commands);
    }
    RunKnown(w, answers, ArmAll(w, folded, fired), Immediate(fired), depth);
  }

  lemma HandleUserKnown(w: Wiring, answers: Answers, s: State, event: Event, depth: nat)
    requires w.keys.Valid() && KnownTimers(w, s)
    ensures KnownTimers(w, HandleUser(w, answers, s, event, depth))
  {
    match event
    case RequestedChange(device, desired) =>
      var command := CommandForRequest(device, desired);
      if command.Some? {
        RunKnown(w, answers, s, [command.value], depth);
      }
    case RequestedScene(scene) => RunKnown(w, answers, s, [ActivateScene(scene)], depth);
    case _ => ReactKnown(w, answers, s, event, depth);
  }

  lemma ReissueKnown(w: Wiring, answers: Answers, s: State, key: TimerKey)
    requires w.keys.Valid() && key in s.retries && s.retries[key].command.TargetsDevice() && KnownTimers(w, s)
    ensures KnownTimers(w, Reissue(w, answers, s, key))
  {
    var pending := s.retries[key];
    DeliverKnown(w, answers, s.(retries := s.retries - {key}), pending.command, pending.attempt, 0, Some(key));
  }

  lemma ElapsedKnown(w: Wiring, answers: Answers, s: State, key: TimerKey)
    requires w.keys.Valid() && KnownTimers(w, s)
    ensures KnownTimers(w, FireElapsed(w, answers, s, key))
  {
    forall id: RuleId | Sustains(w, id, s.store)
      ensures KnownTimers(w,
        Run(w, answers, s.(pendingFor := s.pendingFor - {id}), FindRule(w.rules, id).value.commands, 0))
    {
      FindRuleMember(w.rules, id);
      MemberConfigured(w, FindRule(w.rules, id).value.commands);
      RunKnown(w, answers, s.(pendingFor := s.pendingFor - {id}), FindRule(w.rules, id).value.commands, 0);
    }
  }

  lemma ProcessKnown(w: Wiring, answers: Answers, s: State)
    requires w.keys.Valid() && s.queue != [] && Retrying(w, s) && KnownTimers(w, s)
    ensures KnownTimers(w, Process(w, answers, s))
  {
    var event, depth := s.queue[0].event, s.queue[0].depth;
    var popped := Popped(s);
    if !Dropped(w, s) {
      if event.TimerElapsed? && event.key in s.retries {
        ReissueKnown(w, answers, popped, event.key);
      } else if event.TimerElapsed? && w.keys.isFor(event.key) {
        ElapsedKnown(w, answers, popped, event.key);
      } else {
        HandleUserKnown(w, answers, popped, event, depth);
      }
    }
  }

  // --- runs --------------------------------------------------------------------------------

  lemma ProcessCirculates(w: Wiring, answers: Answers, s: State)
    requires WellFormed(w) && CleanAnswers(answers) && Inv(w, s) && s.queue != [] && Circulating(w, s)
    ensures Circulating(w, Process(w, answers, s))
  {
    var t := Process(w, answers, s);
    ProcessKnown(w, answers, s);
    if !Dropped(w, s) {
      HandleKeeps(w, answers, s);
    }
    PushElapsing(s.queue, t.queue);
  }

  lemma TickCirculates(w: Wiring, s: State, t: State, now: Millis, due: seq<Deadline>, produced: seq<Event>)
    requires s.queue == [] && KnownTimers(w, s) && (forall e <- produced :: Clean(e))
    requires (forall e <- s.inbox :: Clean(e))
    requires t == Ticked(s, now, due, produced) && ListsDue(s.timers, now, due)
    ensures Circulating(w, t)
  {
    TickElapsing(s, now, due, produced);
    forall key <- Elapsing(t.queue) ensures Allowed(w, key) {
      assert key in KeySet(due);
    }
  }

  lemma AdvanceCirculates(w: Wiring, answers: Answers, s: State, dt: Millis, produced: seq<Event>, t: State)
    requires StepsTo(w, answers, s, Input.Advance(dt, produced), t) && KnownTimers(w, s)
    requires (forall e <- produced :: Clean(e)) && (forall e <- s.inbox :: Clean(e))
    ensures Circulating(w, t)
  {
    var due := AdvanceLists(w, answers, s, t, dt, produced);
    TickCirculates(w, s, t, s.now + dt, due, produced);
  }

  lemma NextCirculates(w: Wiring, answers: Answers, s: State, input: Input, t: State)
    requires WellFormed(w) && CleanAnswers(answers) && CleanInput(input) && Inv(w, s)
    requires StepsTo(w, answers, s, input, t)
    requires Circulating(w, s)
    ensures Circulating(w, t)
  {
    match input
    case Pop => ProcessCirculates(w, answers, s);
    case Advance(dt, produced) => AdvanceCirculates(w, answers, s, dt, produced, t);
    case Inject(event) => CleanNeverElapses([Queued(event, 0)]);
    case _ =>
  }

  lemma {:induction false} RunsCirculate(w: Wiring, answers: Answers, states: seq<State>, inputs: seq<Input>, n: nat)
    requires WellFormed(w) && CleanAnswers(answers) && CleanInputs(inputs)
    requires IsRun(w, answers, states, inputs) && n < |states|
    ensures Circulating(w, states[n])
  {
    if n > 0 {
      RunsCirculate(w, answers, states, inputs, n - 1);
      RunsKeepInv(w, answers, states, inputs, n - 1);
      assert StepsTo(w, answers, states[n - 1], inputs[n - 1], states[n]);
      NextCirculates(w, answers, states[n - 1], inputs[n - 1], states[n]);
    }
  }

  /** The dangling-timer warning is sound: whatever key a `timer:` trigger names, if no
      configured command schedules it the trigger matches on no run. */
  lemma UnscheduledTimerNeverMatches(w: Wiring, answers: Answers, states: seq<State>, inputs: seq<Input>, n: nat,
      rule: Rule)
    requires WellFormed(w) && CleanAnswers(answers) && CleanInputs(inputs)
    requires IsRun(w, answers, states, inputs) && n < |states|
    requires rule in w.rules && rule.trigger.Timer? && !Scheduled(w, rule.trigger.key)
    requires states[n].queue != [] && ReachesRules(w, states[n])
    ensures !rule.trigger.Matches(states[n].queue[0].event, Prior(states[n], states[n].queue[0].event))
  {
    var s := states[n];
    RunsCirculate(w, answers, states, inputs, n);
    RunsKeepInv(w, answers, states, inputs, n);
    var event := s.queue[0].event;
    if event == TimerElapsed(rule.trigger.key) {
      ReservedNeverReachesRules(w, s, event.key);
    }
  }

  lemma ReservedNeverReachesRules(w: Wiring, s: State, key: TimerKey)
    requires Owned(w, s) && Circulating(w, s) && s.queue != [] && s.queue[0].event == TimerElapsed(key)
    requires ReachesRules(w, s)
    ensures Scheduled(w, key)
  {
    assert key in Elapsing(s.queue);
    assert Expected(w, s, key);
    assert Allowed(w, key);
  }
}
