/** What the loop keeps with no assumption on the configuration and next to none on its
    environment: where a step may push, what it may not touch, and sane wait tables. */
module AnyRun {
  import opened Model
  import opened TimerKeys
  import opened StateStore
  import opened Rules
  import opened Scheduler
  import opened Scenes
  import opened EngineSpec
  import opened EngineInvariants

  // --- where a step pushes ---------------------------------------------------------------

  /** Everything a dispatch leaves alone, the one layer it pushes into, and what it pushes
      there: events of the given sort, and nothing unless it dispatched to a device. */
  ghost predicate Pushed(s: State, t: State, depth: nat, sort: Event -> bool) {
    && t.now == s.now && t.inbox == s.inbox && t.received == s.received && s.queue <= t.queue
    && |s.attempts| <= |t.attempts| && (|t.attempts| == |s.attempts| ==> t.queue == s.queue)
    && forall i :: |s.queue| <= i < |t.queue| ==> t.queue[i].depth == depth + 1 && sort(t.queue[i].event)
  }

  /** The sort allows the engine's own notices, and the adapters' answers from here on. */
  ghost predicate Allows(answers: Answers, s: State, sort: Event -> bool) {
    AllowsNotices(sort) && AnswersOnly(answers, |s.attempts|, sort)
  }

  ghost predicate AllowsNotices(sort: Event -> bool) {
    forall command, reason, attempts :: sort(CommandFailed(command, reason, attempts))
  }

  const ANY: Event -> bool := (e: Event) => true

  lemma AllowsAny(answers: Answers, s: State)
    ensures Allows(answers, s, ANY)
  {
  }

  lemma HonestAllows(w: Wiring, answers: Answers, s: State, n: nat)
    requires HonestFrom(w, answers, n) && n <= |s.attempts|
    ensures Allows(answers, s, Unreserved(w))
  {
  }

  lemma ReplyPushes(w: Wiring, outcome: DispatchOutcome, command: Command, attempt: nat, depth: nat,
      sort: Event -> bool)
    requires AllowsNotices(sort) && OutcomeOnly(outcome, sort)
    ensures forall i :: 0 <= i < |Reply(w, outcome, command, attempt, depth)| ==>
      var q := Reply(w, outcome, command, attempt, depth)[i]; q.depth == depth + 1 && sort(q.event)
  {
  }

  lemma DeliverPushes(w: Wiring, answers: Answers, s: State, command: Command, attempt: nat, depth: nat,
      via: Option<TimerKey>, sort: Event -> bool)
    requires !command.ActivateScene? && Allows(answers, s, sort)
    ensures var t := Deliver(w, answers, s, command, attempt, depth, via);
      Pushed(s, t, depth, sort) && Allows(answers, t, sort)
  {
    ResolvedTarget(s.store, command);
    if command.TargetsDevice() {
      var resolved := ResolveImplicit(s.store, command);
      assert OutcomeOnly(answers(|s.attempts|), sort);
      ReplyPushes(w, Answer(w, answers, s, resolved.device), resolved, attempt, depth, sort);
    }
  }

  lemma {:induction false} DeliverAllPushes(w: Wiring, answers: Answers, s: State, commands: seq<Command>, depth: nat,
      sort: Event -> bool)
    requires (forall c <- commands :: !c.ActivateScene?) && Allows(answers, s, sort)
    ensures Pushed(s, DeliverAll(w, answers, s, commands, depth), depth, sort)
    decreases |commands|
  {
    if commands != [] {
      DeliverPushes(w, answers, s, commands[0], 1, depth, None, sort);
      DeliverAllPushes(w, answers, Deliver(w, answers, s, commands[0], 1, depth, None), commands[1..], depth, sort);
    }
  }

  lemma RunPushes(w: Wiring, answers: Answers, s: State, commands: seq<Command>, depth: nat, sort: Event -> bool)
    requires Allows(answers, s, sort)
    ensures Pushed(s, Run(w, answers, s, commands, depth), depth, sort)
  {
    DeliverAllPushes(w, answers, s, Flatten(w.scenes, commands), depth, sort);
  }

  lemma {:induction false} ArmAllArms(w: Wiring, s: State, fired: seq<Rule>)
    ensures Armed(s, ArmAll(w, s, fired))
    decreases |fired|
  {
    if fired != [] && fired[0].forDuration.Some? {
      ArmAllArms(w, Arm(w, s, fired[0].id, fired[0].forDuration.value), fired[1..]);
    } else if fired != [] {
      ArmAllArms(w, s, fired[1..]);
    }
  }

  lemma ReactPushes(w: Wiring, answers: Answers, s: State, event: Event, depth: nat, sort: Event -> bool)
    requires Allows(answers, s, sort)
    ensures Pushed(s, React(w, answers, s, event, depth), depth, sort)
  {
    var folded := Folded(w, s, event);
    var fired := Fired(w.rules, event, Prior(s, event), folded.store);
    ArmAllArms(w, folded, fired);
    RunPushes(w, answers, ArmAll(w, folded, fired), Immediate(fired), depth, sort);
  }

  lemma HandleUserPushes(w: Wiring, answers: Answers, s: State, event: Event, depth: nat, sort: Event -> bool)
    requires Allows(answers, s, sort)
    ensures Pushed(s, HandleUser(w, answers, s, event, depth), depth, sort)
  {
    match event
    case RequestedChange(device, desired) =>
      var command := CommandForRequest(device, desired);
      if command.Some? {
        RunPushes(w, answers, s, [command.value], depth, sort);
      }
    case RequestedScene(scene) => RunPushes(w, answers, s, [ActivateScene(scene)], depth, sort);
    case _ => ReactPushes(w, answers, s, event, depth, sort);
  }

  lemma ReissuePushes(w: Wiring, answers: Answers, s: State, key: TimerKey, sort: Event -> bool)
    requires key in s.retries && Allows(answers, s, sort)
    ensures Pushed(s, Reissue(w, answers, s, key), 0, sort)
  {
    var pending := s.retries[key];
    var taken := s.(retries := s.retries - {key});
    if pending.command.ActivateScene? {
      RunPushes(w, answers, taken, [pending.command], 0, sort);
    } else {
      DeliverPushes(w, answers, taken, pending.command, pending.attempt, 0, Some(key), sort);
    }
  }

  lemma ElapsedPushes(w: Wiring, answers: Answers, s: State, key: TimerKey, sort: Event -> bool)
    requires Allows(answers, s, sort)
    ensures Pushed(s, FireElapsed(w, answers, s, key), 0, sort)
  {
    forall id: RuleId | Sustains(w, id, s.store)
      ensures Pushed(s,
        Run(w, answers, s.(pendingFor := s.pendingFor - {id}), FindRule(w.rules, id).value.commands, 0), 0, sort)
    {
      RunPushes(w, answers, s.(pendingFor := s.pendingFor - {id}), FindRule(w.rules, id).value.commands, 0, sort);
    }
  }

  /** The depth an event is handled at: timers the engine owns start again at 0. */
  function HandledDepth(w: Wiring, s: State, event: Event, depth: nat): nat {
    if event.TimerElapsed? && (event.key in s.retries || w.keys.isFor(event.key)) then 0 else depth
  }

  lemma HandlePushes(w: Wiring, answers: Answers, s: State, event: Event, depth: nat, sort: Event -> bool)
    requires Allows(answers, s, sort)
    ensures Pushed(s, Handle(w, answers, s, event, depth), HandledDepth(w, s, event, depth), sort)
  {
    if event.TimerElapsed? && event.key in s.retries {
      ReissuePushes(w, answers, s, event.key, sort);
    } else if event.TimerElapsed? && w.keys.isFor(event.key) {
      ElapsedPushes(w, answers, s, event.key, sort);
    } else {
      HandleUserPushes(w, answers, s, event, depth, sort);
    }
  }

  // --- the wait tables ---------------------------------------------------------------------

  ghost predicate KeyedRetry(w: Wiring, s: State, key: TimerKey)
    requires key in s.retries
  {
    w.keys.isRetry(key) && s.retries[key].command.TargetsDevice()
  }

  ghost predicate NumberedWait(w: Wiring, s: State, id: RuleId)
    requires id in s.pendingFor
  {
    w.keys.isFor(s.pendingFor[id]) && w.keys.serial(s.pendingFor[id]) <= s.forCounter
  }

  /** Pending retries are device commands under retry keys, and every wait has its own key. */
  ghost predicate Tabled(w: Wiring, s: State) {
    && (forall key <- s.retries.Keys :: KeyedRetry(w, s, key))
    && (forall id <- s.pendingFor.Keys :: NumberedWait(w, s, id))
    && OneRulePerKey(s) && WellKeyed(s.store)
  }

  lemma DeliverTabled(w: Wiring, answers: Answers, s: State, command: Command, attempt: nat, depth: nat,
      via: Option<TimerKey>)
    requires w.keys.Valid() && !command.ActivateScene? && Tabled(w, s)
    ensures Tabled(w, Deliver(w, answers, s, command, attempt, depth, via))
  {
    ResolvedTarget(s.store, command);
    var key := w.keys.retry(s.retryCounter + 1);
    assert w.keys.isRetry(key);
    var t := Deliver(w, answers, s, command, attempt, depth, via);
    forall k <- t.retries.Keys ensures KeyedRetry(w, t, k) {
      assert k in s.retries ==> KeyedRetry(w, s, k);
    }
    forall id <- t.pendingFor.Keys ensures NumberedWait(w, t, id) {
      assert NumberedWait(w, s, id);
    }
  }

  lemma {:induction false} DeliverAllTabled(w: Wiring, answers: Answers, s: State, commands: seq<Command>, depth: nat)
    requires w.keys.Valid() && (forall c <- commands :: !c.ActivateScene?) && Tabled(w, s)
    ensures Tabled(w, DeliverAll(w, answers, s, commands, depth))
    decreases |commands|
  {
    if commands != [] {
      DeliverTabled(w, answers, s, commands[0], 1, depth, None);
      DeliverAllTabled(w, answers, Deliver(w, answers, s, commands[0], 1, depth, None), commands[1..], depth);
    }
  }

  lemma RunTabled(w: Wiring, answers: Answers, s: State, commands: seq<Command>, depth: nat)
    requires w.keys.Valid() && Tabled(w, s)
    ensures Tabled(w, Run(w, answers, s, commands, depth))
  {
    DeliverAllTabled(w, answers, s, Flatten(w.scenes, commands), depth);
  }

  lemma ArmTabled(w: Wiring, s: State, id: RuleId, after: Millis)
    requires w.keys.Valid() && Tabled(w, s)
    ensures Tabled(w, Arm(w, s, id, after))
  {
    var t := Arm(w, s, id, after);
    var key := w.keys.sustained(s.forCounter + 1);
    assert w.keys.isFor(key) && w.keys.serial(key) == s.forCounter + 1;
    forall a <- t.pendingFor.Keys ensures NumberedWait(w, t, a) && (a != id ==> t.pendingFor[a] != key) {
      assert a != id ==> NumberedWait(w, s, a);
    }
    forall k <- t.retries.Keys ensures KeyedRetry(w, t, k) {
      assert KeyedRetry(w, s, k);
    }
  }

  lemma {:induction false} ArmAllTabled(w: Wiring, s: State, fired: seq<Rule>)
    requires w.keys.Valid() && Tabled(w, s)
    ensures Tabled(w, ArmAll(w, s, fired))
    decreases |fired|
  {
    if fired != [] && fired[0].forDuration.Some? {
      ArmTabled(w, s, fired[0].id, fired[0].forDuration.value);
      ArmAllTabled(w, Arm(w, s, fired[0].id, fired[0].forDuration.value), fired[1..]);
    } else if fired != [] {
      ArmAllTabled(w, s, fired[1..]);
    }
  }

  /** Fewer waits, fewer retries, another mirror: the tables stay sane. */
  lemma FewerTabled(w: Wiring, s: State, t: State)
    requires Tabled(w, s) && t.forCounter == s.forCounter && WellKeyed(t.store)
    requires t.retries.Keys <= s.retries.Keys && forall key <- t.retries.Keys :: t.retries[key] == s.retries[key]
    requires t.pendingFor.Keys <= s.pendingFor.Keys
    requires forall id <- t.pendingFor.Keys :: t.pendingFor[id] == s.pendingFor[id]
    ensures Tabled(w, t)
  {
    forall key <- t.retries.Keys ensures KeyedRetry(w, t, key) {
      assert KeyedRetry(w, s, key);
    }
    forall id <- t.pendingFor.Keys ensures NumberedWait(w, t, id) {
      assert NumberedWait(w, s, id);
    }
  }

  lemma ReactTabled(w: Wiring, answers: Answers, s: State, event: Event, depth: nat)
    requires w.keys.Valid() && Tabled(w, s)
    ensures Tabled(w, React(w, answers, s, event, depth))
  {
    var folded := Folded(w, s, event);
    var fired := Fired(w.rules, event, Prior(s, event), folded.store);
    FewerTabled(w, s, folded);
    ArmAllTabled(w, folded, fired);
    RunTabled(w, answers, ArmAll(w, folded, fired), Immediate(fired), depth);
  }

  lemma RequestTabled(w: Wiring, answers: Answers, s: State, device: DeviceId, desired: Desired, depth: nat)
    requires w.keys.Valid() && Tabled(w, s)
    ensures Tabled(w, Request(w, answers, s, device, desired, depth))
  {
    var command := CommandForRequest(device, desired);
    if command.Some? {
      RunTabled(w, answers, s, [command.value], depth);
    }
    FewerTabled(w, RunRequest(w, answers, s, device, desired, depth), Request(w, answers, s, device, desired, depth));
  }

  lemma HandleUserTabled(w: Wiring, answers: Answers, s: State, event: Event, depth: nat)
    requires w.keys.Valid() && Tabled(w, s)
    ensures Tabled(w, HandleUser(w, answers, s, event, depth))
  {
    match event
    case RequestedChange(device, desired) => RequestTabled(w, answers, s, device, desired, depth);
    case RequestedScene(scene) => RunTabled(w, answers, s, [ActivateScene(scene)], depth);
    case _ => ReactTabled(w, answers, s, event, depth);
  }

  lemma ReissueTabled(w: Wiring, answers: Answers, s: State, key: TimerKey)
    requires w.keys.Valid() && Tabled(w, s) && key in s.retries
    ensures Tabled(w, Reissue(w, answers, s, key))
  {
    var pending := s.retries[key];
    var taken := s.(retries := s.retries - {key});
    assert KeyedRetry(w, s, key);
    FewerTabled(w, s, taken);
    DeliverTabled(w, answers, taken, pending.command, pending.attempt, 0, Some(key));
  }

  lemma ElapsedTabled(w: Wiring, answers: Answers, s: State, key: TimerKey)
    requires w.keys.Valid() && Tabled(w, s)
    ensures Tabled(w, FireElapsed(w, answers, s, key))
  {
    forall id: RuleId
      ensures Tabled(w, s.(pendingFor := s.pendingFor - {id}))
      ensures Sustains(w, id, s.store) ==>
        Tabled(w, Run(w, answers, s.(pendingFor := s.pendingFor - {id}), FindRule(w.rules, id).value.commands, 0))
    {
      FewerTabled(w, s, s.(pendingFor := s.pendingFor - {id}));
      if Sustains(w, id, s.store) {
        RunTabled(w, answers, s.(pendingFor := s.pendingFor - {id}), FindRule(w.rules, id).value.commands, 0);
      }
    }
  }

  lemma HandleTabled(w: Wiring, answers: Answers, s: State, event: Event, depth: nat)
    requires w.keys.Valid() && Tabled(w, s)
    ensures Tabled(w, Handle(w, answers, s, event, depth))
  {
    if event.TimerElapsed? && event.key in s.retries {
      ReissueTabled(w, answers, s, event.key);
    } else if event.TimerElapsed? && w.keys.isFor(event.key) {
      ElapsedTabled(w, answers, s, event.key);
    } else {
      HandleUserTabled(w, answers, s, event, depth);
    }
  }

  // --- steady states ---------------------------------------------------------------------------

  /** A layered queue and sane tables: all that quiescence needs. */
  ghost predicate Steady(w: Wiring, s: State) {
    Layered(w, s.queue) && Tabled(w, s)
  }

  /** Pushing the next layer behind what is left of the front layer keeps the queue layered. */
  lemma PushKeepsLayers(w: Wiring, queue: seq<Queued>, after: seq<Queued>)
    requires queue != [] && Layered(w, queue) && queue[0].depth <= w.maxDepth
    requires queue[1..] <= after
    requires forall i :: |queue| - 1 <= i < |after| ==>
      after[i].depth == queue[0].depth + 1 && !ReservedTimer(w, after[i].event)
    ensures Layered(w, after)
  {
    forall i | 0 <= i < |queue| - 1 ensures after[i] == queue[i + 1] {
    }
  }

  lemma FrontDepth(w: Wiring, s: State)
    requires Steady(w, s) && s.queue != []
    ensures HandledDepth(w, Popped(s), s.queue[0].event, s.queue[0].depth) == s.queue[0].depth
  {
    var event := s.queue[0].event;
    if event.TimerElapsed? && event.key in s.retries {
      assert KeyedRetry(w, s, event.key);
    }
  }

  lemma ProcessLayers(w: Wiring, answers: Answers, s: State, t: State)
    requires w.keys.Valid() && HonestAnswers(w, answers) && Steady(w, s) && s.queue != []
    requires t == Process(w, answers, s)
    ensures Layered(w, t.queue) && s.queue[1..] <= t.queue
    ensures forall i :: |s.queue| - 1 <= i < |t.queue| ==> t.queue[i].depth == s.queue[0].depth + 1
  {
    if !Dropped(w, s) {
      HonestAllows(w, answers, Popped(s), 0);
      HandlePushes(w, answers, Popped(s), s.queue[0].event, s.queue[0].depth, Unreserved(w));
      FrontDepth(w, s);
      PushKeepsLayers(w, s.queue, t.queue);
    }
  }

  /** One iteration, in a steady state among honest adapters: it pushes into the next layer
      only, and the state stays steady. */
  lemma ProcessSteady(w: Wiring, answers: Answers, s: State, t: State)
    requires w.keys.Valid() && HonestAnswers(w, answers) && Steady(w, s) && s.queue != []
    requires t == Process(w, answers, s)
    ensures Steady(w, t) && s.queue[1..] <= t.queue
    ensures forall i :: |s.queue| - 1 <= i < |t.queue| ==> t.queue[i].depth == s.queue[0].depth + 1
  {
    ProcessTabled(w, answers, s, t);
    ProcessLayers(w, answers, s, t);
  }

  lemma StepSteady(w: Wiring, answers: Answers, s: State, input: Input, t: State)
    requires w.keys.Valid() && HonestAnswers(w, answers) && Steady(w, s) && StepsTo(w, answers, s, input, t)
    ensures Steady(w, t)
  {
    if input.Pop? {
      ProcessSteady(w, answers, s, t);
    } else {
      FewerTabled(w, s, t);
    }
  }

  lemma ProcessTabled(w: Wiring, answers: Answers, s: State, t: State)
    requires w.keys.Valid() && Tabled(w, s) && s.queue != [] && t == Process(w, answers, s)
    ensures Tabled(w, t)
  {
    if Dropped(w, s) {
      FewerTabled(w, s, t);
    } else {
      FewerTabled(w, s, Popped(s));
      HandleTabled(w, answers, Popped(s), s.queue[0].event, s.queue[0].depth);
    }
  }

  /** The tables are sane in every state of every run, whatever the adapters answer. */
  lemma {:induction false} RunsStayTabled(w: Wiring, answers: Answers, states: seq<State>, inputs: seq<Input>, n: nat)
    requires w.keys.Valid() && IsRun(w, answers, states, inputs) && n < |states|
    ensures Tabled(w, states[n])
  {
    if n > 0 {
      RunsStayTabled(w, answers, states, inputs, n - 1);
      assert StepsTo(w, answers, states[n - 1], inputs[n - 1], states[n]);
      if inputs[n - 1].Pop? {
        ProcessTabled(w, answers, states[n - 1], states[n]);
      } else {
        FewerTabled(w, states[n - 1], states[n]);
      }
    }
  }

  /** Every state of every run among honest adapters is steady, whatever the configuration
      and whatever the host injects. */
  lemma {:induction false} RunsStaySteady(w: Wiring, answers: Answers, states: seq<State>, inputs: seq<Input>, n: nat)
    requires w.keys.Valid() && HonestAnswers(w, answers) && IsRun(w, answers, states, inputs) && n < |states|
    ensures Steady(w, states[n])
  {
    if n > 0 {
      RunsStaySteady(w, answers, states, inputs, n - 1);
      assert StepsTo(w, answers, states[n - 1], inputs[n - 1], states[n]);
      StepSteady(w, answers, states[n - 1], inputs[n - 1], states[n]);
    }
  }

  // --- building runs ---------------------------------------------------------------------------

  /** A run that ends in this state. */
  ghost predicate RunTo(w: Wiring, answers: Answers, states: seq<State>, inputs: seq<Input>, s: State) {
    IsRun(w, answers, states, inputs) && states[|inputs|] == s
  }

  lemma RunGrows(w: Wiring, answers: Answers, states: seq<State>, inputs: seq<Input>, s: State, input: Input, t: State)
    requires RunTo(w, answers, states, inputs, s) && StepsTo(w, answers, s, input, t)
    ensures RunTo(w, answers, states + [t], inputs + [input], t)
    ensures CleanInputs(inputs) && CleanInput(input) ==> CleanInputs(inputs + [input])
  {
    var moreStates, moreInputs := states + [t], inputs + [input];
    forall i | 0 <= i < |moreInputs| ensures StepsTo(w, answers, moreStates[i], moreInputs[i], moreStates[i + 1]) {
      if i < |inputs| {
        assert StepsTo(w, answers, states[i], inputs[i], states[i + 1]);
      }
    }
  }

  lemma EmptyRun(w: Wiring, answers: Answers)
    ensures RunTo(w, answers, [INITIAL], [], INITIAL)
  {
  }
}
