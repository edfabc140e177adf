/** Sustained edges (`arm_for_timer`, `cancel_reverted_for_timers`, `fire_elapsed_for`) over
    whole runs: a `for:` rule fires only after an arming edge whose predicate held ever
    since, it does fire if the predicate holds long enough, and each arming fires once. */
module Sustained {
  import opened Model
  import opened TimerKeys
  import opened StateStore
  import opened Rules
  import opened Scheduler
  import opened Scenes
  import opened EngineSpec
  import opened EngineInvariants
  import opened Reachable
  import opened RetryRuns

  // --- vocabulary ----------------------------------------------------------------------

  /** The next pop handles a report that the rule's trigger matches against the value it
      replaces, with its condition definitely true in the store after it; so the rule starts
      waiting. */
  ghost predicate Arms(w: Wiring, s: State, rule: Rule) {
    && s.queue != [] && !Dropped(w, s)
    && rule in w.rules && rule.forDuration.Some?
    && s.queue[0].event.StateReported?
    && var report := s.queue[0].event;
    && rule.trigger.Matches(report, Get(s.store, report.device, report.state.Kind()))
    && rule.condition.Eval(Put(s.store, report.device, report.state)) == True
  }

  /** The next pop handles the wait's own timer while the wait is still pending: the rule's
      commands are dispatched. */
  ghost predicate FiresNow(s: State, id: RuleId, key: TimerKey) {
    s.queue != [] && s.queue[0].event == TimerElapsed(key) && AwaitedBy(s, id, key)
  }

  /** The wait began in this very step, under a key never handed out before. */
  ghost predicate Begun(w: Wiring, s: State, t: State, id: RuleId, key: TimerKey) {
    w.keys.isFor(key) && w.keys.serial(key) > s.forCounter
    && exists rule :: Arms(w, s, rule) && rule.id == id && DueAfter(s, t, key, rule.forDuration)
  }

  ghost predicate DueAfter(s: State, t: State, key: TimerKey, wait: Option<Millis>) {
    wait.Some? && key in t.timers && t.timers[key] == s.now + wait.value
  }

  /** A deadline may leave the scheduler, but never appears or moves. */
  ghost predicate SameTimer(s: State, t: State, key: TimerKey) {
    key in t.timers ==> key in s.timers && t.timers[key] == s.timers[key]
  }

  /** The wait was pending before this step, under the same key and deadline. */
  ghost predicate Kept(s: State, t: State, id: RuleId, key: TimerKey) {
    && AwaitedBy(s, id, key) && SameTimer(s, t, key)
    && (key in Elapsing(t.queue) ==>
          (key in Elapsing(s.queue) && t.now == s.now) || (key in s.timers && s.timers[key] <= t.now))
  }

  /** Waits across one step: none appears but by an arming edge, and none disappears but by
      firing or by its predicate going false. */
  ghost predicate WaitStep(w: Wiring, s: State, t: State, id: RuleId, key: TimerKey) {
    && s.now <= t.now && s.forCounter <= t.forCounter
    && (AwaitedBy(t, id, key) ==> Kept(s, t, id, key) || Begun(w, s, t, id, key))
    && (AwaitedBy(s, id, key) && !AwaitedBy(t, id, key) ==>
          FiresNow(s, id, key) || !Sustains(w, id, t.store))
  }

  // --- dispatching -----------------------------------------------------------------------

  /** Dispatching moves no wait and no wait's timer. */
  ghost predicate WaitsAlone(s: State, t: State, key: TimerKey) {
    t.pendingFor == s.pendingFor && t.forCounter == s.forCounter && t.now == s.now && t.store == s.store
    && SameTimer(s, t, key) && SameTimer(t, s, key)
  }

  lemma DeliverWaits(w: Wiring, answers: Answers, s: State, command: Command, attempt: nat, depth: nat,
      via: Option<TimerKey>, key: TimerKey)
    requires w.keys.Valid() && w.keys.isFor(key) && !command.ActivateScene? && UserKeyed(w, command)
    ensures WaitsAlone(s, Deliver(w, answers, s, command, attempt, depth, via), key)
  {
    ResolvedTarget(s.store, command);
    assert w.keys.isRetry(w.keys.retry(s.retryCounter + 1));
  }

  lemma {:induction false} DeliverAllWaits(w: Wiring, answers: Answers, s: State, commands: seq<Command>,
      depth: nat, key: TimerKey)
    requires w.keys.Valid() && w.keys.isFor(key) && forall c <- commands :: !c.ActivateScene? && UserKeyed(w, c)
    ensures WaitsAlone(s, DeliverAll(w, answers, s, commands, depth), key)
    decreases |commands|
  {
    if commands != [] {
      DeliverWaits(w, answers, s, commands[0], 1, depth, None, key);
      DeliverAllWaits(w, answers, Deliver(w, answers, s, commands[0], 1, depth, None), commands[1..], depth, key);
    }
  }

  lemma RunWaits(w: Wiring, answers: Answers, s: State, commands: seq<Command>, depth: nat, key: TimerKey)
    requires WellFormed(w) && w.keys.isFor(key) && forall c <- commands :: UserKeyed(w, c)
    ensures WaitsAlone(s, Run(w, answers, s, commands, depth), key)
  {
    LeavesUserKeyed(w, w.scenes, commands, w.scenes.Keys);
    DeliverAllWaits(w, answers, s, Flatten(w.scenes, commands), depth, key);
  }

  // --- reports ---------------------------------------------------------------------------

  /** Waits across the arming of a list of rules. */
  ghost predicate Rearmed(w: Wiring, s: State, t: State, fired: seq<Rule>, id: RuleId, key: TimerKey) {
    && t.now == s.now && s.forCounter <= t.forCounter && t.store == s.store
    && (AwaitedBy(s, id, key) ==> AwaitedBy(t, id, key))
    && (AwaitedBy(t, id, key) ==>
          (AwaitedBy(s, id, key) && SameTimer(s, t, key) && SameTimer(t, s, key))
          || (w.keys.isFor(key) && w.keys.serial(key) > s.forCounter
              && exists rule <- fired :: rule.id == id && DueAfter(s, t, key, rule.forDuration)))
  }

  lemma ArmWaits(w: Wiring, s: State, rule: Rule, id: RuleId, key: TimerKey)
    requires w.keys.Valid() && Owned(w, s) && rule.forDuration.Some? && rule.id !in s.pendingFor
    ensures Rearmed(w, s, Arm(w, s, rule.id, rule.forDuration.value), [rule], id, key)
  {
    var t := Arm(w, s, rule.id, rule.forDuration.value);
    var freshKey := w.keys.sustained(s.forCounter + 1);
    assert w.keys.serial(freshKey) == s.forCounter + 1 && w.keys.isFor(freshKey);
    if AwaitedBy(s, id, key) {
      assert OwnsWait(w, s, s.pendingFor[id]);
    }
    assert rule in [rule];
  }

  lemma {:induction false} ArmAllWaits(w: Wiring, s: State, fired: seq<Rule>, id: RuleId, key: TimerKey)
    requires w.keys.Valid() && Armable(w, s, fired) && Owned(w, s) && Waiting(w, s)
    ensures Rearmed(w, s, ArmAll(w, s, fired), fired, id, key)
    decreases |fired|
  {
    if fired != [] {
      var rule := fired[0];
      assert fired == [rule] + fired[1..];
      ArmableTail(w, s, fired);
      if rule.forDuration.Some? {
        var t := Arm(w, s, rule.id, rule.forDuration.value);
        ArmOwns(w, s, rule.id, rule.forDuration.value);
        ArmWaits(w, s, rule, id, key);
        ArmAllWaits(w, t, fired[1..], id, key);
        RearmedComposes(w, s, t, ArmAll(w, s, fired), fired, id, key);
      } else {
        ArmAllWaits(w, s, fired[1..], id, key);
      }
    }
  }

  lemma RearmedComposes(w: Wiring, s: State, t: State, u: State, fired: seq<Rule>, id: RuleId, key: TimerKey)
    requires fired != [] && Rearmed(w, s, t, [fired[0]], id, key) && Rearmed(w, t, u, fired[1..], id, key)
    ensures Rearmed(w, s, u, fired, id, key)
  {
    assert fired == [fired[0]] + fired[1..];
    assert fired[0] in fired && forall r <- fired[1..] :: r in fired;
  }

  /** What arming leaves of its own precondition. */
  lemma ArmableTail(w: Wiring, s: State, fired: seq<Rule>)
    requires w.keys.Valid() && fired != [] && Armable(w, s, fired) && Owned(w, s) && Waiting(w, s)
    ensures var rule := fired[0];
      if rule.forDuration.Some? then
        var t := Arm(w, s, rule.id, rule.forDuration.value);
        rule.id !in s.pendingFor && Armable(w, t, fired[1..]) && Waiting(w, t)
      else Armable(w, s, fired[1..])
  {
    var rule := fired[0];
    assert fired == [rule] + fired[1..];
    assert rule.forDuration.Some? ==> rule in fired && ReadyToArm(w, s, rule);
    forall r <- fired[1..] | r.forDuration.Some? ensures ReadyToArm(w, s, r) && r.id != rule.id {
      assert r in fired && ReadyToArm(w, s, r);
      var k :| 0 <= k < |fired[1..]| && fired[1..][k] == r;
      assert fired[0].id != fired[k + 1].id;
    }
  }

  /** Waits across folding a report: cancelled exactly where the predicate went false. */
  lemma FoldedWaits(w: Wiring, s: State, event: Event, id: RuleId, key: TimerKey)
    ensures var t := Folded(w, s, event);
      && t.now == s.now && t.forCounter == s.forCounter && t.store == Absorb(s.store, event)
      && (AwaitedBy(t, id, key) ==> AwaitedBy(s, id, key) && SameTimer(s, t, key))
      && (AwaitedBy(s, id, key) && !AwaitedBy(t, id, key) ==> !Sustains(w, id, t.store))
  {
  }

  lemma ReactWaits(w: Wiring, answers: Answers, s: State, t: State, id: RuleId, key: TimerKey)
    requires WellFormed(w) && CleanAnswers(answers) && WellKeyed(s.store) && w.keys.isFor(key)
    requires s.queue != [] && !Dropped(w, s) && Owned(w, Popped(s)) && Waiting(w, s)
    requires t == React(w, answers, Popped(s), s.queue[0].event, s.queue[0].depth)
    ensures ReactedWaits(w, s, t, id, key)
  {
    var event, popped := s.queue[0].event, Popped(s);
    var folded := Folded(w, popped, event);
    var fired := Fired(w.rules, event, Prior(popped, event), folded.store);
    var armed := ArmAll(w, folded, fired);
    FoldedKeeps(w, popped, event);
    FoldedWaits(w, popped, event, id, key);
    FiredArmable(w, popped, event);
    ArmAllWaits(w, folded, fired, id, key);
    FiredArm(w, s, fired);
    ImmediateUserKeyed(w, popped, event);
    RunWaits(w, answers, armed, Immediate(fired), s.queue[0].depth, key);
    ReactedChain(w, s, folded, armed, t, fired, id, key);
  }

  /** Rules that fire on this pop and carry a `for:` are armed by it. */
  lemma FiredArm(w: Wiring, s: State, fired: seq<Rule>)
    requires WellFormed(w) && s.queue != [] && !Dropped(w, s)
    requires var event := s.queue[0].event; fired == Fired(w.rules, event, Prior(s, event), Absorb(s.store, event))
    ensures forall r <- fired | r.forDuration.Some? :: Arms(w, s, r)
  {
    var event := s.queue[0].event;
    FiredMembers(w.rules, event, Prior(s, event), Absorb(s.store, event));
    forall r <- fired | r.forDuration.Some? ensures Arms(w, s, r) {
      assert r.trigger.Watched().Some?;
    }
  }

  ghost predicate ReactedWaits(w: Wiring, s: State, t: State, id: RuleId, key: TimerKey) {
    && t.now == s.now && s.forCounter <= t.forCounter
    && (AwaitedBy(t, id, key) ==> (AwaitedBy(s, id, key) && SameTimer(s, t, key)) || Begun(w, s, t, id, key))
    && (AwaitedBy(s, id, key) && !AwaitedBy(t, id, key) ==> FiresNow(s, id, key) || !Sustains(w, id, t.store))
  }

  lemma ReactedChain(w: Wiring, s: State, folded: State, armed: State, t: State, fired: seq<Rule>, id: RuleId,
      key: TimerKey)
    requires folded.now == s.now && folded.forCounter == s.forCounter
    requires AwaitedBy(folded, id, key) ==> AwaitedBy(s, id, key) && SameTimer(s, folded, key)
    requires AwaitedBy(s, id, key) && !AwaitedBy(folded, id, key) ==> !Sustains(w, id, folded.store)
    requires Rearmed(w, folded, armed, fired, id, key) && WaitsAlone(armed, t, key)
    requires forall r <- fired | r.forDuration.Some? :: Arms(w, s, r)
    ensures ReactedWaits(w, s, t, id, key)
  {
    if AwaitedBy(t, id, key) && !AwaitedBy(folded, id, key) {
      var rule :| rule in fired && rule.id == id && DueAfter(folded, armed, key, rule.forDuration);
      assert Arms(w, s, rule) && DueAfter(s, t, key, rule.forDuration);
    }
  }

  // --- other events ------------------------------------------------------------------------

  lemma QuietWaits(w: Wiring, s: State, popped: State, t: State, id: RuleId, key: TimerKey)
    requires WaitsAlone(popped, t, key)
    requires popped.now == s.now && popped.forCounter == s.forCounter && popped.timers == s.timers
    requires popped.pendingFor == s.pendingFor
    ensures ReactedWaits(w, s, t, id, key)
  {
  }

  lemma RequestWaits(w: Wiring, answers: Answers, s: State, device: DeviceId, desired: Desired, depth: nat,
      key: TimerKey)
    requires WellFormed(w) && w.keys.isFor(key)
    ensures WaitsAlone(s, Request(w, answers, s, device, desired, depth), key)
  {
    var command := CommandForRequest(device, desired);
    if command.Some? {
      RunWaits(w, answers, s, [command.value], depth, key);
    }
    assert WaitsAlone(s, RunRequest(w, answers, s, device, desired, depth), key);
  }

  lemma UserEventWaits(w: Wiring, answers: Answers, s: State, t: State, id: RuleId, key: TimerKey)
    requires WellFormed(w) && CleanAnswers(answers) && WellKeyed(s.store) && w.keys.isFor(key)
    requires s.queue != [] && !Dropped(w, s) && Owned(w, Popped(s)) && Waiting(w, s)
    requires t == HandleUser(w, answers, Popped(s), s.queue[0].event, s.queue[0].depth)
    ensures ReactedWaits(w, s, t, id, key)
  {
    var event, depth := s.queue[0].event, s.queue[0].depth;
    if event.RequestedChange? {
      RequestWaits(w, answers, Popped(s), event.device, event.desired, depth, key);
      QuietWaits(w, s, Popped(s), t, id, key);
    } else if event.RequestedScene? {
      RunWaits(w, answers, Popped(s), [ActivateScene(event.scene)], depth, key);
      QuietWaits(w, s, Popped(s), t, id, key);
    } else {
      ReactWaits(w, answers, s, t, id, key);
    }
  }

  lemma RetryWaits(w: Wiring, answers: Answers, s: State, t: State, id: RuleId, key: TimerKey)
    requires WellFormed(w) && w.keys.isFor(key) && Retrying(w, s)
    requires s.queue != [] && s.queue[0].event.TimerElapsed? && s.queue[0].event.key in s.retries
    requires t == Reissue(w, answers, Popped(s), s.queue[0].event.key)
    ensures ReactedWaits(w, s, t, id, key)
  {
    var retry := s.queue[0].event.key;
    var pending := s.retries[retry];
    var taken := Popped(s).(retries := s.retries - {retry});
    DeliverWaits(w, answers, taken, pending.command, pending.attempt, 0, Some(retry), key);
    QuietWaits(w, s, taken, t, id, key);
  }

  lemma FiringWaits(w: Wiring, answers: Answers, s: State, t: State, owner: RuleId, id: RuleId, key: TimerKey)
    requires WellFormed(w) && w.keys.isFor(key) && Owned(w, s) && Waiting(w, s)
    requires s.queue != [] && s.queue[0].event.TimerElapsed? && AwaitedBy(s, owner, s.queue[0].event.key)
    requires t == FireElapsed(w, answers, Popped(s), s.queue[0].event.key)
    ensures ReactedWaits(w, s, t, id, key) && owner !in t.pendingFor
  {
    var taken := Popped(s).(pendingFor := s.pendingFor - {owner});
    ElapsedFires(w, answers, s, owner, s.queue[0].event.key);
    FindRuleMember(w.rules, owner);
    RunWaits(w, answers, taken, FindRule(w.rules, owner).value.commands, 0, key);
    TakenWaits(w, s, taken, t, owner, id, key);
  }

  lemma TakenWaits(w: Wiring, s: State, taken: State, t: State, owner: RuleId, id: RuleId, key: TimerKey)
    requires s.queue != [] && s.queue[0].event.TimerElapsed? && AwaitedBy(s, owner, s.queue[0].event.key)
    requires taken == Popped(s).(pendingFor := s.pendingFor - {owner}) && WaitsAlone(taken, t, key)
    ensures ReactedWaits(w, s, t, id, key)
  {
  }

  lemma ElapsedWaits(w: Wiring, answers: Answers, s: State, t: State, id: RuleId, key: TimerKey)
    requires WellFormed(w) && CleanAnswers(answers) && w.keys.isFor(key) && Owned(w, s) && Waiting(w, s)
    requires s.queue != [] && s.queue[0].event.TimerElapsed?
    requires t == FireElapsed(w, answers, Popped(s), s.queue[0].event.key)
    ensures ReactedWaits(w, s, t, id, key)
  {
    if owner: RuleId :| AwaitedBy(s, owner, s.queue[0].event.key) {
      FiringWaits(w, answers, s, t, owner, id, key);
    } else {
      ElapsedStale(w, answers, s, s.queue[0].event.key);
    }
  }

  lemma ProcessWaits(w: Wiring, answers: Answers, s: State, t: State, id: RuleId, key: TimerKey)
    requires WellFormed(w) && CleanAnswers(answers) && Inv(w, s) && s.queue != [] && t == Process(w, answers, s)
    requires w.keys.isFor(key)
    ensures ReactedWaits(w, s, t, id, key)
  {
    var event := s.queue[0].event;
    if Dropped(w, s) {
    } else if event.TimerElapsed? && event.key in s.retries {
      RetryWaits(w, answers, s, t, id, key);
    } else if event.TimerElapsed? && w.keys.isFor(event.key) {
      ElapsedWaits(w, answers, s, t, id, key);
    } else {
      UserEventTaken(w, s);
      assert WellKeyed(s.store) by { ReplayIsLastReport(s.received); }
      UserEventWaits(w, answers, s, t, id, key);
    }
  }

  // --- steps ---------------------------------------------------------------------------------

  lemma PopWaits(w: Wiring, answers: Answers, s: State, t: State, id: RuleId, key: TimerKey)
    requires WellFormed(w) && CleanAnswers(answers) && Inv(w, s) && s.queue != [] && t == Process(w, answers, s)
    requires w.keys.isFor(key)
    ensures WaitStep(w, s, t, id, key)
  {
    ProcessWaits(w, answers, s, t, id, key);
    PopElapsing(w, answers, s, t);
  }

  lemma PopElapsing(w: Wiring, answers: Answers, s: State, t: State)
    requires WellFormed(w) && CleanAnswers(answers) && Inv(w, s) && s.queue != [] && t == Process(w, answers, s)
    ensures forall key <- Elapsing(t.queue) :: key in Elapsing(s.queue)
  {
    if !Dropped(w, s) {
      HandleKeeps(w, answers, s);
    }
    PushElapsing(s.queue, t.queue);
  }

  lemma TickWaits(w: Wiring, s: State, t: State, now: Millis, due: seq<Deadline>, produced: seq<Event>, id: RuleId,
      key: TimerKey)
    requires s.queue == [] && s.now <= now && (forall e <- produced :: Clean(e)) && (forall e <- s.inbox :: Clean(e))
    requires t == Ticked(s, now, due, produced) && ListsDue(s.timers, now, due)
    ensures WaitStep(w, s, t, id, key)
  {
    TickElapsing(s, now, due, produced);
    assert key in Elapsing(t.queue) <==> key in KeySet(due);
  }

  lemma AdvanceWaits(w: Wiring, answers: Answers, s: State, dt: Millis, produced: seq<Event>, t: State, id: RuleId,
      key: TimerKey)
    requires StepsTo(w, answers, s, Input.Advance(dt, produced), t)
    requires (forall e <- produced :: Clean(e)) && (forall e <- s.inbox :: Clean(e))
    ensures WaitStep(w, s, t, id, key)
  {
    var due := AdvanceLists(w, answers, s, t, dt, produced);
    TickWaits(w, s, t, s.now + dt, due, produced, id, key);
  }

  lemma NextWaits(w: Wiring, answers: Answers, s: State, input: Input, t: State, id: RuleId, key: TimerKey)
    requires WellFormed(w) && CleanAnswers(answers) && CleanInput(input) && Inv(w, s)
    requires StepsTo(w, answers, s, input, t)
    requires w.keys.isFor(key)
    ensures WaitStep(w, s, t, id, key)
  {
    match input
    case Pop => PopWaits(w, answers, s, t, id, key);
    case Advance(dt, produced) => AdvanceWaits(w, answers, s, dt, produced, t, id, key);
    case Inject(event) => InjectWaits(w, s, t, event, id, key);
    case _ =>
  }

  lemma InjectWaits(w: Wiring, s: State, t: State, event: Event, id: RuleId, key: TimerKey)
    requires s.queue == [] && Clean(event) && t == s.(queue := [Queued(event, 0)])
    ensures WaitStep(w, s, t, id, key)
  {
    CleanNeverElapses(t.queue);
  }

  // --- runs ----------------------------------------------------------------------------------

  /** A run of a well-formed configuration in an honest environment. */
  ghost predicate Honest(w: Wiring, answers: Answers, states: seq<State>, inputs: seq<Input>) {
    WellFormed(w) && CleanAnswers(answers) && CleanInputs(inputs) && IsRun(w, answers, states, inputs)
  }

  lemma StepWaits(w: Wiring, answers: Answers, states: seq<State>, inputs: seq<Input>, n: nat, id: RuleId,
      key: TimerKey)
    requires Honest(w, answers, states, inputs) && n < |inputs| && w.keys.isFor(key)
    ensures WaitStep(w, states[n], states[n + 1], id, key)
  {
    RunsKeepInv(w, answers, states, inputs, n);
    assert StepsTo(w, answers, states[n], inputs[n], states[n + 1]);
    NextWaits(w, answers, states[n], inputs[n], states[n + 1], id, key);
  }

  /** A wait after the step was pending before it, or has a key from this very step. */
  lemma StepAwaits(w: Wiring, answers: Answers, states: seq<State>, inputs: seq<Input>, n: nat, id: RuleId,
      key: TimerKey)
    requires Honest(w, answers, states, inputs) && n < |inputs| && w.keys.isFor(key)
    ensures states[n].now <= states[n + 1].now && states[n].forCounter <= states[n + 1].forCounter
    ensures AwaitedBy(states[n + 1], id, key) && w.keys.serial(key) <= states[n].forCounter ==>
      AwaitedBy(states[n], id, key) && SameTimer(states[n], states[n + 1], key)
  {
    StepWaits(w, answers, states, inputs, n, id, key);
  }

  lemma StepDrops(w: Wiring, answers: Answers, states: seq<State>, inputs: seq<Input>, n: nat, id: RuleId,
      key: TimerKey)
    requires Honest(w, answers, states, inputs) && n < |inputs| && w.keys.isFor(key)
    requires AwaitedBy(states[n], id, key) && Sustains(w, id, states[n + 1].store)
    ensures AwaitedBy(states[n + 1], id, key) || FiresNow(states[n], id, key)
  {
    StepWaits(w, answers, states, inputs, n, id, key);
  }

  /** Where the wait's timer stands relative to the instant it is due. */
  ghost predicate OnSchedule(s: State, key: TimerKey, due: Millis, punctual: bool) {
    (key in s.timers ==> s.timers[key] == due)
    && (key in Elapsing(s.queue) ==> due <= s.now && (punctual ==> due == s.now))
  }

  /** Step `i` armed the rule, and it has been waiting under this key in every state since. */
  ghost predicate WaitingSince(w: Wiring, states: seq<State>, inputs: seq<Input>, i: nat, n: nat, rule: Rule,
      key: TimerKey)
    requires |states| == |inputs| + 1 && n < |states|
  {
    && i < n && inputs[i].Pop? && Arms(w, states[i], rule)
    && forall m :: i < m <= n ==> AwaitedBy(states[m], rule.id, key)
  }

  lemma KeptOnSchedule(w: Wiring, answers: Answers, states: seq<State>, inputs: seq<Input>, n: nat, id: RuleId,
      key: TimerKey, due: Millis, punctual: bool)
    requires Honest(w, answers, states, inputs) && n < |inputs|
    requires punctual ==> PunctualHost(states, inputs)
    requires Kept(states[n], states[n + 1], id, key) && OnSchedule(states[n], key, due, punctual)
    ensures OnSchedule(states[n + 1], key, due, punctual)
  {
    var s, t := states[n], states[n + 1];
    assert StepsTo(w, answers, s, inputs[n], t);
    if punctual && key in Elapsing(t.queue) && !(key in Elapsing(s.queue) && t.now == s.now) {
      RunsStayPunctual(w, answers, states, inputs, n);
      if inputs[n].Advance? {
        SleepReachesNoDeadline(s, inputs[n].dt);
      } else {
        StandsStill(w, answers, states, inputs, n);
      }
    }
  }

  /** Only an advance moves time. */
  lemma StandsStill(w: Wiring, answers: Answers, states: seq<State>, inputs: seq<Input>, n: nat)
    requires Honest(w, answers, states, inputs) && n < |inputs| && !inputs[n].Advance?
    ensures states[n + 1].now == states[n].now
  {
    var s := states[n];
    RunsKeepInv(w, answers, states, inputs, n);
    assert StepsTo(w, answers, s, inputs[n], states[n + 1]);
    if inputs[n].Pop? && !Dropped(w, s) {
      HandleKeeps(w, answers, s);
    }
  }

  /** Every pending wait goes back to the step that armed it. */
  lemma {:induction false} WaitHistory(w: Wiring, answers: Answers, states: seq<State>, inputs: seq<Input>, n: nat,
      id: RuleId, key: TimerKey, punctual: bool)
    returns (i: nat, rule: Rule)
    requires Honest(w, answers, states, inputs) && n < |states| && AwaitedBy(states[n], id, key)
    requires punctual ==> PunctualHost(states, inputs)
    ensures rule.id == id && WaitingSince(w, states, inputs, i, n, rule, key)
    ensures OnSchedule(states[n], key, states[i].now + rule.forDuration.value, punctual)
  {
    WaitsBefore(w, answers, states, inputs, n, id, key);
    if Kept(states[n - 1], states[n], id, key) {
      i, rule := WaitHistory(w, answers, states, inputs, n - 1, id, key, punctual);
      HistoryGrows(w, answers, states, inputs, n - 1, i, rule, key, punctual);
    } else {
      i := n - 1;
      rule := WaitBegins(w, answers, states, inputs, i, id, key, punctual);
    }
  }

  lemma HistoryGrows(w: Wiring, answers: Answers, states: seq<State>, inputs: seq<Input>, n: nat, i: nat,
      rule: Rule, key: TimerKey, punctual: bool)
    requires Honest(w, answers, states, inputs) && n < |inputs| && WaitingSince(w, states, inputs, i, n, rule, key)
    requires punctual ==> PunctualHost(states, inputs)
    requires Kept(states[n], states[n + 1], rule.id, key) && AwaitedBy(states[n + 1], rule.id, key)
    requires OnSchedule(states[n], key, states[i].now + rule.forDuration.value, punctual)
    ensures WaitingSince(w, states, inputs, i, n + 1, rule, key)
    ensures OnSchedule(states[n + 1], key, states[i].now + rule.forDuration.value, punctual)
  {
    KeptOnSchedule(w, answers, states, inputs, n, rule.id, key, states[i].now + rule.forDuration.value, punctual);
  }

  lemma AwaitedKey(w: Wiring, answers: Answers, states: seq<State>, inputs: seq<Input>, n: nat, id: RuleId,
      key: TimerKey)
    requires Honest(w, answers, states, inputs) && n < |states| && AwaitedBy(states[n], id, key)
    ensures n > 0 && w.keys.isFor(key) && w.keys.serial(key) <= states[n].forCounter && InOnePlace(states[n], key)
  {
    RunsKeepInv(w, answers, states, inputs, n);
    assert OwnsWait(w, states[n], states[n].pendingFor[id]);
  }

  lemma WaitsBefore(w: Wiring, answers: Answers, states: seq<State>, inputs: seq<Input>, n: nat, id: RuleId,
      key: TimerKey)
    requires Honest(w, answers, states, inputs) && n < |states| && AwaitedBy(states[n], id, key)
    ensures n > 0 && (Kept(states[n - 1], states[n], id, key) || Begun(w, states[n - 1], states[n], id, key))
  {
    AwaitedKey(w, answers, states, inputs, n, id, key);
    StepWaits(w, answers, states, inputs, n - 1, id, key);
  }

  lemma WaitBegins(w: Wiring, answers: Answers, states: seq<State>, inputs: seq<Input>, i: nat, id: RuleId,
      key: TimerKey, punctual: bool)
    returns (rule: Rule)
    requires Honest(w, answers, states, inputs) && i < |inputs|
    requires Begun(w, states[i], states[i + 1], id, key) && AwaitedBy(states[i + 1], id, key)
    ensures rule.id == id && WaitingSince(w, states, inputs, i, i + 1, rule, key)
    ensures OnSchedule(states[i + 1], key, states[i].now + rule.forDuration.value, punctual)
  {
    var s, t := states[i], states[i + 1];
    rule :| Arms(w, s, rule) && rule.id == id && DueAfter(s, t, key, rule.forDuration);
    assert StepsTo(w, answers, s, inputs[i], t);
    AwaitedKey(w, answers, states, inputs, i + 1, id, key);
  }

  /** Sustained firing, sound: when a `for:` rule's commands are dispatched, an arming edge
      lies at least its duration back (exactly, if the host never oversleeps), and the
      rule's predicate was true in the store in every state in between. */
  lemma FiringWasSustained(w: Wiring, answers: Answers, states: seq<State>, inputs: seq<Input>, j: nat, id: RuleId,
      key: TimerKey, punctual: bool)
    returns (i: nat, rule: Rule)
    requires Honest(w, answers, states, inputs) && j < |states| && FiresNow(states[j], id, key)
    requires punctual ==> PunctualHost(states, inputs)
    ensures i < j && inputs[i].Pop? && Arms(w, states[i], rule) && rule.id == id
    ensures states[i].now + rule.forDuration.value <= states[j].now
    ensures punctual ==> states[i].now + rule.forDuration.value == states[j].now
    ensures forall m :: i < m <= j ==> rule.trigger.PredicateHolds(states[m].store)
  {
    i, rule := WaitHistory(w, answers, states, inputs, j, id, key, punctual);
    assert key in Elapsing(states[j].queue);
    forall m | i < m <= j ensures rule.trigger.PredicateHolds(states[m].store) {
      assert AwaitedBy(states[m], id, key);
      AwaitedHolds(w, answers, states, inputs, m, rule);
    }
  }

  lemma AwaitedHolds(w: Wiring, answers: Answers, states: seq<State>, inputs: seq<Input>, m: nat, rule: Rule)
    requires Honest(w, answers, states, inputs) && m < |states| && rule in w.rules && rule.id in states[m].pendingFor
    ensures rule.trigger.PredicateHolds(states[m].store)
  {
    RunsKeepInv(w, answers, states, inputs, m);
    FindsDistinct(w.rules, rule);
  }

  // --- completeness -----------------------------------------------------------------------------

  ghost predicate FiredWithin(states: seq<State>, id: RuleId, key: TimerKey, from: nat, until: nat)
    requires until <= |states|
  {
    exists j :: from <= j < until && FiresNow(states[j], id, key)
  }

  /** While its predicate holds, a wait stays pending until it fires. */
  lemma {:induction false} PendingUntilFired(w: Wiring, answers: Answers, states: seq<State>, inputs: seq<Input>,
      from: nat, n: nat, id: RuleId, key: TimerKey)
    requires Honest(w, answers, states, inputs) && from <= n < |states| && AwaitedBy(states[from], id, key)
    requires forall m :: from <= m <= n ==> Sustains(w, id, states[m].store)
    ensures FiredWithin(states, id, key, from, n) || AwaitedBy(states[n], id, key)
    decreases n
  {
    if from < n {
      PendingUntilFired(w, answers, states, inputs, from, n - 1, id, key);
      if !FiredWithin(states, id, key, from, n - 1) {
        AwaitedKey(w, answers, states, inputs, n - 1, id, key);
        StepDrops(w, answers, states, inputs, n - 1, id, key);
      }
    }
  }

  /** Once its timer has left the scheduler, a wait's timer never returns to it. */
  lemma {:induction false} NeverRescheduled(w: Wiring, answers: Answers, states: seq<State>, inputs: seq<Input>,
      from: nat, n: nat, id: RuleId, key: TimerKey)
    requires Honest(w, answers, states, inputs) && from <= n < |states|
    requires w.keys.isFor(key) && w.keys.serial(key) <= states[from].forCounter
    requires key !in states[from].timers
    ensures states[from].forCounter <= states[n].forCounter
    ensures AwaitedBy(states[n], id, key) ==> key !in states[n].timers
    decreases n
  {
    if from < n {
      NeverRescheduled(w, answers, states, inputs, from, n - 1, id, key);
      StepAwaits(w, answers, states, inputs, n - 1, id, key);
    }
  }

  lemma {:induction false} CountersGrow(w: Wiring, answers: Answers, states: seq<State>, inputs: seq<Input>,
      from: nat, n: nat)
    requires Honest(w, answers, states, inputs) && from <= n < |states|
    ensures states[from].forCounter <= states[n].forCounter && states[from].now <= states[n].now
    decreases n
  {
    if from < n {
      CountersGrow(w, answers, states, inputs, from, n - 1);
      CountersStep(w, answers, states, inputs, n - 1, states[n - 1], states[n]);
    }
  }

  lemma CountersStep(w: Wiring, answers: Answers, states: seq<State>, inputs: seq<Input>, n: nat, s: State, t: State)
    requires Honest(w, answers, states, inputs) && n < |inputs| && s == states[n] && t == states[n + 1]
    ensures s.forCounter <= t.forCounter && s.now <= t.now
  {
    var key := w.keys.sustained(0);
    assert w.keys.isFor(key);
    StepAwaits(w, answers, states, inputs, n, 0, key);
  }

  /** An advance that reaches the deadline takes the timer out of the scheduler. */
  lemma AdvanceTakesDue(w: Wiring, answers: Answers, states: seq<State>, inputs: seq<Input>, a: nat, key: TimerKey,
      due: Millis)
    requires Honest(w, answers, states, inputs) && a < |inputs| && inputs[a].Advance?
    requires OnSchedule(states[a], key, due, false) && due <= states[a + 1].now
    ensures key !in states[a + 1].timers
  {
    assert StepsTo(w, answers, states[a], inputs[a], states[a + 1]);
  }

  /** Sustained firing, complete: if the predicate holds from the arming edge on, and the
      host advances to the end of the duration and runs the loop to rest, then the rule's
      commands have been dispatched in between. */
  lemma SustainedFires(w: Wiring, answers: Answers, states: seq<State>, inputs: seq<Input>, i: nat, a: nat, n: nat,
      rule: Rule, key: TimerKey)
    requires Honest(w, answers, states, inputs) && i < a < n < |states|
    requires WaitingSince(w, states, inputs, i, i + 1, rule, key)
    requires forall m :: i < m <= n ==> rule.trigger.PredicateHolds(states[m].store)
    requires inputs[a].Advance? && states[i].now + rule.forDuration.value <= states[a + 1].now
    requires states[n].queue == []
    ensures FiredWithin(states, rule.id, key, i + 1, n)
  {
    FindsDistinct(w.rules, rule);
    assert AwaitedBy(states[i + 1], rule.id, key);
    PendingUntilFired(w, answers, states, inputs, i + 1, n, rule.id, key);
    if !FiredWithin(states, rule.id, key, i + 1, n) {
      StillAwaited(w, answers, states, inputs, i + 1, a, n, rule.id, key);
      StillAwaited(w, answers, states, inputs, i + 1, a + 1, n, rule.id, key);
      var start, armed := WaitHistory(w, answers, states, inputs, a, rule.id, key, false);
      assert AwaitedBy(states[start + 1], rule.id, key);
      SameArming(w, answers, states, inputs, i, start, rule, armed, key);
      AdvanceTakesDue(w, answers, states, inputs, a, key, states[i].now + rule.forDuration.value);
      AwaitedKey(w, answers, states, inputs, a + 1, rule.id, key);
      NeverRescheduled(w, answers, states, inputs, a + 1, n, rule.id, key);
      AwaitedKey(w, answers, states, inputs, n, rule.id, key);
      assert false;
    }
  }

  lemma StillAwaited(w: Wiring, answers: Answers, states: seq<State>, inputs: seq<Input>, from: nat, m: nat, n: nat,
      id: RuleId, key: TimerKey)
    requires Honest(w, answers, states, inputs) && from <= m <= n < |states| && AwaitedBy(states[from], id, key)
    requires forall k :: from <= k <= n ==> Sustains(w, id, states[k].store)
    requires !FiredWithin(states, id, key, from, n)
    ensures AwaitedBy(states[m], id, key)
  {
    PendingUntilFired(w, answers, states, inputs, from, m, id, key);
  }

  /** A key is handed out by one arming only. */
  lemma SameArming(w: Wiring, answers: Answers, states: seq<State>, inputs: seq<Input>, i: nat, j: nat, rule: Rule,
      armed: Rule, key: TimerKey)
    requires Honest(w, answers, states, inputs) && armed.id == rule.id
    requires WaitsFrom(w, states, inputs, i, rule, key) && WaitsFrom(w, states, inputs, j, armed, key)
    ensures i == j && armed == rule
  {
    FindsDistinct(w.rules, rule);
    FindsDistinct(w.rules, armed);
    if i < j {
      ArmsLater(w, answers, states, inputs, i, j, rule, armed, key);
    }
    if j < i {
      ArmsLater(w, answers, states, inputs, j, i, armed, rule, key);
    }
  }

  /** A later arming of the same rule hands out another key. */
  lemma ArmsLater(w: Wiring, answers: Answers, states: seq<State>, inputs: seq<Input>, i: nat, j: nat, rule: Rule,
      armed: Rule, key: TimerKey)
    requires Honest(w, answers, states, inputs) && i < j && armed.id == rule.id
    requires WaitsFrom(w, states, inputs, i, rule, key) && j < |inputs| && Arms(w, states[j], armed)
    ensures !WaitsFrom(w, states, inputs, j, armed, key)
  {
    AwaitedKey(w, answers, states, inputs, i + 1, rule.id, key);
    CountersGrow(w, answers, states, inputs, i + 1, j);
    if WaitsFrom(w, states, inputs, j, armed, key) {
      ArmingIssuesKey(w, answers, states, inputs, j, armed, key);
    }
  }

  /** The key of a wait was not handed out before the step that armed it: an arming edge
      excludes a wait already pending. */
  lemma ArmingIssuesKey(w: Wiring, answers: Answers, states: seq<State>, inputs: seq<Input>, i: nat, rule: Rule,
      key: TimerKey)
    requires Honest(w, answers, states, inputs) && WaitsFrom(w, states, inputs, i, rule, key)
    ensures w.keys.serial(key) > states[i].forCounter
  {
    var s := states[i];
    RunsKeepInv(w, answers, states, inputs, i);
    ReplayIsLastReport(s.received);
    assert rule.id !in s.pendingFor by {
      WaitingExcludesEdge(w, s, rule, s.queue[0].event);
    }
    AwaitedKey(w, answers, states, inputs, i + 1, rule.id, key);
    StepWaits(w, answers, states, inputs, i, rule.id, key);
    assert !Kept(s, states[i + 1], rule.id, key);
  }

  /** Step `i` armed the rule, under this key. */
  ghost predicate WaitsFrom(w: Wiring, states: seq<State>, inputs: seq<Input>, i: nat, rule: Rule,
      key: TimerKey) {
    |states| == |inputs| + 1 && i < |inputs| && Arms(w, states[i], rule) && AwaitedBy(states[i + 1], rule.id, key)
  }

  // --- at most once -----------------------------------------------------------------------------

  /** A key nobody awaits although it was handed out is never awaited again. */
  lemma {:induction false} NeverAwaitedAgain(w: Wiring, answers: Answers, states: seq<State>, inputs: seq<Input>,
      from: nat, n: nat, id: RuleId, key: TimerKey)
    requires Honest(w, answers, states, inputs) && from <= n < |states|
    requires w.keys.isFor(key) && w.keys.serial(key) <= states[from].forCounter && !AwaitedBy(states[from], id, key)
    ensures states[from].forCounter <= states[n].forCounter && !AwaitedBy(states[n], id, key)
    decreases n
  {
    if from < n {
      NeverAwaitedAgain(w, answers, states, inputs, from, n - 1, id, key);
      StepAwaits(w, answers, states, inputs, n - 1, id, key);
    }
  }

  lemma FiringEndsWait(w: Wiring, answers: Answers, states: seq<State>, inputs: seq<Input>, j: nat, id: RuleId,
      key: TimerKey)
    requires Honest(w, answers, states, inputs) && j < |inputs| && inputs[j].Pop? && FiresNow(states[j], id, key)
    ensures id !in states[j + 1].pendingFor
  {
    var s := states[j];
    RunsKeepInv(w, answers, states, inputs, j);
    AwaitedKey(w, answers, states, inputs, j, id, key);
    assert StepsTo(w, answers, s, inputs[j], states[j + 1]);
    assert key !in s.retries by { assert key in s.retries ==> OwnsRetry(w, s, key); }
    assert !Dropped(w, s);
    FiringWaits(w, answers, s, states[j + 1], id, id, key);
  }

  /** Each arming fires at most once: a key that has fired fires for no rule again. */
  lemma FiresAtMostOnce(w: Wiring, answers: Answers, states: seq<State>, inputs: seq<Input>, j: nat, n: nat,
      id: RuleId, other: RuleId, key: TimerKey)
    requires Honest(w, answers, states, inputs) && j < n < |states|
    requires inputs[j].Pop? && FiresNow(states[j], id, key)
    ensures !FiresNow(states[n], other, key)
  {
    AwaitedKey(w, answers, states, inputs, j, id, key);
    FiringEndsWait(w, answers, states, inputs, j, id, key);
    CountersGrow(w, answers, states, inputs, j, j + 1);
    if other == id {
      NeverAwaitedAgain(w, answers, states, inputs, j + 1, n, id, key);
    } else {
      RunsKeepInv(w, answers, states, inputs, j);
      assert !AwaitedBy(states[j], other, key);
      NeverAwaitedAgain(w, answers, states, inputs, j, n, other, key);
    }
  }
}
