/** The retry ledger over whole runs, and when each attempt of a chain happens. */
module RetryRuns {
  import opened Model
  import opened TimerKeys
  import opened StateStore
  import opened Rules
  import opened Ordering
  import opened Scheduler
  import opened Scenes
  import opened EngineSpec
  import opened EngineInvariants
  import opened Reachable
  import opened Retries

  // --- steps that dispatch nothing -----------------------------------------------------

  lemma {:induction false} ArmAllTimers(w: Wiring, s: State, fired: seq<Rule>)
    requires w.keys.Valid()
    ensures var t := ArmAll(w, s, fired);
      Armed(s, t)
      && forall key | w.keys.isRetry(key) && key in t.timers :: key in s.timers && t.timers[key] == s.timers[key]
    decreases |fired|
  {
    if fired != [] && fired[0].forDuration.Some? {
      ArmAllTimers(w, Arm(w, s, fired[0].id, fired[0].forDuration.value), fired[1..]);
    } else if fired != [] {
      ArmAllTimers(w, s, fired[1..]);
    }
  }

  lemma ReactUntouched(w: Wiring, s: State, event: Event, fired: seq<Rule>)
    requires w.keys.Valid() && Owned(w, s)
    ensures RetriesUntouched(s, ArmAll(w, Folded(w, s, event), fired))
  {
    ArmAllTimers(w, Folded(w, s, event), fired);
    forall key <- s.retries.Keys ensures w.keys.isRetry(key) {
      assert OwnsRetry(w, s, key);
    }
  }

  lemma ReactKeepsBooks(w: Wiring, answers: Answers, s: State, event: Event, depth: nat, punctual: bool)
    requires WellFormed(w) && CleanAnswers(answers) && WellKeyed(s.store)
    requires Owned(w, s) && Waiting(w, s) && Books(w, s, None, punctual)
    ensures Books(w, React(w, answers, s, event, depth), None, punctual)
  {
    var folded := Folded(w, s, event);
    var fired := Fired(w.rules, event, Prior(s, event), folded.store);
    FoldedKeeps(w, s, event);
    FiredArmable(w, s, event);
    ArmAllKeeps(w, folded, fired);
    ReactUntouched(w, s, event, fired);
    UntouchedKeepsBooks(w, s, ArmAll(w, folded, fired), None, punctual);
    ImmediateUserKeyed(w, s, event);
    RunKeepsBooks(w, answers, ArmAll(w, folded, fired), Immediate(fired), depth, punctual);
  }

  lemma RequestKeepsBooks(w: Wiring, answers: Answers, s: State, device: DeviceId, desired: Desired, depth: nat,
      punctual: bool)
    requires WellFormed(w) && CleanAnswers(answers) && Owned(w, s) && Books(w, s, None, punctual)
    ensures Books(w, Request(w, answers, s, device, desired, depth), None, punctual)
  {
    var run := RunRequest(w, answers, s, device, desired, depth);
    RunRequestKeepsBooks(w, answers, s, run, device, desired, depth, punctual);
    RefanKeepsBooks(w, run, Request(w, answers, s, device, desired, depth), device, desired.Kind(), punctual);
  }

  lemma RunRequestKeepsBooks(w: Wiring, answers: Answers, s: State, t: State, device: DeviceId, desired: Desired,
      depth: nat, punctual: bool)
    requires WellFormed(w) && CleanAnswers(answers) && Owned(w, s) && Books(w, s, None, punctual)
    requires t == RunRequest(w, answers, s, device, desired, depth)
    ensures Books(w, t, None, punctual)
  {
    var command := CommandForRequest(device, desired);
    if command == None {
      assert t == s;
    } else {
      IntentUserKeyed(w, device, desired);
      RunKeepsBooks(w, answers, s, [command.value], depth, punctual);
    }
  }

  lemma IntentUserKeyed(w: Wiring, device: DeviceId, desired: Desired)
    ensures var command := CommandForRequest(device, desired); command.Some? ==> UserKeyed(w, command.value)
  {
  }

  lemma RefanKeepsBooks(w: Wiring, s: State, t: State, device: DeviceId, kind: CapabilityKind, punctual: bool)
    requires Books(w, s, None, punctual) && t == Refan(s, device, kind)
    ensures Books(w, t, None, punctual)
  {
    UntouchedKeepsBooks(w, s, t, None, punctual);
  }

  // --- timers --------------------------------------------------------------------------

  lemma PoppedUntouched(s: State, t: State)
    requires s.queue != [] && NoDuplicates(Elapsing(s.queue))
    requires t.queue == s.queue[1..] && t.timers == s.timers && t.now == s.now
    requires t.attempts == s.attempts && t.retries == s.retries && t.retryCounter == s.retryCounter
    ensures RetriesUntouched(s, t)
  {
    ElapsingPop(s.queue);
  }

  lemma PoppedKeepsBooks(w: Wiring, s: State, t: State, punctual: bool)
    requires s.queue != [] && NoDuplicates(Elapsing(s.queue)) && Books(w, s, None, punctual)
    requires t.queue == s.queue[1..] && t.timers == s.timers && t.now == s.now
    requires t.attempts == s.attempts && t.retries == s.retries && t.retryCounter == s.retryCounter
    ensures Books(w, t, None, punctual)
  {
    PoppedUntouched(s, t);
    UntouchedKeepsBooks(w, s, t, None, punctual);
  }

  lemma TakenRetry(s: State) returns (taken: State)
    requires s.queue != [] && s.queue[0].event.TimerElapsed?
    ensures taken == Popped(s).(retries := s.retries - {s.queue[0].event.key})
  {
    taken := Popped(s).(retries := s.retries - {s.queue[0].event.key});
  }

  /** Taking a retry off the queue puts exactly its chain in flight, backoff served. */
  lemma RetryTakesFlight(w: Wiring, s: State, taken: State, punctual: bool)
    requires Owned(w, s) && Books(w, s, None, punctual)
    requires s.queue != [] && s.queue[0].event.TimerElapsed? && s.queue[0].event.key in s.retries
    requires taken == Popped(s).(retries := s.retries - {s.queue[0].event.key})
    ensures Books(w, taken, Some(s.queue[0].event.key), punctual)
  {
    var key := s.queue[0].event.key;
    ElapsingPop(s.queue);
    forall i | 0 <= i < |s.attempts| ensures Entry(w, taken, s.attempts[i], Some(key), punctual) {
      TakenEntry(w, s, taken, s.attempts[i], key, punctual);
    }
    assert |s.retries - {key}| == |s.retries| - 1;
  }

  lemma TakenEntry(w: Wiring, s: State, taken: State, a: Attempt, key: TimerKey, punctual: bool)
    requires key in s.retries && Entry(w, s, a, None, punctual)
    requires taken.retries == s.retries - {key} && taken.attempts == s.attempts && taken.retryCounter == s.retryCounter
    requires taken.timers == s.timers && taken.now == s.now
    requires forall k <- Elapsing(taken.queue) :: k in Elapsing(s.queue)
    ensures Entry(w, taken, a, Some(key), punctual)
  {
  }

  lemma RetryContinues(w: Wiring, s: State, taken: State, punctual: bool)
    requires Owned(w, s) && Books(w, s, None, punctual)
    requires s.queue != [] && s.queue[0].event.TimerElapsed? && s.queue[0].event.key in s.retries
    requires taken == Popped(s).(retries := s.retries - {s.queue[0].event.key})
    ensures var key := s.queue[0].event.key;
      Continues(w, taken, s.retries[key].command, s.retries[key].attempt, Some(key), punctual)
  {
    var key := s.queue[0].event.key;
    var pending := s.retries[key];
    assert OwnsRetry(w, s, key);
    assert key in Elapsing(s.queue);
    var p :| 0 <= p < |s.attempts| && s.attempts[p].next == Some(key);
    assert Entry(w, s, s.attempts[p], None, punctual);
    var next := Attempt(pending.command, pending.attempt, s.now, Ok([]), Some(key), None);
    assert Follows(w, s.attempts[p], next, punctual);
  }

  lemma RetryKeepsBooks(w: Wiring, answers: Answers, s: State, punctual: bool)
    requires WellFormed(w) && CleanAnswers(answers)
    requires Owned(w, s) && Retrying(w, s) && Books(w, s, None, punctual)
    requires s.queue != [] && s.queue[0].event.TimerElapsed? && s.queue[0].event.key in s.retries
    ensures Books(w, Reissue(w, answers, Popped(s), s.queue[0].event.key), None, punctual)
  {
    var key := s.queue[0].event.key;
    var pending := s.retries[key];
    var taken := TakenRetry(s);
    assert OwnsRetry(w, s, key);
    forall id <- s.pendingFor.Keys ensures s.pendingFor[id] != key {
      assert OwnsWait(w, s, s.pendingFor[id]);
    }
    TakenOffOwns(w, s, taken);
    RetryTakesFlight(w, s, taken, punctual);
    RetryContinues(w, s, taken, punctual);
    DeliverKeepsBooks(w, answers, taken, pending.command, pending.attempt, 0, Some(key), punctual);
  }

  lemma ElapsedKeepsBooks(w: Wiring, answers: Answers, s: State, punctual: bool)
    requires WellFormed(w) && CleanAnswers(answers)
    requires Owned(w, s) && Waiting(w, s) && Books(w, s, None, punctual)
    requires s.queue != [] && s.queue[0].event.TimerElapsed? && w.keys.isFor(s.queue[0].event.key)
    ensures Books(w, FireElapsed(w, answers, Popped(s), s.queue[0].event.key), None, punctual)
  {
    var key := s.queue[0].event.key;
    if id: RuleId :| AwaitedBy(s, id, key) {
      var taken := Popped(s).(pendingFor := s.pendingFor - {id});
      ElapsedFires(w, answers, s, id, key);
      ElapsedTaken(w, s, id, key);
      PoppedKeepsBooks(w, s, taken, punctual);
      FindRuleMember(w.rules, id);
      RunKeepsBooks(w, answers, taken, FindRule(w.rules, id).value.commands, 0, punctual);
    } else {
      ElapsedStale(w, answers, s, key);
      PoppedKeepsBooks(w, s, Popped(s), punctual);
    }
  }

  lemma UserEventKeepsBooks(w: Wiring, answers: Answers, s: State, event: Event, depth: nat, punctual: bool)
    requires WellFormed(w) && CleanAnswers(answers) && WellKeyed(s.store)
    requires Owned(w, s) && Waiting(w, s) && Books(w, s, None, punctual)
    ensures Books(w, HandleUser(w, answers, s, event, depth), None, punctual)
  {
    if event.RequestedChange? {
      RequestKeepsBooks(w, answers, s, event.device, event.desired, depth, punctual);
    } else if event.RequestedScene? {
      RunKeepsBooks(w, answers, s, [ActivateScene(event.scene)], depth, punctual);
    } else {
      ReactKeepsBooks(w, answers, s, event, depth, punctual);
    }
  }

  lemma UserPopKeepsBooks(w: Wiring, answers: Answers, s: State, popped: State, t: State, punctual: bool)
    requires WellFormed(w) && CleanAnswers(answers) && Inv(w, s) && s.queue != [] && Books(w, s, None, punctual)
    requires var event := s.queue[0].event;
      !(event.TimerElapsed? && (event.key in s.retries || w.keys.isFor(event.key)))
    requires popped == Popped(s) && t == HandleUser(w, answers, popped, s.queue[0].event, s.queue[0].depth)
    ensures Books(w, t, None, punctual)
  {
    PoppedKeepsBooks(w, s, popped, punctual);
    UserEventTaken(w, s);
    assert WellKeyed(popped.store) by { ReplayIsLastReport(s.received); }
    UserEventKeepsBooks(w, answers, popped, s.queue[0].event, s.queue[0].depth, punctual);
  }

  lemma ProcessKeepsBooks(w: Wiring, answers: Answers, s: State, t: State, punctual: bool)
    requires WellFormed(w) && CleanAnswers(answers) && Inv(w, s) && s.queue != [] && Books(w, s, None, punctual)
    requires t == Process(w, answers, s)
    ensures Books(w, t, None, punctual)
  {
    var event := s.queue[0].event;
    if Dropped(w, s) {
      PoppedKeepsBooks(w, s, t, punctual);
    } else if event.TimerElapsed? && event.key in s.retries {
      RetryKeepsBooks(w, answers, s, punctual);
    } else if event.TimerElapsed? && w.keys.isFor(event.key) {
      ElapsedKeepsBooks(w, answers, s, punctual);
    } else {
      UserPopKeepsBooks(w, answers, s, Popped(s), t, punctual);
    }
  }

  // --- time ------------------------------------------------------------------------------

  /** No deadline in the scheduler has been overslept. */
  ghost predicate Punctual(s: State) {
    forall key <- s.timers.Keys :: s.now <= s.timers[key]
  }

  /** The host sleeps at most the delay the scheduler asks for. */
  ghost predicate SleepsWithin(s: State, dt: Millis) {
    exists delay :: IsWake(s.timers, s.now, delay) && (delay.Some? ==> dt <= delay.value)
  }

  ghost predicate PunctualHost(states: seq<State>, inputs: seq<Input>)
    requires |states| == |inputs| + 1
  {
    forall i :: 0 <= i < |inputs| && inputs[i].Advance? ==> SleepsWithin(states[i], inputs[i].dt)
  }

  lemma SleepReachesNoDeadline(s: State, dt: Millis)
    requires Punctual(s) && SleepsWithin(s, dt)
    ensures forall key <- s.timers.Keys :: s.now + dt <= s.timers[key]
  {
    var delay :| IsWake(s.timers, s.now, delay) && (delay.Some? ==> dt <= delay.value);
    WakeIsExact(s.timers, s.now, delay, dt);
  }

  lemma TickedEntry(w: Wiring, s: State, t: State, a: Attempt, punctual: bool)
    requires s.queue == [] && Entry(w, s, a, None, punctual)
    requires t.attempts == s.attempts && t.retries == s.retries && t.retryCounter == s.retryCounter
    requires t.timers == Remaining(s.timers, t.now)
    requires forall key <- Elapsing(t.queue) :: key in s.timers && s.timers[key] <= t.now
    requires punctual ==> forall key <- s.timers.Keys :: t.now <= s.timers[key]
    ensures Entry(w, t, a, None, punctual)
  {
  }

  lemma TickedKeepsBooks(w: Wiring, s: State, t: State, now: Millis, due: seq<Deadline>, produced: seq<Event>,
      punctual: bool)
    requires s.queue == [] && Books(w, s, None, punctual) && ListsDue(s.timers, now, due)
    requires (forall e <- produced :: Clean(e)) && (forall e <- s.inbox :: Clean(e))
    requires punctual ==> forall key <- s.timers.Keys :: now <= s.timers[key]
    requires t == Ticked(s, now, due, produced)
    ensures Books(w, t, None, punctual)
  {
    TickElapsing(s, now, due, produced);
    forall key <- Elapsing(t.queue) ensures key in s.timers && s.timers[key] <= now {
      assert key in KeySet(due);
    }
    forall i | 0 <= i < |s.attempts| ensures Entry(w, t, s.attempts[i], None, punctual) {
      TickedEntry(w, s, t, s.attempts[i], punctual);
    }
  }

  lemma AdvanceKeepsBooks(w: Wiring, answers: Answers, s: State, t: State, dt: Millis, produced: seq<Event>,
      punctual: bool)
    requires Books(w, s, None, punctual) && StepsTo(w, answers, s, Input.Advance(dt, produced), t)
    requires (forall e <- produced :: Clean(e)) && (forall e <- s.inbox :: Clean(e))
    requires punctual ==> forall key <- s.timers.Keys :: s.now + dt <= s.timers[key]
    ensures Books(w, t, None, punctual)
  {
    var due := AdvanceLists(w, answers, s, t, dt, produced);
    var now := s.now + dt;
    TickedKeepsBooks(w, s, t, now, due, produced, punctual);
  }

  /** Every deadline a step sets lies ahead of it. */
  lemma {:induction false} DeliverAllPunctual(w: Wiring, answers: Answers, s: State, commands: seq<Command>, depth: nat)
    requires (forall c <- commands :: !c.ActivateScene?) && Punctual(s)
    ensures Punctual(DeliverAll(w, answers, s, commands, depth))
    decreases |commands|
  {
    if commands != [] {
      DeliverPunctual(w, answers, s, commands[0], 1, depth, None);
      DeliverAllPunctual(w, answers, Deliver(w, answers, s, commands[0], 1, depth, None), commands[1..], depth);
    }
  }

  lemma DeliverPunctual(w: Wiring, answers: Answers, s: State, command: Command, attempt: nat, depth: nat,
      via: Option<TimerKey>)
    requires !command.ActivateScene? && Punctual(s)
    ensures Punctual(Deliver(w, answers, s, command, attempt, depth, via))
  {
  }

  lemma {:induction false} ArmAllPunctual(w: Wiring, s: State, fired: seq<Rule>)
    requires Punctual(s)
    ensures Punctual(ArmAll(w, s, fired))
    decreases |fired|
  {
    if fired != [] && fired[0].forDuration.Some? {
      ArmAllPunctual(w, Arm(w, s, fired[0].id, fired[0].forDuration.value), fired[1..]);
    } else if fired != [] {
      ArmAllPunctual(w, s, fired[1..]);
    }
  }

  lemma RunPunctual(w: Wiring, answers: Answers, s: State, commands: seq<Command>, depth: nat)
    requires Punctual(s)
    ensures Punctual(Run(w, answers, s, commands, depth))
  {
    DeliverAllPunctual(w, answers, s, Flatten(w.scenes, commands), depth);
  }

  lemma HandleUserPunctual(w: Wiring, answers: Answers, s: State, event: Event, depth: nat)
    requires Punctual(s)
    ensures Punctual(HandleUser(w, answers, s, event, depth))
  {
    match event
    case RequestedChange(device, desired) =>
      var command := CommandForRequest(device, desired);
      if command.Some? {
        RunPunctual(w, answers, s, [command.value], depth);
      }
    case RequestedScene(scene) =>
      RunPunctual(w, answers, s, [ActivateScene(scene)], depth);
    case _ =>
      var folded := Folded(w, s, event);
      var fired := Fired(w.rules, event, Prior(s, event), folded.store);
      ArmAllPunctual(w, folded, fired);
      RunPunctual(w, answers, ArmAll(w, folded, fired), Immediate(fired), depth);
  }

  lemma ProcessPunctual(w: Wiring, answers: Answers, s: State)
    requires s.queue != [] && Punctual(s)
    ensures Punctual(Process(w, answers, s))
  {
    var event, depth := s.queue[0].event, s.queue[0].depth;
    var popped := Popped(s);
    if !Dropped(w, s) {
      if event.TimerElapsed? && event.key in s.retries {
        ReissuePunctual(w, answers, popped, event.key);
      } else if event.TimerElapsed? && w.keys.isFor(event.key) {
        ElapsedPunctual(w, answers, popped, event.key);
      } else {
        HandleUserPunctual(w, answers, popped, event, depth);
      }
    }
  }

  lemma ReissuePunctual(w: Wiring, answers: Answers, s: State, key: TimerKey)
    requires key in s.retries && Punctual(s)
    ensures Punctual(Reissue(w, answers, s, key))
  {
    var pending := s.retries[key];
    var taken := s.(retries := s.retries - {key});
    if pending.command.ActivateScene? {
      RunPunctual(w, answers, taken, [pending.command], 0);
    } else {
      DeliverPunctual(w, answers, taken, pending.command, pending.attempt, 0, Some(key));
    }
  }

  lemma ElapsedPunctual(w: Wiring, answers: Answers, s: State, key: TimerKey)
    requires Punctual(s)
    ensures Punctual(FireElapsed(w, answers, s, key))
  {
    forall id: RuleId | Sustains(w, id, s.store)
      ensures Punctual(Run(w, answers, s.(pendingFor := s.pendingFor - {id}), FindRule(w.rules, id).value.commands, 0))
    {
      RunPunctual(w, answers, s.(pendingFor := s.pendingFor - {id}), FindRule(w.rules, id).value.commands, 0);
    }
  }

  lemma NextPunctual(w: Wiring, answers: Answers, s: State, input: Input)
    requires Enabled(s, input) && Punctual(s)
    requires input.Advance? ==> SleepsWithin(s, input.dt)
    ensures Punctual(Next(w, answers, s, input))
  {
    if input.Advance? {
      SleepReachesNoDeadline(s, input.dt);
    } else if input.Pop? {
      ProcessPunctual(w, answers, s);
    }
  }

  // --- runs --------------------------------------------------------------------------------

  lemma NextKeepsBooks(w: Wiring, answers: Answers, s: State, input: Input, t: State, punctual: bool)
    requires WellFormed(w) && CleanAnswers(answers) && CleanInput(input)
    requires Inv(w, s) && StepsTo(w, answers, s, input, t) && Books(w, s, None, punctual)
    requires punctual && input.Advance? ==> Punctual(s) && SleepsWithin(s, input.dt)
    ensures Books(w, t, None, punctual)
  {
    match input
    case Pop => ProcessKeepsBooks(w, answers, s, t, punctual);
    case Advance(dt, produced) =>
      if punctual { SleepReachesNoDeadline(s, dt); }
      AdvanceKeepsBooks(w, answers, s, t, dt, produced, punctual);
    case _ => QuietKeepsBooks(w, answers, s, input, t, punctual);
  }

  lemma QuietKeepsBooks(w: Wiring, answers: Answers, s: State, input: Input, t: State, punctual: bool)
    requires CleanInput(input) && StepsTo(w, answers, s, input, t) && !input.Pop? && !input.Advance?
    requires Books(w, s, None, punctual)
    ensures Books(w, t, None, punctual)
  {
    if input.Inject? {
      CleanNeverElapses(t.queue);
    }
    UntouchedKeepsBooks(w, s, t, None, punctual);
  }

  lemma {:induction false} BooksAlong(w: Wiring, answers: Answers, states: seq<State>, inputs: seq<Input>, n: nat,
      t: State, punctual: bool)
    requires WellFormed(w) && CleanAnswers(answers) && CleanInputs(inputs)
    requires IsRun(w, answers, states, inputs) && n < |states| && t == states[n]
    requires punctual ==> PunctualHost(states, inputs)
    ensures Books(w, t, None, punctual)
  {
    if n == 0 {
      InitialBooks(w, t, punctual);
    } else {
      var s, input := states[n - 1], inputs[n - 1];
      BooksAlong(w, answers, states, inputs, n - 1, s, punctual);
      RunsKeepInv(w, answers, states, inputs, n - 1);
      if punctual {
        RunsStayPunctual(w, answers, states, inputs, n - 1);
      }
      assert StepsTo(w, answers, s, input, t);
      NextKeepsBooks(w, answers, s, input, t, punctual);
    }
  }

  lemma InitialBooks(w: Wiring, s: State, punctual: bool)
    requires s == INITIAL
    ensures Books(w, s, None, punctual)
  {
  }

  /** Main ledger theorem: on every run, chains started = successes + give-ups + pending
      retries, and every attempt is numbered within the policy, linked to exactly one
      predecessor, and not early. Under a punctual host it is exactly on time. */
  lemma RunsKeepBooks(w: Wiring, answers: Answers, states: seq<State>, inputs: seq<Input>, n: nat, punctual: bool)
    requires WellFormed(w) && CleanAnswers(answers) && CleanInputs(inputs)
    requires IsRun(w, answers, states, inputs) && n < |states|
    requires punctual ==> PunctualHost(states, inputs)
    ensures Books(w, states[n], None, punctual)
  {
    BooksAlong(w, answers, states, inputs, n, states[n], punctual);
  }

  /** Wake exactness: a host that never sleeps past the delay asked for never oversleeps a
      deadline, so every timer elapses on the tick that reaches it. */
  lemma {:induction false} RunsStayPunctual(w: Wiring, answers: Answers, states: seq<State>, inputs: seq<Input>, n: nat)
    requires IsRun(w, answers, states, inputs) && n < |states| && PunctualHost(states, inputs)
    ensures Punctual(states[n])
  {
    if n > 0 {
      RunsStayPunctual(w, answers, states, inputs, n - 1);
      assert StepsTo(w, answers, states[n - 1], inputs[n - 1], states[n]);
      NextPunctual(w, answers, states[n - 1], inputs[n - 1]);
    }
  }

  /** Under such a host every timer elapses on the very tick that reaches its deadline, and
      a sleep cut short elapses none. */
  lemma TimersElapseOnTime(w: Wiring, answers: Answers, states: seq<State>, inputs: seq<Input>, n: nat,
      delay: Option<Millis>)
    requires IsRun(w, answers, states, inputs) && n < |inputs| && PunctualHost(states, inputs) && inputs[n].Advance?
    requires IsWake(states[n].timers, states[n].now, delay)
    ensures forall d <- Due(states[n].timers, states[n + 1].now) :: d.0 == states[n + 1].now
    ensures delay.None? || inputs[n].dt < delay.value ==> Due(states[n].timers, states[n + 1].now) == []
  {
    RunsStayPunctual(w, answers, states, inputs, n);
    AdvanceMoves(w, answers, states, inputs, n);
    ElapseOnTime(states[n].timers, states[n].now, inputs[n].dt, states[n + 1].now, delay);
  }

  lemma AdvanceMoves(w: Wiring, answers: Answers, states: seq<State>, inputs: seq<Input>, n: nat)
    requires IsRun(w, answers, states, inputs) && n < |inputs| && inputs[n].Advance?
    ensures states[n + 1].now == states[n].now + inputs[n].dt
  {
    assert StepsTo(w, answers, states[n], inputs[n], states[n + 1]);
  }

  lemma ElapseOnTime(timers: Timers, now: Millis, dt: Millis, after: Millis, delay: Option<Millis>)
    requires after == now + dt && forall key <- timers.Keys :: now <= timers[key]
    requires exists asked :: IsWake(timers, now, asked) && (asked.Some? ==> dt <= asked.value)
    requires IsWake(timers, now, delay)
    ensures forall d <- Due(timers, after) :: d.0 == after
    ensures delay.None? || dt < delay.value ==> Due(timers, after) == []
  {
    var asked :| IsWake(timers, now, asked) && (asked.Some? ==> dt <= asked.value);
    WakeUnique(timers, now, asked, delay);
    WakeIsExact(timers, now, asked, dt);
  }

  lemma WakeUnique(timers: Timers, now: Millis, a: Option<Millis>, b: Option<Millis>)
    requires IsWake(timers, now, a) && IsWake(timers, now, b)
    ensures a == b
  {
    if a.Some? && b.Some? {
      var x: Millis :| IsSoonest(timers, Some(x)) && a.value == if x <= now then 0 else x - now;
      var y: Millis :| IsSoonest(timers, Some(y)) && b.value == if y <= now then 0 else y - now;
    }
  }
}
