/** Giving up, counted over whole runs (`give_up` in `src/engine.rs`): the engine announces
    exactly one `CommandFailed` for every attempt it gives up on, and none besides. */
module GiveUps {
  import opened Model
  import opened TimerKeys
  import opened StateStore
  import opened Rules
  import opened Scheduler
  import opened Scenes
  import opened EngineSpec
  import opened EngineInvariants
  import opened AnyRun
  import opened Retries

  /** No adapter announces failures itself... */
  ghost predicate SilentAnswers(answers: Answers) {
    forall n: nat :: SilentOutcome(answers(n))
  }

  predicate SilentOutcome(outcome: DispatchOutcome) {
    outcome.Ok? ==> forall e <- outcome.events :: !e.CommandFailed?
  }

  /** ...and neither does the host. */
  predicate SilentInput(input: Input) {
    match input
    case Inject(event) => !event.CommandFailed?
    case Advance(_, produced) => forall e <- produced :: !e.CommandFailed?
    case _ => true
  }

  /** Announcements still queued, less the attempts given up on so far. */
  function Gap(w: Wiring, s: State): int {
    Failures(s.queue) - Abandoned(w, s.attempts)
  }

  lemma {:induction false} FailuresAppend(a: seq<Queued>, b: seq<Queued>)
    ensures Failures(a + b) == Failures(a) + Failures(b)
    decreases |a|
  {
    if a == [] {
      assert a + b == b;
    } else {
      assert (a + b)[1..] == a[1..] + b;
      FailuresAppend(a[1..], b);
    }
  }

  lemma AttemptedGap(w: Wiring, answers: Answers, s: State, command: Command, attempt: nat, depth: nat,
      via: Option<TimerKey>)
    requires command.TargetsDevice() && SilentAnswers(answers)
    ensures Gap(w, Attempted(w, answers, s, command, attempt, depth, via)) == Gap(w, s)
  {
    var t := Attempted(w, answers, s, command, attempt, depth, via);
    assert SilentOutcome(answers(|s.attempts|));
    GivingUpIsAnnounced(w, answers, s, command, attempt, depth, via);
    FailuresAppend(s.queue, t.queue[|s.queue|..]);
    assert t.queue == s.queue + t.queue[|s.queue|..];
    AttemptedLog(w, answers, s, command, attempt, depth, via);
    CountsAppend(w, s.attempts, t.attempts[|s.attempts|]);
  }

  lemma DeliverGap(w: Wiring, answers: Answers, s: State, command: Command, attempt: nat, depth: nat,
      via: Option<TimerKey>)
    requires !command.ActivateScene? && SilentAnswers(answers)
    ensures Gap(w, Deliver(w, answers, s, command, attempt, depth, via)) == Gap(w, s)
  {
    ResolvedTarget(s.store, command);
    if command.TargetsDevice() {
      AttemptedGap(w, answers, s, ResolveImplicit(s.store, command), attempt, depth, via);
    }
  }

  lemma {:induction false} DeliverAllGap(w: Wiring, answers: Answers, s: State, commands: seq<Command>, depth: nat)
    requires (forall c <- commands :: !c.ActivateScene?) && SilentAnswers(answers)
    ensures Gap(w, DeliverAll(w, answers, s, commands, depth)) == Gap(w, s)
    decreases |commands|
  {
    if commands != [] {
      DeliverGap(w, answers, s, commands[0], 1, depth, None);
      DeliverAllGap(w, answers, Deliver(w, answers, s, commands[0], 1, depth, None), commands[1..], depth);
    }
  }

  lemma RunGap(w: Wiring, answers: Answers, s: State, commands: seq<Command>, depth: nat)
    requires SilentAnswers(answers)
    ensures Gap(w, Run(w, answers, s, commands, depth)) == Gap(w, s)
  {
    DeliverAllGap(w, answers, s, Flatten(w.scenes, commands), depth);
  }

  lemma HandleUserGap(w: Wiring, answers: Answers, s: State, event: Event, depth: nat)
    requires SilentAnswers(answers)
    ensures Gap(w, HandleUser(w, answers, s, event, depth)) == Gap(w, s)
  {
    match event
    case RequestedChange(device, desired) =>
      var command := CommandForRequest(device, desired);
      if command.Some? {
        RunGap(w, answers, s, [command.value], depth);
      }
    case RequestedScene(scene) => RunGap(w, answers, s, [ActivateScene(scene)], depth);
    case _ =>
      var folded := Folded(w, s, event);
      var fired := Fired(w.rules, event, Prior(s, event), folded.store);
      ArmAllArms(w, folded, fired);
      RunGap(w, answers, ArmAll(w, folded, fired), Immediate(fired), depth);
  }

  lemma ReissueGap(w: Wiring, answers: Answers, s: State, key: TimerKey)
    requires key in s.retries && SilentAnswers(answers)
    ensures Gap(w, Reissue(w, answers, s, key)) == Gap(w, s)
  {
    var pending := s.retries[key];
    var taken := s.(retries := s.retries - {key});
    if pending.command.ActivateScene? {
      RunGap(w, answers, taken, [pending.command], 0);
    } else {
      DeliverGap(w, answers, taken, pending.command, pending.attempt, 0, Some(key));
    }
  }

  lemma ElapsedGap(w: Wiring, answers: Answers, s: State, key: TimerKey)
    requires SilentAnswers(answers)
    ensures Gap(w, FireElapsed(w, answers, s, key)) == Gap(w, s)
  {
    forall id: RuleId | Sustains(w, id, s.store)
      ensures Gap(w, Run(w, answers, s.(pendingFor := s.pendingFor - {id}), FindRule(w.rules, id).value.commands, 0))
        == Gap(w, s)
    {
      RunGap(w, answers, s.(pendingFor := s.pendingFor - {id}), FindRule(w.rules, id).value.commands, 0);
    }
  }

  lemma HandleGap(w: Wiring, answers: Answers, s: State, event: Event, depth: nat)
    requires SilentAnswers(answers)
    ensures Gap(w, Handle(w, answers, s, event, depth)) == Gap(w, s)
  {
    if event.TimerElapsed? && event.key in s.retries {
      ReissueGap(w, answers, s, event.key);
    } else if event.TimerElapsed? && w.keys.isFor(event.key) {
      ElapsedGap(w, answers, s, event.key);
    } else {
      HandleUserGap(w, answers, s, event, depth);
    }
  }

  // --- runs ------------------------------------------------------------------------------------

  predicate PopsFailure(s: State, input: Input) {
    input.Pop? && s.queue != [] && s.queue[0].event.CommandFailed?
  }

  /** How many announcements the first `n` steps took off the queue. */
  function Heard(states: seq<State>, inputs: seq<Input>, n: nat): nat
    requires n <= |inputs| < |states|
  {
    if n == 0 then 0 else Heard(states, inputs, n - 1) + if PopsFailure(states[n - 1], inputs[n - 1]) then 1 else 0
  }

  predicate QuietInbox(s: State) {
    forall e <- s.inbox :: e.RequestedChange?
  }

  lemma PopGap(w: Wiring, answers: Answers, s: State, t: State)
    requires SilentAnswers(answers) && s.queue != [] && t == Process(w, answers, s)
    ensures Gap(w, t) == Gap(w, s) - (if PopsFailure(s, Pop) then 1 else 0) && t.inbox == s.inbox
  {
    if !Dropped(w, s) {
      HandleGap(w, answers, Popped(s), s.queue[0].event, s.queue[0].depth);
      AllowsAny(answers, Popped(s));
      HandlePushes(w, answers, Popped(s), s.queue[0].event, s.queue[0].depth, ANY);
    }
  }

  lemma TickGap(w: Wiring, s: State, t: State, now: Millis, due: seq<Deadline>, produced: seq<Event>)
    requires s.queue == [] && QuietInbox(s) && (forall e <- produced :: !e.CommandFailed?)
    requires t == Ticked(s, now, due, produced)
    ensures Gap(w, t) == Gap(w, s)
  {
    var others := produced + s.inbox;
    var events := Elapsed(due) + others;
    forall i | 0 <= i < |events| ensures !events[i].CommandFailed? {
      if i >= |due| {
        assert events[i] == others[i - |due|] && others[i - |due|] in others;
      }
    }
    NoFailures(t.queue);
  }

  lemma StepGap(w: Wiring, answers: Answers, s: State, input: Input, t: State)
    requires SilentAnswers(answers) && SilentInput(input) && StepsTo(w, answers, s, input, t) && QuietInbox(s)
    ensures Gap(w, t) == Gap(w, s) - (if PopsFailure(s, input) then 1 else 0) && QuietInbox(t)
  {
    match input
    case Pop => PopGap(w, answers, s, t);
    case Advance(dt, produced) => TickGap(w, s, t, s.now + dt, Due(s.timers, s.now + dt), produced);
    case Inject(event) => FailuresAppend(s.queue, [Queued(event, 0)]);
    case _ =>
  }

  /** On every run, in any configuration: announcements heard and announcements queued are
      together the attempts given up on, if nobody else makes any. */
  lemma {:induction false} GiveUpsAreAnnounced(w: Wiring, answers: Answers, states: seq<State>, inputs: seq<Input>,
      n: nat)
    requires IsRun(w, answers, states, inputs) && n < |states|
    requires SilentAnswers(answers) && forall i :: 0 <= i < |inputs| ==> SilentInput(inputs[i])
    ensures Heard(states, inputs, n) + Failures(states[n].queue) == Abandoned(w, states[n].attempts)
    ensures QuietInbox(states[n])
  {
    if n > 0 {
      GiveUpsAreAnnounced(w, answers, states, inputs, n - 1);
      assert StepsTo(w, answers, states[n - 1], inputs[n - 1], states[n]);
      StepGap(w, answers, states[n - 1], inputs[n - 1], states[n]);
    }
  }
}
