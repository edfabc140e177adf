/** Which command a retry carries (`src/engine.rs`, `drain` and `dispatch_at`): the stored
    command is resolved again, against the store of that moment, so a relative command that
    went out as it was may come back absolute. */
module RetryCommands {
  import opened Model
  import opened TimerKeys
  import opened StateStore
  import opened Rules
  import opened Ordering
  import opened Scheduler
  import opened Scenes
  import opened EngineSpec
  import opened Intents
  import opened EngineInvariants
  import opened AnyRun
  import opened Reachable
  import opened Retries
  import opened RetryRuns

  lemma ReissuedAttempt(w: Wiring, answers: Answers, s: State, key: TimerKey)
    requires key in s.retries && s.retries[key].command.TargetsDevice()
    ensures var log := Reissue(w, answers, s, key).attempts;
      && |log| == |s.attempts| + 1 && log[|s.attempts|].via == Some(key)
      && log[|s.attempts|].command == ResolveImplicit(s.store, s.retries[key].command)
  {
    ResolvedTarget(s.store, s.retries[key].command);
  }

  /** The pop that handles a pending retry's timer. */
  ghost predicate RetriesNow(states: seq<State>, inputs: seq<Input>, j: nat)
    requires |states| == |inputs| + 1
  {
    j < |inputs| && inputs[j].Pop? && states[j].queue != [] && states[j].queue[0].event.TimerElapsed?
    && states[j].queue[0].event.key in states[j].retries
  }

  /** On every run, a retry carries the very command of the attempt it follows exactly when
      that command is absolute or still cannot be resolved. */
  lemma RetryCarriesCommandIff(w: Wiring, answers: Answers, states: seq<State>, inputs: seq<Input>, j: nat)
    returns (p: nat)
    requires WellFormed(w) && CleanAnswers(answers) && CleanInputs(inputs) && IsRun(w, answers, states, inputs)
    requires RetriesNow(states, inputs, j)
    ensures var before, after := states[j].attempts, states[j + 1].attempts;
      && p < |before| < |after| && after[|before|].via == before[p].next == Some(states[j].queue[0].event.key)
      && (after[|before|].command == before[p].command <==> StaysAsIs(states[j].store, before[p].command))
  {
    var s, key := states[j], states[j].queue[0].event.key;
    RunsKeepBooks(w, answers, states, inputs, j, false);
    RunsKeepInv(w, answers, states, inputs, j);
    p := IssuerOf(w, s, key);
    ResolvesToItselfIff(s.store, s.attempts[p].command);
    assert StepsTo(w, answers, s, inputs[j], states[j + 1]);
    assert OwnsRetry(w, s, key) && !Dropped(w, s);
    ReissuedAttempt(w, answers, Popped(s), key);
  }

  lemma IssuerOf(w: Wiring, s: State, key: TimerKey) returns (p: nat)
    requires Books(w, s, None, false) && key in s.retries
    ensures p < |s.attempts| && s.attempts[p].next == Some(key) && s.retries[key].command == s.attempts[p].command
  {
    assert Issued(s.attempts, key);
    p :| p < |s.attempts| && s.attempts[p].next == Some(key);
    assert Entry(w, s, s.attempts[p], None, false);
  }

  // --- a toggle that changes on its way -------------------------------------------------------

  /** No rules, no scenes, one device that is always busy. */
  function BusyDevice(keys: KeyScheme): Wiring {
    Wiring([], map[], {1}, RetryPolicy(2, 1000), 1, keys)
  }

  function Busy(): Answers {
    (n: nat) => Transient("busy")
  }

  const FLIP := RequestedChange(1, Desired.Toggle)
  const OFF := StateReported(1, CapabilityState.Switch(false))

  /** The toggle goes out as it is: nothing is known of the switch yet. */
  lemma ToggleGoesOut(keys: KeyScheme, s: State) returns (t: State)
    requires s == INITIAL.(queue := [Queued(FLIP, 0)])
    ensures StepsTo(BusyDevice(keys), Busy(), s, Pop, t)
    ensures t == INITIAL.(
      received := [FLIP], retryCounter := 1, timers := map[keys.retry(1) := 1000],
      retries := map[keys.retry(1) := PendingRetry(ToggleSwitch(1), 2)],
      attempts := [Attempt(ToggleSwitch(1), 1, 0, Transient("busy"), None, Some(keys.retry(1)))])
  {
    var w, answers, popped := BusyDevice(keys), Busy(), Popped(s);
    t := Process(w, answers, s);
    var rest := [ToggleSwitch(1)][1..];
    assert rest == [] && Leaves(w.scenes, rest, w.scenes.Keys) == [];
    assert Flatten(w.scenes, [ToggleSwitch(1)]) == [ToggleSwitch(1)] by {
      assert Leaves(w.scenes, [ToggleSwitch(1)], w.scenes.Keys) == [ToggleSwitch(1)] + [];
    }
    var sent := Deliver(w, answers, popped, ToggleSwitch(1), 1, 0, None);
    assert DeliverAll(w, answers, sent, rest, 0) == sent;
    assert Backoff(w.retry, 1) == 1000;
  }

  /** Then the device reports that it is off. */
  lemma ReportArrives(keys: KeyScheme, s: State) returns (t: State)
    requires s.queue == [Queued(OFF, 0)] && s.store == map[] && s.pendingFor == map[] && s.mirror == map[]
    ensures StepsTo(BusyDevice(keys), Busy(), s, Pop, t)
    ensures t.queue == [] && t.store == map[(1, CapabilityKind.Switch) := CapabilityState.Switch(false)]
    ensures t.timers == s.timers && t.retries == s.retries && t.attempts == s.attempts && t.now == s.now
    ensures t.inbox == s.inbox
  {
    var w, answers, popped := BusyDevice(keys), Busy(), Popped(s);
    t := Process(w, answers, s);
    var folded := Folded(w, popped, OFF);
    assert Reverted(w, Fold(popped, 1, CapabilityState.Switch(false))) == {};
    assert folded.timers == s.timers && folded.pendingFor == map[];
    assert Fired(w.rules, OFF, Prior(popped, OFF), folded.store) == [];
    assert Flatten(w.scenes, []) == [];
  }

  /** The retry is due, and resolves: it is no toggle any more. */
  lemma RetryComesBack(keys: KeyScheme, s: State) returns (t: State, u: State)
    requires s.queue == [] && s.inbox == [] && s.now == 0 && s.timers == map[keys.retry(1) := 1000]
    requires s.retries == map[keys.retry(1) := PendingRetry(ToggleSwitch(1), 2)] && |s.attempts| == 1
    requires s.store == map[(1, CapabilityKind.Switch) := CapabilityState.Switch(false)]
    ensures StepsTo(BusyDevice(keys), Busy(), s, Input.Advance(1000, []), t)
    ensures StepsTo(BusyDevice(keys), Busy(), t, Pop, u)
    ensures |u.attempts| == 2 && u.attempts[0] == s.attempts[0] && u.attempts[1].via == Some(keys.retry(1))
    ensures u.attempts[1].command == SetSwitch(1, true)
  {
    var w, answers, key := BusyDevice(keys), Busy(), keys.retry(1);
    t := Next(w, answers, s, Input.Advance(1000, []));
    OneTimerDue(s.timers, key, 1000);
    assert t.queue == [Queued(TimerElapsed(key), 0)];
    u := Process(w, answers, t);
    ReissuedAttempt(w, answers, Popped(t), key);
  }

  lemma OneTimerDue(timers: Timers, key: TimerKey, at: Millis)
    requires timers == map[key := at]
    ensures Due(timers, at) == [(at, key)]
  {
    DueContents(timers, at);
    DueLessIsOrder();
    forall d: Deadline ensures d in Due(timers, at) <==> d in [(at, key)] {
      assert d in Due(timers, at) <==> IsDue(timers, at, d);
    }
    AscendingUnique(DueLess, Due(timers, at), [(at, key)]);
  }

  /** A run on which the second attempt of a toggle is no toggle. */
  lemma RetriedToggleChanges(keys: KeyScheme) returns (states: seq<State>, inputs: seq<Input>)
    ensures IsRun(BusyDevice(keys), Busy(), states, inputs)
    ensures var log := states[|inputs|].attempts;
      && |log| == 2 && log[1].via == log[0].next && log[1].via.Some?
      && log[0].command == ToggleSwitch(1) && log[1].command == SetSwitch(1, true)
  {
    var w, answers := BusyDevice(keys), Busy();
    var asked := INITIAL.(queue := [Queued(FLIP, 0)]);
    var sent := ToggleGoesOut(keys, asked);
    var heard := sent.(queue := [Queued(OFF, 0)]);
    var known := ReportArrives(keys, heard);
    var due, again := RetryComesBack(keys, known);
    EmptyRun(w, answers);
    states, inputs := Grow(w, answers, [INITIAL], [], INITIAL, Input.Inject(FLIP), asked);
    states, inputs := Grow(w, answers, states, inputs, asked, Pop, sent);
    states, inputs := Grow(w, answers, states, inputs, sent, Input.Inject(OFF), heard);
    states, inputs := Grow(w, answers, states, inputs, heard, Pop, known);
    states, inputs := Grow(w, answers, states, inputs, known, Input.Advance(1000, []), due);
    states, inputs := Grow(w, answers, states, inputs, due, Pop, again);
  }

  lemma Grow(w: Wiring, answers: Answers, states: seq<State>, inputs: seq<Input>, s: State, input: Input, t: State)
    returns (moreStates: seq<State>, moreInputs: seq<Input>)
    requires RunTo(w, answers, states, inputs, s) && StepsTo(w, answers, s, input, t)
    ensures RunTo(w, answers, moreStates, moreInputs, t)
  {
    RunGrows(w, answers, states, inputs, s, input, t);
    moreStates, moreInputs := states + [t], inputs + [input];
  }
}
