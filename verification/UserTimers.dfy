/** The user's own timers over whole runs (`schedule_timer`, `cancel_timer`): the scheduler
    holds exactly what the last command about a key asked for, until its time comes. */
module UserTimers {
  import opened Model
  import opened TimerKeys
  import opened Scheduler
  import opened EngineSpec
  import opened AnyRun
  import opened Orders
  import opened RetryRuns

  /** The next iteration hands out `schedule key after`, and nothing about the key later. */
  ghost predicate Sets(w: Wiring, s: State, key: TimerKey, after: Millis) {
    s.queue != [] && exists leaves ::
      Hands(w, s, leaves) && LastWord(leaves, key) == Some(ScheduleTimer(key, after))
  }

  /** The next iteration hands out nothing about the key. */
  ghost predicate Silent(w: Wiring, s: State, key: TimerKey) {
    s.queue != [] && exists leaves :: Hands(w, s, leaves) && LastWord(leaves, key) == None
  }

  ghost predicate DueAt(s: State, key: TimerKey, due: Millis) {
    key in s.timers && s.timers[key] == due
  }

  // --- one step ------------------------------------------------------------------------------

  lemma {:induction false} LastWordNames(leaves: seq<Command>, key: TimerKey)
    ensures LastWord(leaves, key).Some? ==> Names(LastWord(leaves, key).value, key)
    decreases |leaves|
  {
    if leaves != [] {
      LastWordNames(leaves[..|leaves| - 1], key);
    }
  }

  lemma PopSets(w: Wiring, answers: Answers, s: State, t: State, key: TimerKey, after: Millis)
    requires w.keys.Valid() && Tabled(w, s) && s.queue != [] && t == Process(w, answers, s) && !w.keys.Reserved(key)
    requires Sets(w, s, key, after)
    ensures DueAt(t, key, s.now + after)
  {
    var leaves :| Hands(w, s, leaves) && LastWord(leaves, key) == Some(ScheduleTimer(key, after));
    PopEffect(w, answers, s, t, leaves);
    assert Orders.Follows(s, t, key, LastWord(leaves, key));
  }

  lemma PopSilent(w: Wiring, answers: Answers, s: State, t: State, key: TimerKey)
    requires w.keys.Valid() && Tabled(w, s) && s.queue != [] && t == Process(w, answers, s) && !w.keys.Reserved(key)
    requires Silent(w, s, key)
    ensures (key in t.timers <==> key in s.timers) && (key in s.timers ==> t.timers[key] == s.timers[key])
  {
    var leaves :| Hands(w, s, leaves) && LastWord(leaves, key) == None;
    PopEffect(w, answers, s, t, leaves);
    assert Orders.Follows(s, t, key, LastWord(leaves, key));
  }

  /** Where a user's timer comes from: set in this iteration, or kept by it. */
  lemma PopOrigin(w: Wiring, answers: Answers, s: State, t: State, key: TimerKey)
    requires w.keys.Valid() && Tabled(w, s) && s.queue != [] && t == Process(w, answers, s) && !w.keys.Reserved(key)
    requires key in t.timers
    ensures (exists after :: Sets(w, s, key, after) && t.timers[key] == s.now + after)
      || (Silent(w, s, key) && DueAt(s, key, t.timers[key]))
  {
    var leaves := SomeHands(w, s);
    PopEffect(w, answers, s, t, leaves);
    assert Orders.Follows(s, t, key, LastWord(leaves, key));
    LastWordNames(leaves, key);
    var word := LastWord(leaves, key);
    if word.Some? {
      assert word == Some(ScheduleTimer(key, word.value.after));
      assert Sets(w, s, key, word.value.after);
    }
  }

  lemma ElapsedIsQueued(queue: seq<Queued>, before: seq<Queued>, due: seq<Deadline>, rest: seq<Event>, d: Deadline)
    requires queue == before + Tagged(Elapsed(due) + rest, 0) && d in due
    ensures Queued(TimerElapsed(d.1), 0) in queue
  {
    var i :| 0 <= i < |due| && due[i] == d;
    assert (Elapsed(due) + rest)[i] == TimerElapsed(d.1);
    assert queue[|before| + i] == Queued(TimerElapsed(d.1), 0);
  }

  /** On an advance a timer stays or its event is queued, as its deadline says. */
  lemma AdvanceTimers(s: State, t: State, dt: Millis, produced: seq<Event>, key: TimerKey)
    requires t == Tick(s, dt, produced)
    ensures key in t.timers <==> key in s.timers && s.timers[key] > t.now
    ensures key in t.timers ==> t.timers[key] == s.timers[key]
    ensures key in s.timers && s.timers[key] <= t.now ==> Queued(TimerElapsed(key), 0) in t.queue
  {
    if key in s.timers && s.timers[key] <= t.now {
      DueContents(s.timers, t.now);
      ElapsedIsQueued(t.queue, s.queue, Due(s.timers, t.now), produced + s.inbox, (s.timers[key], key));
    }
  }

  /** The scheduler ticks first and the consumers' mirrors last, so an advance queues elapsed
      timers, by time and key, then the adapters' events, then the consumers' requests. */
  lemma AdvanceInOrder(s: State, t: State, dt: Millis, produced: seq<Event>, i: nat)
    requires s.queue == [] && t == Tick(s, dt, produced) && i < |t.queue|
    ensures var due := Due(s.timers, s.now + dt);
      && |t.queue| == |due| + |produced| + |s.inbox| && t.queue[i].depth == 0
      && t.queue[i].event == (if i < |due| then TimerElapsed(due[i].1)
                              else if i < |due| + |produced| then produced[i - |due|]
                              else s.inbox[i - |due| - |produced|])
  {
  }

  // --- runs ------------------------------------------------------------------------------------

  /** Between these two states no iteration says anything about the key, and no advance
      reaches the deadline. */
  ghost predicate Undisturbed(w: Wiring, states: seq<State>, inputs: seq<Input>, from: nat, n: nat, key: TimerKey,
      due: Millis)
    requires |states| == |inputs| + 1 && n < |states|
  {
    forall m :: from <= m < n ==> UndisturbedStep(w, states[m], inputs[m], states[m + 1], key, due)
  }

  ghost predicate UndisturbedStep(w: Wiring, s: State, input: Input, t: State, key: TimerKey, due: Millis) {
    (input.Pop? ==> Silent(w, s, key)) && (input.Advance? ==> t.now < due)
  }

  /** Step `i` set the timer, for this deadline. */
  ghost predicate SetBy(w: Wiring, states: seq<State>, inputs: seq<Input>, i: nat, key: TimerKey, due: Millis)
    requires |states| == |inputs| + 1 && i < |inputs|
  {
    SetIn(w, states[i], inputs[i], key, due)
  }

  ghost predicate SetIn(w: Wiring, s: State, input: Input, key: TimerKey, due: Millis) {
    input.Pop? && s.now <= due && Sets(w, s, key, due - s.now)
  }

  lemma StepKeepsTimer(w: Wiring, answers: Answers, s: State, input: Input, t: State, key: TimerKey, due: Millis)
    requires w.keys.Valid() && Tabled(w, s) && StepsTo(w, answers, s, input, t) && !w.keys.Reserved(key)
    requires DueAt(s, key, due) && UndisturbedStep(w, s, input, t, key, due)
    ensures DueAt(t, key, due)
  {
    match input
    case Pop => PopSilent(w, answers, s, t, key);
    case Advance(dt, produced) => AdvanceTimers(s, t, dt, produced, key);
    case _ =>
  }

  lemma StepSetsTimer(w: Wiring, answers: Answers, states: seq<State>, inputs: seq<Input>, i: nat, key: TimerKey,
      due: Millis, t: State)
    requires w.keys.Valid() && IsRun(w, answers, states, inputs) && i < |inputs| && !w.keys.Reserved(key)
    requires SetBy(w, states, inputs, i, key, due) && t == states[i + 1]
    ensures DueAt(t, key, due)
  {
    RunsStayTabled(w, answers, states, inputs, i);
    assert StepsTo(w, answers, states[i], inputs[i], states[i + 1]);
    PopSets(w, answers, states[i], t, key, due - states[i].now);
  }

  /** A user's timer set at `T` with delay `d` stands at `T + d` until a command about its
      key, or the time, comes. */
  lemma {:induction false} TimerStands(w: Wiring, answers: Answers, states: seq<State>, inputs: seq<Input>, i: nat,
      n: nat, key: TimerKey, due: Millis)
    requires w.keys.Valid() && IsRun(w, answers, states, inputs) && i < n < |states| && !w.keys.Reserved(key)
    requires SetBy(w, states, inputs, i, key, due) && Undisturbed(w, states, inputs, i + 1, n, key, due)
    ensures DueAt(states[n], key, due)
    decreases n
  {
    if n == i + 1 {
      StepSetsTimer(w, answers, states, inputs, i, key, due, states[n]);
    } else {
      TimerStands(w, answers, states, inputs, i, n - 1, key, due);
      StandsOn(w, answers, states, inputs, n - 1, key, due, states[n - 1], states[n]);
    }
  }

  lemma StandsOn(w: Wiring, answers: Answers, states: seq<State>, inputs: seq<Input>, n: nat, key: TimerKey,
      due: Millis, s: State, t: State)
    requires w.keys.Valid() && IsRun(w, answers, states, inputs) && n < |inputs| && !w.keys.Reserved(key)
    requires s == states[n] && t == states[n + 1] && DueAt(s, key, due)
    requires UndisturbedStep(w, s, inputs[n], t, key, due)
    ensures DueAt(t, key, due)
  {
    RunsStayTabled(w, answers, states, inputs, n);
    assert StepsTo(w, answers, states[n], inputs[n], states[n + 1]);
    StepKeepsTimer(w, answers, s, inputs[n], t, key, due);
  }

  /** The advance that reaches the deadline queues the timer's event, at that very instant if
      the host never oversleeps. */
  lemma TimerElapses(w: Wiring, answers: Answers, states: seq<State>, inputs: seq<Input>, i: nat, n: nat, key: TimerKey,
      due: Millis, punctual: bool)
    requires w.keys.Valid() && IsRun(w, answers, states, inputs) && i < n < |inputs| && !w.keys.Reserved(key)
    requires SetBy(w, states, inputs, i, key, due) && Undisturbed(w, states, inputs, i + 1, n, key, due)
    requires inputs[n].Advance? && due <= states[n + 1].now && (punctual ==> PunctualHost(states, inputs))
    ensures Queued(TimerElapsed(key), 0) in states[n + 1].queue && key !in states[n + 1].timers
    ensures punctual ==> states[n + 1].now == due
  {
    TimerStands(w, answers, states, inputs, i, n, key, due);
    assert StepsTo(w, answers, states[n], inputs[n], states[n + 1]);
    AdvanceTimers(states[n], states[n + 1], inputs[n].dt, inputs[n].produced, key);
    if punctual {
      ElapsesPunctually(w, answers, states, inputs, n, key, due, states[n], states[n + 1].now);
    }
  }

  lemma ElapsesPunctually(w: Wiring, answers: Answers, states: seq<State>, inputs: seq<Input>, n: nat, key: TimerKey,
      due: Millis, s: State, after: Millis)
    requires IsRun(w, answers, states, inputs) && n < |inputs| && inputs[n].Advance? && PunctualHost(states, inputs)
    requires s == states[n] && after == states[n + 1].now && DueAt(s, key, due) && due <= after
    ensures after == due
  {
    RunsStayPunctual(w, answers, states, inputs, n);
    AdvanceMoves(w, answers, states, inputs, n);
    SleepReachesNoDeadline(s, inputs[n].dt);
  }

  /** And every user's timer in the scheduler was set so: by the last command about its key,
      as long before its deadline as that command asked for. */
  lemma {:induction false} TimerWasSet(w: Wiring, answers: Answers, states: seq<State>, inputs: seq<Input>, n: nat,
      key: TimerKey, due: Millis)
    returns (i: nat)
    requires w.keys.Valid() && IsRun(w, answers, states, inputs) && n < |states| && !w.keys.Reserved(key)
    requires DueAt(states[n], key, due)
    ensures i < n && SetBy(w, states, inputs, i, key, due) && Undisturbed(w, states, inputs, i + 1, n, key, due)
  {
    var began := StepOrigin(w, answers, states, inputs, n, key, due);
    if began {
      i := n - 1;
    } else {
      i := TimerWasSet(w, answers, states, inputs, n - 1, key, due);
      UndisturbedGrows(w, states, inputs, i + 1, n - 1, key, due);
    }
  }

  lemma UndisturbedGrows(w: Wiring, states: seq<State>, inputs: seq<Input>, from: nat, n: nat, key: TimerKey,
      due: Millis)
    requires |states| == |inputs| + 1 && n < |inputs| && Undisturbed(w, states, inputs, from, n, key, due)
    requires UndisturbedStep(w, states[n], inputs[n], states[n + 1], key, due)
    ensures Undisturbed(w, states, inputs, from, n + 1, key, due)
  {
  }

  lemma StepOrigin(w: Wiring, answers: Answers, states: seq<State>, inputs: seq<Input>, n: nat, key: TimerKey,
      due: Millis)
    returns (began: bool)
    requires w.keys.Valid() && IsRun(w, answers, states, inputs) && n < |states| && !w.keys.Reserved(key)
    requires DueAt(states[n], key, due)
    ensures n > 0
    ensures began ==> SetBy(w, states, inputs, n - 1, key, due)
    ensures !began ==> DueAt(states[n - 1], key, due)
    ensures !began ==> UndisturbedStep(w, states[n - 1], inputs[n - 1], states[n], key, due)
  {
    var s, input, t := states[n - 1], inputs[n - 1], states[n];
    RunsStayTabled(w, answers, states, inputs, n - 1);
    assert StepsTo(w, answers, s, input, t);
    began := InputOrigin(w, answers, s, input, t, key, due);
  }

  lemma InputOrigin(w: Wiring, answers: Answers, s: State, input: Input, t: State, key: TimerKey, due: Millis)
    returns (began: bool)
    requires w.keys.Valid() && Tabled(w, s) && StepsTo(w, answers, s, input, t) && !w.keys.Reserved(key)
    requires DueAt(t, key, due)
    ensures if began then SetIn(w, s, input, key, due)
      else DueAt(s, key, due) && UndisturbedStep(w, s, input, t, key, due)
  {
    began := false;
    match input
    case Pop =>
      PopOrigin(w, answers, s, t, key);
      began := t.timers[key] >= s.now && Sets(w, s, key, t.timers[key] - s.now);
    case Advance(dt, produced) => AdvanceTimers(s, t, dt, produced, key);
    case _ =>
  }
}
