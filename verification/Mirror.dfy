/** Northbound mirrors (`Engine::fan_state_folded`, `src/adapters/rest_api/mod.rs`): a
    projection of the store that consumers may flip optimistically. Every divergence has a
    correction already on its way. */
module Mirror {
  import opened Model
  import opened StateStore
  import opened Rules
  import opened Scheduler
  import opened Scenes
  import opened EngineSpec
  import opened EngineInvariants
  import opened AnyRun

  // --- what a step does to the two tables --------------------------------------------------

  predicate SameCells(s: State, t: State) {
    t.store == s.store && t.mirror == s.mirror
  }

  lemma DeliverCells(w: Wiring, answers: Answers, s: State, command: Command, attempt: nat, depth: nat,
      via: Option<TimerKey>)
    requires !command.ActivateScene?
    ensures SameCells(s, Deliver(w, answers, s, command, attempt, depth, via))
  {
  }

  lemma {:induction false} DeliverAllCells(w: Wiring, answers: Answers, s: State, commands: seq<Command>, depth: nat)
    requires forall c <- commands :: !c.ActivateScene?
    ensures SameCells(s, DeliverAll(w, answers, s, commands, depth))
    decreases |commands|
  {
    if commands != [] {
      DeliverCells(w, answers, s, commands[0], 1, depth, None);
      DeliverAllCells(w, answers, Deliver(w, answers, s, commands[0], 1, depth, None), commands[1..], depth);
    }
  }

  lemma RunCells(w: Wiring, answers: Answers, s: State, commands: seq<Command>, depth: nat)
    ensures SameCells(s, Run(w, answers, s, commands, depth))
  {
    DeliverAllCells(w, answers, s, Flatten(w.scenes, commands), depth);
  }

  lemma {:induction false} ArmAllCells(w: Wiring, s: State, fired: seq<Rule>)
    ensures SameCells(s, ArmAll(w, s, fired))
    decreases |fired|
  {
    if fired != [] && fired[0].forDuration.Some? {
      ArmAllCells(w, Arm(w, s, fired[0].id, fired[0].forDuration.value), fired[1..]);
    } else if fired != [] {
      ArmAllCells(w, s, fired[1..]);
    }
  }

  /** A report writes both tables, a request re-fans the store's value, and nothing else
      touches either. */
  ghost predicate Reflected(s: State, t: State, event: Event) {
    match event
    case StateReported(device, state) =>
      t.store == Put(s.store, device, state) && t.mirror == Put(s.mirror, device, state)
    case RequestedChange(device, desired) =>
      t.store == s.store && t.mirror == Refan(s, device, desired.Kind()).mirror
    case _ => SameCells(s, t)
  }

  lemma ReactReflects(w: Wiring, answers: Answers, s: State, event: Event, depth: nat)
    requires !event.RequestedChange?
    ensures Reflected(s, React(w, answers, s, event, depth), event)
  {
    var folded := Folded(w, s, event);
    var fired := Fired(w.rules, event, Prior(s, event), folded.store);
    ArmAllCells(w, folded, fired);
    RunCells(w, answers, ArmAll(w, folded, fired), Immediate(fired), depth);
  }

  lemma RequestReflects(w: Wiring, answers: Answers, s: State, t: State, device: DeviceId, desired: Desired, depth: nat)
    requires t == Request(w, answers, s, device, desired, depth)
    ensures Reflected(s, t, RequestedChange(device, desired))
  {
    var command := CommandForRequest(device, desired);
    if command.Some? {
      RunCells(w, answers, s, [command.value], depth);
    }
    assert SameCells(s, RunRequest(w, answers, s, device, desired, depth));
  }

  lemma HandleUserReflects(w: Wiring, answers: Answers, s: State, event: Event, depth: nat)
    ensures Reflected(s, HandleUser(w, answers, s, event, depth), event)
  {
    match event
    case RequestedChange(device, desired) =>
      RequestReflects(w, answers, s, HandleUser(w, answers, s, event, depth), device, desired, depth);
    case RequestedScene(scene) => RunCells(w, answers, s, [ActivateScene(scene)], depth);
    case _ => ReactReflects(w, answers, s, event, depth);
  }

  lemma ReissueReflects(w: Wiring, answers: Answers, s: State, key: TimerKey)
    requires key in s.retries
    ensures SameCells(s, Reissue(w, answers, s, key))
  {
    var pending := s.retries[key];
    var taken := s.(retries := s.retries - {key});
    if pending.command.ActivateScene? {
      RunCells(w, answers, taken, [pending.command], 0);
    } else {
      DeliverCells(w, answers, taken, pending.command, pending.attempt, 0, Some(key));
    }
  }

  lemma ElapsedReflects(w: Wiring, answers: Answers, s: State, key: TimerKey)
    ensures SameCells(s, FireElapsed(w, answers, s, key))
  {
    forall id: RuleId | Sustains(w, id, s.store)
      ensures SameCells(s,
        Run(w, answers, s.(pendingFor := s.pendingFor - {id}), FindRule(w.rules, id).value.commands, 0))
    {
      RunCells(w, answers, s.(pendingFor := s.pendingFor - {id}), FindRule(w.rules, id).value.commands, 0);
    }
  }

  lemma HandleReflects(w: Wiring, answers: Answers, s: State, event: Event, depth: nat)
    ensures Reflected(s, Handle(w, answers, s, event, depth), event)
  {
    if event.TimerElapsed? && event.key in s.retries {
      ReissueReflects(w, answers, s, event.key);
    } else if event.TimerElapsed? && w.keys.isFor(event.key) {
      ElapsedReflects(w, answers, s, event.key);
    } else {
      HandleUserReflects(w, answers, s, event, depth);
    }
  }

  // --- agreement -----------------------------------------------------------------------------

  predicate AgreesAt(s: State, device: DeviceId, kind: CapabilityKind) {
    Get(s.store, device, kind).Some? ==> Get(s.mirror, device, kind) == Get(s.store, device, kind)
  }

  predicate Asks(event: Event, device: DeviceId, kind: CapabilityKind) {
    event.RequestedChange? && event.device == device && event.desired.Kind() == kind
  }

  /** A request for the capability is on its way, at a depth that is never dropped. */
  ghost predicate Awaiting(s: State, device: DeviceId, kind: CapabilityKind) {
    (exists e <- s.inbox :: Asks(e, device, kind)) || Asked(s.queue, device, kind)
  }

  ghost predicate Asked(queue: seq<Queued>, device: DeviceId, kind: CapabilityKind) {
    exists i :: 0 <= i < |queue| && queue[i].depth == 0 && Asks(queue[i].event, device, kind)
  }

  ghost predicate CoveredAt(s: State, device: DeviceId, kind: CapabilityKind) {
    AgreesAt(s, device, kind) || Awaiting(s, device, kind)
  }

  /** Where mirror and store differ on a known capability, a correction is queued. */
  ghost predicate Covered(s: State) {
    forall device: DeviceId, kind: CapabilityKind :: CoveredAt(s, device, kind)
  }

  /** Re-fanning restores a cell exactly when the store knows the capability, or there was
      nothing to restore. */
  lemma RefanRestoresIff(s: State, device: DeviceId, kind: CapabilityKind)
    requires WellKeyed(s.store)
    ensures Get(Refan(s, device, kind).mirror, device, kind) == Get(s.store, device, kind) <==>
      Get(s.store, device, kind).Some? || Get(s.mirror, device, kind).None?
  {
  }

  lemma AskedTail(queue: seq<Queued>, after: seq<Queued>, device: DeviceId, kind: CapabilityKind)
    requires queue != [] && queue[1..] <= after && Asked(queue, device, kind)
    requires queue[0].depth == 0 ==> !Asks(queue[0].event, device, kind)
    ensures Asked(after, device, kind)
  {
    var i :| 0 <= i < |queue| && queue[i].depth == 0 && Asks(queue[i].event, device, kind);
    assert after[i - 1] == queue[1..][i - 1] == queue[i];
  }

  lemma AnsweredAgrees(s: State, t: State, event: Event, device: DeviceId, kind: CapabilityKind)
    requires Reflected(s, t, event) && WellKeyed(s.store) && Asks(event, device, kind)
    ensures AgreesAt(t, device, kind)
  {
    RefanRestoresIff(s, device, kind);
  }

  lemma OthersAgree(s: State, t: State, event: Event, device: DeviceId, kind: CapabilityKind)
    requires Reflected(s, t, event) && WellKeyed(s.store) && AgreesAt(s, device, kind)
    ensures AgreesAt(t, device, kind)
  {
  }

  lemma HandledCovered(s: State, t: State, device: DeviceId, kind: CapabilityKind)
    requires s.queue != [] && s.queue[1..] <= t.queue && t.inbox == s.inbox
    requires Reflected(s, t, s.queue[0].event) && WellKeyed(s.store) && CoveredAt(s, device, kind)
    ensures CoveredAt(t, device, kind)
  {
    var event := s.queue[0].event;
    if Asks(event, device, kind) {
      AnsweredAgrees(s, t, event, device, kind);
    } else if AgreesAt(s, device, kind) {
      OthersAgree(s, t, event, device, kind);
    } else if Asked(s.queue, device, kind) {
      AskedTail(s.queue, t.queue, device, kind);
    }
  }

  lemma DroppedCovered(w: Wiring, s: State, t: State, device: DeviceId, kind: CapabilityKind)
    requires s.queue != [] && Dropped(w, s) && t == s.(queue := s.queue[1..]) && CoveredAt(s, device, kind)
    ensures CoveredAt(t, device, kind)
  {
    if Asked(s.queue, device, kind) {
      AskedTail(s.queue, t.queue, device, kind);
    }
  }

  /** The store is what replaying the processed reports gives. */
  predicate Replayed(s: State) {
    s.store == Replay(s.received)
  }

  lemma ReplayedKeyed(s: State)
    requires Replayed(s)
    ensures WellKeyed(s.store)
  {
    ReplayIsLastReport(s.received);
  }

  /** What one iteration does to store, mirror, inbox and queue, in any configuration. */
  lemma HandledReflects(w: Wiring, answers: Answers, s: State, t: State)
    requires s.queue != [] && !Dropped(w, s) && t == Process(w, answers, s)
    ensures Reflected(s, t, s.queue[0].event) && s.queue[1..] <= t.queue && t.inbox == s.inbox
    ensures t.received == s.received + [s.queue[0].event]
  {
    HandleReflects(w, answers, Popped(s), s.queue[0].event, s.queue[0].depth);
    AllowsAny(answers, Popped(s));
    HandlePushes(w, answers, Popped(s), s.queue[0].event, s.queue[0].depth, ANY);
  }

  lemma ProcessReplays(w: Wiring, answers: Answers, s: State, t: State)
    requires s.queue != [] && t == Process(w, answers, s) && Replayed(s)
    ensures Replayed(t)
  {
    if !Dropped(w, s) {
      HandledReflects(w, answers, s, t);
      assert t.received[..|t.received| - 1] == s.received;
    }
  }

  lemma ProcessCovered(w: Wiring, answers: Answers, s: State, t: State)
    requires s.queue != [] && t == Process(w, answers, s) && Replayed(s) && Covered(s)
    ensures Covered(t)
  {
    if !Dropped(w, s) {
      HandledReflects(w, answers, s, t);
    }
    ReplayedKeyed(s);
    forall device: DeviceId, kind: CapabilityKind ensures CoveredAt(t, device, kind) {
      assert CoveredAt(s, device, kind);
      if Dropped(w, s) {
        DroppedCovered(w, s, t, device, kind);
      } else {
        HandledCovered(s, t, device, kind);
      }
    }
  }

  lemma TickedCovered(s: State, t: State, now: Millis, due: seq<Deadline>, produced: seq<Event>)
    requires s.queue == [] && t == Ticked(s, now, due, produced) && Covered(s)
    ensures Covered(t)
  {
    var events := Elapsed(due) + (produced + s.inbox);
    forall device: DeviceId, kind: CapabilityKind ensures CoveredAt(t, device, kind) {
      assert CoveredAt(s, device, kind);
      if e :| e in s.inbox && Asks(e, device, kind) {
        var i :| 0 <= i < |s.inbox| && s.inbox[i] == e;
        var j := |events| - |s.inbox| + i;
        assert events[j] == e;
        assert t.queue[j] == Queued(e, 0);
      }
    }
  }

  lemma WriteCovered(s: State, t: State, device: DeviceId, state: CapabilityState)
    requires t.store == s.store && t.queue == s.queue
    requires t.mirror == Put(s.mirror, device, state)
    requires t.inbox == s.inbox + [RequestedChange(device, Desired.Set(state))]
    requires Covered(s)
    ensures Covered(t)
  {
    forall d: DeviceId, k: CapabilityKind ensures CoveredAt(t, d, k) {
      assert CoveredAt(s, d, k);
      assert t.inbox[|s.inbox|] in t.inbox;
      assert d == device && k == state.Kind() ==> Asks(t.inbox[|s.inbox|], d, k);
    }
  }

  lemma SyncCovered(s: State, t: State)
    requires t.store == s.store && t.mirror == s.mirror + s.store
    ensures Covered(t)
  {
    forall d: DeviceId, k: CapabilityKind ensures CoveredAt(t, d, k) {
      assert AgreesAt(t, d, k);
    }
  }

  lemma InjectCovered(s: State, t: State, event: Event)
    requires t == s.(queue := s.queue + [Queued(event, 0)]) && s.queue == [] && Covered(s)
    ensures Covered(t)
  {
    forall d: DeviceId, k: CapabilityKind ensures CoveredAt(t, d, k) {
      assert CoveredAt(s, d, k);
    }
  }

  lemma NextCovered(w: Wiring, answers: Answers, s: State, input: Input, t: State)
    requires StepsTo(w, answers, s, input, t) && Replayed(s) && Covered(s)
    ensures Covered(t)
  {
    match input
    case Pop => ProcessCovered(w, answers, s, t);
    case Advance(dt, produced) => TickedCovered(s, t, s.now + dt, Due(s.timers, s.now + dt), produced);
    case ConsumerWrite(device, state) => WriteCovered(s, t, device, state);
    case Sync => SyncCovered(s, t);
    case Inject(event) => InjectCovered(s, t, event);
  }

  lemma NextReplays(w: Wiring, answers: Answers, s: State, input: Input, t: State)
    requires StepsTo(w, answers, s, input, t) && Replayed(s)
    ensures Replayed(t)
  {
    if input.Pop? {
      ProcessReplays(w, answers, s, t);
    }
  }

  /** On every run, in any configuration and environment: the store is the replay of the
      processed reports, and no other event ever changed it. */
  lemma {:induction false} RunsReplay(w: Wiring, answers: Answers, states: seq<State>, inputs: seq<Input>, n: nat)
    requires IsRun(w, answers, states, inputs) && n < |states|
    ensures states[n].store == Replay(states[n].received)
  {
    if n > 0 {
      RunsReplay(w, answers, states, inputs, n - 1);
      assert StepsTo(w, answers, states[n - 1], inputs[n - 1], states[n]);
      NextReplays(w, answers, states[n - 1], inputs[n - 1], states[n]);
    }
  }

  /** Store and mirror over whole runs: every capability the store knows reads the same in
      the mirror, unless a request that will restore it is still waiting. */
  lemma {:induction false} RunsStayCovered(w: Wiring, answers: Answers, states: seq<State>, inputs: seq<Input>, n: nat)
    requires IsRun(w, answers, states, inputs) && n < |states|
    ensures Covered(states[n])
  {
    if n > 0 {
      RunsStayCovered(w, answers, states, inputs, n - 1);
      RunsReplay(w, answers, states, inputs, n - 1);
      assert StepsTo(w, answers, states[n - 1], inputs[n - 1], states[n]);
      NextCovered(w, answers, states[n - 1], inputs[n - 1], states[n]);
    }
  }

  /** After a sync every capability ever reported shows its newest report, even if a
      consumer's write is still waiting to be put right; the others are left alone. */
  lemma SyncShowsReports(w: Wiring, answers: Answers, states: seq<State>, inputs: seq<Input>, n: nat, device: DeviceId,
      kind: CapabilityKind)
    requires IsRun(w, answers, states, inputs) && n < |inputs| && inputs[n].Sync?
    ensures var last := LastReport(states[n].received, device, kind);
      Get(states[n + 1].mirror, device, kind) == if last.Some? then last else Get(states[n].mirror, device, kind)
  {
    RunsReplay(w, answers, states, inputs, n);
    ReplayIsLastReport(states[n].received);
    assert StepsTo(w, answers, states[n], inputs[n], states[n + 1]);
  }

  // --- what the mirror knows ------------------------------------------------------------------

  predicate Writes(input: Input, device: DeviceId, kind: CapabilityKind) {
    input.ConsumerWrite? && input.device == device && input.state.Kind() == kind
  }

  /** A consumer has written this capability among the first `n` inputs. */
  ghost predicate Written(inputs: seq<Input>, n: nat, device: DeviceId, kind: CapabilityKind)
    requires n <= |inputs|
  {
    exists i :: 0 <= i < n && Writes(inputs[i], device, kind)
  }

  /** Beyond what the store knows, the mirror knows exactly what consumers wrote. */
  ghost predicate KnowsMore(s: State, written: bool, device: DeviceId, kind: CapabilityKind) {
    Get(s.store, device, kind) == None ==> (Get(s.mirror, device, kind).Some? <==> written)
  }

  lemma ReflectedKnows(s: State, t: State, event: Event, written: bool, device: DeviceId, kind: CapabilityKind)
    requires Reflected(s, t, event) && WellKeyed(s.store) && KnowsMore(s, written, device, kind)
    ensures KnowsMore(t, written, device, kind)
  {
  }

  lemma NextKnows(w: Wiring, answers: Answers, s: State, input: Input, t: State, written: bool, device: DeviceId,
      kind: CapabilityKind)
    requires StepsTo(w, answers, s, input, t) && Replayed(s) && KnowsMore(s, written, device, kind)
    ensures KnowsMore(t, written || Writes(input, device, kind), device, kind)
  {
    if input.Pop? && !Dropped(w, s) {
      ReplayedKeyed(s);
      HandledReflects(w, answers, s, t);
      ReflectedKnows(s, t, s.queue[0].event, written, device, kind);
    }
  }

  lemma {:induction false} RunsKnow(w: Wiring, answers: Answers, states: seq<State>, inputs: seq<Input>, n: nat,
      device: DeviceId, kind: CapabilityKind)
    requires IsRun(w, answers, states, inputs) && n < |states|
    ensures KnowsMore(states[n], Written(inputs, n, device, kind), device, kind)
  {
    if n > 0 {
      RunsKnow(w, answers, states, inputs, n - 1, device, kind);
      RunsReplay(w, answers, states, inputs, n - 1);
      assert StepsTo(w, answers, states[n - 1], inputs[n - 1], states[n]);
      var before := Written(inputs, n - 1, device, kind);
      NextKnows(w, answers, states[n - 1], inputs[n - 1], states[n], before, device, kind);
      assert Written(inputs, n, device, kind) <==>
        Written(inputs, n - 1, device, kind) || Writes(inputs[n - 1], device, kind);
    }
  }

  /** At rest, with no consumer input waiting, the mirror shows the newest report of a
      capability, or nothing where there was none, exactly when the capability has been
      reported or no consumer ever wrote it. */
  lemma MirrorAgreesAtRestIff(w: Wiring, answers: Answers, states: seq<State>, inputs: seq<Input>, n: nat,
      device: DeviceId, kind: CapabilityKind)
    requires IsRun(w, answers, states, inputs) && n < |states|
    requires states[n].queue == [] && states[n].inbox == []
    ensures var newest := LastReport(states[n].received, device, kind);
      Get(states[n].mirror, device, kind) == newest <==> newest.Some? || !Written(inputs, n, device, kind)
  {
    RunsStayCovered(w, answers, states, inputs, n);
    RunsReplay(w, answers, states, inputs, n);
    RunsKnow(w, answers, states, inputs, n, device, kind);
    CoveredAtRest(states[n], device, kind);
  }

  lemma CoveredAtRest(s: State, device: DeviceId, kind: CapabilityKind)
    requires Covered(s) && s.queue == [] && s.inbox == [] && Replayed(s)
    ensures var newest := LastReport(s.received, device, kind);
      Get(s.store, device, kind) == newest && (newest.Some? ==> Get(s.mirror, device, kind) == newest)
  {
    ReplayIsLastReport(s.received);
    assert CoveredAt(s, device, kind);
  }

  // --- without consumer writes -----------------------------------------------------------------

  lemma ReflectedTogether(s: State, t: State, event: Event)
    requires s.mirror == s.store && WellKeyed(s.store) && Reflected(s, t, event)
    ensures t.mirror == t.store
  {
  }

  /** While no consumer writes, the mirror is the store, at every loop head. */
  lemma {:induction false} MirrorIsStore(w: Wiring, answers: Answers, states: seq<State>, inputs: seq<Input>, n: nat)
    requires IsRun(w, answers, states, inputs) && n < |states|
    requires forall i :: 0 <= i < |inputs| ==> !inputs[i].ConsumerWrite?
    ensures states[n].mirror == states[n].store
  {
    if n > 0 {
      var s, t := states[n - 1], states[n];
      MirrorIsStore(w, answers, states, inputs, n - 1);
      RunsReplay(w, answers, states, inputs, n - 1);
      ReplayedKeyed(s);
      assert StepsTo(w, answers, s, inputs[n - 1], t);
      if inputs[n - 1].Pop? && !Dropped(w, s) {
        HandledReflects(w, answers, s, t);
        ReflectedTogether(s, t, s.queue[0].event);
      }
    }
  }

  // --- the write that sticks ---------------------------------------------------------------------

  /** The device's adapter, if there is one, refuses the n-th dispatch for good. */
  predicate Refuses(w: Wiring, answers: Answers, device: DeviceId, n: nat) {
    device in w.bound ==> answers(n).Permanent?
  }

  lemma RefusedOutright(w: Wiring, answers: Answers, s: State, command: Command, depth: nat)
    requires command.SetSwitch? && Refuses(w, answers, command.device, |s.attempts|)
    ensures var outcome := Answer(w, answers, s, command.device);
      outcome.Permanent? && Run(w, answers, s, [command], depth) ==
        s.(attempts := s.attempts + [Attempt(command, 1, s.now, outcome, None, None)],
           queue := s.queue + [Queued(CommandFailed(command, outcome.reason, 1), depth + 1)])
  {
    var outcome := Answer(w, answers, s, command.device);
    var rest := [command][1..];
    assert rest == [] && Leaves(w.scenes, rest, w.scenes.Keys) == [];
    assert Leaves(w.scenes, [command], w.scenes.Keys) == [command] + Leaves(w.scenes, rest, w.scenes.Keys);
    var t := Deliver(w, answers, s, command, 1, depth, None);
    assert t == s.(attempts := s.attempts + [Attempt(command, 1, s.now, outcome, None, None)],
                   queue := s.queue + [Queued(CommandFailed(command, outcome.reason, 1), depth + 1)]);
    assert DeliverAll(w, answers, t, rest, depth) == t;
    assert DeliverAll(w, answers, s, [command], depth) == t;
  }

  lemma FailureUnheard(w: Wiring, answers: Answers, s: State, event: Event, depth: nat)
    requires w.rules == [] && event.CommandFailed?
    ensures HandleUser(w, answers, s, event, depth) == s
  {
  }

  /** The smallest failing input: one optimistic write to a capability never reported, which
      the device refuses, is still in the mirror after everything has settled. */
  lemma UnknownWriteSticks(w: Wiring, answers: Answers, device: DeviceId, on: bool)
    requires w.rules == [] && Refuses(w, answers, device, 0)
    ensures var state := CapabilityState.Switch(on);
      var written := Next(w, answers, INITIAL, ConsumerWrite(device, state));
      var ticked := Next(w, answers, written, Advance(0, []));
      && written.queue == [] && ticked.queue == [Queued(RequestedChange(device, Desired.Set(state)), 0)]
      && var refused := Process(w, answers, ticked);
      && |refused.queue| == 1
      && var settled := Process(w, answers, refused);
      && settled.queue == [] && settled.inbox == []
      && Get(settled.mirror, device, CapabilityKind.Switch) == Some(state)
      && Get(settled.store, device, CapabilityKind.Switch) == None
  {
    var state := CapabilityState.Switch(on);
    var written := Next(w, answers, INITIAL, ConsumerWrite(device, state));
    var ticked := Next(w, answers, written, Advance(0, []));
    assert Due(map[], 0) == [];
    assert ticked.queue == [Queued(RequestedChange(device, Desired.Set(state)), 0)];
    RefusedOutright(w, answers, Popped(ticked), SetSwitch(device, on), 0);
    var refused := Process(w, answers, ticked);
    var reason := Answer(w, answers, Popped(ticked), device).reason;
    assert refused.queue == [Queued(CommandFailed(SetSwitch(device, on), reason, 1), 1)];
    FailureUnheard(w, answers, Popped(refused), refused.queue[0].event, 1);
  }
}
