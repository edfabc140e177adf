/** From an accepted configuration to a running engine (`src/compile/mod.rs`,
    `build_engine_full`): what acceptance buys at run time, and exactly what it leaves to
    the author of the configuration. */
module Deploy {
  import opened Model
  import opened TimerKeys
  import opened Rules
  import opened Readings
  import opened Scenes
  import EngineSpec
  import opened RawConfig
  import opened Lower
  import opened Resolve
  import opened Dangling

  /** The device sits on a northbound adapter, which gets no dispatch slot. */
  predicate OnNorthbound(raw: Raw, c: Compiled, device: DeviceId) {
    device < |c.env.devices| && c.env.devices[device].adapter < |raw.adapters|
    && raw.adapters[c.env.devices[device].adapter].northbound
  }

  /** The engine's tables: scenes and rules by id, and bound to an adapter that can be
      dispatched to every device on a southbound one, and the clock. */
  function WiringOf(raw: Raw, c: Compiled, retry: EngineSpec.RetryPolicy, maxDepth: nat,
      keys: KeyScheme): EngineSpec.Wiring {
    var bound := set d: DeviceId | d in DevicesUpTo(|c.env.devices|) && !OnNorthbound(raw, c, d);
    EngineSpec.Wiring(c.rules, SceneTable(c.scenes), bound, retry, maxDepth, keys)
  }

  function DevicesUpTo(n: nat): (devices: set<DeviceId>)
    ensures forall d: DeviceId :: d in devices <==> d <= n
  {
    if n == 0 then {0} else DevicesUpTo(n - 1) + {n}
  }

  function SceneTable(scenes: seq<seq<Command>>): (table: Scenes.SceneTable)
    ensures forall i: nat :: i in table <==> i < |scenes|
    ensures forall i: nat :: i < |scenes| ==> table[i] == scenes[i]
  {
    map i: nat | i < |scenes| :: scenes[i]
  }

  // --- every reference is good ---------------------------------------------------------------

  predicate Has(env: Env, device: DeviceId, kind: CapabilityKind) {
    device < |env.devices| && kind in env.devices[device].capabilities
  }

  ghost predicate TriggerSound(c: Compiled, schedules: nat, t: Trigger) {
    match t
    case OnAction(device, action) =>
      device < |c.env.devices| && exists e <- c.env.devices[device].events :: e.1 == action
    case Changed(device, kind, _) => kind.IsBool() && Has(c.env, device, kind)
    case Crosses(device, kind, _, _) => kind.IsNumeric() && Has(c.env, device, kind)
    case Reports(device, kind) => Has(c.env, device, kind)
    case Timer(_) => true
    case Time(schedule) => schedule < schedules
    case OnCommandFailed(only) => only.Some? ==> only.value < |c.env.devices|
  }

  /** The capability a device command writes. */
  function Needs(c: Command): CapabilityKind
    requires c.TargetsDevice()
  {
    match c
    case SetSwitch(_, _) => CapabilityKind.Switch
    case ToggleSwitch(_) => CapabilityKind.Switch
    case SetBrightness(_, _, _) => CapabilityKind.Brightness
    case DecreaseBrightness(_, _) => CapabilityKind.Brightness
    case IncreaseBrightness(_, _) => CapabilityKind.Brightness
    case SetColor(_, _, _, _, _) => CapabilityKind.Color
    case SetColorTemperature(_, _, _) => CapabilityKind.ColorTemperature
    case SendIrCode(_, _) => CapabilityKind.IrTransmitter
  }

  predicate CommandSound(c: Compiled, command: Command) {
    if command.ActivateScene? then command.scene < |c.scenes|
    else command.TargetsDevice() ==> Has(c.env, command.device, Needs(command))
  }

  /** A named device is one of the declared devices, never the clock. */
  lemma NamedIsDeclared(raw: Raw, env: Env, name: string, device: DeviceId)
    requires EnvMeans(raw, env) && env.Names(name, device)
    ensures device < |env.devices|
    ensures forall kind :: env.Declares(device, kind) <==> Has(env, device, kind)
  {
    var i :| 0 <= i < |raw.DeviceNames()| && raw.DeviceNames()[i] == name;
  }

  lemma {:induction false} FoundEvent(events: seq<(string, ActionId)>, name: string)
    requires FindEvent(events, name).Some?
    ensures exists e <- events :: e.1 == FindEvent(events, name).value
  {
    if events[0].0 == name {
      assert events[0] in events;
    } else {
      FoundEvent(events[1..], name);
    }
  }

  lemma MeantTriggerSound(raw: Raw, c: Compiled, v: Value, t: Trigger)
    requires EnvMeans(raw, c.env) && TriggerMeans(c.env, v, t)
    ensures TriggerSound(c, |raw.schedules|, t)
  {
    match t
    case OnAction(device, action) =>
      FoundEvent(c.env.devices[device].events, SplitDot(v.payload.text).value.1);
    case Changed(device, _, _) => NamedIsDeclared(raw, c.env, v.payload.record.device, device);
    case Crosses(device, _, _, _) => NamedIsDeclared(raw, c.env, v.payload.record.device, device);
    case Reports(device, _) => NamedIsDeclared(raw, c.env, v.payload.record.device, device);
    case Time(schedule) =>
      var i :| 0 <= i < |raw.ScheduleNames()| && raw.ScheduleNames()[i] == v.payload.text;
    case OnCommandFailed(only) =>
      if only.Some? { NamedIsDeclared(raw, c.env, v.payload.text, only.value); }
    case Timer(_) =>
  }

  lemma MeantCommandSound(raw: Raw, c: Compiled, v: Value, command: Command)
    requires EnvMeans(raw, c.env) && |c.scenes| == |raw.scenes| && CommandMeans(c.env, v, command)
    ensures CommandSound(c, command)
  {
    if command.ActivateScene? {
      var i :| 0 <= i < |raw.SceneNames()| && raw.SceneNames()[i] == v.payload.text;
    } else if command.TargetsDevice() {
      NamedIsDeclared(raw, c.env, if v.payload.Name? then v.payload.text else v.payload.record.device, command.device);
    }
  }

  lemma MeantCommandsSound(raw: Raw, c: Compiled, raws: seq<Value>, commands: seq<Command>)
    requires EnvMeans(raw, c.env) && |c.scenes| == |raw.scenes| && CommandsMean(c.env, raws, commands)
    ensures forall command <- commands :: CommandSound(c, command)
  {
    forall command <- commands ensures CommandSound(c, command) {
      var i :| 0 <= i < |commands| && commands[i] == command;
      MeantCommandSound(raw, c, raws[i], command);
    }
  }

  /** In an accepted configuration every rule reads and writes declared capabilities of
      existing devices, in their shape, and names existing scenes and schedules. */
  lemma AcceptedRulesSound(raw: Raw, c: Compiled, i: nat)
    requires CompilesTo(raw, c) && i < |raw.rules|
    ensures var rule := c.rules[i];
      && rule.id == i && |rule.commands| == |raw.rules[i].commands|
      && TriggerSound(c, |raw.schedules|, rule.trigger) && ConditionSound(c.env, rule.condition)
      && forall command <- rule.commands :: CommandSound(c, command)
  {
    var rule := c.rules[i];
    assert RuleMeans(c.env, raw.rules[i], i, rule);
    MeantTriggerSound(raw, c, raw.rules[i].when, rule.trigger);
    if raw.rules[i].condition.Some? {
      MeaningIsSound(c.env, raw.rules[i].condition.value, rule.condition);
    }
    MeantCommandsSound(raw, c, raw.rules[i].commands, rule.commands);
  }

  lemma AcceptedScenesSound(raw: Raw, c: Compiled, i: nat)
    requires CompilesTo(raw, c) && i < |raw.scenes|
    ensures forall command <- c.scenes[i] :: CommandSound(c, command)
  {
    MeantCommandsSound(raw, c, raw.scenes[i].commands, c.scenes[i]);
  }

  lemma {:induction false} LeavesSound(raw: Raw, c: Compiled, table: Scenes.SceneTable, commands: seq<Command>,
      avail: set<SceneId>)
    requires CompilesTo(raw, c) && table == SceneTable(c.scenes)
    requires forall command <- commands :: CommandSound(c, command)
    ensures forall command <- Leaves(table, commands, avail) :: CommandSound(c, command)
    decreases avail, |commands|
  {
    if commands != [] {
      if Opens(table, commands[0]) && commands[0].scene in avail {
        AcceptedScenesSound(raw, c, commands[0].scene);
        LeavesSound(raw, c, table, table[commands[0].scene], avail - {commands[0].scene});
      }
      LeavesSound(raw, c, table, commands[1..], avail);
    }
  }

  /** A command that running an accepted rule comes down to, directly or through scenes,
      finds an adapter to dispatch to exactly if its device is not on a northbound one. */
  lemma CommandsBoundIff(raw: Raw, c: Compiled, w: EngineSpec.Wiring, i: nat, command: Command)
    requires CompilesTo(raw, c) && w == WiringOf(raw, c, w.retry, w.maxDepth, w.keys)
    requires i < |raw.rules| && command in Flatten(w.scenes, c.rules[i].commands) && command.TargetsDevice()
    ensures command.device in w.bound <==> !OnNorthbound(raw, c, command.device)
  {
    AcceptedRulesSound(raw, c, i);
    LeavesSound(raw, c, w.scenes, c.rules[i].commands, w.scenes.Keys);
    assert CommandSound(c, command);
  }

  // --- polarity ---------------------------------------------------------------------------------

  /** The same configuration, but for the direction of its adapters. */
  ghost predicate Repolarised(raw: Raw, other: Raw) {
    && other == raw.(adapters := other.adapters) && |other.adapters| == |raw.adapters|
    && forall i :: 0 <= i < |raw.adapters| ==> SameButPolarity(raw.adapters[i], other.adapters[i])
  }

  predicate SameButPolarity(a: RawAdapter, b: RawAdapter) {
    b == RawAdapter(a.name, a.known, b.northbound, a.exposes, a.checks)
  }

  /** The compiler does not look at the direction of an adapter: a device on a northbound
      adapter is rejected exactly if it would be on a southbound one. */
  lemma PolarityIrrelevant(raw: Raw, other: Raw, c: Compiled)
    requires Repolarised(raw, other)
    ensures CompilesTo(raw, c) <==> CompilesTo(other, c)
  {
    if CompilesTo(raw, c) { RepolarisedCompiles(raw, other, c); }
    if CompilesTo(other, c) { RepolarisedCompiles(other, raw, c); }
  }

  lemma RepolarisedCompiles(raw: Raw, other: Raw, c: Compiled)
    requires (Repolarised(raw, other) || Repolarised(other, raw)) && CompilesTo(raw, c)
    ensures CompilesTo(other, c)
  {
    assert other == raw.(adapters := other.adapters);
    forall a <- other.adapters
      ensures a.known && NoErrors(a.checks)
      ensures (a.exposes.Named? ==> forall n <- a.exposes.names :: n in other.DeviceNames())
    {
      var i :| 0 <= i < |other.adapters| && other.adapters[i] == a;
      assert SameButPolarity(raw.adapters[i], a) || SameButPolarity(a, raw.adapters[i]);
      assert raw.adapters[i] in raw.adapters;
    }
    assert raw.DeviceNames() == other.DeviceNames() && raw.SceneNames() == other.SceneNames();
    assert raw.ScheduleNames() == other.ScheduleNames();
    forall i | 0 <= i < |raw.devices| ensures DeviceMeans(other, i, c.env.devices[i]) {
      assert DeviceMeans(raw, i, c.env.devices[i]);
      var k := c.env.devices[i].adapter;
      assert SameButPolarity(raw.adapters[k], other.adapters[k]) || SameButPolarity(other.adapters[k], raw.adapters[k]);
    }
  }

  // --- what the engine relies on ----------------------------------------------------------------

  /** No configured command schedules or cancels a key of the engine's own. */
  ghost predicate KeepsClear(w: EngineSpec.Wiring) {
    && (forall rule <- w.rules, command <- rule.commands :: EngineSpec.UserKeyed(w, command))
    && (forall scene <- w.scenes.Keys, command <- w.scenes[scene] :: EngineSpec.UserKeyed(w, command))
  }

  /** Acceptance supplies distinct rule ids and puts `for:` on edge triggers only. That is
      exactly two conditions short of what the theorems about waits and retries need: that
      no scene reaches itself and that no user timer uses a reserved prefix. */
  lemma AcceptedIsWellFormedIff(raw: Raw, c: Compiled, w: EngineSpec.Wiring)
    requires CompilesTo(raw, c) && w == WiringOf(raw, c, w.retry, w.maxDepth, w.keys) && w.keys.Valid()
    ensures EngineSpec.DistinctIds(w.rules)
    ensures forall rule <- w.rules :: rule.forDuration.Some? ==> rule.trigger.Watched().Some?
    ensures EngineSpec.WellFormed(w) <==> Acyclic(w.scenes) && KeepsClear(w)
  {
    forall i | 0 <= i < |w.rules| ensures w.rules[i].id == i && SustainsAnEdge(w.rules[i]) {
      assert RuleMeans(c.env, raw.rules[i], i, c.rules[i]);
    }
  }

  predicate SustainsAnEdge(rule: Rule) {
    rule.forDuration.Some? ==> rule.trigger.Watched().Some?
  }

  // --- the dangling-timer lint -------------------------------------------------------------------

  lemma UsedByIsScheduled(commands: seq<Command>, key: TimerKey)
    ensures UsedBy(commands, Schedules(key)) <==> SchedulesKey(commands, key)
  {
    if i :| 0 <= i < |commands| && Schedules(key) in CommandRefs(commands[i]) {
      assert commands[i] in commands;
    }
    if command :| command in commands && command.ScheduleTimer? && command.key == key {
      var i :| 0 <= i < |commands| && commands[i] == command;
      assert Schedules(key) in CommandRefs(commands[i]);
    }
  }

  lemma UsedIsScheduled(c: Compiled, w: EngineSpec.Wiring, key: TimerKey)
    requires w.rules == c.rules && w.scenes == SceneTable(c.scenes)
    ensures Uses(c, Schedules(key)) <==> Scheduled(w, key)
  {
    if i :| 0 <= i < |c.scenes| && UsedBy(c.scenes[i], Schedules(key)) {
      UsedByIsScheduled(c.scenes[i], key);
      assert i in w.scenes.Keys && SchedulesKey(w.scenes[i], key);
    }
    if i :| 0 <= i < |c.rules| && RuleUses(c.rules[i], Schedules(key)) {
      UsedByIsScheduled(c.rules[i].commands, key);
      assert c.rules[i] in w.rules;
    }
    if scene :| scene in w.scenes.Keys && SchedulesKey(w.scenes[scene], key) {
      UsedByIsScheduled(c.scenes[scene], key);
    }
    if rule :| rule in w.rules && SchedulesKey(rule.commands, key) {
      var i :| 0 <= i < |c.rules| && c.rules[i] == rule;
      UsedByIsScheduled(rule.commands, key);
      assert RuleUses(c.rules[i], Schedules(key));
    }
  }

  /** For a rule on `timer: k`, the warning about `k` appears exactly when no configured
      command schedules `k`. */
  lemma WarnedIffUnscheduled(c: Compiled, lints: seq<Diagnostic>, w: EngineSpec.Wiring, rule: Rule)
    requires LintsExact(c, lints) && w.rules == c.rules && w.scenes == SceneTable(c.scenes)
    requires rule in c.rules && rule.trigger.Timer?
    ensures DanglingTimer(rule.trigger.key) in lints <==> !Scheduled(w, rule.trigger.key)
  {
    var i :| 0 <= i < |c.rules| && c.rules[i] == rule;
    assert RuleUses(c.rules[i], Mentions(rule.trigger.key));
    assert Uses(c, Mentions(rule.trigger.key));
    UsedIsScheduled(c, w, rule.trigger.key);
  }

  /** The warning is right: on no run does a warned rule's trigger ever match. */
  lemma WarnedRuleIsDead(c: Compiled, lints: seq<Diagnostic>, w: EngineSpec.Wiring, answers: EngineSpec.Answers,
      states: seq<EngineSpec.State>, inputs: seq<EngineSpec.Input>, n: nat, rule: Rule)
    requires LintsExact(c, lints) && w.rules == c.rules && w.scenes == SceneTable(c.scenes)
    requires EngineSpec.WellFormed(w) && EngineSpec.CleanAnswers(answers) && EngineSpec.CleanInputs(inputs)
    requires EngineSpec.IsRun(w, answers, states, inputs) && n < |states|
    requires rule in c.rules && rule.trigger.Timer? && DanglingTimer(rule.trigger.key) in lints
    requires states[n].queue != [] && EngineSpec.ReachesRules(w, states[n])
    ensures !rule.trigger.Matches(states[n].queue[0].event, EngineSpec.Prior(states[n], states[n].queue[0].event))
  {
    WarnedIffUnscheduled(c, lints, w, rule);
    UnscheduledTimerNeverMatches(w, answers, states, inputs, n, rule);
  }

  // --- triggers nothing can match -----------------------------------------------------------------

  /** The trigger waits for something a device can report: the threshold lies within the
      readings of the capability, and the capability is not write-only. */
  predicate CanMatch(t: Trigger) {
    match t
    case Crosses(_, kind, bound, dir) =>
      kind.IsNumeric() && if dir.Above? then bound <= Range(kind).1 else bound >= Range(kind).0
    case Reports(_, kind) => kind != CapabilityKind.IrTransmitter
    case _ => true
  }

  lemma AnyReported(kind: CapabilityKind) returns (state: CapabilityState)
    requires kind != CapabilityKind.IrTransmitter
    ensures state.Kind() == kind
  {
    if kind.IsBool() {
      state := BoolReading(kind, true);
    } else if kind.IsNumeric() {
      state := NumberReading(kind, 0);
    } else {
      state := CapabilityState.Color(0, 0, 0);
    }
  }

  predicate Shaped(t: Trigger) {
    (t.Changed? ==> t.kind.IsBool()) && (t.Crosses? ==> t.kind.IsNumeric())
  }

  lemma MatchingEvent(t: Trigger) returns (event: Event)
    requires Shaped(t) && CanMatch(t)
    ensures t.Matches(event, None)
  {
    match t
    case OnAction(device, action) => event := Action(device, action);
    case Changed(device, kind, value) =>
      ReadingKinds(kind, value, 0);
      BoolViewInverts(BoolReading(kind, value), value);
      event := StateReported(device, BoolReading(kind, value));
    case Crosses(device, kind, _, dir) =>
      var n := if dir.Above? then Range(kind).1 else Range(kind).0;
      ReadingKinds(kind, true, n);
      NumberViewInverts(NumberReading(kind, n), n);
      event := StateReported(device, NumberReading(kind, n));
    case Reports(device, kind) =>
      var state := AnyReported(kind);
      event := StateReported(device, state);
    case Timer(key) => event := TimerElapsed(key);
    case Time(schedule) => event := TimeReached(schedule);
    case OnCommandFailed(only) =>
      event := CommandFailed(ToggleSwitch(if only.Some? then only.value else 0), "", 1);
  }

  lemma MatchedCanMatch(t: Trigger, event: Event, prior: Option<CapabilityState>)
    requires Shaped(t) && t.Matches(event, prior)
    ensures CanMatch(t)
  {
    if t.Crosses? {
      NumberViewInverts(event.state, event.state.AsNumber().value);
    }
  }

  lemma AcceptedShaped(raw: Raw, c: Compiled, i: nat, t: Trigger)
    requires CompilesTo(raw, c) && i < |raw.rules| && t == c.rules[i].trigger
    ensures Shaped(t)
  {
    assert RuleMeans(c.env, raw.rules[i], i, c.rules[i]);
    MeantTriggerSound(raw, c, raw.rules[i].when, t);
  }

  /** The trigger of an accepted rule matches some event exactly if it does not watch a
      write-only capability and its threshold is one the capability can reach. The compiler
      warns about neither. */
  lemma AcceptedTriggerMatchesIff(raw: Raw, c: Compiled, i: nat, t: Trigger)
    requires CompilesTo(raw, c) && i < |raw.rules| && t == c.rules[i].trigger
    ensures (exists event, prior :: t.Matches(event, prior)) <==> CanMatch(t)
  {
    AcceptedShaped(raw, c, i, t);
    if event, prior :| t.Matches(event, prior) {
      MatchedCanMatch(t, event, prior);
    }
    if CanMatch(t) {
      var event := MatchingEvent(t);
    }
  }

  // --- what acceptance leaves open ------------------------------------------------------------------

  const NO_SCALARS := Scalars((s: string) => Some(0), (s: string) => None, (v: Value) => None)

  function OneScene(commands: seq<Value>): Raw {
    Raw([], [], [RawScene("loop", commands)], [], [], NO_SCALARS, (d: DeviceDef) => [], [])
  }

  function OneSceneEnv(): Env {
    Env([], map[], map["loop" := 0], map[], NO_SCALARS)
  }

  lemma OneSceneCompiles(node: Value, command: Command) returns (c: Compiled)
    requires CommandMeans(OneSceneEnv(), node, command)
    ensures CompilesTo(OneScene([node]), c) && c.scenes == [[command]] && c.rules == []
  {
    c := Compiled(OneSceneEnv(), [[command]], []);
    var raw := OneScene([node]);
    assert raw.SceneNames() == ["loop"];
    assert Indexes(map["loop" := 0], raw.SceneNames());
    assert raw.DeviceNames() == [] && raw.ScheduleNames() == [];
    assert Indexes(map[], raw.DeviceNames()) && Indexes(map[], raw.ScheduleNames());
  }

  lemma SelfLoopDiverges(table: Scenes.SceneTable)
    requires table == map[0 := [ActivateScene(0)]]
    ensures !Acyclic(table) && !Terminates(table, [ActivateScene(0)])
  {
    forall n: nat ensures !Within(table, [ActivateScene(0)], n) {
      SelfActivationNeverReturns(0, n);
    }
    assert !NoRevisit(table, table[0], {});
    assert table.Keys - {0} == {};
  }

  /** A scene that activates itself is accepted, and its expansion never ends. */
  lemma CyclicSceneAccepted() returns (raw: Raw, c: Compiled)
    ensures CompilesTo(raw, c) && !Acyclic(SceneTable(c.scenes))
    ensures !Terminates(SceneTable(c.scenes), [ActivateScene(0)])
  {
    raw := OneScene([Node(Activate, Name("loop"))]);
    c := OneSceneCompiles(Node(Activate, Name("loop")), ActivateScene(0));
    assert SceneTable(c.scenes) == map[0 := [ActivateScene(0)]];
    SelfLoopDiverges(SceneTable(c.scenes));
  }

  lemma ReservedKeyInScene(w: EngineSpec.Wiring, command: Command)
    requires w.keys.Valid() && w.scenes == map[0 := [command]] && command == ScheduleTimer(w.keys.retry(1), 0)
    ensures !KeepsClear(w)
  {
    assert w.keys.isRetry(w.keys.retry(1)) && !EngineSpec.UserKeyed(w, command);
    assert 0 in w.scenes.Keys && command in w.scenes[0];
  }

  /** A user timer inside a reserved prefix is accepted. */
  lemma ReservedKeyAccepted(retry: EngineSpec.RetryPolicy, maxDepth: nat) returns (raw: Raw, c: Compiled)
    ensures CompilesTo(raw, c) && !KeepsClear(WiringOf(raw, c, retry, maxDepth, TEXT_KEYS))
  {
    var key := TEXT_KEYS.retry(1);
    var node := Node(ScheduleIt, Fields(ScheduleFields(key, "0s")));
    raw := OneScene([node]);
    c := OneSceneCompiles(node, ScheduleTimer(key, 0));
    TextKeysAreValid();
    assert SceneTable(c.scenes) == map[0 := [ScheduleTimer(key, 0)]];
    ReservedKeyInScene(WiringOf(raw, c, retry, maxDepth, TEXT_KEYS), ScheduleTimer(key, 0));
  }

  function OneSwitch(name: string, northbound: bool): Raw {
    Raw([RawAdapter("a", true, northbound, Everything, [])], [RawDevice(name, "a", ["switch"], [])], [], [], [],
        NO_SCALARS, (d: DeviceDef) => [], [])
  }

  lemma OneSwitchCompiles(name: string, northbound: bool) returns (c: Compiled)
    ensures CompilesTo(OneSwitch(name, northbound), c) && |c.env.devices| == 1 && c.env.devices[0].adapter == 0
  {
    var raw := OneSwitch(name, northbound);
    var device := DeviceDef(name, 0, [CapabilityKind.Switch], []);
    c := Compiled(Env([device], map[name := 0], map[], map[], NO_SCALARS), [], []);
    assert CapabilitiesMean(["switch"], [CapabilityKind.Switch]);
    assert raw.DeviceNames() == [name] && Indexes(map[name := 0], raw.DeviceNames());
    assert raw.SceneNames() == [] && raw.ScheduleNames() == [];
    assert DeviceMeans(raw, 0, device);
  }

  /** So a device on a northbound adapter is accepted, although the builder has no dispatch
      slot for it and says that resolving rejects it; its commands find no adapter. */
  lemma NorthboundDeviceAccepted(name: string, retry: EngineSpec.RetryPolicy, maxDepth: nat, keys: KeyScheme)
    returns (c: Compiled)
    ensures var raw := OneSwitch(name, true);
      CompilesTo(raw, c) && OnNorthbound(raw, c, 0) && 0 !in WiringOf(raw, c, retry, maxDepth, keys).bound
  {
    c := OneSwitchCompiles(name, true);
  }

  function OneTrigger(when: Value): Raw {
    Raw([RawAdapter("a", true, false, Everything, [])], [RawDevice("remote", "a", ["ir_transmitter"], [])], [], [],
        [RawRule("rule", when, None, None, [])], NO_SCALARS, (d: DeviceDef) => [], [])
  }

  function OneTransmitter(): Env {
    Env([DeviceDef("remote", 0, [CapabilityKind.IrTransmitter], [])], map["remote" := 0], map[], map[], NO_SCALARS)
  }

  lemma OneTransmitterMeans(when: Value)
    ensures EnvMeans(OneTrigger(when), OneTransmitter())
  {
    var raw := OneTrigger(when);
    assert CapabilitiesMean(["ir_transmitter"], [CapabilityKind.IrTransmitter]);
    assert raw.DeviceNames() == ["remote"] && Indexes(map["remote" := 0], raw.DeviceNames());
    assert raw.SceneNames() == [] && raw.ScheduleNames() == [];
    assert DeviceMeans(raw, 0, OneTransmitter().devices[0]);
  }

  lemma OneTriggerCompiles(when: Value, trigger: Trigger) returns (raw: Raw, c: Compiled)
    requires TriggerMeans(OneTransmitter(), when, trigger)
    ensures CompilesTo(raw, c) && |c.rules| == 1 && c.rules[0].trigger == trigger
  {
    raw := OneTrigger(when);
    c := Compiled(OneTransmitter(), [], [Rule(0, trigger, Always, [], None)]);
    OneTransmitterMeans(when);
    assert RuleMeans(c.env, raw.rules[0], 0, c.rules[0]);
  }

  lemma TransmitterReports(when: Value, trigger: Trigger)
    requires when == Node(WhenReports, Fields(ReportsFields("remote", "ir_transmitter")))
    requires trigger == Reports(0, CapabilityKind.IrTransmitter)
    ensures TriggerMeans(OneTransmitter(), when, trigger)
  {
  }

  lemma WriteOnlyNeverMatches(trigger: Trigger, device: DeviceId)
    requires trigger == Reports(device, CapabilityKind.IrTransmitter)
    ensures forall event, prior :: !trigger.Matches(event, prior)
  {
  }

  /** A rule that waits for reports of the write-only `ir_transmitter` is accepted, and no
      event ever matches it. */
  lemma DeadTriggerAccepted() returns (raw: Raw, c: Compiled)
    ensures CompilesTo(raw, c) && |c.rules| == 1
    ensures forall event, prior :: !c.rules[0].trigger.Matches(event, prior)
  {
    var when := Node(WhenReports, Fields(ReportsFields("remote", "ir_transmitter")));
    var trigger := Reports(0, CapabilityKind.IrTransmitter);
    TransmitterReports(when, trigger);
    raw, c := OneTriggerCompiles(when, trigger);
    WriteOnlyNeverMatches(trigger, 0);
  }
}
