/** Resolving a whole configuration (`src/compile/resolve.rs`): names are interned in
    sorted order, scenes and rules are lowered, and the result is handed out only if no
    diagnostic is an error. What is handed out is exactly what the configuration means. */
module Resolve {
  import opened Model
  import opened Rules
  import opened RawConfig
  import opened Lower

  // --- the configuration file ---------------------------------------------------------------

  datatype Exposed = Nothing | Everything | Named(names: seq<string>)

  /** `checks` is what the adapter's own plugin reports, whatever it is. */
  datatype RawAdapter = RawAdapter(
    name: string,
    known: bool,
    northbound: bool,
    exposes: Exposed,
    checks: seq<Diagnostic>)

  datatype RawDevice = RawDevice(name: string, adapter: string, capabilities: seq<string>, events: seq<string>)

  datatype RawScene = RawScene(name: string, commands: seq<Value>)

  datatype RawSchedule = RawSchedule(name: string, valid: bool)

  datatype RawRule = RawRule(
    name: string,
    when: Value,
    condition: Option<Value>,
    sustained: Option<string>,
    commands: seq<Value>)

  /** Sections are sorted maps: lists of entries with distinct names. `validate` is what the
      plugins report about a resolved device, `systemChecks` what the system section gets. */
  datatype Raw = Raw(
    adapters: seq<RawAdapter>,
    devices: seq<RawDevice>,
    scenes: seq<RawScene>,
    schedules: seq<RawSchedule>,
    rules: seq<RawRule>,
    scalars: Scalars,
    validate: DeviceDef -> seq<Diagnostic>,
    systemChecks: seq<Diagnostic>)
  {
    function AdapterNames(): (names: seq<string>)
      ensures |names| == |adapters| && forall i :: 0 <= i < |names| ==> names[i] == adapters[i].name
    {
      seq(|adapters|, i requires 0 <= i < |adapters| => adapters[i].name)
    }

    function DeviceNames(): (names: seq<string>)
      ensures |names| == |devices| && forall i :: 0 <= i < |names| ==> names[i] == devices[i].name
    {
      seq(|devices|, i requires 0 <= i < |devices| => devices[i].name)
    }

    function SceneNames(): (names: seq<string>)
      ensures |names| == |scenes| && forall i :: 0 <= i < |names| ==> names[i] == scenes[i].name
    {
      seq(|scenes|, i requires 0 <= i < |scenes| => scenes[i].name)
    }

    function ScheduleNames(): (names: seq<string>)
      ensures |names| == |schedules| && forall i :: 0 <= i < |names| ==> names[i] == schedules[i].name
    {
      seq(|schedules|, i requires 0 <= i < |schedules| => schedules[i].name)
    }

    ghost predicate Keyed() {
      Distinct(AdapterNames()) && Distinct(DeviceNames()) && Distinct(SceneNames()) && Distinct(ScheduleNames())
    }
  }

  /** No name occurs twice. */
  predicate Distinct(names: seq<string>) {
    names == [] || (Distinct(names[..|names| - 1]) && names[|names| - 1] !in names[..|names| - 1])
  }

  lemma {:induction false} DistinctAt(names: seq<string>, i: nat)
    requires Distinct(names) && i < |names|
    ensures names[i] !in names[..i] && names[..i + 1] == names[..i] + [names[i]]
  {
    var before := names[..|names| - 1];
    if i < |before| {
      DistinctAt(before, i);
      assert before[..i] == names[..i];
    }
  }

  lemma DistinctPlaces(names: seq<string>, i: nat, j: nat)
    requires Distinct(names) && i < |names| && j < |names| && names[i] == names[j]
    ensures i == j
  {
    DistinctAt(names, i);
    DistinctAt(names, j);
  }

  datatype Compiled = Compiled(env: Env, scenes: seq<seq<Command>>, rules: seq<Rule>)

  /** `lints` are the dangling-timer warnings among the warnings. */
  datatype Outcome =
    | Accepted(config: Compiled, warnings: seq<Diagnostic>, lints: seq<Diagnostic>)
    | Rejected(diags: seq<Diagnostic>)

  // --- what a configuration means ------------------------------------------------------------

  /** Each name's place in its section. */
  ghost predicate Indexes(index: map<string, nat>, names: seq<string>) {
    && (forall name :: name in index <==> name in names)
    && forall i :: 0 <= i < |names| ==> names[i] in index && index[names[i]] == i
  }

  lemma IndexUnique(a: map<string, nat>, b: map<string, nat>, names: seq<string>)
    requires Indexes(a, names) && Indexes(b, names)
    ensures a == b
  {
    forall name <- a.Keys ensures name in b && a[name] == b[name] {
      var i :| 0 <= i < |names| && names[i] == name;
    }
    forall name <- b.Keys ensures name in a {
    }
    assert a.Keys == b.Keys;
  }

  /** Events declared before a device: interning numbers them consecutively. */
  function EventsBefore(devices: seq<RawDevice>, i: nat): nat
    requires i <= |devices|
  {
    if i == 0 then 0 else EventsBefore(devices, i - 1) + |devices[i - 1].events|
  }

  function Interned(names: seq<string>, first: nat): (events: seq<(string, ActionId)>)
    ensures |events| == |names| && forall j :: 0 <= j < |names| ==> events[j] == (names[j], first + j)
  {
    seq(|names|, j requires 0 <= j < |names| => (names[j], first + j))
  }

  ghost predicate CapabilitiesMean(texts: seq<string>, kinds: seq<CapabilityKind>) {
    |texts| == |kinds| && forall j :: 0 <= j < |texts| ==> ParseCapability(texts[j]) == Some(kinds[j])
  }

  ghost predicate DeviceMeans(raw: Raw, i: nat, device: DeviceDef)
    requires i < |raw.devices|
  {
    && device.name == raw.devices[i].name
    && device.adapter < |raw.adapters| && raw.adapters[device.adapter].name == raw.devices[i].adapter
    && CapabilitiesMean(raw.devices[i].capabilities, device.capabilities)
    && device.events == Interned(raw.devices[i].events, EventsBefore(raw.devices, i))
  }

  ghost predicate EnvMeans(raw: Raw, env: Env) {
    && |env.devices| == |raw.devices|
    && (forall i :: 0 <= i < |raw.devices| ==> DeviceMeans(raw, i, env.devices[i]))
    && Indexes(env.deviceIndex, raw.DeviceNames())
    && Indexes(env.sceneIndex, raw.SceneNames())
    && Indexes(env.scheduleIndex, raw.ScheduleNames())
    && env.scalars == raw.scalars
  }

  lemma {:induction false} EventsBeforeGrows(devices: seq<RawDevice>, i: nat, j: nat)
    requires i < j <= |devices|
    ensures EventsBefore(devices, i) + |devices[i].events| <= EventsBefore(devices, j)
    decreases j
  {
    if i < j - 1 {
      EventsBeforeGrows(devices, i, j - 1);
    }
  }

  /** No two declared events share an action, within a device or across devices, so an event
      trigger hears its own event only. */
  lemma ActionsDistinct(raw: Raw, env: Env, i: nat, j: nat, a: nat, b: nat)
    requires EnvMeans(raw, env) && i < |env.devices| && j < |env.devices|
    requires a < |env.devices[i].events| && b < |env.devices[j].events|
    ensures env.devices[i].events[a].1 == env.devices[j].events[b].1 <==> i == j && a == b
  {
    assert DeviceMeans(raw, i, env.devices[i]) && DeviceMeans(raw, j, env.devices[j]);
    if i < j {
      EventsBeforeGrows(raw.devices, i, j);
    } else if j < i {
      EventsBeforeGrows(raw.devices, j, i);
    }
  }

  ghost predicate SustainedMeans(env: Env, sustained: Option<string>, trigger: Trigger, wait: Option<Millis>) {
    match sustained
    case None => wait == None
    case Some(text) => trigger.Watched().Some? && wait.Some? && wait == env.scalars.duration(text)
  }

  ghost predicate GuardMeans(env: Env, guard: Option<Value>, c: Condition) {
    match guard
    case None => c == Always
    case Some(v) => ConditionMeans(env, v, c)
  }

  ghost predicate RuleMeans(env: Env, raw: RawRule, i: nat, rule: Rule) {
    && rule.id == i && TriggerMeans(env, raw.when, rule.trigger)
    && GuardMeans(env, raw.condition, rule.condition)
    && CommandsMean(env, raw.commands, rule.commands)
    && SustainedMeans(env, raw.sustained, rule.trigger, rule.forDuration)
  }

  ghost predicate ScenesMean(env: Env, raws: seq<RawScene>, scenes: seq<seq<Command>>) {
    |scenes| == |raws| && forall i :: 0 <= i < |raws| ==> CommandsMean(env, raws[i].commands, scenes[i])
  }

  ghost predicate RulesMean(env: Env, raws: seq<RawRule>, rules: seq<Rule>) {
    |rules| == |raws| && forall i :: 0 <= i < |raws| ==> RuleMeans(env, raws[i], i, rules[i])
  }

  predicate NoErrors(diags: seq<Diagnostic>) {
    forall d <- diags :: !d.isError
  }

  ghost predicate AdaptersFine(raw: Raw) {
    forall a <- raw.adapters :: a.known && NoErrors(a.checks)
  }

  ghost predicate ExposuresFine(raw: Raw) {
    forall a <- raw.adapters | a.exposes.Named? :: forall n <- a.exposes.names :: n in raw.DeviceNames()
  }

  ghost predicate ChecksFine(raw: Raw, env: Env) {
    && (forall d <- env.devices :: NoErrors(raw.validate(d)))
    && (forall s <- raw.schedules :: s.valid)
    && NoErrors(raw.systemChecks)
  }

  /** The configuration is sound and means this: nothing left out, nothing added. */
  ghost predicate CompilesTo(raw: Raw, c: Compiled) {
    && AdaptersFine(raw) && ExposuresFine(raw) && EnvMeans(raw, c.env) && ChecksFine(raw, c.env)
    && ScenesMean(c.env, raw.scenes, c.scenes)
    && RulesMean(c.env, raw.rules, c.rules)
  }

  ghost predicate Compilable(raw: Raw) {
    exists c :: CompilesTo(raw, c)
  }

  // --- there is one meaning at most ------------------------------------------------------------

  lemma CapabilitiesUnique(texts: seq<string>, a: seq<CapabilityKind>, b: seq<CapabilityKind>)
    requires CapabilitiesMean(texts, a) && CapabilitiesMean(texts, b)
    ensures a == b
  {
  }

  lemma DeviceUnique(raw: Raw, i: nat, a: DeviceDef, b: DeviceDef)
    requires raw.Keyed() && i < |raw.devices| && DeviceMeans(raw, i, a) && DeviceMeans(raw, i, b)
    ensures a == b
  {
    CapabilitiesUnique(raw.devices[i].capabilities, a.capabilities, b.capabilities);
    DistinctPlaces(raw.AdapterNames(), a.adapter, b.adapter);
  }

  lemma EnvUnique(raw: Raw, a: Env, b: Env)
    requires raw.Keyed() && EnvMeans(raw, a) && EnvMeans(raw, b)
    ensures a == b
  {
    forall i | 0 <= i < |raw.devices| ensures a.devices[i] == b.devices[i] {
      DeviceUnique(raw, i, a.devices[i], b.devices[i]);
    }
    assert a.devices == b.devices;
    IndexUnique(a.deviceIndex, b.deviceIndex, raw.DeviceNames());
    IndexUnique(a.sceneIndex, b.sceneIndex, raw.SceneNames());
    IndexUnique(a.scheduleIndex, b.scheduleIndex, raw.ScheduleNames());
  }

  lemma CommandsUnique(env: Env, raws: seq<Value>, a: seq<Command>, b: seq<Command>)
    requires CommandsMean(env, raws, a) && CommandsMean(env, raws, b)
    ensures a == b
  {
    forall i | 0 <= i < |raws| ensures a[i] == b[i] {
      CommandMeaningUnique(env, raws[i], a[i], b[i]);
    }
  }

  lemma RuleUnique(env: Env, raw: RawRule, i: nat, a: Rule, b: Rule)
    requires RuleMeans(env, raw, i, a) && RuleMeans(env, raw, i, b)
    ensures a == b
  {
    TriggerMeaningUnique(env, raw.when, a.trigger, b.trigger);
    if raw.condition.Some? {
      ConditionMeaningUnique(env, raw.condition.value, a.condition, b.condition);
    }
    CommandsUnique(env, raw.commands, a.commands, b.commands);
  }

  /** A configuration compiles to one thing. */
  lemma CompiledUnique(raw: Raw, a: Compiled, b: Compiled)
    requires raw.Keyed() && CompilesTo(raw, a) && CompilesTo(raw, b)
    ensures a == b
  {
    EnvUnique(raw, a.env, b.env);
    forall i | 0 <= i < |raw.scenes| ensures a.scenes[i] == b.scenes[i] {
      CommandsUnique(a.env, raw.scenes[i].commands, a.scenes[i], b.scenes[i]);
    }
    assert a.scenes == b.scenes;
    forall i | 0 <= i < |raw.rules| ensures a.rules[i] == b.rules[i] {
      RuleUnique(a.env, raw.rules[i], i, a.rules[i], b.rules[i]);
    }
    assert a.rules == b.rules;
  }

  // --- failing --------------------------------------------------------------------------------

  ghost predicate GuardFails(env: Env, guard: Option<Value>) {
    guard.Some? && NoCondition(env, guard.value)
  }

  ghost predicate SustainedFails(env: Env, when: Value, sustained: Option<string>) {
    sustained.Some? && forall t :: TriggerMeans(env, when, t) ==>
      t.Watched() == None || env.scalars.duration(sustained.value) == None
  }

  ghost predicate RuleFails(env: Env, raw: RawRule) {
    NoTrigger(env, raw.when) || GuardFails(env, raw.condition) || SomeNoCommand(env, raw.commands)
    || SustainedFails(env, raw.when, raw.sustained)
  }

  lemma FailingRuleMeansNothing(env: Env, raw: RawRule, i: nat, rule: Rule)
    requires RuleFails(env, raw)
    ensures !RuleMeans(env, raw, i, rule)
  {
    if SomeNoCommand(env, raw.commands) {
      FailingCommandsMeanNothing(env, raw.commands, rule.commands);
    }
  }

  lemma FailingCommandsMeanNothing(env: Env, raws: seq<Value>, commands: seq<Command>)
    requires SomeNoCommand(env, raws)
    ensures !CommandsMean(env, raws, commands)
  {
    var i :| 0 <= i < |raws| && NoCommand(env, raws[i]);
    if |commands| == |raws| {
      assert !CommandMeans(env, raws[i], commands[i]);
    }
  }

  ghost predicate LoweringFails(env: Env, raw: Raw) {
    || (exists i :: 0 <= i < |raw.scenes| && SomeNoCommand(env, raw.scenes[i].commands))
    || (exists i :: 0 <= i < |raw.rules| && RuleFails(env, raw.rules[i]))
  }

  lemma FailingIsNotCompilable(env: Env, raw: Raw)
    requires raw.Keyed() && EnvMeans(raw, env) && LoweringFails(env, raw)
    ensures !Compilable(raw)
  {
    forall c ensures !CompilesTo(raw, c) {
      if CompilesTo(raw, c) {
        EnvUnique(raw, env, c.env);
        if i :| 0 <= i < |raw.scenes| && SomeNoCommand(env, raw.scenes[i].commands) {
          FailingCommandsMeanNothing(env, raw.scenes[i].commands, c.scenes[i]);
          assert false;
        } else {
          var i :| 0 <= i < |raw.rules| && RuleFails(env, raw.rules[i]);
          FailingRuleMeansNothing(env, raw.rules[i], i, c.rules[i]);
          assert false;
        }
      }
    }
  }

  // --- names --------------------------------------------------------------------------------

  /** Interns names in order: a name's id is the size of the index so far. */
  method IndexNames(names: seq<string>) returns (index: map<string, nat>)
    requires Distinct(names)
    ensures Indexes(index, names)
  {
    index := map[];
    for i := 0 to |names|
      invariant |index| == i && Indexes(index, names[..i])
    {
      DistinctAt(names, i);
      index := index[names[i] := |index|];
    }
    assert names[..|names|] == names;
  }

  lemma NoErrorsAppend(a: seq<Diagnostic>, b: seq<Diagnostic>)
    ensures NoErrors(a + b) <==> NoErrors(a) && NoErrors(b)
  {
    if NoErrors(a + b) {
      forall d <- a ensures !d.isError { assert d in a + b; }
      forall d <- b ensures !d.isError { assert d in a + b; }
    }
  }

  function Failure(code: string, context: string): (diags: seq<Diagnostic>)
    ensures !NoErrors(diags)
  {
    var diags := [Diagnostic(true, code, context)];
    assert diags[0] in diags;
    diags
  }

  // --- adapters and devices ----------------------------------------------------------------------

  predicate AdapterFine(a: RawAdapter) {
    a.known && NoErrors(a.checks)
  }

  method CheckAdapters(raw: Raw) returns (diags: seq<Diagnostic>)
    ensures NoErrors(diags) <==> AdaptersFine(raw)
  {
    diags := [];
    for i := 0 to |raw.adapters|
      invariant NoErrors(diags) <==> forall j :: 0 <= j < i ==> AdapterFine(raw.adapters[j])
    {
      var a := raw.adapters[i];
      var more := if a.known then a.checks else Failure("E_UNKNOWN_ADAPTER_TYPE", a.name);
      NoErrorsAppend(diags, more);
      diags := diags + more;
    }
  }

  predicate AllParse(texts: seq<string>) {
    forall t <- texts :: ParseCapability(t).Some?
  }

  method ParseCapabilities(texts: seq<string>, at: string) returns (kinds: seq<CapabilityKind>, diags: seq<Diagnostic>)
    ensures NoErrors(diags) <==> AllParse(texts)
    ensures NoErrors(diags) ==> CapabilitiesMean(texts, kinds)
  {
    kinds, diags := [], [];
    for i := 0 to |texts|
      invariant NoErrors(diags) <==> AllParse(texts[..i])
      invariant NoErrors(diags) ==> CapabilitiesMean(texts[..i], kinds)
    {
      assert texts[..i + 1] == texts[..i] + [texts[i]];
      var more: seq<Diagnostic> := [];
      match ParseCapability(texts[i]) {
        case Some(kind) => kinds := kinds + [kind];
        case None => more := Failure("E_UNKNOWN_CAPABILITY", at);
      }
      NoErrorsAppend(diags, more);
      diags := diags + more;
    }
    assert texts[..|texts|] == texts;
  }

  ghost predicate DeviceFine(raw: Raw, d: RawDevice) {
    d.adapter in raw.AdapterNames() && AllParse(d.capabilities)
  }

  /** The devices that could be built so far, and the index into them. */
  ghost predicate Built(raw: Raw, i: nat, devices: seq<DeviceDef>, index: map<string, DeviceId>)
    requires i <= |raw.devices|
  {
    && |devices| == i && (forall j :: 0 <= j < i ==> DeviceMeans(raw, j, devices[j]))
    && Indexes(index, raw.DeviceNames()[..i])
  }

  ghost predicate PointsInto(devices: seq<DeviceDef>, index: map<string, DeviceId>) {
    forall name <- index.Keys :: index[name] < |devices| && devices[index[name]].name == name
  }

  lemma BuiltGrows(raw: Raw, i: nat, devices: seq<DeviceDef>, index: map<string, DeviceId>, device: DeviceDef)
    requires raw.Keyed() && i < |raw.devices| && Built(raw, i, devices, index) && DeviceMeans(raw, i, device)
    ensures Built(raw, i + 1, devices + [device], index[device.name := i])
  {
    DistinctAt(raw.DeviceNames(), i);
  }

  /** One device: with an unknown adapter it is left out. */
  method ResolveDevice(raw: Raw, i: nat, adapters: map<string, nat>,
      nextAction: nat) returns (device: Option<DeviceDef>, diags: seq<Diagnostic>)
    requires i < |raw.devices| && Indexes(adapters, raw.AdapterNames()) && nextAction == EventsBefore(raw.devices, i)
    ensures NoErrors(diags) <==> DeviceFine(raw, raw.devices[i])
    ensures NoErrors(diags) ==> device.Some? && DeviceMeans(raw, i, device.value)
    ensures device.Some? ==> device.value.name == raw.devices[i].name
  {
    var d := raw.devices[i];
    var kinds, capabilityDiags := ParseCapabilities(d.capabilities, d.name);
    if d.adapter in adapters {
      AdapterFound(raw, adapters, d.adapter);
      device := Some(DeviceDef(d.name, adapters[d.adapter], kinds, Interned(d.events, nextAction)));
      diags := capabilityDiags;
    } else {
      var unknown := Failure("E_UNKNOWN_ADAPTER", d.name);
      NoErrorsAppend(unknown, capabilityDiags);
      device, diags := None, unknown + capabilityDiags;
    }
  }

  ghost predicate DevicesFine(raw: Raw, i: nat)
    requires i <= |raw.devices|
  {
    forall j :: 0 <= j < i ==> DeviceFine(raw, raw.devices[j])
  }

  /** Events are numbered across all devices, left out or not. */
  method ResolveDevices(raw: Raw, adapters: map<string, nat>) returns (devices: seq<DeviceDef>,
      index: map<string, DeviceId>, diags: seq<Diagnostic>)
    requires raw.Keyed() && Indexes(adapters, raw.AdapterNames())
    ensures PointsInto(devices, index)
    ensures NoErrors(diags) <==> DevicesFine(raw, |raw.devices|)
    ensures NoErrors(diags) ==> Built(raw, |raw.devices|, devices, index)
  {
    devices, index, diags := [], map[], [];
    var nextAction := 0;
    NothingInterned(raw);
    for i := 0 to |raw.devices|
      invariant nextAction == EventsBefore(raw.devices, i)
      invariant Interning(raw, i, devices, index, diags)
    {
      devices, index, diags, nextAction := InternDevice(raw, i, adapters, nextAction, devices, index, diags);
    }
    AllInterned(raw, |raw.devices|, devices, index, diags);
  }

  lemma AllInterned(raw: Raw, i: nat, devices: seq<DeviceDef>, index: map<string, DeviceId>, diags: seq<Diagnostic>)
    requires i == |raw.devices| && Interning(raw, i, devices, index, diags)
    ensures PointsInto(devices, index)
    ensures NoErrors(diags) <==> DevicesFine(raw, |raw.devices|)
    ensures NoErrors(diags) ==> Built(raw, |raw.devices|, devices, index)
  {
  }

  lemma NothingInterned(raw: Raw)
    ensures Interning(raw, 0, [], map[], [])
  {
  }

  method InternDevice(raw: Raw, i: nat, adapters: map<string, nat>, nextAction: nat, before: seq<DeviceDef>,
      places: map<string, DeviceId>, said: seq<Diagnostic>)
    returns (devices: seq<DeviceDef>, index: map<string, DeviceId>, diags: seq<Diagnostic>, next: nat)
    requires raw.Keyed() && Indexes(adapters, raw.AdapterNames()) && i < |raw.devices|
    requires nextAction == EventsBefore(raw.devices, i)
    requires Interning(raw, i, before, places, said)
    ensures Interning(raw, i + 1, devices, index, diags) && next == EventsBefore(raw.devices, i + 1)
  {
    next := nextAction + |raw.devices[i].events|;
    var device, more := ResolveDevice(raw, i, adapters, nextAction);
    InterningGrows(raw, i, before, places, said, device, more);
    diags := said + more;
    match device {
      case Some(d) => devices, index := before + [d], places[d.name := |before|];
      case None => devices, index := before, places;
    }
  }

  ghost predicate Interning(raw: Raw, i: nat, devices: seq<DeviceDef>, index: map<string, DeviceId>,
      diags: seq<Diagnostic>)
    requires i <= |raw.devices|
  {
    && PointsInto(devices, index)
    && (NoErrors(diags) <==> DevicesFine(raw, i))
    && (NoErrors(diags) ==> Built(raw, i, devices, index))
  }

  lemma DevicesFineStep(raw: Raw, i: nat)
    requires i < |raw.devices|
    ensures DevicesFine(raw, i + 1) <==> DevicesFine(raw, i) && DeviceFine(raw, raw.devices[i])
  {
  }

  lemma InterningGrows(raw: Raw, i: nat, devices: seq<DeviceDef>, index: map<string, DeviceId>,
      diags: seq<Diagnostic>, device: Option<DeviceDef>, more: seq<Diagnostic>)
    requires raw.Keyed() && i < |raw.devices| && Interning(raw, i, devices, index, diags)
    requires NoErrors(more) <==> DeviceFine(raw, raw.devices[i])
    requires NoErrors(more) ==> device.Some? && DeviceMeans(raw, i, device.value)
    ensures Interning(raw, i + 1,
      if device.Some? then devices + [device.value] else devices,
      if device.Some? then index[device.value.name := |devices|] else index,
      diags + more)
  {
    NoErrorsAppend(diags, more);
    DevicesFineStep(raw, i);
    if device.Some? {
      PointsStill(devices, index, device.value);
    }
    if NoErrors(diags + more) {
      BuiltGrows(raw, i, devices, index, device.value);
    }
  }

  lemma PointsStill(devices: seq<DeviceDef>, index: map<string, DeviceId>, device: DeviceDef)
    requires PointsInto(devices, index)
    ensures PointsInto(devices + [device], index[device.name := |devices|])
  {
  }

  lemma AdapterFound(raw: Raw, adapters: map<string, nat>, name: string)
    requires Indexes(adapters, raw.AdapterNames()) && name in adapters
    ensures adapters[name] < |raw.adapters| && raw.adapters[adapters[name]].name == name
  {
    var i :| 0 <= i < |raw.AdapterNames()| && raw.AdapterNames()[i] == name;
  }

  // --- rules and scenes ---------------------------------------------------------------------------

  function RuleRefs(rule: Rule): set<Ref> {
    TriggerRefs(rule.trigger) + CommandsRefs(rule.commands)
  }

  method LowerGuard(lw: Lowerer, guard: Option<Value>, at: string) returns (c: Option<Condition>)
    requires lw.Counted()
    modifies lw`diags, lw`errors
    ensures lw.Counted() && old(lw.diags) <= lw.diags && lw.errors >= old(lw.errors)
    ensures lw.errors == old(lw.errors) ==> c.Some? && GuardMeans(lw.env, guard, c.value)
    ensures lw.errors > old(lw.errors) ==> GuardFails(lw.env, guard)
  {
    if guard.Some? {
      c := lw.Condition(guard.value, at);
    } else {
      c := Some(Always);
    }
  }

  method LowerSustained(lw: Lowerer, when: Value, trigger: Trigger, sustained: Option<string>,
      at: string) returns (wait: Option<Millis>)
    requires lw.Counted()
    modifies lw`diags, lw`errors
    ensures lw.Counted() && old(lw.diags) <= lw.diags && lw.errors >= old(lw.errors)
    ensures lw.errors == old(lw.errors) ==> SustainedMeans(lw.env, sustained, trigger, wait)
    ensures lw.errors > old(lw.errors) && TriggerMeans(lw.env, when, trigger) ==>
      SustainedFails(lw.env, when, sustained)
  {
    wait := None;
    if sustained.Some? {
      wait := lw.ForDuration(sustained.value, trigger, at);
      if lw.errors > old(lw.errors) && TriggerMeans(lw.env, when, trigger) {
        forall t | TriggerMeans(lw.env, when, t) ensures t == trigger {
          TriggerMeaningUnique(lw.env, when, t, trigger);
        }
      }
    }
  }

  /** One rule: all its parts are lowered even if one fails; a rule with no trigger or no
      condition is left out. */
  method LowerRule(lw: Lowerer, raw: RawRule, i: nat) returns (rule: Option<Rule>)
    requires lw.Counted()
    modifies lw
    ensures lw.Counted() && old(lw.diags) <= lw.diags && lw.errors >= old(lw.errors)
    ensures lw.errors == old(lw.errors) ==>
      rule.Some? && RuleMeans(lw.env, raw, i, rule.value) && lw.refs == old(lw.refs) + RuleRefs(rule.value)
    ensures lw.errors > old(lw.errors) ==> RuleFails(lw.env, raw)
  {
    ghost var was := lw.refs;
    var trigger := lw.Trigger(raw.when, raw.name);
    var condition := LowerGuard(lw, raw.condition, raw.name);
    var commands := lw.Commands(raw.commands, raw.name);
    rule := None;
    if trigger.Some? && condition.Some? {
      var wait := LowerSustained(lw, raw.when, trigger.value, raw.sustained, raw.name);
      rule := Some(Rule(i, trigger.value, condition.value, commands, wait));
      RegroupRefs(was, TriggerRefs(trigger.value), CommandsRefs(commands));
    }
  }

  lemma RegroupRefs(a: set<Ref>, b: set<Ref>, c: set<Ref>)
    ensures a + b + c == a + (b + c)
  {
  }

  function ScenesRefs(scenes: seq<seq<Command>>): set<Ref> {
    if scenes == [] then {}
    else ScenesRefs(scenes[..|scenes| - 1]) + CommandsRefs(scenes[|scenes| - 1])
  }

  function RulesRefs(rules: seq<Rule>): set<Ref> {
    if rules == [] then {}
    else RulesRefs(rules[..|rules| - 1]) + RuleRefs(rules[|rules| - 1])
  }

  lemma ScenesRefsGrow(was: set<Ref>, scenes: seq<seq<Command>>, scene: seq<Command>)
    ensures was + ScenesRefs(scenes + [scene]) == was + ScenesRefs(scenes) + CommandsRefs(scene)
    ensures was + ScenesRefs([]) == was
  {
    assert (scenes + [scene])[..|scenes + [scene]| - 1] == scenes;
  }

  lemma RulesRefsGrow(was: set<Ref>, rules: seq<Rule>, rule: Rule)
    ensures was + RulesRefs(rules + [rule]) == was + RulesRefs(rules) + RuleRefs(rule)
    ensures was + RulesRefs([]) == was
  {
    assert (rules + [rule])[..|rules + [rule]| - 1] == rules;
  }

  ghost predicate ScenesLowered(env: Env, raws: seq<RawScene>, scenes: seq<seq<Command>>, was: set<Ref>,
      now: set<Ref>) {
    ScenesMean(env, raws, scenes) && now == was + ScenesRefs(scenes)
  }

  ghost predicate RulesLowered(env: Env, raws: seq<RawRule>, rules: seq<Rule>, was: set<Ref>, now: set<Ref>) {
    RulesMean(env, raws, rules) && now == was + RulesRefs(rules)
  }

  ghost predicate SomeSceneFails(env: Env, raws: seq<RawScene>) {
    exists i :: 0 <= i < |raws| && SomeNoCommand(env, raws[i].commands)
  }

  ghost predicate SomeRuleFails(env: Env, raws: seq<RawRule>) {
    exists i :: 0 <= i < |raws| && RuleFails(env, raws[i])
  }

  lemma SceneFailureStays(env: Env, raws: seq<RawScene>, raw: RawScene)
    ensures SomeSceneFails(env, raws) || SomeNoCommand(env, raw.commands) ==> SomeSceneFails(env, raws + [raw])
  {
    var more := raws + [raw];
    if i :| 0 <= i < |raws| && SomeNoCommand(env, raws[i].commands) {
      assert more[i] == raws[i];
    }
    if SomeNoCommand(env, raw.commands) {
      assert more[|raws|] == raw;
    }
  }

  lemma RuleFailureStays(env: Env, raws: seq<RawRule>, raw: RawRule)
    ensures SomeRuleFails(env, raws) || RuleFails(env, raw) ==> SomeRuleFails(env, raws + [raw])
  {
    var more := raws + [raw];
    if i :| 0 <= i < |raws| && RuleFails(env, raws[i]) {
      assert more[i] == raws[i];
    }
    if RuleFails(env, raw) {
      assert more[|raws|] == raw;
    }
  }

  lemma ScenesLoweredGrows(env: Env, raws: seq<RawScene>, raw: RawScene, scenes: seq<seq<Command>>,
      scene: seq<Command>, was: set<Ref>, mid: set<Ref>, now: set<Ref>)
    requires ScenesLowered(env, raws, scenes, was, mid) && Lowered(env, raw.commands, scene, mid, now)
    ensures ScenesLowered(env, raws + [raw], scenes + [scene], was, now)
  {
    ScenesRefsGrow(was, scenes, scene);
  }

  lemma RulesLoweredGrows(env: Env, raws: seq<RawRule>, raw: RawRule, rules: seq<Rule>, rule: Rule, was: set<Ref>,
      mid: set<Ref>, now: set<Ref>)
    requires RulesLowered(env, raws, rules, was, mid) && RuleMeans(env, raw, |raws|, rule)
    requires now == mid + RuleRefs(rule)
    ensures RulesLowered(env, raws + [raw], rules + [rule], was, now)
  {
    RulesRefsGrow(was, rules, rule);
    var moreRaws, moreRules := raws + [raw], rules + [rule];
    forall i | 0 <= i < |moreRaws| ensures RuleMeans(env, moreRaws[i], i, moreRules[i]) {
      if i < |raws| {
        assert RuleMeans(env, raws[i], i, rules[i]);
      }
    }
  }

  lemma NothingLowered(env: Env, refs: set<Ref>)
    ensures ScenesLowered(env, [], [], refs, refs) && RulesLowered(env, [], [], refs, refs)
  {
  }

  method LowerScenes(lw: Lowerer, raws: seq<RawScene>) returns (scenes: seq<seq<Command>>)
    requires lw.Counted()
    modifies lw
    ensures lw.Counted() && old(lw.diags) <= lw.diags && lw.errors >= old(lw.errors)
    ensures lw.errors == old(lw.errors) ==> ScenesLowered(lw.env, raws, scenes, old(lw.refs), lw.refs)
    ensures lw.errors > old(lw.errors) ==> SomeSceneFails(lw.env, raws)
  {
    scenes := [];
    NothingLowered(lw.env, lw.refs);
    for i := 0 to |raws|
      invariant lw.Counted() && old(lw.diags) <= lw.diags && lw.errors >= old(lw.errors)
      invariant lw.errors == old(lw.errors) ==> ScenesLowered(lw.env, raws[..i], scenes, old(lw.refs), lw.refs)
      invariant lw.errors > old(lw.errors) ==> SomeSceneFails(lw.env, raws[..i])
    {
      ghost var done, before, mid := raws[..i], scenes, lw.refs;
      var commands := lw.Commands(raws[i].commands, raws[i].name);
      scenes := scenes + [commands];
      assert raws[..i + 1] == done + [raws[i]];
      SceneFailureStays(lw.env, done, raws[i]);
      if lw.errors == old(lw.errors) {
        ScenesLoweredGrows(lw.env, done, raws[i], before, commands, old(lw.refs), mid, lw.refs);
      }
    }
    assert raws[..|raws|] == raws;
  }

  /** The first `i` rules: all lowered if nothing was reported, and one that fails otherwise. */
  ghost predicate RulesStand(env: Env, raws: seq<RawRule>, i: nat, rules: seq<Rule>, was: set<Ref>, now: set<Ref>,
      clean: bool)
    requires i <= |raws|
  {
    if clean then RulesLowered(env, raws[..i], rules, was, now) else SomeRuleFails(env, raws[..i])
  }

  lemma RulesStandGrows(env: Env, raws: seq<RawRule>, i: nat, rules: seq<Rule>, rule: Option<Rule>, was: set<Ref>,
      mid: set<Ref>, now: set<Ref>, fine: bool, clean: bool)
    requires i < |raws| && RulesStand(env, raws, i, rules, was, mid, fine)
    requires clean ==>
      fine && rule.Some? && RuleMeans(env, raws[i], i, rule.value) && now == mid + RuleRefs(rule.value)
    requires !clean && fine ==> RuleFails(env, raws[i])
    ensures RulesStand(env, raws, i + 1, if rule.Some? then rules + [rule.value] else rules, was, now, clean)
  {
    assert raws[..i + 1] == raws[..i] + [raws[i]];
    if clean {
      RulesLoweredGrows(env, raws[..i], raws[i], rules, rule.value, was, mid, now);
    } else {
      RuleFailureStays(env, raws[..i], raws[i]);
    }
  }

  lemma AllRulesStand(env: Env, raws: seq<RawRule>, i: nat, rules: seq<Rule>, was: set<Ref>, now: set<Ref>, clean: bool)
    requires i == |raws| && RulesStand(env, raws, i, rules, was, now, clean)
    ensures if clean then RulesLowered(env, raws, rules, was, now) else SomeRuleFails(env, raws)
  {
    assert raws[..i] == raws;
  }

  method LowerRules(lw: Lowerer, raws: seq<RawRule>) returns (rules: seq<Rule>)
    requires lw.Counted()
    modifies lw
    ensures lw.Counted() && old(lw.diags) <= lw.diags && lw.errors >= old(lw.errors)
    ensures lw.errors == old(lw.errors) ==> RulesLowered(lw.env, raws, rules, old(lw.refs), lw.refs)
    ensures lw.errors > old(lw.errors) ==> SomeRuleFails(lw.env, raws)
  {
    rules := [];
    NothingLowered(lw.env, lw.refs);
    for i := 0 to |raws|
      invariant lw.Counted() && old(lw.diags) <= lw.diags && lw.errors >= old(lw.errors)
      invariant RulesStand(lw.env, raws, i, rules, old(lw.refs), lw.refs, lw.errors == old(lw.errors))
    {
      ghost var mid, fine := lw.refs, lw.errors == old(lw.errors);
      var rule := LowerRule(lw, raws[i], i);
      RulesStandGrows(lw.env, raws, i, rules, rule, old(lw.refs), mid, lw.refs, fine, lw.errors == old(lw.errors));
      if rule.Some? {
        rules := rules + [rule.value];
      }
    }
    AllRulesStand(lw.env, raws, |raws|, rules, old(lw.refs), lw.refs, lw.errors == old(lw.errors));
  }

  // --- the other checks ------------------------------------------------------------------------

  method CheckSchedules(raw: Raw) returns (diags: seq<Diagnostic>)
    ensures NoErrors(diags) <==> forall s <- raw.schedules :: s.valid
  {
    diags := [];
    for i := 0 to |raw.schedules|
      invariant NoErrors(diags) <==> forall j :: 0 <= j < i ==> raw.schedules[j].valid
    {
      var more := if raw.schedules[i].valid then [] else Failure("E_BAD_SCHEDULE", raw.schedules[i].name);
      NoErrorsAppend(diags, more);
      diags := diags + more;
    }
  }

  predicate ExposureFine(a: RawAdapter, index: map<string, DeviceId>) {
    a.exposes.Named? ==> forall n <- a.exposes.names :: n in index
  }

  method CheckExposure(a: RawAdapter, index: map<string, DeviceId>) returns (diags: seq<Diagnostic>)
    ensures NoErrors(diags) <==> ExposureFine(a, index)
  {
    diags := [];
    if a.exposes.Named? {
      var names := a.exposes.names;
      for i := 0 to |names|
        invariant NoErrors(diags) <==> forall j :: 0 <= j < i ==> names[j] in index
      {
        var more := if names[i] in index then [] else Failure("E_UNKNOWN_EXPOSED_DEVICE", a.name);
        NoErrorsAppend(diags, more);
        diags := diags + more;
      }
    }
  }

  method CheckExposures(raw: Raw, index: map<string, DeviceId>) returns (diags: seq<Diagnostic>)
    ensures NoErrors(diags) <==> forall a <- raw.adapters :: ExposureFine(a, index)
  {
    diags := [];
    for i := 0 to |raw.adapters|
      invariant NoErrors(diags) <==> forall j :: 0 <= j < i ==> ExposureFine(raw.adapters[j], index)
    {
      var more := CheckExposure(raw.adapters[i], index);
      NoErrorsAppend(diags, more);
      diags := diags + more;
    }
  }

  method ValidateDevices(raw: Raw, devices: seq<DeviceDef>) returns (diags: seq<Diagnostic>)
    ensures NoErrors(diags) <==> forall d <- devices :: NoErrors(raw.validate(d))
  {
    diags := [];
    for i := 0 to |devices|
      invariant NoErrors(diags) <==> forall j :: 0 <= j < i ==> NoErrors(raw.validate(devices[j]))
    {
      NoErrorsAppend(diags, raw.validate(devices[i]));
      diags := diags + raw.validate(devices[i]);
    }
  }

  function DanglingTimer(key: TimerKey): Diagnostic {
    Diagnostic(false, "E_DANGLING_TIMER", key)
  }

  /** One warning per key that is mentioned and never scheduled, in no particular order:
      the keys come out of a hash set. */
  method LintTimers(refs: set<Ref>) returns (diags: seq<Diagnostic>)
    ensures NoErrors(diags)
    ensures forall key :: DanglingTimer(key) in diags <==> Mentions(key) in refs && Schedules(key) !in refs
  {
    diags := [];
    var left := refs;
    while left != {}
      invariant left <= refs && NoErrors(diags)
      invariant forall key :: DanglingTimer(key) in diags <==> Mentions(key) in refs - left && Schedules(key) !in refs
    {
      var ref :| ref in left;
      left := left - {ref};
      if ref.Mentions? && Schedules(ref.key) !in refs {
        diags := diags + [DanglingTimer(ref.key)];
      }
    }
  }

  // --- the compiler ------------------------------------------------------------------------------

  /** What the phases before lowering established. */
  ghost predicate Prepared(raw: Raw, env: Env, diags: seq<Diagnostic>) {
    && env.Valid()
    && (NoErrors(diags) ==> EnvMeans(raw, env) && AdaptersFine(raw) && forall s <- raw.schedules :: s.valid)
    && (!NoErrors(diags) ==> !Compilable(raw))
  }

  method Prepare(raw: Raw) returns (env: Env, diags: seq<Diagnostic>)
    requires raw.Keyed()
    ensures Prepared(raw, env, diags)
  {
    var adapters := IndexNames(raw.AdapterNames());
    var adapterDiags := CheckAdapters(raw);
    var devices, deviceIndex, deviceDiags := ResolveDevices(raw, adapters);
    var sceneIndex := IndexNames(raw.SceneNames());
    var scheduleIndex := IndexNames(raw.ScheduleNames());
    var scheduleDiags := CheckSchedules(raw);
    env := Env(devices, deviceIndex, sceneIndex, scheduleIndex, raw.scalars);
    diags := adapterDiags + deviceDiags + scheduleDiags;
    NoErrorsAppend(adapterDiags, deviceDiags);
    NoErrorsAppend(adapterDiags + deviceDiags, scheduleDiags);
    assert raw.DeviceNames()[..|raw.devices|] == raw.DeviceNames();
    if !NoErrors(diags) {
      NotPreparable(raw);
    }
  }

  lemma NotPreparable(raw: Raw)
    requires !AdaptersFine(raw) || (exists s <- raw.schedules :: !s.valid)
      || !DevicesFine(raw, |raw.devices|)
    ensures !Compilable(raw)
  {
    forall c ensures !CompilesTo(raw, c) {
      if j :| 0 <= j < |raw.devices| && !DeviceFine(raw, raw.devices[j]) {
        MeantDeviceIsFine(raw, c, j);
      }
    }
  }

  lemma MeantDeviceIsFine(raw: Raw, c: Compiled, j: nat)
    requires j < |raw.devices|
    ensures CompilesTo(raw, c) ==> DeviceFine(raw, raw.devices[j])
  {
    if CompilesTo(raw, c) {
      var device := c.env.devices[j];
      assert DeviceMeans(raw, j, device);
      assert raw.AdapterNames()[device.adapter] == raw.devices[j].adapter;
      forall t <- raw.devices[j].capabilities ensures ParseCapability(t).Some? {
        var k :| 0 <= k < |raw.devices[j].capabilities| && raw.devices[j].capabilities[k] == t;
      }
    }
  }

  /** Lowering everything under one environment, on top of the diagnostics so far. */
  method LowerAll(raw: Raw, env: Env, before: seq<Diagnostic>) returns (scenes: seq<seq<Command>>, rules: seq<Rule>,
      refs: set<Ref>, diags: seq<Diagnostic>)
    requires env.Valid()
    ensures NoErrors(diags) ==> NoErrors(before)
    ensures NoErrors(diags) ==>
      ScenesLowered(env, raw.scenes, scenes, {}, ScenesRefs(scenes))
      && RulesLowered(env, raw.rules, rules, ScenesRefs(scenes), refs)
    ensures NoErrors(before) && !NoErrors(diags) ==> LoweringFails(env, raw)
  {
    var lw := new Lowerer(env, before);
    scenes := LowerScenes(lw, raw.scenes);
    ghost var mid := lw.refs;
    rules := LowerRules(lw, raw.rules);
    refs, diags := lw.refs, lw.diags;
    NoErrorsIff(before);
    NoErrorsIff(diags);
    if NoErrors(diags) {
      PrefixErrors(before, diags);
      assert {} + ScenesRefs(scenes) == ScenesRefs(scenes);
    }
  }

  lemma PrefixErrors(before: seq<Diagnostic>, diags: seq<Diagnostic>)
    requires before <= diags && NoErrors(diags)
    ensures NoErrors(before)
  {
    assert diags == before + diags[|before|..];
    NoErrorsAppend(before, diags[|before|..]);
  }

  /** The compiler accepts a configuration exactly when it means something, and hands out
      exactly that; the timer lints name exactly the keys mentioned and never scheduled. */
  method Resolve(raw: Raw) returns (r: Outcome)
    requires raw.Keyed()
    ensures match r
      case Accepted(config, warnings, lints) =>
        && CompilesTo(raw, config) && NoErrors(warnings) && (forall d <- lints :: d in warnings)
        && LintsExact(config, lints)
      case Rejected(diags) => !Compilable(raw) && !NoErrors(diags)
  {
    var env, before := Prepare(raw);
    var scenes, rules, refs, lowered := LowerAll(raw, env, before);
    var exposures := CheckExposures(raw, env.deviceIndex);
    var validated := ValidateDevices(raw, env.devices);
    var lints := LintTimers(refs);
    var diags := lowered + exposures + validated + lints + raw.systemChecks;
    NoErrorsAppend(lowered, exposures);
    NoErrorsAppend(lowered + exposures, validated);
    NoErrorsAppend(lowered + exposures + validated, lints);
    NoErrorsAppend(lowered + exposures + validated + lints, raw.systemChecks);
    var config := Compiled(env, scenes, rules);
    if NoErrors(diags) {
      r := Accepted(config, diags, lints);
      LintsAreExact(config, refs, lints);
    } else {
      r := Rejected(diags);
      if NoErrors(before) && !NoErrors(lowered) {
        FailingIsNotCompilable(env, raw);
      } else if NoErrors(before) {
        CheckedIsNotCompilable(raw, env);
      }
    }
  }

  lemma CheckedIsNotCompilable(raw: Raw, env: Env)
    requires raw.Keyed() && EnvMeans(raw, env)
    requires !NoErrors(raw.systemChecks) || (exists d <- env.devices :: !NoErrors(raw.validate(d)))
      || exists a <- raw.adapters :: !ExposureFine(a, env.deviceIndex)
    ensures !Compilable(raw)
  {
    forall c ensures !CompilesTo(raw, c) {
      if CompilesTo(raw, c) {
        EnvUnique(raw, env, c.env);
        assert false;
      }
    }
  }

  // --- what the lints say ---------------------------------------------------------------------------

  ghost predicate LintsExact(c: Compiled, lints: seq<Diagnostic>) {
    forall key :: DanglingTimer(key) in lints <==> Uses(c, Mentions(key)) && !Uses(c, Schedules(key))
  }

  /** Some compiled command or trigger uses the name. */
  ghost predicate Uses(c: Compiled, ref: Ref) {
    || (exists i :: 0 <= i < |c.scenes| && UsedBy(c.scenes[i], ref))
    || (exists i :: 0 <= i < |c.rules| && RuleUses(c.rules[i], ref))
  }

  ghost predicate UsedBy(commands: seq<Command>, ref: Ref) {
    exists i :: 0 <= i < |commands| && ref in CommandRefs(commands[i])
  }

  lemma {:induction false} CommandsRefsAre(commands: seq<Command>, ref: Ref)
    ensures ref in CommandsRefs(commands) <==> UsedBy(commands, ref)
  {
    if commands != [] {
      var before := commands[..|commands| - 1];
      CommandsRefsAre(before, ref);
      if i :| 0 <= i < |before| && ref in CommandRefs(before[i]) {
        assert commands[i] == before[i];
      }
      if i :| 0 <= i < |commands| && ref in CommandRefs(commands[i]) {
        assert i < |before| ==> before[i] == commands[i];
      }
    }
  }

  lemma {:induction false} ScenesRefsAre(scenes: seq<seq<Command>>, ref: Ref)
    ensures ref in ScenesRefs(scenes) <==> exists i :: 0 <= i < |scenes| && UsedBy(scenes[i], ref)
  {
    if scenes != [] {
      var before, last := scenes[..|scenes| - 1], scenes[|scenes| - 1];
      ScenesRefsAre(before, ref);
      CommandsRefsAre(last, ref);
      if i :| 0 <= i < |before| && UsedBy(before[i], ref) {
        assert scenes[i] == before[i];
      }
      if i :| 0 <= i < |scenes| && UsedBy(scenes[i], ref) {
        assert i < |before| ==> before[i] == scenes[i];
      }
    }
  }

  ghost predicate RuleUses(rule: Rule, ref: Ref) {
    ref in TriggerRefs(rule.trigger) || UsedBy(rule.commands, ref)
  }

  lemma {:induction false} RulesRefsAre(rules: seq<Rule>, ref: Ref)
    ensures ref in RulesRefs(rules) <==> exists i :: 0 <= i < |rules| && RuleUses(rules[i], ref)
  {
    if rules != [] {
      var before, last := rules[..|rules| - 1], rules[|rules| - 1];
      RulesRefsAre(before, ref);
      CommandsRefsAre(last.commands, ref);
      if i :| 0 <= i < |before| && RuleUses(before[i], ref) {
        assert rules[i] == before[i];
      }
      if i :| 0 <= i < |rules| && RuleUses(rules[i], ref) {
        assert i < |before| ==> before[i] == rules[i];
      }
    }
  }

  lemma LintsAreExact(c: Compiled, refs: set<Ref>, lints: seq<Diagnostic>)
    requires refs == ScenesRefs(c.scenes) + RulesRefs(c.rules)
    requires forall key :: DanglingTimer(key) in lints <==> Mentions(key) in refs && Schedules(key) !in refs
    ensures LintsExact(c, lints)
  {
    forall ref: Ref ensures ref in refs <==> Uses(c, ref) {
      ScenesRefsAre(c.scenes, ref);
      RulesRefsAre(c.rules, ref);
    }
    forall key ensures DanglingTimer(key) in lints <==> Uses(c, Mentions(key)) && !Uses(c, Schedules(key)) {
      assert Mentions(key) in refs <==> Uses(c, Mentions(key));
      assert Schedules(key) in refs <==> Uses(c, Schedules(key));
    }
  }
}
