/** Lowering (`src/compile/lower.rs`): raw nodes become triggers, conditions and commands,
    or diagnostics. Every method is judged against the meaning of its node: it reports no
    error exactly when the node has one, and then returns it. */
module Lower {
  import opened Model
  import opened Rules
  import opened RawConfig

  datatype Diagnostic = Diagnostic(isError: bool, code: string, context: string)

  function Errors(diags: seq<Diagnostic>): nat {
    if diags == [] then 0
    else Errors(diags[..|diags| - 1]) + if diags[|diags| - 1].isError then 1 else 0
  }

  lemma {:induction false} NoErrorsIff(diags: seq<Diagnostic>)
    ensures Errors(diags) == 0 <==> forall d <- diags :: !d.isError
  {
    if diags != [] {
      var before, last := diags[..|diags| - 1], diags[|diags| - 1];
      assert diags == before + [last];
      NoErrorsIff(before);
    }
  }

  /** A name a phase uses or creates, for the whole-program lints. */
  datatype Ref =
    | Schedules(key: TimerKey)
    | Mentions(key: TimerKey)
    | Activates(scene: SceneId)
    | FiresOn(schedule: ScheduleId)

  function TriggerRefs(t: Trigger): set<Ref> {
    match t
    case Timer(key) => {Mentions(key)}
    case Time(schedule) => {FiresOn(schedule)}
    case _ => {}
  }

  function CommandRefs(c: Command): set<Ref> {
    match c
    case ActivateScene(scene) => {Activates(scene)}
    case ScheduleTimer(key, _) => {Schedules(key)}
    case CancelTimer(key) => {Mentions(key)}
    case _ => {}
  }

  function CommandsRefs(commands: seq<Command>): set<Ref> {
    if commands == [] then {}
    else CommandsRefs(commands[..|commands| - 1]) + CommandRefs(commands[|commands| - 1])
  }

  /** The node means no trigger, condition, command. */
  ghost predicate NoTrigger(env: Env, v: Value) {
    forall t :: !TriggerMeans(env, v, t)
  }

  ghost predicate NoCondition(env: Env, v: Value) {
    forall c :: !ConditionMeans(env, v, c)
  }

  ghost predicate NoCommand(env: Env, v: Value) {
    forall c :: !CommandMeans(env, v, c)
  }

  predicate IsTriggerVerb(verb: Verb) {
    verb.WhenEvent? || verb.WhenChanged? || verb.WhenCrosses? || verb.WhenReports? || verb.WhenTimer?
    || verb.WhenSchedule? || verb.WhenCommandFailed?
  }

  lemma OnlyTriggerVerbs(env: Env, v: Value)
    requires !v.Node? || !IsTriggerVerb(v.verb)
    ensures NoTrigger(env, v)
  {
  }

  predicate IsConditionVerb(verb: Verb) {
    verb.All? || verb.Any? || verb.Negate? || verb.IsSunUp? || verb.IsSwitch? || verb.IsOccupancy?
    || verb.IsCompare? || verb.IsColor? || verb.TimeAfter? || verb.TimeBefore?
  }

  lemma OnlyConditionVerbs(env: Env, v: Value)
    requires !v.Node? || !IsConditionVerb(v.verb)
    ensures NoCondition(env, v)
  {
  }

  /** Not a list of conditions: no list, or an item that means none. */
  ghost predicate NoParts(env: Env, v: Value) {
    !v.Items? || exists i :: 0 <= i < |v.items| && NoCondition(env, v.items[i])
  }

  lemma FailureStays(env: Env, items: seq<Value>, item: Value)
    ensures NoParts(env, Items(items + [item])) <==> NoParts(env, Items(items)) || NoCondition(env, item)
  {
    var more := items + [item];
    if i :| 0 <= i < |items| && NoCondition(env, items[i]) {
      assert more[i] == items[i];
    }
    if NoCondition(env, item) {
      assert more[|items|] == item;
    }
  }

  lemma NoPartsNoList(env: Env, v: Value)
    requires v.Node? && (v.verb == All || v.verb == Any)
    ensures NoParts(env, v.payload) ==> NoCondition(env, v)
  {
    if NoParts(env, v.payload) {
      forall c ensures !ConditionMeans(env, v, c) {
        if v.payload.Items? {
          var i :| 0 <= i < |v.payload.items| && NoCondition(env, v.payload.items[i]);
          match c
          case And(parts) => assert i < |parts| ==> !ConditionMeans(env, v.payload.items[i], parts[i]);
          case Or(parts) => assert i < |parts| ==> !ConditionMeans(env, v.payload.items[i], parts[i]);
          case _ =>
        }
      }
    }
  }

  lemma UnlessSchedule(env: Env, v: Value)
    requires v.Node? && v.verb == WhenSchedule
    ensures NoTrigger(env, v) || (v.payload.Name? && v.payload.text in env.scheduleIndex)
  {
  }

  lemma UnlessSwitch(env: Env, v: Value)
    requires v.Node? && v.verb == IsSwitch
    ensures NoCondition(env, v)
      || (v.payload.Fields? && v.payload.record.SwitchFields? && v.payload.record.device in env.deviceIndex
          && env.Declares(env.deviceIndex[v.payload.record.device], CapabilityKind.Switch))
  {
  }

  lemma UnlessOccupancy(env: Env, v: Value)
    requires v.Node? && v.verb == IsOccupancy
    ensures NoCondition(env, v)
      || (v.payload.Fields? && v.payload.record.OccupancyFields? && v.payload.record.device in env.deviceIndex
          && env.Declares(env.deviceIndex[v.payload.record.device], CapabilityKind.Occupancy))
  {
  }

  predicate IsCommandVerb(verb: Verb) {
    verb.TurnOn? || verb.TurnOff? || verb.ToggleIt? || verb.SetBrightnessTo? || verb.DecreaseBy? || verb.IncreaseBy?
    || verb.SetColorTo? || verb.SetTemperatureTo? || verb.Activate? || verb.ScheduleIt? || verb.CancelIt?
    || verb.SendIrTo?
  }

  lemma OnlyCommandVerbs(env: Env, v: Value)
    requires !v.Node? || !IsCommandVerb(v.verb)
    ensures NoCommand(env, v)
  {
  }

  predicate CanDo(env: Env, name: string, kind: CapabilityKind) {
    name in env.deviceIndex && env.Declares(env.deviceIndex[name], kind)
  }

  lemma UnlessSwitched(env: Env, v: Value)
    requires v.Node? && (v.verb == TurnOn || v.verb == TurnOff || v.verb == ToggleIt)
    ensures NoCommand(env, v) || (v.payload.Name? && CanDo(env, v.payload.text, CapabilityKind.Switch))
  {
  }

  lemma UnlessBrightness(env: Env, v: Value)
    requires v.Node? && v.verb == SetBrightnessTo
    ensures NoCommand(env, v)
      || (v.payload.Fields? && v.payload.record.SetBrightnessFields?
          && CanDo(env, v.payload.record.device, CapabilityKind.Brightness)
          && exists t :: TransitionMeans(env, v.payload.record.transition, t))
  {
  }

  lemma UnlessDecrease(env: Env, v: Value)
    requires v.Node? && v.verb == DecreaseBy
    ensures NoCommand(env, v)
      || (v.payload.Fields? && v.payload.record.DecreaseFields?
          && CanDo(env, v.payload.record.device, CapabilityKind.Brightness))
  {
  }

  lemma UnlessIncrease(env: Env, v: Value)
    requires v.Node? && v.verb == IncreaseBy
    ensures NoCommand(env, v)
      || (v.payload.Fields? && v.payload.record.IncreaseFields?
          && CanDo(env, v.payload.record.device, CapabilityKind.Brightness))
  {
  }

  lemma UnlessColor(env: Env, v: Value)
    requires v.Node? && v.verb == SetColorTo
    ensures NoCommand(env, v)
      || (v.payload.Fields? && v.payload.record.SetColorFields?
          && CanDo(env, v.payload.record.device, CapabilityKind.Color)
          && env.scalars.color(v.payload.record.color).Some?
          && exists t :: TransitionMeans(env, v.payload.record.transition, t))
  {
  }

  lemma UnlessTemperature(env: Env, v: Value)
    requires v.Node? && v.verb == SetTemperatureTo
    ensures NoCommand(env, v)
      || (v.payload.Fields? && v.payload.record.SetTemperatureFields?
          && CanDo(env, v.payload.record.device, CapabilityKind.ColorTemperature)
          && (exists m: U16 :: TemperatureMeans(v.payload.record.kelvin, v.payload.record.mireds, m))
          && exists t :: TransitionMeans(env, v.payload.record.transition, t))
  {
  }

  lemma UnlessIr(env: Env, v: Value)
    requires v.Node? && v.verb == SendIrTo
    ensures NoCommand(env, v)
      || (v.payload.Fields? && v.payload.record.SendIrFields?
          && CanDo(env, v.payload.record.device, CapabilityKind.IrTransmitter))
  {
  }

  lemma UnlessActivate(env: Env, v: Value)
    requires v.Node? && v.verb == Activate
    ensures NoCommand(env, v) || (v.payload.Name? && v.payload.text in env.sceneIndex)
  {
  }

  lemma UnlessScheduled(env: Env, v: Value)
    requires v.Node? && v.verb == ScheduleIt
    ensures NoCommand(env, v)
      || (v.payload.Fields? && v.payload.record.ScheduleFields?
          && env.scalars.duration(v.payload.record.after).Some?)
  {
  }

  ghost predicate SomeNoCommand(env: Env, raws: seq<Value>) {
    exists i :: 0 <= i < |raws| && NoCommand(env, raws[i])
  }

  lemma CommandFailureStays(env: Env, raws: seq<Value>, raw: Value)
    ensures SomeNoCommand(env, raws + [raw]) <==> SomeNoCommand(env, raws) || NoCommand(env, raw)
  {
    var more := raws + [raw];
    if i :| 0 <= i < |raws| && NoCommand(env, raws[i]) {
      assert more[i] == raws[i];
    }
    if NoCommand(env, raw) {
      assert more[|raws|] == raw;
    }
  }

  lemma RefsNothing(refs: set<Ref>)
    ensures refs + CommandsRefs([]) == refs
  {
  }

  lemma RefsGrow(refs: set<Ref>, commands: seq<Command>, c: Command)
    ensures refs + CommandsRefs(commands + [c]) == refs + CommandsRefs(commands) + CommandRefs(c)
  {
    assert (commands + [c])[..|commands + [c]| - 1] == commands;
  }

  /** The commands a list means, with the names they use noted. */
  ghost predicate Lowered(env: Env, raws: seq<Value>, commands: seq<Command>, was: set<Ref>, now: set<Ref>) {
    CommandsMean(env, raws, commands) && now == was + CommandsRefs(commands)
  }

  lemma LoweredGrows(env: Env, raws: seq<Value>, raw: Value, commands: seq<Command>, c: Command, was: set<Ref>,
      mid: set<Ref>, now: set<Ref>)
    requires Lowered(env, raws, commands, was, mid) && CommandMeans(env, raw, c) && now == mid + CommandRefs(c)
    ensures Lowered(env, raws + [raw], commands + [c], was, now)
  {
    RefsGrow(was, commands, c);
  }

  class Lowerer {
    const env: Env
    var diags: seq<Diagnostic>
    var refs: set<Ref>
    /** How many errors have been reported. */
    ghost var errors: nat

    constructor (env: Env, diags: seq<Diagnostic>)
      ensures this.env == env && this.diags == diags && refs == {} && errors == Errors(diags)
    {
      this.env, this.diags, this.refs := env, diags, {};
      errors := Errors(diags);
    }

    ghost predicate Counted()
      reads this
    {
      errors == Errors(diags) && env.Valid()
    }

    method Error(code: string, context: string)
      requires Counted()
      modifies this`diags, this`errors
      ensures Counted() && diags == old(diags) + [Diagnostic(true, code, context)] && errors == old(errors) + 1
    {
      diags := diags + [Diagnostic(true, code, context)];
      errors := errors + 1;
      assert diags[..|diags| - 1] == old(diags);
    }

    // --- pieces ---

    method ResolveDevice(name: string, at: string) returns (device: Option<DeviceId>)
      requires Counted()
      modifies this`diags, this`errors
      ensures Counted() && old(diags) <= diags
      ensures match device
        case Some(id) => errors == old(errors) && env.Names(name, id) && id < |env.devices|
        case None => errors > old(errors) && name !in env.deviceIndex
    {
      if name in env.deviceIndex {
        device := Some(env.deviceIndex[name]);
      } else {
        Error("E_UNKNOWN_DEVICE", at);
        device := None;
      }
    }

    /** Reports, but does not stop the lowering of its node. */
    method RequireCap(device: DeviceId, kind: CapabilityKind, at: string)
      requires Counted()
      modifies this`diags, this`errors
      ensures Counted() && old(diags) <= diags
      ensures if env.Declares(device, kind) then errors == old(errors) else errors > old(errors)
    {
      if device != env.Clock() && !(device < |env.devices| && kind in env.devices[device].capabilities) {
        Error("E_MISSING_CAPABILITY", at);
      }
    }

    /** A device that must declare a given capability. */
    method Capable(name: string, kind: CapabilityKind, at: string) returns (device: Option<DeviceId>)
      requires Counted()
      modifies this`diags, this`errors
      ensures Counted() && old(diags) <= diags && errors >= old(errors)
      ensures errors == old(errors) ==> device.Some?
      ensures device.Some? ==> env.Names(name, device.value)
      ensures errors == old(errors) <==> name in env.deviceIndex && env.Declares(env.deviceIndex[name], kind)
    {
      device := ResolveDevice(name, at);
      if device.Some? {
        RequireCap(device.value, kind, at);
      }
    }

    method Capability(name: string, numeric: bool, boolean: bool, at: string) returns (kind: Option<CapabilityKind>)
      requires Counted()
      modifies this`diags, this`errors
      ensures Counted() && old(diags) <= diags
      ensures match kind
        case Some(k) =>
          errors == old(errors) && ParseCapability(name) == Some(k)
          && (numeric ==> k.IsNumeric()) && (boolean ==> k.IsBool())
        case None => errors > old(errors) && match ParseCapability(name)
          case Some(k) => (numeric && !k.IsNumeric()) || (boolean && !k.IsBool())
          case None => true
    {
      kind := ParseCapability(name);
      if kind == None {
        Error("E_BAD_CAPABILITY", at);
      } else if numeric && !kind.value.IsNumeric() {
        Error("E_NON_NUMERIC_CAPABILITY", at);
        kind := None;
      } else if boolean && !kind.value.IsBool() {
        Error("E_NON_BOOL_CAPABILITY", at);
        kind := None;
      }
    }

    method ParseDuration(text: string, at: string) returns (ms: Option<Millis>)
      requires Counted()
      modifies this`diags, this`errors
      ensures Counted() && old(diags) <= diags && ms == env.scalars.duration(text)
      ensures if ms.Some? then errors == old(errors) else errors > old(errors)
    {
      ms := env.scalars.duration(text);
      if ms == None {
        Error("E_BAD_DURATION", at);
      }
    }

    method Transition(text: Option<string>, at: string) returns (ok: bool, transition: Option<Millis>)
      requires Counted()
      modifies this`diags, this`errors
      ensures Counted() && old(diags) <= diags
      ensures if ok then errors == old(errors) else errors > old(errors)
      ensures forall t :: TransitionMeans(env, text, t) <==> ok && t == transition
    {
      ok, transition := true, None;
      if text.Some? {
        transition := ParseDuration(text.value, at);
        ok := transition.Some?;
      }
    }

    method ParseTime(text: string, at: string) returns (minute: Option<U16>)
      requires Counted()
      modifies this`diags, this`errors
      ensures Counted() && old(diags) <= diags && minute == env.scalars.time(text)
      ensures if minute.Some? then errors == old(errors) else errors > old(errors)
    {
      minute := env.scalars.time(text);
      if minute == None {
        Error("E_BAD_TIME", at);
      }
    }

    method ParseColor(v: Value, at: string) returns (color: Option<(U8, U8, U8)>)
      requires Counted()
      modifies this`diags, this`errors
      ensures Counted() && old(diags) <= diags && color == env.scalars.color(v)
      ensures if color.Some? then errors == old(errors) else errors > old(errors)
    {
      color := env.scalars.color(v);
      if color == None {
        Error("E_BAD_COLOR", at);
      }
    }

    method ParseTemperature(kelvin: Option<U32>, mireds: Option<U16>, at: string) returns (result: Option<U16>)
      requires Counted()
      modifies this`diags, this`errors
      ensures Counted() && old(diags) <= diags
      ensures if result.Some? then errors == old(errors) else errors > old(errors)
      ensures forall m: U16 :: TemperatureMeans(kelvin, mireds, m) <==> result == Some(m)
    {
      result := None;
      if kelvin.Some? == mireds.Some? {
        Error("E_BAD_COLOR_TEMP", at);
      } else if kelvin.Some? {
        if 1000 <= kelvin.value <= 10_000 {
          var m := 1_000_000 / kelvin.value;
          result := Some(if m < 0xFFFF then m else 0xFFFF);
        } else {
          Error("E_BAD_COLOR_TEMP", at);
        }
      } else if 100 <= mireds.value <= 1000 {
        result := mireds;
      } else {
        Error("E_BAD_COLOR_TEMP", at);
      }
    }

    // --- triggers ---

    method Trigger(v: Value, at: string) returns (t: Option<Trigger>)
      requires Counted()
      modifies this
      ensures Counted() && old(diags) <= diags && errors >= old(errors)
      ensures errors == old(errors) ==>
        t.Some? && TriggerMeans(env, v, t.value) && refs == old(refs) + TriggerRefs(t.value)
      ensures errors > old(errors) ==> NoTrigger(env, v)
    {
      if v.Node? && v.verb == WhenTimer {
        t := TimerTrigger(v, at);
      } else if v.Node? && v.verb == WhenSchedule {
        t := ScheduleTrigger(v, at);
      } else {
        t := DeviceTrigger(v, at);
        assert refs + {} == refs;
      }
    }

    /** Triggers that use no timer key and no schedule. */
    method DeviceTrigger(v: Value, at: string) returns (t: Option<Trigger>)
      requires Counted() && (v.Node? ==> v.verb != WhenTimer && v.verb != WhenSchedule)
      modifies this`diags, this`errors
      ensures Counted() && old(diags) <= diags && errors >= old(errors)
      ensures errors == old(errors) ==> t.Some? && TriggerMeans(env, v, t.value) && TriggerRefs(t.value) == {}
      ensures errors > old(errors) ==> NoTrigger(env, v)
    {
      t := None;
      if !v.Node? {
        Error("E_BAD_NODE", at);
        OnlyTriggerVerbs(env, v);
      } else if v.verb == WhenEvent {
        t := EventTrigger(v, at);
      } else if v.verb == WhenChanged {
        t := ChangedTrigger(v, at);
      } else if v.verb == WhenCrosses {
        t := CrossesTrigger(v, at);
      } else if v.verb == WhenReports {
        t := ReportsTrigger(v, at);
      } else if v.verb == WhenCommandFailed {
        t := FailureTrigger(v, at);
      } else {
        Error("E_UNKNOWN_TRIGGER", at);
        OnlyTriggerVerbs(env, v);
      }
    }

    method TimerTrigger(v: Value, at: string) returns (t: Option<Trigger>)
      requires Counted() && v.Node? && v.verb == WhenTimer
      modifies this
      ensures Counted() && old(diags) <= diags && errors >= old(errors)
      ensures errors == old(errors) ==>
        t.Some? && TriggerMeans(env, v, t.value) && refs == old(refs) + TriggerRefs(t.value)
      ensures errors > old(errors) ==> NoTrigger(env, v)
    {
      if v.payload.Name? {
        refs := refs + {Mentions(v.payload.text)};
        t := Some(Timer(v.payload.text));
      } else {
        Error("E_BAD_NODE", at);
        t := None;
      }
    }

    method EventTrigger(v: Value, at: string) returns (t: Option<Trigger>)
      requires Counted() && v.Node? && v.verb == WhenEvent
      modifies this`diags, this`errors
      ensures Counted() && old(diags) <= diags && errors >= old(errors)
      ensures errors == old(errors) ==> t.Some? && t.value.OnAction? && TriggerMeans(env, v, t.value)
      ensures errors > old(errors) ==> NoTrigger(env, v)
    {
      t := None;
      if !v.payload.Name? {
        Error("E_BAD_NODE", at);
        return;
      }
      var split := SplitDot(v.payload.text);
      if split == None {
        Error("E_BAD_NODE", at);
        return;
      }
      var device := ResolveDevice(split.value.0, at);
      if device.Some? {
        var action := FindEvent(env.devices[device.value].events, split.value.1);
        if action == None {
          Error("E_UNKNOWN_EVENT", at);
        } else {
          t := Some(OnAction(device.value, action.value));
        }
      }
    }

    method ChangedTrigger(v: Value, at: string) returns (t: Option<Trigger>)
      requires Counted() && v.Node? && v.verb == WhenChanged
      modifies this`diags, this`errors
      ensures Counted() && old(diags) <= diags && errors >= old(errors)
      ensures errors == old(errors) ==> t.Some? && t.value.Changed? && TriggerMeans(env, v, t.value)
      ensures errors > old(errors) ==> NoTrigger(env, v)
    {
      t := None;
      if !(v.payload.Fields? && v.payload.record.ChangedFields?) {
        Error("E_BAD_NODE", at);
        return;
      }
      var c := v.payload.record;
      var device := ResolveDevice(c.device, at);
      if device.Some? {
        var kind := Capability(c.capability, false, true, at);
        if kind.Some? {
          RequireCap(device.value, kind.value, at);
          t := Some(Changed(device.value, kind.value, c.value));
        }
      }
    }

    method CrossesTrigger(v: Value, at: string) returns (t: Option<Trigger>)
      requires Counted() && v.Node? && v.verb == WhenCrosses
      modifies this`diags, this`errors
      ensures Counted() && old(diags) <= diags && errors >= old(errors)
      ensures errors == old(errors) ==> t.Some? && t.value.Crosses? && TriggerMeans(env, v, t.value)
      ensures errors > old(errors) ==> NoTrigger(env, v)
    {
      t := None;
      if !(v.payload.Fields? && v.payload.record.CrossesFields?) {
        Error("E_BAD_NODE", at);
        return;
      }
      var c := v.payload.record;
      var device := ResolveDevice(c.device, at);
      if device.Some? {
        var kind := Capability(c.capability, true, false, at);
        if kind.Some? {
          RequireCap(device.value, kind.value, at);
          if c.above.Some? == c.below.Some? {
            Error("E_BAD_CROSS", at);
          } else if c.above.Some? {
            t := Some(Crosses(device.value, kind.value, c.above.value, Above));
          } else {
            t := Some(Crosses(device.value, kind.value, c.below.value, Below));
          }
        }
      }
    }

    method ReportsTrigger(v: Value, at: string) returns (t: Option<Trigger>)
      requires Counted() && v.Node? && v.verb == WhenReports
      modifies this`diags, this`errors
      ensures Counted() && old(diags) <= diags && errors >= old(errors)
      ensures errors == old(errors) ==> t.Some? && t.value.Reports? && TriggerMeans(env, v, t.value)
      ensures errors > old(errors) ==> NoTrigger(env, v)
    {
      t := None;
      if !(v.payload.Fields? && v.payload.record.ReportsFields?) {
        Error("E_BAD_NODE", at);
        return;
      }
      var c := v.payload.record;
      var device := ResolveDevice(c.device, at);
      if device.Some? {
        var kind := Capability(c.capability, false, false, at);
        if kind.Some? {
          RequireCap(device.value, kind.value, at);
          t := Some(Reports(device.value, kind.value));
        }
      }
    }

    method ScheduleTrigger(v: Value, at: string) returns (t: Option<Trigger>)
      requires Counted() && v.Node? && v.verb == WhenSchedule
      modifies this
      ensures Counted() && old(diags) <= diags && errors >= old(errors)
      ensures errors == old(errors) ==>
        t.Some? && TriggerMeans(env, v, t.value) && refs == old(refs) + TriggerRefs(t.value)
      ensures errors > old(errors) ==> NoTrigger(env, v)
    {
      UnlessSchedule(env, v);
      t := None;
      if !v.payload.Name? {
        Error("E_BAD_NODE", at);
      } else if v.payload.text in env.scheduleIndex {
        var schedule := env.scheduleIndex[v.payload.text];
        refs := refs + {FiresOn(schedule)};
        t := Some(Time(schedule));
      } else {
        Error("E_UNKNOWN_SCHEDULE", at);
      }
    }

    method FailureTrigger(v: Value, at: string) returns (t: Option<Trigger>)
      requires Counted() && v.Node? && v.verb == WhenCommandFailed
      modifies this`diags, this`errors
      ensures Counted() && old(diags) <= diags && errors >= old(errors)
      ensures errors == old(errors) ==> t.Some? && t.value.OnCommandFailed? && TriggerMeans(env, v, t.value)
      ensures errors > old(errors) ==> NoTrigger(env, v)
    {
      t := None;
      if !v.payload.Name? {
        Error("E_BAD_NODE", at);
      } else if v.payload.text == "*" {
        t := Some(OnCommandFailed(None));
      } else {
        var device := ResolveDevice(v.payload.text, at);
        if device.Some? {
          t := Some(OnCommandFailed(device));
        }
      }
    }

    /** `for:` needs an edge trigger and a valid duration. */
    method ForDuration(text: string, trigger: Trigger, at: string) returns (ms: Option<Millis>)
      requires Counted()
      modifies this`diags, this`errors
      ensures Counted() && old(diags) <= diags && errors >= old(errors)
      ensures errors == old(errors) <==> trigger.Watched().Some? && env.scalars.duration(text).Some?
      ensures errors == old(errors) ==> ms == env.scalars.duration(text)
    {
      if trigger.Watched() == None {
        Error("E_FOR_UNSUPPORTED", at);
        ms := None;
      } else {
        ms := ParseDuration(text, at);
      }
    }

    // --- conditions ---

    method Condition(v: Value, at: string) returns (c: Option<Condition>)
      requires Counted()
      modifies this`diags, this`errors
      ensures Counted() && old(diags) <= diags && errors >= old(errors)
      ensures errors == old(errors) ==> c.Some? && ConditionMeans(env, v, c.value)
      ensures errors > old(errors) ==> NoCondition(env, v)
      decreases v, 1
    {
      c := None;
      if !v.Node? {
        Error("E_BAD_NODE", at);
        OnlyConditionVerbs(env, v);
        return;
      }
      match v.verb {
        case All => c := ListCondition(v, at);
        case Any => c := ListCondition(v, at);
        case Negate => c := NotCondition(v, at);
        case IsSunUp => c := SunCondition(v, at);
        case IsSwitch => c := SwitchCondition(v, at);
        case IsOccupancy => c := OccupancyCondition(v, at);
        case IsCompare => c := CompareCondition(v, at);
        case IsColor => c := ColorCondition(v, at);
        case TimeAfter => c := TimeCondition(v, at);
        case TimeBefore => c := TimeCondition(v, at);
        case _ =>
          Error("E_UNKNOWN_CONDITION", at);
          OnlyConditionVerbs(env, v);
      }
    }

    /** Lowers every item, so that all their errors are reported. */
    method ConditionList(v: Value, at: string) returns (parts: Option<seq<Condition>>)
      requires Counted()
      modifies this`diags, this`errors
      ensures Counted() && old(diags) <= diags && errors >= old(errors)
      ensures errors == old(errors) ==> v.Items? && parts.Some? && PartsMean(env, v.items, parts.value)
      ensures errors > old(errors) ==> NoParts(env, v)
      decreases v, 0
    {
      if !v.Items? {
        Error("E_BAD_NODE", at);
        return None;
      }
      var out: seq<Condition> := [];
      var ok := true;
      for i := 0 to |v.items|
        invariant Counted() && old(diags) <= diags && errors >= old(errors)
        invariant errors == old(errors) ==> ok && PartsMean(env, v.items[..i], out)
        invariant errors > old(errors) ==> NoParts(env, Items(v.items[..i]))
      {
        ghost var done := v.items[..i];
        var c := Condition(v.items[i], at);
        match c {
          case Some(part) => out := out + [part];
          case None => ok := false;
        }
        assert v.items[..i + 1] == done + [v.items[i]];
        FailureStays(env, done, v.items[i]);
      }
      assert v.items[..|v.items|] == v.items;
      parts := if ok then Some(out) else None;
    }

    method ListCondition(v: Value, at: string) returns (c: Option<Condition>)
      requires Counted() && v.Node? && (v.verb == All || v.verb == Any)
      modifies this`diags, this`errors
      ensures Counted() && old(diags) <= diags && errors >= old(errors)
      ensures errors == old(errors) ==> c.Some? && ConditionMeans(env, v, c.value)
      ensures errors > old(errors) ==> NoCondition(env, v)
      decreases v, 0
    {
      c := None;
      var parts := ConditionList(v.payload, at);
      if parts.Some? {
        c := Some(if v.verb == All then And(parts.value) else Or(parts.value));
      }
      NoPartsNoList(env, v);
    }

    method NotCondition(v: Value, at: string) returns (c: Option<Condition>)
      requires Counted() && v.Node? && v.verb == Negate
      modifies this`diags, this`errors
      ensures Counted() && old(diags) <= diags && errors >= old(errors)
      ensures errors == old(errors) ==> c.Some? && ConditionMeans(env, v, c.value)
      ensures errors > old(errors) ==> NoCondition(env, v)
      decreases v, 0
    {
      c := None;
      var inner := Condition(v.payload, at);
      if inner.Some? {
        c := Some(Not(inner.value));
      }
    }

    method SunCondition(v: Value, at: string) returns (c: Option<Condition>)
      requires Counted() && v.Node? && v.verb == IsSunUp
      modifies this`diags, this`errors
      ensures Counted() && old(diags) <= diags && errors >= old(errors)
      ensures errors == old(errors) ==> c.Some? && ConditionMeans(env, v, c.value)
      ensures errors > old(errors) ==> NoCondition(env, v)
    {
      c := None;
      if v.payload.Flag? {
        c := Some(BoolEquals(env.Clock(), CapabilityKind.SunUp, v.payload.on));
      } else {
        Error("E_BAD_NODE", at);
      }
    }

    method SwitchCondition(v: Value, at: string) returns (c: Option<Condition>)
      requires Counted() && v.Node? && v.verb == IsSwitch
      modifies this`diags, this`errors
      ensures Counted() && old(diags) <= diags && errors >= old(errors)
      ensures errors == old(errors) ==> c.Some? && ConditionMeans(env, v, c.value)
      ensures errors > old(errors) ==> NoCondition(env, v)
    {
      c := None;
      UnlessSwitch(env, v);
      if !(v.payload.Fields? && v.payload.record.SwitchFields?) {
        Error("E_BAD_NODE", at);
        return;
      }
      var f := v.payload.record;
      var device := Capable(f.device, CapabilityKind.Switch, at);
      if device.Some? {
        c := Some(BoolEquals(device.value, CapabilityKind.Switch, f.on));
      }
    }

    method OccupancyCondition(v: Value, at: string) returns (c: Option<Condition>)
      requires Counted() && v.Node? && v.verb == IsOccupancy
      modifies this`diags, this`errors
      ensures Counted() && old(diags) <= diags && errors >= old(errors)
      ensures errors == old(errors) ==> c.Some? && ConditionMeans(env, v, c.value)
      ensures errors > old(errors) ==> NoCondition(env, v)
    {
      c := None;
      UnlessOccupancy(env, v);
      if !(v.payload.Fields? && v.payload.record.OccupancyFields?) {
        Error("E_BAD_NODE", at);
        return;
      }
      var f := v.payload.record;
      var device := Capable(f.device, CapabilityKind.Occupancy, at);
      if device.Some? {
        c := Some(BoolEquals(device.value, CapabilityKind.Occupancy, f.occupied));
      }
    }

    method CompareCondition(v: Value, at: string) returns (c: Option<Condition>)
      requires Counted() && v.Node? && v.verb == IsCompare
      modifies this`diags, this`errors
      ensures Counted() && old(diags) <= diags && errors >= old(errors)
      ensures errors == old(errors) ==> c.Some? && ConditionMeans(env, v, c.value)
      ensures errors > old(errors) ==> NoCondition(env, v)
    {
      c := None;
      if !(v.payload.Fields? && v.payload.record.CompareFields?) {
        Error("E_BAD_NODE", at);
        return;
      }
      var f := v.payload.record;
      var device := ResolveDevice(f.device, at);
      if device.Some? {
        var kind := Capability(f.capability, true, false, at);
        if kind.Some? {
          var op := ParseOp(f.op);
          if op == None {
            Error("E_BAD_OP", at);
          } else {
            RequireCap(device.value, kind.value, at);
            c := Some(Compare(device.value, kind.value, op.value, f.bound));
          }
        }
      }
    }

    method ColorCondition(v: Value, at: string) returns (c: Option<Condition>)
      requires Counted() && v.Node? && v.verb == IsColor
      modifies this`diags, this`errors
      ensures Counted() && old(diags) <= diags && errors >= old(errors)
      ensures errors == old(errors) ==> c.Some? && ConditionMeans(env, v, c.value)
      ensures errors > old(errors) ==> NoCondition(env, v)
    {
      c := None;
      if !(v.payload.Fields? && v.payload.record.ColorFields?) {
        Error("E_BAD_NODE", at);
        return;
      }
      var f := v.payload.record;
      var device := Capable(f.device, CapabilityKind.Color, at);
      if device.Some? {
        var color := ParseColor(f.color, at);
        if color.Some? {
          c := Some(ColorEquals(device.value, color.value.0, color.value.1, color.value.2));
        }
      }
    }

    method TimeCondition(v: Value, at: string) returns (c: Option<Condition>)
      requires Counted() && v.Node? && (v.verb == TimeAfter || v.verb == TimeBefore)
      modifies this`diags, this`errors
      ensures Counted() && old(diags) <= diags && errors >= old(errors)
      ensures errors == old(errors) ==> c.Some? && ConditionMeans(env, v, c.value)
      ensures errors > old(errors) ==> NoCondition(env, v)
    {
      c := None;
      if !v.payload.Name? {
        Error("E_BAD_NODE", at);
        return;
      }
      var minute := ParseTime(v.payload.text, at);
      if minute.Some? {
        c := Some(Compare(env.Clock(), CapabilityKind.TimeOfDay, if v.verb == TimeAfter then Ge else Lt, minute.value));
      }
    }

    // --- commands ---

    method Command(v: Value, at: string) returns (c: Option<Command>)
      requires Counted()
      modifies this
      ensures Counted() && old(diags) <= diags && errors >= old(errors)
      ensures errors == old(errors) ==>
        c.Some? && CommandMeans(env, v, c.value) && refs == old(refs) + CommandRefs(c.value)
      ensures errors > old(errors) ==> NoCommand(env, v)
    {
      if v.Node? && v.verb == Activate {
        c := ActivateCommand(v, at);
      } else if v.Node? && v.verb == ScheduleIt {
        c := ScheduleCommand(v, at);
      } else if v.Node? && v.verb == CancelIt {
        c := CancelCommand(v, at);
      } else {
        c := DeviceCommand(v, at);
        assert refs + {} == refs;
      }
    }

    /** Commands for one device. */
    method DeviceCommand(v: Value, at: string) returns (c: Option<Command>)
      requires Counted() && (v.Node? ==> v.verb != Activate && v.verb != ScheduleIt && v.verb != CancelIt)
      modifies this`diags, this`errors
      ensures Counted() && old(diags) <= diags && errors >= old(errors)
      ensures errors == old(errors) ==> c.Some? && CommandMeans(env, v, c.value) && CommandRefs(c.value) == {}
      ensures errors > old(errors) ==> NoCommand(env, v)
    {
      c := None;
      if !v.Node? {
        Error("E_BAD_NODE", at);
        OnlyCommandVerbs(env, v);
      } else if v.verb == TurnOn || v.verb == TurnOff {
        c := SwitchCommand(v, at);
      } else if v.verb == ToggleIt {
        c := ToggleCommand(v, at);
      } else if v.verb == SetBrightnessTo {
        c := BrightnessCommand(v, at);
      } else if v.verb == DecreaseBy {
        c := DecreaseCommand(v, at);
      } else if v.verb == IncreaseBy {
        c := IncreaseCommand(v, at);
      } else if v.verb == SetColorTo {
        c := ColorCommand(v, at);
      } else if v.verb == SetTemperatureTo {
        c := TemperatureCommand(v, at);
      } else if v.verb == SendIrTo {
        c := IrCommand(v, at);
      } else {
        Error("E_UNKNOWN_COMMAND", at);
        OnlyCommandVerbs(env, v);
      }
    }

    method SwitchCommand(v: Value, at: string) returns (c: Option<Command>)
      requires Counted() && v.Node? && (v.verb == TurnOn || v.verb == TurnOff)
      modifies this`diags, this`errors
      ensures Counted() && old(diags) <= diags && errors >= old(errors)
      ensures errors == old(errors) ==> c.Some? && CommandMeans(env, v, c.value) && CommandRefs(c.value) == {}
      ensures errors > old(errors) ==> NoCommand(env, v)
    {
      c := None;
      UnlessSwitched(env, v);
      if !v.payload.Name? {
        Error("E_BAD_NODE", at);
        return;
      }
      var device := Capable(v.payload.text, CapabilityKind.Switch, at);
      if device.Some? {
        c := Some(SetSwitch(device.value, v.verb == TurnOn));
      }
    }

    method ToggleCommand(v: Value, at: string) returns (c: Option<Command>)
      requires Counted() && v.Node? && v.verb == ToggleIt
      modifies this`diags, this`errors
      ensures Counted() && old(diags) <= diags && errors >= old(errors)
      ensures errors == old(errors) ==> c.Some? && CommandMeans(env, v, c.value) && CommandRefs(c.value) == {}
      ensures errors > old(errors) ==> NoCommand(env, v)
    {
      c := None;
      UnlessSwitched(env, v);
      if !v.payload.Name? {
        Error("E_BAD_NODE", at);
        return;
      }
      var device := Capable(v.payload.text, CapabilityKind.Switch, at);
      if device.Some? {
        c := Some(ToggleSwitch(device.value));
      }
    }

    method BrightnessCommand(v: Value, at: string) returns (c: Option<Command>)
      requires Counted() && v.Node? && v.verb == SetBrightnessTo
      modifies this`diags, this`errors
      ensures Counted() && old(diags) <= diags && errors >= old(errors)
      ensures errors == old(errors) ==> c.Some? && CommandMeans(env, v, c.value) && CommandRefs(c.value) == {}
      ensures errors > old(errors) ==> NoCommand(env, v)
    {
      c := None;
      UnlessBrightness(env, v);
      if !(v.payload.Fields? && v.payload.record.SetBrightnessFields?) {
        Error("E_BAD_NODE", at);
        return;
      }
      var f := v.payload.record;
      var device := Capable(f.device, CapabilityKind.Brightness, at);
      if device.Some? {
        var ok, transition := Transition(f.transition, at);
        if ok {
          c := Some(SetBrightness(device.value, f.level, transition));
        }
      }
    }

    method DecreaseCommand(v: Value, at: string) returns (c: Option<Command>)
      requires Counted() && v.Node? && v.verb == DecreaseBy
      modifies this`diags, this`errors
      ensures Counted() && old(diags) <= diags && errors >= old(errors)
      ensures errors == old(errors) ==> c.Some? && CommandMeans(env, v, c.value) && CommandRefs(c.value) == {}
      ensures errors > old(errors) ==> NoCommand(env, v)
    {
      c := None;
      UnlessDecrease(env, v);
      if !(v.payload.Fields? && v.payload.record.DecreaseFields?) {
        Error("E_BAD_NODE", at);
        return;
      }
      var f := v.payload.record;
      var device := Capable(f.device, CapabilityKind.Brightness, at);
      if device.Some? {
        c := Some(DecreaseBrightness(device.value, f.amount));
      }
    }

    method IncreaseCommand(v: Value, at: string) returns (c: Option<Command>)
      requires Counted() && v.Node? && v.verb == IncreaseBy
      modifies this`diags, this`errors
      ensures Counted() && old(diags) <= diags && errors >= old(errors)
      ensures errors == old(errors) ==> c.Some? && CommandMeans(env, v, c.value) && CommandRefs(c.value) == {}
      ensures errors > old(errors) ==> NoCommand(env, v)
    {
      c := None;
      UnlessIncrease(env, v);
      if !(v.payload.Fields? && v.payload.record.IncreaseFields?) {
        Error("E_BAD_NODE", at);
        return;
      }
      var f := v.payload.record;
      var device := Capable(f.device, CapabilityKind.Brightness, at);
      if device.Some? {
        c := Some(IncreaseBrightness(device.value, f.amount));
      }
    }

    method ColorCommand(v: Value, at: string) returns (c: Option<Command>)
      requires Counted() && v.Node? && v.verb == SetColorTo
      modifies this`diags, this`errors
      ensures Counted() && old(diags) <= diags && errors >= old(errors)
      ensures errors == old(errors) ==> c.Some? && CommandMeans(env, v, c.value) && CommandRefs(c.value) == {}
      ensures errors > old(errors) ==> NoCommand(env, v)
    {
      c := None;
      UnlessColor(env, v);
      if !(v.payload.Fields? && v.payload.record.SetColorFields?) {
        Error("E_BAD_NODE", at);
        return;
      }
      var f := v.payload.record;
      var device := Capable(f.device, CapabilityKind.Color, at);
      if device.Some? {
        var color := ParseColor(f.color, at);
        if color.Some? {
          var ok, transition := Transition(f.transition, at);
          if ok {
            c := Some(SetColor(device.value, color.value.0, color.value.1, color.value.2, transition));
          }
        }
      }
    }

    method TemperatureCommand(v: Value, at: string) returns (c: Option<Command>)
      requires Counted() && v.Node? && v.verb == SetTemperatureTo
      modifies this`diags, this`errors
      ensures Counted() && old(diags) <= diags && errors >= old(errors)
      ensures errors == old(errors) ==> c.Some? && CommandMeans(env, v, c.value) && CommandRefs(c.value) == {}
      ensures errors > old(errors) ==> NoCommand(env, v)
    {
      c := None;
      UnlessTemperature(env, v);
      if !(v.payload.Fields? && v.payload.record.SetTemperatureFields?) {
        Error("E_BAD_NODE", at);
        return;
      }
      var f := v.payload.record;
      var device := Capable(f.device, CapabilityKind.ColorTemperature, at);
      if device.Some? {
        var mireds := ParseTemperature(f.kelvin, f.mireds, at);
        if mireds.Some? {
          var ok, transition := Transition(f.transition, at);
          if ok {
            c := Some(SetColorTemperature(device.value, mireds.value, transition));
          }
        }
      }
    }

    method IrCommand(v: Value, at: string) returns (c: Option<Command>)
      requires Counted() && v.Node? && v.verb == SendIrTo
      modifies this`diags, this`errors
      ensures Counted() && old(diags) <= diags && errors >= old(errors)
      ensures errors == old(errors) ==> c.Some? && CommandMeans(env, v, c.value) && CommandRefs(c.value) == {}
      ensures errors > old(errors) ==> NoCommand(env, v)
    {
      c := None;
      UnlessIr(env, v);
      if !(v.payload.Fields? && v.payload.record.SendIrFields?) {
        Error("E_BAD_NODE", at);
        return;
      }
      var f := v.payload.record;
      var device := Capable(f.device, CapabilityKind.IrTransmitter, at);
      if device.Some? {
        c := Some(SendIrCode(device.value, f.code));
      }
    }

    method ActivateCommand(v: Value, at: string) returns (c: Option<Command>)
      requires Counted() && v.Node? && v.verb == Activate
      modifies this
      ensures Counted() && old(diags) <= diags && errors >= old(errors)
      ensures errors == old(errors) ==>
        c.Some? && CommandMeans(env, v, c.value) && refs == old(refs) + CommandRefs(c.value)
      ensures errors > old(errors) ==> NoCommand(env, v)
    {
      c := None;
      UnlessActivate(env, v);
      if !v.payload.Name? {
        Error("E_BAD_NODE", at);
        return;
      }
      if v.payload.text in env.sceneIndex {
        var scene := env.sceneIndex[v.payload.text];
        refs := refs + {Activates(scene)};
        c := Some(ActivateScene(scene));
      } else {
        Error("E_UNKNOWN_SCENE", at);
      }
    }

    method ScheduleCommand(v: Value, at: string) returns (c: Option<Command>)
      requires Counted() && v.Node? && v.verb == ScheduleIt
      modifies this
      ensures Counted() && old(diags) <= diags && errors >= old(errors)
      ensures errors == old(errors) ==>
        c.Some? && CommandMeans(env, v, c.value) && refs == old(refs) + CommandRefs(c.value)
      ensures errors > old(errors) ==> NoCommand(env, v)
    {
      c := None;
      UnlessScheduled(env, v);
      if !(v.payload.Fields? && v.payload.record.ScheduleFields?) {
        Error("E_BAD_NODE", at);
        return;
      }
      var f := v.payload.record;
      refs := refs + {Schedules(f.key)};
      var after := ParseDuration(f.after, at);
      if after.Some? {
        c := Some(ScheduleTimer(f.key, after.value));
      }
    }

    method CancelCommand(v: Value, at: string) returns (c: Option<Command>)
      requires Counted() && v.Node? && v.verb == CancelIt
      modifies this
      ensures Counted() && old(diags) <= diags && errors >= old(errors)
      ensures errors == old(errors) ==>
        c.Some? && CommandMeans(env, v, c.value) && refs == old(refs) + CommandRefs(c.value)
      ensures errors > old(errors) ==> NoCommand(env, v)
    {
      c := None;
      if !v.payload.Name? {
        Error("E_BAD_NODE", at);
        return;
      }
      refs := refs + {Mentions(v.payload.text)};
      c := Some(CancelTimer(v.payload.text));
    }

    /** A command list: what fails is reported and left out, so with no error nothing is. */
    method Commands(raws: seq<Value>, at: string) returns (commands: seq<Command>)
      requires Counted()
      modifies this
      ensures Counted() && old(diags) <= diags && errors >= old(errors)
      ensures errors == old(errors) ==> Lowered(env, raws, commands, old(refs), refs)
      ensures errors > old(errors) ==> SomeNoCommand(env, raws)
    {
      commands := [];
      RefsNothing(refs);
      for i := 0 to |raws|
        invariant Counted() && old(diags) <= diags && errors >= old(errors)
        invariant errors == old(errors) ==> Lowered(env, raws[..i], commands, old(refs), refs)
        invariant errors > old(errors) ==> SomeNoCommand(env, raws[..i])
      {
        ghost var done, before, mid := raws[..i], commands, refs;
        var c := Command(raws[i], at);
        if c.Some? {
          commands := commands + [c.value];
        }
        assert raws[..i + 1] == done + [raws[i]];
        CommandFailureStays(env, done, raws[i]);
        if errors == old(errors) {
          LoweredGrows(env, done, raws[i], before, c.value, old(refs), mid, refs);
        }
      }
      assert raws[..|raws|] == raws;
    }
  }
}
