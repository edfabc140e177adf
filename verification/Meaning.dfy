/** What a configuration says, told by the events alone: raw nodes read over the log of
    events, without compiled form, store or evaluator. Compiling (`src/compile/lower.rs`)
    and evaluating (`src/rule.rs`) preserve it. */
module Meaning {
  import opened Model
  import opened StateStore
  import opened Rules
  import opened Kleene
  import opened RawConfig
  import opened Readings
  import opened EngineSpec

  // --- names -------------------------------------------------------------------------------

  /** The name a capability goes by in a configuration. */
  function NameOf(kind: CapabilityKind): string {
    match kind
    case Switch => "switch"
    case Brightness => "brightness"
    case Color => "color"
    case ColorTemperature => "color_temperature"
    case Occupancy => "occupancy"
    case Battery => "battery"
    case Temperature => "temperature"
    case Humidity => "humidity"
    case Illuminance => "illuminance"
    case Power => "power"
    case Contact => "contact"
    case WaterLeak => "water_leak"
    case Smoke => "smoke"
    case IrTransmitter => "ir_transmitter"
    case TimeOfDay => "time_of_day"
    case SunUp => "sun_up"
  }

  lemma NameFound(kind: CapabilityKind)
    ensures FromName(NameOf(kind)) == Some(kind)
  {
  }

  lemma NameFaithful(text: string, kind: CapabilityKind)
    requires FromName(text) == Some(kind)
    ensures text == NameOf(kind)
  {
  }

  /** Names and capabilities correspond one to one; the clock's own cannot be named. */
  lemma NamesRoundTrip(kind: CapabilityKind, text: string)
    ensures FromName(text) == Some(kind) <==> text == NameOf(kind)
    ensures ParseCapability(text) == Some(kind) <==> text == NameOf(kind) && !kind.TimeOfDay? && !kind.SunUp?
  {
    var named := NameOf(kind);
    NameFound(kind);
    if FromName(text) == Some(kind) {
      NameFaithful(text, kind);
    }
  }

  /** The text is this name, a dot, and the rest. */
  predicate Dotted(text: string, name: string, rest: string) {
    text == name + "." + rest && '.' !in name
  }

  lemma {:induction false} SplitsAtFirstDot(text: string, name: string, rest: string)
    ensures SplitDot(text) == Some((name, rest)) <==> Dotted(text, name, rest)
  {
    if text != "" && text[0] != '.' {
      if name != "" {
        SplitsAtFirstDot(text[1..], name[1..], rest);
        assert text == [text[0]] + text[1..] && name == [name[0]] + name[1..];
        assert [name[0]] + name[1..] + "." + rest == [name[0]] + (name[1..] + "." + rest);
        assert '.' in name <==> name[0] == '.' || '.' in name[1..];
      } else {
        assert (name + "." + rest)[0] == '.';
      }
    } else if text != "" {
      assert name != "" ==> (name + "." + rest)[0] == name[0];
      assert name == "" ==> (name + "." + rest)[1..] == rest;
      assert text == "." + text[1..];
    }
  }

  /** The action of the first event of that name. */
  predicate FirstNamed(events: seq<(string, ActionId)>, name: string, action: ActionId) {
    exists i :: 0 <= i < |events| && events[i] == (name, action) && forall j :: 0 <= j < i ==> events[j].0 != name
  }

  lemma {:induction false} FindsFirst(events: seq<(string, ActionId)>, name: string, action: ActionId)
    ensures FindEvent(events, name) == Some(action) <==> FirstNamed(events, name, action)
  {
    if events != [] {
      var rest := events[1..];
      FindsFirst(rest, name, action);
      if events[0].0 == name {
        assert events[0] == (name, events[0].1);
        assert FirstNamed(events, name, events[0].1);
      } else {
        if i :| 0 <= i < |rest| && rest[i] == (name, action) && forall j :: 0 <= j < i ==> rest[j].0 != name {
          forall j | 0 <= j < i + 1 ensures events[j].0 != name {
            assert j > 0 ==> rest[j - 1] == events[j];
          }
          assert events[i + 1] == (name, action);
        }
        if i :| 0 <= i < |events| && events[i] == (name, action) && forall j :: 0 <= j < i ==> events[j].0 != name {
          assert rest[i - 1] == (name, action);
          forall j | 0 <= j < i - 1 ensures rest[j].0 != name {
            assert rest[j] == events[j + 1];
          }
        }
      }
    }
  }

  // --- conditions ----------------------------------------------------------------------------

  /** This is the newest report of its capability by that device. */
  predicate LastWas(log: seq<Event>, device: DeviceId, state: CapabilityState) {
    LastReport(log, device, state.Kind()) == Some(state)
  }

  predicate Reported(log: seq<Event>, device: DeviceId, kind: CapabilityKind) {
    LastReport(log, device, kind).Some?
  }

  /** The integer relation an operator text stands for. */
  predicate Related(op: string, n: int, bound: int) {
    || (op == "<" && n < bound) || (op == "<=" && n <= bound) || (op == ">" && n > bound)
    || (op == ">=" && n >= bound) || (op == "==" && n == bound) || (op == "!=" && n != bound)
  }

  /** The newest report of the device called `name`, of the capability called `capability`,
      is this number. */
  ghost predicate LastNumber(env: Env, log: seq<Event>, name: string, capability: string, n: int) {
    name in env.deviceIndex && exists kind ::
      NameOf(kind) == capability && InRange(kind, n) && LastWas(log, env.deviceIndex[name], NumberReading(kind, n))
  }

  /** The minute the clock last reported stands in that relation to the time in the text. */
  ghost predicate MinuteHolds(env: Env, text: string, op: string, log: seq<Event>) {
    env.scalars.time(text).Some? && exists n :: LastMinute(env, log, n) && Related(op, n, env.scalars.time(text).value)
  }

  ghost predicate LastMinute(env: Env, log: seq<Event>, n: int) {
    0 <= n < 0x1_0000 && LastWas(log, env.Clock(), CapabilityState.TimeOfDay(n))
  }

  /** A condition node, read over the log. */
  ghost predicate NodeHolds(env: Env, v: Value, log: seq<Event>)
    decreases v
  {
    v.Node?
    && if v.verb.Negate? then !NodeHolds(env, v.payload, log)
       else if v.verb.All? then v.payload.Items? && forall item <- v.payload.items :: NodeHolds(env, item, log)
       else if v.verb.Any? then v.payload.Items? && exists item <- v.payload.items :: NodeHolds(env, item, log)
       else LeafHolds(env, v.verb, v.payload, log)
  }

  ghost predicate LeafHolds(env: Env, verb: Verb, payload: Value, log: seq<Event>) {
    if verb.IsSunUp? then payload.Flag? && LastWas(log, env.Clock(), CapabilityState.SunUp(payload.on))
    else if verb.TimeAfter? then payload.Name? && MinuteHolds(env, payload.text, ">=", log)
    else if verb.TimeBefore? then payload.Name? && MinuteHolds(env, payload.text, "<", log)
    else payload.Fields? && RecordHolds(env, verb, payload.record, log)
  }

  ghost predicate RecordHolds(env: Env, verb: Verb, record: Record, log: seq<Event>) {
    if verb.IsSwitch? then record.SwitchFields? && LastNamed(env, record.device, CapabilityState.Switch(record.on), log)
    else if verb.IsOccupancy? then
      record.OccupancyFields? && LastNamed(env, record.device, CapabilityState.Occupancy(record.occupied), log)
    else if verb.IsCompare? then record.CompareFields? && Compares(env, record, log)
    else verb.IsColor? && record.ColorFields? && Shows(env, record, log)
  }

  predicate LastNamed(env: Env, name: string, state: CapabilityState, log: seq<Event>) {
    name in env.deviceIndex && LastWas(log, env.deviceIndex[name], state)
  }

  ghost predicate Compares(env: Env, record: Record, log: seq<Event>)
    requires record.CompareFields?
  {
    exists n :: LastNumber(env, log, record.device, record.capability, n) && Related(record.op, n, record.bound)
  }

  predicate Shows(env: Env, record: Record, log: seq<Event>)
    requires record.ColorFields?
  {
    var rgb := env.scalars.color(record.color);
    rgb.Some?
    && LastNamed(env, record.device, CapabilityState.Color(rgb.value.0, rgb.value.1, rgb.value.2), log)
  }

  /** Everything the node asks about has been reported. */
  ghost predicate NodeReported(env: Env, v: Value, log: seq<Event>)
    decreases v
  {
    v.Node?
    && if v.verb.Negate? then NodeReported(env, v.payload, log)
       else if v.verb.All? || v.verb.Any? then
         v.payload.Items? && forall item <- v.payload.items :: NodeReported(env, item, log)
       else LeafReported(env, v.verb, v.payload, log)
  }

  ghost predicate LeafReported(env: Env, verb: Verb, payload: Value, log: seq<Event>) {
    if verb.IsSunUp? then Reported(log, env.Clock(), CapabilityKind.SunUp)
    else if verb.TimeAfter? || verb.TimeBefore? then Reported(log, env.Clock(), CapabilityKind.TimeOfDay)
    else payload.Fields? && RecordReported(env, payload.record, log)
  }

  ghost predicate RecordReported(env: Env, record: Record, log: seq<Event>) {
    if record.SwitchFields? then NamedReported(env, record.device, "switch", log)
    else if record.OccupancyFields? then NamedReported(env, record.device, "occupancy", log)
    else if record.CompareFields? then NamedReported(env, record.device, record.capability, log)
    else record.ColorFields? && NamedReported(env, record.device, "color", log)
  }

  ghost predicate NamedReported(env: Env, name: string, capability: string, log: seq<Event>) {
    name in env.deviceIndex && exists kind :: NameOf(kind) == capability && Reported(log, env.deviceIndex[name], kind)
  }

  lemma BoolLeaf(log: seq<Event>, device: DeviceId, kind: CapabilityKind, value: bool)
    requires kind.IsBool()
    ensures BoolValue(Replay(log), device, kind) == Some(value) <==> LastWas(log, device, BoolReading(kind, value))
    ensures BoolValue(Replay(log), device, kind).Some? <==> Reported(log, device, kind)
  {
    ReplayIsLastReport(log);
    ReadingKinds(kind, value, 0);
    var last := Get(Replay(log), device, kind);
    if last.Some? {
      assert last.value.Kind() == kind;
      BoolViewInverts(last.value, value);
    }
  }

  lemma NumberLeaf(log: seq<Event>, device: DeviceId, kind: CapabilityKind, n: int)
    requires kind.IsNumeric()
    ensures NumberValue(Replay(log), device, kind) == Some(n) <==>
      InRange(kind, n) && LastWas(log, device, NumberReading(kind, n))
    ensures NumberValue(Replay(log), device, kind).Some? <==> Reported(log, device, kind)
  {
    ReplayIsLastReport(log);
    ReadingKinds(kind, true, n);
    var last := Get(Replay(log), device, kind);
    if last.Some? {
      assert last.value.Kind() == kind;
      NumberViewInverts(last.value, n);
    }
  }

  lemma OperatorMeans(op: string, test: CmpOp, n: int, bound: int)
    requires ParseOp(op) == Some(test)
    ensures test.Test(n, bound) <==> Related(op, n, bound)
  {
  }

  lemma BoolNode(env: Env, v: Value, log: seq<Event>, device: DeviceId, kind: CapabilityKind, value: bool)
    requires BoolMeans(env, v, device, kind, value)
    ensures Holds(BoolEquals(device, kind, value), Replay(log)) <==> NodeHolds(env, v, log)
    ensures NodeReported(env, v, log) ==> BoolValue(Replay(log), device, kind).Some?
  {
    BoolLeaf(log, device, kind, value);
    NamesRoundTrip(kind, NameOf(kind));
    if kind.Switch? || kind.Occupancy? {
      NamedOnly(env, v.payload.record.device, kind, log);
    }
  }

  /** A name stands for one capability. */
  lemma NamedOnly(env: Env, name: string, kind: CapabilityKind, log: seq<Event>)
    requires name in env.deviceIndex
    ensures NamedReported(env, name, NameOf(kind), log) ==> Reported(log, env.deviceIndex[name], kind)
  {
    if k :| NameOf(k) == NameOf(kind) && Reported(log, env.deviceIndex[name], k) {
      NamesRoundTrip(kind, NameOf(kind));
      NamesRoundTrip(k, NameOf(kind));
    }
  }

  lemma CompareNode(env: Env, v: Value, log: seq<Event>, device: DeviceId, kind: CapabilityKind, op: CmpOp, bound: int)
    requires IsRecord(v, IsCompare) && CompareMeans(env, v, device, kind, op, bound)
    ensures Holds(Compare(device, kind, op, bound), Replay(log)) <==> NodeHolds(env, v, log)
    ensures NodeReported(env, v, log) ==> NumberValue(Replay(log), device, kind).Some?
  {
    var record := v.payload.record;
    NamesRoundTrip(kind, record.capability);
    NamedOnly(env, record.device, kind, log);
    NumberLeaf(log, device, kind, 0);
    var actual := NumberValue(Replay(log), device, kind);
    forall n ensures LastNumber(env, log, record.device, record.capability, n) <==> actual == Some(n) {
      LastNumberIs(env, log, record.device, kind, n);
    }
    if actual.Some? {
      OperatorMeans(record.op, op, actual.value, bound);
    }
  }

  lemma LastNumberIs(env: Env, log: seq<Event>, name: string, kind: CapabilityKind, n: int)
    requires name in env.deviceIndex && kind.IsNumeric()
    ensures LastNumber(env, log, name, NameOf(kind), n) <==>
      NumberValue(Replay(log), env.deviceIndex[name], kind) == Some(n)
  {
    NumberLeaf(log, env.deviceIndex[name], kind, n);
    NamesRoundTrip(kind, NameOf(kind));
    if k :| NameOf(k) == NameOf(kind) && InRange(k, n) && LastWas(log, env.deviceIndex[name], NumberReading(k, n)) {
      NamesRoundTrip(k, NameOf(kind));
    }
  }

  lemma MinuteNode(env: Env, v: Value, log: seq<Event>, device: DeviceId, kind: CapabilityKind, op: CmpOp, bound: int)
    requires !IsRecord(v, IsCompare) && CompareMeans(env, v, device, kind, op, bound)
    ensures Holds(Compare(device, kind, op, bound), Replay(log)) <==> NodeHolds(env, v, log)
    ensures NodeReported(env, v, log) ==> NumberValue(Replay(log), device, kind).Some?
  {
    NumberLeaf(log, device, kind, 0);
    var actual := NumberValue(Replay(log), device, kind);
    forall n ensures LastMinute(env, log, n) <==> actual == Some(n) {
      NumberLeaf(log, device, kind, n);
    }
  }

  lemma ColorNode(env: Env, v: Value, log: seq<Event>, device: DeviceId, r: U8, g: U8, b: U8)
    requires ColorMeans(env, v, device, r, g, b)
    ensures Holds(ColorEquals(device, r, g, b), Replay(log)) <==> NodeHolds(env, v, log)
    ensures NodeReported(env, v, log) ==> Grounded(ColorEquals(device, r, g, b), Replay(log))
  {
    ReplayIsLastReport(log);
    NamedOnly(env, v.payload.record.device, CapabilityKind.Color, log);
    var last := Get(Replay(log), device, CapabilityKind.Color);
    assert last.Some? ==> last.value.Kind() == CapabilityKind.Color;
  }

  lemma {:induction false} CompiledHolds(env: Env, v: Value, c: Condition, log: seq<Event>)
    requires ConditionMeans(env, v, c)
    ensures Holds(c, Replay(log)) <==> NodeHolds(env, v, log)
    ensures NodeReported(env, v, log) ==> Grounded(c, Replay(log))
    decreases c
  {
    match c
    case Not(inner) => CompiledHolds(env, v.payload, inner, log);
    case And(parts) => CompiledParts(env, v.payload.items, parts, log, c);
    case Or(parts) => CompiledParts(env, v.payload.items, parts, log, c);
    case BoolEquals(device, kind, value) => BoolNode(env, v, log, device, kind, value);
    case Compare(device, kind, op, bound) =>
      if IsRecord(v, IsCompare) {
        CompareNode(env, v, log, device, kind, op, bound);
      } else {
        MinuteNode(env, v, log, device, kind, op, bound);
      }
    case ColorEquals(device, r, g, b) => ColorNode(env, v, log, device, r, g, b);
  }

  lemma {:induction false} CompiledParts(env: Env, items: seq<Value>, parts: seq<Condition>, log: seq<Event>,
      whole: Condition)
    requires PartsMean(env, items, parts) && (whole == Condition.And(parts) || whole == Condition.Or(parts))
    ensures (forall p <- parts :: Holds(p, Replay(log))) <==> (forall item <- items :: NodeHolds(env, item, log))
    ensures (exists p <- parts :: Holds(p, Replay(log))) <==> (exists item <- items :: NodeHolds(env, item, log))
    ensures (forall item <- items :: NodeReported(env, item, log)) ==> forall p <- parts :: Grounded(p, Replay(log))
    decreases whole, 0
  {
    forall i | 0 <= i < |parts|
      ensures parts[i] in parts && items[i] in items
      ensures Holds(parts[i], Replay(log)) <==> NodeHolds(env, items[i], log)
      ensures NodeReported(env, items[i], log) ==> Grounded(parts[i], Replay(log))
    {
      CompiledHolds(env, items[i], parts[i], log);
    }
  }

  /** Compiling and evaluating preserve what a condition says: once everything it asks about
      has been reported the evaluator answers what the node says of the log, and never
      `Unknown`. */
  lemma ConditionPreserved(env: Env, v: Value, c: Condition, log: seq<Event>)
    requires ConditionMeans(env, v, c) && NodeReported(env, v, log)
    ensures c.Eval(Replay(log)) == if NodeHolds(env, v, log) then True else False
  {
    CompiledHolds(env, v, c, log);
    GroundedIsClassical(c, Replay(log));
  }

  lemma {:induction false} LastReportAppends(before: seq<Event>, log: seq<Event>, device: DeviceId,
      kind: CapabilityKind)
    ensures LastReport(before + log, device, kind) ==
      if LastReport(log, device, kind).Some? then LastReport(log, device, kind) else LastReport(before, device, kind)
    decreases |log|
  {
    if log == [] {
      assert before + log == before;
    } else {
      var all := before + log;
      assert all[..|all| - 1] == before + log[..|log| - 1];
      LastReportAppends(before, log[..|log| - 1], device, kind);
    }
  }

  lemma EarlierReportsExtend(before: seq<Event>, log: seq<Event>)
    ensures Extends(Replay(log), Replay(before + log))
  {
    ReplayIsLastReport(log);
    ReplayIsLastReport(before + log);
    forall key <- Replay(log).Keys
      ensures key in Replay(before + log) && Replay(before + log)[key] == Replay(log)[key]
    {
      LastReportAppends(before, log, key.0, key.1);
      assert Get(Replay(log), key.0, key.1) == LastReport(log, key.0, key.1);
      assert Get(Replay(before + log), key.0, key.1) == LastReport(before + log, key.0, key.1);
    }
  }

  /** With reports missing, a definite verdict is what the node says under whatever the
      missing capabilities may have been. */
  lemma PartialVerdictPreserved(env: Env, v: Value, c: Condition, before: seq<Event>, log: seq<Event>)
    requires ConditionMeans(env, v, c) && NodeReported(env, v, before + log)
    ensures c.Eval(Replay(log)) == True ==> NodeHolds(env, v, before + log)
    ensures c.Eval(Replay(log)) == False ==> !NodeHolds(env, v, before + log)
  {
    EarlierReportsExtend(before, log);
    CompiledHolds(env, v, c, before + log);
    KleeneSound(c, Replay(log), Replay(before + log));
  }

  // --- triggers --------------------------------------------------------------------------------

  /** A number on the side of the threshold the record asks for. */
  predicate Passes(record: Record, n: int)
    requires record.CrossesFields?
  {
    if record.above.Some? then n >= record.above.value else record.below.Some? && n <= record.below.value
  }

  /** A trigger node, read over the log before the event and the event. */
  ghost predicate NodeAnswers(env: Env, v: Value, log: seq<Event>, event: Event) {
    v.Node?
    && if v.payload.Name? then NameAnswers(env, v.verb, v.payload.text, event)
       else v.payload.Fields? && event.StateReported? && RecordAnswers(env, v.verb, v.payload.record, log, event)
  }

  ghost predicate NameAnswers(env: Env, verb: Verb, text: string, event: Event) {
    if verb.WhenEvent? then event.Action? && Announces(env, text, event.device, event.action)
    else if verb.WhenTimer? then event == TimerElapsed(text)
    else if verb.WhenSchedule? then
      text in env.scheduleIndex && event == TimeReached(env.scheduleIndex[text])
    else
      verb.WhenCommandFailed? && event.CommandFailed?
      && (text == "*" || (event.command.TargetsDevice() && env.Names(text, event.command.device)))
  }

  /** `device.event`, up to the first dot, names this action of this device. */
  ghost predicate Announces(env: Env, text: string, device: DeviceId, action: ActionId) {
    device < |env.devices| && exists name, rest ::
      Dotted(text, name, rest) && env.Names(name, device) && FirstNamed(env.devices[device].events, rest, action)
  }

  ghost predicate RecordAnswers(env: Env, verb: Verb, record: Record, log: seq<Event>, event: Event)
    requires event.StateReported?
  {
    if verb.WhenChanged? then
      record.ChangedFields? && env.Names(record.device, event.device)
      && TurnsTo(log, event, record.capability, record.value)
    else if verb.WhenCrosses? then
      record.CrossesFields? && env.Names(record.device, event.device)
      && StepsOver(log, event, record.capability, record)
    else
      verb.WhenReports? && record.ReportsFields? && env.Names(record.device, event.device)
      && NameOf(event.state.Kind()) == record.capability
  }

  /** The report says `value`, and the one before it did not. */
  ghost predicate TurnsTo(log: seq<Event>, event: Event, capability: string, value: bool)
    requires event.StateReported?
  {
    exists kind: CapabilityKind :: NameOf(kind) == capability && kind.IsBool()
      && event.state == BoolReading(kind, value) && !LastWas(log, event.device, BoolReading(kind, value))
  }

  /** The report passes the threshold, and the one before it, if any, did not. */
  ghost predicate StepsOver(log: seq<Event>, event: Event, capability: string, record: Record)
    requires event.StateReported? && record.CrossesFields?
  {
    exists kind, n :: NameOf(kind) == capability && InRange(kind, n)
      && event.state == NumberReading(kind, n) && Passes(record, n) && !PassedBefore(log, event.device, kind, record)
  }

  ghost predicate PassedBefore(log: seq<Event>, device: DeviceId, kind: CapabilityKind, record: Record)
    requires record.CrossesFields?
  {
    exists m :: InRange(kind, m) && LastWas(log, device, NumberReading(kind, m)) && Passes(record, m)
  }

  /** The value a report replaces. */
  function Before(log: seq<Event>, event: Event): Option<CapabilityState> {
    if event.StateReported? then LastReport(log, event.device, event.state.Kind()) else None
  }

  lemma ChangedNode(env: Env, v: Value, t: Trigger, log: seq<Event>, event: Event)
    requires t.Changed? && TriggerMeans(env, v, t) && event.StateReported?
    ensures t.Matches(event, Before(log, event)) <==> NodeAnswers(env, v, log, event)
  {
    NamesRoundTrip(t.kind, v.payload.record.capability);
    NamesRoundTrip(event.state.Kind(), v.payload.record.capability);
    ReadingKinds(t.kind, t.value, 0);
    BoolViewInverts(event.state, t.value);
    BoolLeaf(log, event.device, t.kind, t.value);
    ReplayIsLastReport(log);
    forall kind: CapabilityKind | NameOf(kind) == v.payload.record.capability ensures kind == t.kind {
      NamesRoundTrip(kind, v.payload.record.capability);
    }
  }

  lemma CrossesNode(env: Env, v: Value, t: Trigger, log: seq<Event>, event: Event)
    requires t.Crosses? && TriggerMeans(env, v, t) && event.StateReported?
    ensures t.Matches(event, Before(log, event)) <==> NodeAnswers(env, v, log, event)
  {
    var record := v.payload.record;
    NamesRoundTrip(t.kind, record.capability);
    ReplayIsLastReport(log);
    forall n ensures t.Beyond(n) <==> Passes(record, n) {
    }
    forall kind: CapabilityKind | NameOf(kind) == record.capability ensures kind == t.kind {
      NamesRoundTrip(kind, record.capability);
    }
    if event.state.Kind() == t.kind {
      var before := NumberView(Before(log, event));
      forall n ensures event.state.AsNumber() == Some(n) <==>
        InRange(t.kind, n) && event.state == NumberReading(t.kind, n)
      {
        NumberViewInverts(event.state, n);
      }
      forall m ensures before == Some(m) <==> InRange(t.kind, m) && LastWas(log, event.device, NumberReading(t.kind, m))
      {
        NumberLeaf(log, event.device, t.kind, m);
      }
    } else {
      forall n | InRange(t.kind, n) ensures event.state != NumberReading(t.kind, n) {
        ReadingKinds(t.kind, true, n);
      }
    }
  }

  lemma EventNode(env: Env, v: Value, t: Trigger, log: seq<Event>, event: Event)
    requires t.OnAction? && TriggerMeans(env, v, t)
    ensures t.Matches(event, Before(log, event)) <==> NodeAnswers(env, v, log, event)
  {
    var split := SplitDot(v.payload.text).value;
    SplitsAtFirstDot(v.payload.text, split.0, split.1);
    FindsFirst(env.devices[t.device].events, split.1, t.action);
    forall name, rest | Dotted(v.payload.text, name, rest) ensures name == split.0 && rest == split.1 {
      SplitsAtFirstDot(v.payload.text, name, rest);
    }
    if event.Action? && event.device == t.device {
      FindsFirst(env.devices[t.device].events, split.1, event.action);
    }
  }

  /** Compiling and matching preserve what a trigger says. */
  lemma TriggerPreserved(env: Env, v: Value, t: Trigger, log: seq<Event>, event: Event)
    requires TriggerMeans(env, v, t)
    ensures t.Matches(event, Before(log, event)) <==> NodeAnswers(env, v, log, event)
  {
    match t
    case OnAction(_, _) => EventNode(env, v, t, log, event);
    case Changed(_, _, _) => if event.StateReported? { ChangedNode(env, v, t, log, event); }
    case Crosses(_, _, _, _) => if event.StateReported? { CrossesNode(env, v, t, log, event); }
    case Reports(_, kind) =>
      NamesRoundTrip(kind, v.payload.record.capability);
      if event.StateReported? { NamesRoundTrip(event.state.Kind(), v.payload.record.capability); }
    case _ =>
  }

  // --- commands --------------------------------------------------------------------------------

  /** The command goes to the device of that name. */
  predicate GoesTo(env: Env, name: string, c: Command) {
    name in env.deviceIndex && c.Target() == Some(env.deviceIndex[name])
  }

  predicate Fades(env: Env, text: Option<string>, transition: Option<Millis>) {
    if text.None? then transition.None? else transition.Some? && env.scalars.duration(text.value) == transition
  }

  /** The brightness nearest to a wanted one that a device can be asked for. */
  function NearestPercent(wanted: int): (percent: U8)
    ensures 0 <= wanted <= 100 ==> percent == wanted
    ensures wanted < 0 ==> percent == 0
    ensures wanted > 100 ==> percent == 100
  {
    if wanted < 0 then 0 else if wanted > 100 then 100 else wanted
  }

  /** A step from the last reported brightness, or the step itself if none was reported. */
  predicate StepsUp(log: seq<Event>, c: Command, amount: U8) {
    c.TargetsDevice() &&
    match LastReport(log, c.device, CapabilityKind.Brightness)
    case Some(Brightness(level)) => c == SetBrightness(c.device, NearestPercent(level + amount), None)
    case _ => c == IncreaseBrightness(c.device, amount)
  }

  predicate StepsDown(log: seq<Event>, c: Command, amount: U8) {
    c.TargetsDevice() &&
    match LastReport(log, c.device, CapabilityKind.Brightness)
    case Some(Brightness(level)) => c == SetBrightness(c.device, NearestPercent(level - amount), None)
    case _ => c == DecreaseBrightness(c.device, amount)
  }

  /** What the adapter behind a command node is asked for, read over the log. */
  ghost predicate NodeAsks(env: Env, v: Value, log: seq<Event>, c: Command) {
    v.Node?
    && if v.payload.Name? then NameAsks(env, v.verb, v.payload.text, log, c)
       else v.payload.Fields? && RecordAsks(env, v.verb, v.payload.record, log, c)
  }

  predicate NameAsks(env: Env, verb: Verb, text: string, log: seq<Event>, c: Command) {
    if verb.TurnOn? then GoesTo(env, text, c) && c == SetSwitch(c.device, true)
    else if verb.TurnOff? then GoesTo(env, text, c) && c == SetSwitch(c.device, false)
    else if verb.ToggleIt? then GoesTo(env, text, c) && Toggles(log, c)
    else if verb.Activate? then text in env.sceneIndex && c == ActivateScene(env.sceneIndex[text])
    else verb.CancelIt? && c == CancelTimer(text)
  }

  /** The opposite of the last reported switch, or the toggle itself if none was reported. */
  predicate Toggles(log: seq<Event>, c: Command) {
    c.TargetsDevice() &&
    match LastReport(log, c.device, CapabilityKind.Switch)
    case Some(Switch(on)) => c == SetSwitch(c.device, !on)
    case _ => c == ToggleSwitch(c.device)
  }

  predicate RecordAsks(env: Env, verb: Verb, record: Record, log: seq<Event>, c: Command) {
    if verb.ScheduleIt? then
      record.ScheduleFields? && c.ScheduleTimer? && c.key == record.key
      && env.scalars.duration(record.after) == Some(c.after)
    else if verb.DecreaseBy? then
      record.DecreaseFields? && GoesTo(env, record.device, c) && StepsDown(log, c, record.amount)
    else if verb.IncreaseBy? then
      record.IncreaseFields? && GoesTo(env, record.device, c) && StepsUp(log, c, record.amount)
    else if verb.SendIrTo? then
      record.SendIrFields? && GoesTo(env, record.device, c) && c == SendIrCode(c.device, record.code)
    else LevelAsks(env, verb, record, c)
  }

  predicate LevelAsks(env: Env, verb: Verb, record: Record, c: Command) {
    if verb.SetBrightnessTo? then
      record.SetBrightnessFields? && GoesTo(env, record.device, c) && c.SetBrightness? && c.level == record.level
      && Fades(env, record.transition, c.transition)
    else if verb.SetColorTo? then
      record.SetColorFields? && GoesTo(env, record.device, c) && c.SetColor?
      && env.scalars.color(record.color) == Some((c.r, c.g, c.b)) && Fades(env, record.transition, c.transition)
    else
      verb.SetTemperatureTo? && record.SetTemperatureFields? && GoesTo(env, record.device, c) && c.SetColorTemperature?
      && WhitePoint(record.kelvin, record.mireds, c.mireds) && Fades(env, record.transition, c.transition)
  }

  /** Exactly one unit is given, in range: mireds as they are, kelvins as a million over them. */
  predicate WhitePoint(kelvin: Option<U32>, mireds: Option<U16>, result: U16) {
    if mireds.Some? then kelvin.None? && 100 <= mireds.value <= 1000 && result == mireds.value
    else
      kelvin.Some? && 1000 <= kelvin.value <= 10_000
      && result * kelvin.value <= 1_000_000 < (result + 1) * kelvin.value
  }

  lemma LastBrightness(log: seq<Event>, device: DeviceId)
    ensures NumberValue(Replay(log), device, CapabilityKind.Brightness) ==
      match LastReport(log, device, CapabilityKind.Brightness)
      case Some(Brightness(level)) => Some(level)
      case _ => None
    ensures BoolValue(Replay(log), device, CapabilityKind.Switch) ==
      match LastReport(log, device, CapabilityKind.Switch)
      case Some(Switch(on)) => Some(on)
      case _ => None
  {
    ReplayIsLastReport(log);
    var brightness := Get(Replay(log), device, CapabilityKind.Brightness);
    assert brightness.Some? ==> brightness.value.Kind() == CapabilityKind.Brightness;
    var power := Get(Replay(log), device, CapabilityKind.Switch);
    assert power.Some? ==> power.value.Kind() == CapabilityKind.Switch;
  }

  predicate Relative(c: Command) {
    c.ToggleSwitch? || c.IncreaseBrightness? || c.DecreaseBrightness?
  }

  lemma ToggleAsks(env: Env, v: Value, c: Command, log: seq<Event>)
    requires c.ToggleSwitch? && CommandMeans(env, v, c)
    ensures NodeAsks(env, v, log, ResolveImplicit(Replay(log), c))
  {
    LastBrightness(log, c.device);
  }

  lemma UpAsks(log: seq<Event>, c: Command)
    requires c.IncreaseBrightness?
    ensures StepsUp(log, ResolveImplicit(Replay(log), c), c.amount)
  {
    LastBrightness(log, c.device);
  }

  lemma DownAsks(log: seq<Event>, c: Command)
    requires c.DecreaseBrightness?
    ensures StepsDown(log, ResolveImplicit(Replay(log), c), c.amount)
  {
    LastBrightness(log, c.device);
  }

  lemma StepAsks(env: Env, v: Value, c: Command, log: seq<Event>, asked: Command)
    requires c.IncreaseBrightness? || c.DecreaseBrightness?
    requires CommandMeans(env, v, c) && asked.Target() == Some(c.device)
    requires if c.IncreaseBrightness? then StepsUp(log, asked, c.amount) else StepsDown(log, asked, c.amount)
    ensures NodeAsks(env, v, log, asked)
  {
  }

  lemma RecordNodeAsks(env: Env, v: Value, c: Command, log: seq<Event>)
    requires !Relative(c) && CommandMeans(env, v, c) && v.payload.Fields?
    ensures RecordAsks(env, v.verb, v.payload.record, log, c)
  {
    if c.SetColorTemperature? {
      KelvinInMireds(v.payload.record.kelvin, v.payload.record.mireds, c.mireds);
    }
  }

  lemma NameNodeAsks(env: Env, v: Value, c: Command, log: seq<Event>)
    requires !Relative(c) && CommandMeans(env, v, c) && v.payload.Name?
    ensures NodeAsks(env, v, log, c)
  {
  }

  lemma Resolved(store: Store, c: Command)
    ensures !Relative(c) ==> ResolveImplicit(store, c) == c
    ensures ResolveImplicit(store, c).Target() == c.Target()
  {
  }

  lemma NodePayload(env: Env, v: Value, c: Command)
    requires CommandMeans(env, v, c)
    ensures v.Node? && (v.payload.Name? || (v.payload.Fields? && RecordVerb(v.verb)))
  {
  }

  /** The verbs whose payload is a record. */
  predicate RecordVerb(verb: Verb) {
    verb.SetBrightnessTo? || verb.DecreaseBy? || verb.IncreaseBy? || verb.SetColorTo? || verb.SetTemperatureTo?
    || verb.ScheduleIt? || verb.SendIrTo?
  }

  /** Compiling and resolving against the store preserve what a command node asks for. */
  lemma CommandPreserved(env: Env, v: Value, c: Command, log: seq<Event>, asked: Command)
    requires CommandMeans(env, v, c) && asked == ResolveImplicit(Replay(log), c)
    ensures NodeAsks(env, v, log, asked)
  {
    Resolved(Replay(log), c);
    NodePayload(env, v, c);
    if c.ToggleSwitch? {
      ToggleAsks(env, v, c, log);
    } else if c.IncreaseBrightness? {
      UpAsks(log, c);
      StepAsks(env, v, c, log, asked);
    } else if c.DecreaseBrightness? {
      DownAsks(log, c);
      StepAsks(env, v, c, log, asked);
    } else if v.payload.Name? {
      NameNodeAsks(env, v, c, log);
    } else {
      RecordNodeAsks(env, v, c, log);
    }
  }

  lemma KelvinInMireds(kelvin: Option<U32>, mireds: Option<U16>, result: U16)
    requires TemperatureMeans(kelvin, mireds, result)
    ensures WhitePoint(kelvin, mireds, result)
  {
    if kelvin.Some? {
      var k: int := kelvin.value;
      assert 1_000_000 == (1_000_000 / k) * k + 1_000_000 % k;
      assert (result + 1) * k == result * k + k;
    }
  }
}
