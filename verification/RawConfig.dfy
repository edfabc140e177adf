/** The parsed configuration (`src/compile/ast.rs`) and what its nodes mean: a relation
    between raw single-key nodes and the triggers, conditions and commands they stand for,
    read off from the target, not from the order in which the compiler checks things. */
module RawConfig {
  import opened Model
  import opened Rules

  // --- raw nodes -------------------------------------------------------------------------

  datatype Verb =
    | WhenEvent | WhenChanged | WhenCrosses | WhenReports | WhenTimer | WhenSchedule | WhenCommandFailed
    | All | Any | Negate | IsSunUp | IsSwitch | IsOccupancy | IsCompare | IsColor | TimeAfter | TimeBefore
    | TurnOn | TurnOff | ToggleIt | SetBrightnessTo | DecreaseBy | IncreaseBy | SetColorTo
    | SetTemperatureTo | Activate | ScheduleIt | CancelIt | SendIrTo
    | Unrecognised(text: string)

  /** A raw value: a single-key node, or one of the payload shapes, or anything else.
      `Fields` is a mapping that decodes as the named record. */
  datatype Value =
    | Node(verb: Verb, payload: Value)
    | Name(text: string)
    | Flag(on: bool)
    | Items(items: seq<Value>)
    | Fields(record: Record)
    | Other

  datatype Record =
    | ChangedFields(device: string, capability: string, value: bool)
    | CrossesFields(device: string, capability: string, above: Option<int>, below: Option<int>)
    | ReportsFields(device: string, capability: string)
    | SwitchFields(device: string, on: bool)
    | OccupancyFields(device: string, occupied: bool)
    | CompareFields(device: string, capability: string, op: string, bound: int)
    | ColorFields(device: string, color: Value)
    | SetBrightnessFields(device: string, level: U8, transition: Option<string>)
    | DecreaseFields(device: string, amount: U8)
    | IncreaseFields(device: string, amount: U8)
    | SetColorFields(device: string, color: Value, transition: Option<string>)
    | SetTemperatureFields(device: string, kelvin: Option<U32>, mireds: Option<U16>, transition: Option<string>)
    | ScheduleFields(key: TimerKey, after: string)
    | SendIrFields(device: string, code: string)

  // --- the environment of a lowering phase --------------------------------------------------

  datatype DeviceDef = DeviceDef(
    name: string,
    adapter: nat,
    capabilities: seq<CapabilityKind>,
    events: seq<(string, ActionId)>)

  /** Scalar text syntax, whatever it is: durations, times of day, colours. */
  datatype Scalars = Scalars(
    duration: string -> Option<Millis>,
    time: string -> Option<U16>,
    color: Value -> Option<(U8, U8, U8)>)

  datatype Env = Env(
    devices: seq<DeviceDef>,
    deviceIndex: map<string, DeviceId>,
    sceneIndex: map<string, SceneId>,
    scheduleIndex: map<string, ScheduleId>,
    scalars: Scalars)
  {
    /** The synthetic device behind `sun_up` and the times sits just past the user's. */
    function Clock(): DeviceId { |devices| }

    ghost predicate Valid() {
      forall name <- deviceIndex.Keys :: deviceIndex[name] < |devices| && devices[deviceIndex[name]].name == name
    }

    predicate Names(name: string, device: DeviceId) {
      name in deviceIndex && deviceIndex[name] == device
    }

    /** The device declares the capability; the clock provides its own. */
    predicate Declares(device: DeviceId, kind: CapabilityKind) {
      device == Clock() || (device < |devices| && kind in devices[device].capabilities)
    }
  }

  function FromName(s: string): Option<CapabilityKind> {
    if s == "switch" then Some(CapabilityKind.Switch)
    else if s == "brightness" then Some(CapabilityKind.Brightness)
    else if s == "color" then Some(CapabilityKind.Color)
    else if s == "color_temperature" then Some(CapabilityKind.ColorTemperature)
    else if s == "occupancy" then Some(CapabilityKind.Occupancy)
    else if s == "battery" then Some(CapabilityKind.Battery)
    else if s == "temperature" then Some(CapabilityKind.Temperature)
    else if s == "humidity" then Some(CapabilityKind.Humidity)
    else if s == "illuminance" then Some(CapabilityKind.Illuminance)
    else if s == "power" then Some(CapabilityKind.Power)
    else if s == "contact" then Some(CapabilityKind.Contact)
    else if s == "water_leak" then Some(CapabilityKind.WaterLeak)
    else if s == "smoke" then Some(CapabilityKind.Smoke)
    else if s == "ir_transmitter" then Some(CapabilityKind.IrTransmitter)
    else if s == "time_of_day" then Some(CapabilityKind.TimeOfDay)
    else if s == "sun_up" then Some(CapabilityKind.SunUp)
    else None
  }

  /** The capabilities a configuration may name: the clock's own are filtered out. */
  function ParseCapability(s: string): (kind: Option<CapabilityKind>)
    ensures kind.Some? ==> kind.value != CapabilityKind.TimeOfDay && kind.value != CapabilityKind.SunUp
  {
    match FromName(s)
    case Some(TimeOfDay) => None
    case Some(SunUp) => None
    case other => other
  }

  function ParseOp(s: string): Option<CmpOp> {
    if s == "<" then Some(Lt)
    else if s == "<=" then Some(Le)
    else if s == "==" then Some(Eq)
    else if s == "!=" then Some(Ne)
    else if s == ">=" then Some(Ge)
    else if s == ">" then Some(Gt)
    else None
  }

  /** The text around the first dot. */
  function SplitDot(s: string): Option<(string, string)> {
    if s == "" then None
    else if s[0] == '.' then Some(("", s[1..]))
    else
      match SplitDot(s[1..])
      case Some((a, b)) => Some(([s[0]] + a, b))
      case None => None
  }

  function FindEvent(events: seq<(string, ActionId)>, name: string): Option<ActionId> {
    if events == [] then None
    else if events[0].0 == name then Some(events[0].1)
    else FindEvent(events[1..], name)
  }

  /** Exactly one of the two units, in range, as mireds. */
  predicate TemperatureMeans(kelvin: Option<U32>, mireds: Option<U16>, result: U16) {
    match (kelvin, mireds)
    case (Some(k), None) => 1000 <= k <= 10_000 && result == 1_000_000 / k
    case (None, Some(m)) => 100 <= m <= 1000 && result == m
    case _ => false
  }

  predicate TransitionMeans(env: Env, text: Option<string>, transition: Option<Millis>) {
    match text
    case None => transition == None
    case Some(s) => transition.Some? && env.scalars.duration(s) == transition
  }

  // --- what a node means ------------------------------------------------------------------

  predicate IsRecord(v: Value, verb: Verb) {
    v.Node? && v.verb == verb && v.payload.Fields?
  }

  predicate IsName(v: Value, verb: Verb) {
    v.Node? && v.verb == verb && v.payload.Name?
  }

  predicate EventMeans(env: Env, spec: string, device: DeviceId, action: ActionId) {
    match SplitDot(spec)
    case Some((name, event)) =>
      env.Names(name, device) && device < |env.devices| && FindEvent(env.devices[device].events, event) == Some(action)
    case None => false
  }

  predicate TriggerMeans(env: Env, v: Value, t: Trigger) {
    match t
    case OnAction(device, action) => IsName(v, WhenEvent) && EventMeans(env, v.payload.text, device, action)
    case Changed(device, kind, value) =>
      IsRecord(v, WhenChanged) && v.payload.record.ChangedFields?
      && env.Names(v.payload.record.device, device) && v.payload.record.value == value
      && ParseCapability(v.payload.record.capability) == Some(kind) && kind.IsBool() && env.Declares(device, kind)
    case Crosses(device, kind, bound, dir) =>
      IsRecord(v, WhenCrosses) && v.payload.record.CrossesFields?
      && env.Names(v.payload.record.device, device)
      && ParseCapability(v.payload.record.capability) == Some(kind) && kind.IsNumeric() && env.Declares(device, kind)
      && v.payload.record.above == (if dir.Above? then Some(bound) else None)
      && v.payload.record.below == (if dir.Below? then Some(bound) else None)
    case Reports(device, kind) =>
      IsRecord(v, WhenReports) && v.payload.record.ReportsFields?
      && env.Names(v.payload.record.device, device)
      && ParseCapability(v.payload.record.capability) == Some(kind) && env.Declares(device, kind)
    case Timer(key) => IsName(v, WhenTimer) && v.payload.text == key
    case Time(schedule) =>
      IsName(v, WhenSchedule) && v.payload.text in env.scheduleIndex && env.scheduleIndex[v.payload.text] == schedule
    case OnCommandFailed(only) =>
      IsName(v, WhenCommandFailed)
      && (match only
          case None => v.payload.text == "*"
          case Some(device) => v.payload.text != "*" && env.Names(v.payload.text, device))
  }

  predicate BoolMeans(env: Env, v: Value, device: DeviceId, kind: CapabilityKind, value: bool) {
    match kind
    case SunUp => v.Node? && v.verb == IsSunUp && device == env.Clock() && v.payload == Flag(value)
    case Switch =>
      IsRecord(v, IsSwitch) && v.payload.record.SwitchFields? && env.Names(v.payload.record.device, device)
      && env.Declares(device, kind) && v.payload.record.on == value
    case Occupancy =>
      IsRecord(v, IsOccupancy) && v.payload.record.OccupancyFields? && env.Names(v.payload.record.device, device)
      && env.Declares(device, kind) && v.payload.record.occupied == value
    case _ => false
  }

  predicate CompareMeans(env: Env, v: Value, device: DeviceId, kind: CapabilityKind, op: CmpOp, bound: int) {
    || (IsRecord(v, IsCompare) && v.payload.record.CompareFields? && env.Names(v.payload.record.device, device)
        && ParseCapability(v.payload.record.capability) == Some(kind) && kind.IsNumeric() && env.Declares(device, kind)
        && ParseOp(v.payload.record.op) == Some(op) && v.payload.record.bound == bound)
    || (IsName(v, TimeAfter) && ClockMeans(env, v.payload.text, device, kind, bound) && op == Ge)
    || (IsName(v, TimeBefore) && ClockMeans(env, v.payload.text, device, kind, bound) && op == Lt)
  }

  predicate ClockMeans(env: Env, text: string, device: DeviceId, kind: CapabilityKind, bound: int) {
    device == env.Clock() && kind == CapabilityKind.TimeOfDay
    && match env.scalars.time(text) case Some(t) => bound == t case None => false
  }

  predicate ColorMeans(env: Env, v: Value, device: DeviceId, r: U8, g: U8, b: U8) {
    IsRecord(v, IsColor) && v.payload.record.ColorFields? && env.Names(v.payload.record.device, device)
    && env.Declares(device, CapabilityKind.Color) && env.scalars.color(v.payload.record.color) == Some((r, g, b))
  }

  predicate ConditionMeans(env: Env, v: Value, c: Condition)
    decreases c
  {
    match c
    case Always => false
    case Not(inner) => v.Node? && v.verb == Negate && ConditionMeans(env, v.payload, inner)
    case And(parts) => v.Node? && v.verb == All && v.payload.Items? && PartsMean(env, v.payload.items, parts)
    case Or(parts) => v.Node? && v.verb == Any && v.payload.Items? && PartsMean(env, v.payload.items, parts)
    case BoolEquals(device, kind, value) => BoolMeans(env, v, device, kind, value)
    case Compare(device, kind, op, bound) => CompareMeans(env, v, device, kind, op, bound)
    case ColorEquals(device, r, g, b) => ColorMeans(env, v, device, r, g, b)
  }

  predicate PartsMean(env: Env, items: seq<Value>, parts: seq<Condition>)
    decreases parts
  {
    |items| == |parts| && forall i :: 0 <= i < |parts| ==> ConditionMeans(env, items[i], parts[i])
  }

  predicate CommandMeans(env: Env, v: Value, c: Command) {
    match c
    case SetSwitch(device, on) =>
      IsName(v, if on then TurnOn else TurnOff) && env.Names(v.payload.text, device)
      && env.Declares(device, CapabilityKind.Switch)
    case ToggleSwitch(device) =>
      IsName(v, ToggleIt) && env.Names(v.payload.text, device) && env.Declares(device, CapabilityKind.Switch)
    case SetBrightness(device, level, transition) =>
      IsRecord(v, SetBrightnessTo) && v.payload.record.SetBrightnessFields?
      && env.Names(v.payload.record.device, device)
      && env.Declares(device, CapabilityKind.Brightness) && v.payload.record.level == level
      && TransitionMeans(env, v.payload.record.transition, transition)
    case DecreaseBrightness(device, amount) =>
      IsRecord(v, DecreaseBy) && v.payload.record.DecreaseFields? && env.Names(v.payload.record.device, device)
      && env.Declares(device, CapabilityKind.Brightness) && v.payload.record.amount == amount
    case IncreaseBrightness(device, amount) =>
      IsRecord(v, IncreaseBy) && v.payload.record.IncreaseFields? && env.Names(v.payload.record.device, device)
      && env.Declares(device, CapabilityKind.Brightness) && v.payload.record.amount == amount
    case SetColor(device, r, g, b, transition) =>
      IsRecord(v, SetColorTo) && v.payload.record.SetColorFields? && env.Names(v.payload.record.device, device)
      && env.Declares(device, CapabilityKind.Color) && env.scalars.color(v.payload.record.color) == Some((r, g, b))
      && TransitionMeans(env, v.payload.record.transition, transition)
    case SetColorTemperature(device, mireds, transition) =>
      IsRecord(v, SetTemperatureTo) && v.payload.record.SetTemperatureFields?
      && env.Names(v.payload.record.device, device)
      && env.Declares(device, CapabilityKind.ColorTemperature)
      && TemperatureMeans(v.payload.record.kelvin, v.payload.record.mireds, mireds)
      && TransitionMeans(env, v.payload.record.transition, transition)
    case ActivateScene(scene) =>
      IsName(v, Activate) && v.payload.text in env.sceneIndex && env.sceneIndex[v.payload.text] == scene
    case ScheduleTimer(key, after) =>
      IsRecord(v, ScheduleIt) && v.payload.record.ScheduleFields? && v.payload.record.key == key
      && env.scalars.duration(v.payload.record.after) == Some(after)
    case CancelTimer(key) => IsName(v, CancelIt) && v.payload.text == key
    case SendIrCode(device, code) =>
      IsRecord(v, SendIrTo) && v.payload.record.SendIrFields? && env.Names(v.payload.record.device, device)
      && env.Declares(device, CapabilityKind.IrTransmitter) && v.payload.record.code == code
  }

  predicate CommandsMean(env: Env, raws: seq<Value>, commands: seq<Command>) {
    |raws| == |commands| && forall i :: 0 <= i < |raws| ==> CommandMeans(env, raws[i], commands[i])
  }

  // --- a node means one thing -----------------------------------------------------------------

  lemma TriggerMeaningUnique(env: Env, v: Value, t: Trigger, u: Trigger)
    requires TriggerMeans(env, v, t) && TriggerMeans(env, v, u)
    ensures t == u
  {
  }

  lemma CommandMeaningUnique(env: Env, v: Value, c: Command, d: Command)
    requires CommandMeans(env, v, c) && CommandMeans(env, v, d)
    ensures c == d
  {
  }

  lemma {:induction false} ConditionMeaningUnique(env: Env, v: Value, c: Condition, d: Condition)
    requires ConditionMeans(env, v, c) && ConditionMeans(env, v, d)
    ensures c == d
    decreases c
  {
    match c
    case Not(inner) => ConditionMeaningUnique(env, v.payload, inner, d.inner);
    case And(parts) =>
      forall i | 0 <= i < |parts| ensures parts[i] == d.parts[i] {
        ConditionMeaningUnique(env, v.payload.items[i], parts[i], d.parts[i]);
      }
    case Or(parts) =>
      forall i | 0 <= i < |parts| ensures parts[i] == d.parts[i] {
        ConditionMeaningUnique(env, v.payload.items[i], parts[i], d.parts[i]);
      }
    case _ =>
  }

  // --- what is accepted is sound at run time -----------------------------------------------------

  /** Every capability a condition reads is one its device can report, in the right shape. */
  predicate ConditionSound(env: Env, c: Condition)
    decreases c
  {
    match c
    case Always => true
    case Not(inner) => ConditionSound(env, inner)
    case And(parts) => forall i :: 0 <= i < |parts| ==> ConditionSound(env, parts[i])
    case Or(parts) => forall i :: 0 <= i < |parts| ==> ConditionSound(env, parts[i])
    case BoolEquals(device, kind, _) => kind.IsBool() && env.Declares(device, kind)
    case Compare(device, kind, _, _) => kind.IsNumeric() && env.Declares(device, kind)
    case ColorEquals(device, _, _, _) => env.Declares(device, CapabilityKind.Color)
  }

  lemma {:induction false} MeaningIsSound(env: Env, v: Value, c: Condition)
    requires ConditionMeans(env, v, c)
    ensures ConditionSound(env, c)
    decreases c
  {
    match c
    case Not(inner) => MeaningIsSound(env, v.payload, inner);
    case And(parts) =>
      forall i | 0 <= i < |parts| ensures ConditionSound(env, parts[i]) {
        MeaningIsSound(env, v.payload.items[i], parts[i]);
      }
    case Or(parts) =>
      forall i | 0 <= i < |parts| ensures ConditionSound(env, parts[i]) {
        MeaningIsSound(env, v.payload.items[i], parts[i]);
      }
    case _ =>
  }
}
