/** The canonical vocabulary (`src/model.rs`, `src/ids.rs`): capabilities, events and
    commands, with the projections the rest of the engine reads them through. */
module Model {

  datatype Option<+T> = None | Some(value: T)

  type U8 = n: int | 0 <= n < 0x100
  type U16 = n: int | 0 <= n < 0x1_0000
  type U32 = n: int | 0 <= n < 0x1_0000_0000
  type I8 = n: int | -0x80 <= n < 0x80
  type I16 = n: int | -0x8000 <= n < 0x8000

  type DeviceId = nat
  type RuleId = nat
  type SceneId = nat
  type ScheduleId = nat
  type ActionId = nat

  /** Virtual time. Unbounded here: `now + after` never overflows. */
  type Millis = nat
  type TimerKey = string

  datatype CapabilityKind =
    | Switch | Brightness | Color | ColorTemperature | Occupancy | Battery
    | Temperature | Humidity | Illuminance | Power | Contact | WaterLeak | Smoke
    | IrTransmitter | TimeOfDay | SunUp
  {
    predicate IsNumeric() {
      Brightness? || Battery? || ColorTemperature? || TimeOfDay?
      || Temperature? || Humidity? || Illuminance? || Power?
    }

    predicate IsBool() {
      Switch? || Occupancy? || SunUp? || Contact? || WaterLeak? || Smoke?
    }
  }

  datatype CapabilityState =
    | Switch(on: bool)
    | Brightness(percent: U8)
    | Color(r: U8, g: U8, b: U8)
    | ColorTemperature(mireds: U16)
    | Occupancy(occupied: bool)
    | Battery(level: U8)
    | Temperature(centidegrees: I16)
    | Humidity(relative: U8)
    | Illuminance(lux: U32)
    | Power(watts: U32)
    | Contact(open: bool)
    | WaterLeak(leak: bool)
    | Smoke(smoke: bool)
    | TimeOfDay(minute: U16)
    | SunUp(up: bool)
  {
    function Kind(): CapabilityKind {
      match this
      case Switch(_) => CapabilityKind.Switch
      case Brightness(_) => CapabilityKind.Brightness
      case Color(_, _, _) => CapabilityKind.Color
      case ColorTemperature(_) => CapabilityKind.ColorTemperature
      case Occupancy(_) => CapabilityKind.Occupancy
      case Battery(_) => CapabilityKind.Battery
      case Temperature(_) => CapabilityKind.Temperature
      case Humidity(_) => CapabilityKind.Humidity
      case Illuminance(_) => CapabilityKind.Illuminance
      case Power(_) => CapabilityKind.Power
      case Contact(_) => CapabilityKind.Contact
      case WaterLeak(_) => CapabilityKind.WaterLeak
      case Smoke(_) => CapabilityKind.Smoke
      case TimeOfDay(_) => CapabilityKind.TimeOfDay
      case SunUp(_) => CapabilityKind.SunUp
    }

    /** The boolean view, present exactly on the boolean-shaped kinds. */
    function AsBool(): (view: Option<bool>)
      ensures view.Some? <==> Kind().IsBool()
    {
      match this
      case Switch(b) => Some(b)
      case Occupancy(b) => Some(b)
      case SunUp(b) => Some(b)
      case Contact(b) => Some(b)
      case WaterLeak(b) => Some(b)
      case Smoke(b) => Some(b)
      case _ => None
    }

    /** The numeric view, present exactly on the numeric-shaped kinds. */
    function AsNumber(): (view: Option<int>)
      ensures view.Some? <==> Kind().IsNumeric()
    {
      match this
      case Brightness(v) => Some(v)
      case Battery(v) => Some(v)
      case Humidity(v) => Some(v)
      case ColorTemperature(v) => Some(v)
      case TimeOfDay(v) => Some(v)
      case Temperature(v) => Some(v)
      case Illuminance(v) => Some(v)
      case Power(v) => Some(v)
      case _ => None
    }
  }

  /** What a northbound consumer asked for. */
  datatype Desired =
    | Set(state: CapabilityState)
    | Toggle
    | AdjustBrightness(delta: I8)
    | SendIr(code: string)
  {
    function Kind(): CapabilityKind {
      match this
      case Set(state) => state.Kind()
      case Toggle => CapabilityKind.Switch
      case AdjustBrightness(_) => CapabilityKind.Brightness
      case SendIr(_) => CapabilityKind.IrTransmitter
    }
  }

  datatype Command =
    | SetSwitch(device: DeviceId, on: bool)
    | ToggleSwitch(device: DeviceId)
    | SetBrightness(device: DeviceId, level: U8, transition: Option<Millis>)
    | DecreaseBrightness(device: DeviceId, amount: U8)
    | IncreaseBrightness(device: DeviceId, amount: U8)
    | SetColor(device: DeviceId, r: U8, g: U8, b: U8, transition: Option<Millis>)
    | SetColorTemperature(device: DeviceId, mireds: U16, transition: Option<Millis>)
    | ActivateScene(scene: SceneId)
    | ScheduleTimer(key: TimerKey, after: Millis)
    | CancelTimer(key: TimerKey)
    | SendIrCode(device: DeviceId, code: string)
  {
    /** Scene and scheduler commands are routed specially and target no device. */
    predicate TargetsDevice() {
      !ActivateScene? && !ScheduleTimer? && !CancelTimer?
    }

    function Target(): Option<DeviceId> {
      if TargetsDevice() then Some(device) else None
    }
  }

  datatype Event =
    | Action(device: DeviceId, action: ActionId)
    | StateReported(device: DeviceId, state: CapabilityState)
    | RequestedChange(device: DeviceId, desired: Desired)
    | RequestedScene(scene: SceneId)
    | TimeReached(schedule: ScheduleId)
    | TimerElapsed(key: TimerKey)
    | CommandFailed(command: Command, reason: string, attempts: nat)

  /** What a device adapter answers to one dispatch (`src/adapters/mod.rs`). */
  datatype DispatchOutcome =
    | Ok(events: seq<Event>)
    | Transient(reason: string)
    | Permanent(reason: string)
}
