/** Reports and what they read as (`src/model.rs`): the views of a state, inverted. */
module Readings {
  import opened Model

  /** The report of a boolean capability that reads as this value. */
  function BoolReading(kind: CapabilityKind, value: bool): CapabilityState
    requires kind.IsBool()
  {
    match kind
    case Switch => CapabilityState.Switch(value)
    case Occupancy => CapabilityState.Occupancy(value)
    case SunUp => CapabilityState.SunUp(value)
    case Contact => CapabilityState.Contact(value)
    case WaterLeak => CapabilityState.WaterLeak(value)
    case Smoke => CapabilityState.Smoke(value)
  }

  /** The least and greatest reading of a numeric capability. */
  function Range(kind: CapabilityKind): (int, int)
    requires kind.IsNumeric()
  {
    match kind
    case Temperature => (-0x8000, 0x7FFF)
    case ColorTemperature => (0, 0xFFFF)
    case TimeOfDay => (0, 0xFFFF)
    case Illuminance => (0, 0xFFFF_FFFF)
    case Power => (0, 0xFFFF_FFFF)
    case _ => (0, 0xFF)
  }

  predicate InRange(kind: CapabilityKind, n: int) {
    kind.IsNumeric() && Range(kind).0 <= n <= Range(kind).1
  }

  /** The report of a numeric capability that reads as this number. */
  function NumberReading(kind: CapabilityKind, n: int): CapabilityState
    requires InRange(kind, n)
  {
    match kind
    case Brightness => CapabilityState.Brightness(n)
    case Battery => CapabilityState.Battery(n)
    case ColorTemperature => CapabilityState.ColorTemperature(n)
    case TimeOfDay => CapabilityState.TimeOfDay(n)
    case Temperature => CapabilityState.Temperature(n)
    case Humidity => CapabilityState.Humidity(n)
    case Illuminance => CapabilityState.Illuminance(n)
    case Power => CapabilityState.Power(n)
  }

  /** Exactly one report of each boolean capability reads as a given value... */
  lemma BoolViewInverts(state: CapabilityState, value: bool)
    ensures state.AsBool() == Some(value) <==>
      state.Kind().IsBool() && state == BoolReading(state.Kind(), value)
  {
  }

  /** ...and exactly one of each numeric capability as a given number in its range. */
  lemma NumberViewInverts(state: CapabilityState, n: int)
    ensures state.AsNumber() == Some(n) <==>
      InRange(state.Kind(), n) && state == NumberReading(state.Kind(), n)
  {
  }

  lemma ReadingKinds(kind: CapabilityKind, value: bool, n: int)
    ensures kind.IsBool() ==> BoolReading(kind, value).Kind() == kind
    ensures InRange(kind, n) ==> NumberReading(kind, n).Kind() == kind
  {
  }
}
