/** From a consumer's intent to the command a device gets (`command_for_requested_change`,
    `command_for_state`, `resolve_implicit_state_command` in `src/engine.rs`), judged by the
    state the command asks for and what the device's echo would make of it. */
module Intents {
  import opened Model
  import opened StateStore
  import opened EngineSpec
  import opened Meaning

  /** The capabilities a consumer can set. */
  predicate Writable(kind: CapabilityKind) {
    kind.Switch? || kind.Brightness? || kind.Color? || kind.ColorTemperature? || kind.IrTransmitter?
  }

  /** The state an absolute command asks its device for, and so the report it echoes. */
  function Sets(c: Command): Option<CapabilityState> {
    match c
    case SetSwitch(_, on) => Some(CapabilityState.Switch(on))
    case SetBrightness(_, level, _) => Some(CapabilityState.Brightness(level))
    case SetColor(_, r, g, b, _) => Some(CapabilityState.Color(r, g, b))
    case SetColorTemperature(_, mireds, _) => Some(CapabilityState.ColorTemperature(mireds))
    case _ => None
  }

  /** Without a transition. */
  predicate AtOnce(c: Command) {
    (c.SetBrightness? || c.SetColor? || c.SetColorTemperature?) ==> c.transition == None
  }

  /** Asking for a state asks the right device for exactly that state, at once; a report-only
      state asks for nothing. */
  lemma RequestedStateRoundTrips(device: DeviceId, state: CapabilityState)
    ensures var command := CommandForRequest(device, Set(state));
      if Writable(state.Kind()) then
        command.Some? && command.value.Target() == Some(device) && Sets(command.value) == Some(state)
        && AtOnce(command.value)
      else command == None
  {
  }

  /** What the device behind a request that is not for a state is asked for, read over the
      log: the opposite of its last reported switch; the percentage nearest to its last
      reported brightness plus the delta; the code. */
  predicate Intended(log: seq<Event>, device: DeviceId, desired: Desired, asked: Command) {
    asked.Target() == Some(device) &&
    match desired
    case Set(_) => false
    case Toggle => Toggles(log, asked)
    case AdjustBrightness(delta) =>
      if delta > 0 then StepsUp(log, asked, delta) else StepsDown(log, asked, 0 - delta as int)
    case SendIr(code) => asked == SendIrCode(device, code)
  }

  /** Such a request asks for exactly that, and a delta of 0 for nothing. */
  lemma RequestAsksAsIntended(log: seq<Event>, device: DeviceId, desired: Desired)
    requires !desired.Set?
    ensures var command := CommandForRequest(device, desired);
      if desired == AdjustBrightness(0) then command == None
      else command.Some? && Intended(log, device, desired, ResolveImplicit(Replay(log), command.value))
  {
    LastBrightness(log, device);
  }

  /** The store once the device has echoed what a resolved command asked for. */
  function Echoed(store: Store, c: Command): Store {
    if c.TargetsDevice() && Sets(c).Some? then Put(store, c.device, Sets(c).value) else store
  }

  /** A toggle on a known switch asks for the opposite state, and toggling again after the
      echo asks for the original one. */
  lemma ToggleTwiceRestores(store: Store, device: DeviceId, on: bool)
    requires BoolValue(store, device, CapabilityKind.Switch) == Some(on)
    ensures var first := ResolveImplicit(store, ToggleSwitch(device));
      var second := ResolveImplicit(Echoed(store, first), ToggleSwitch(device));
      Sets(first) == Some(CapabilityState.Switch(!on)) && Sets(second) == Some(CapabilityState.Switch(on))
  {
  }

  /** The step by the same amount the other way. */
  function Opposite(step: Command): Command
    requires step.IncreaseBrightness? || step.DecreaseBrightness?
  {
    if step.IncreaseBrightness? then DecreaseBrightness(step.device, step.amount)
    else IncreaseBrightness(step.device, step.amount)
  }

  function Signed(step: Command): int
    requires step.IncreaseBrightness? || step.DecreaseBrightness?
  {
    if step.IncreaseBrightness? then step.amount else 0 - step.amount as int
  }

  /** Stepping back by the same amount after the echo restores a reported brightness exactly
      when it lay between 0 and 100 and the first step stayed there too, or swept the whole
      range from one end. Devices may report levels above 100; those are never restored. */
  lemma StepUndoneIff(store: Store, step: Command, level: U8)
    requires step.IncreaseBrightness? || step.DecreaseBrightness?
    requires NumberValue(store, step.device, CapabilityKind.Brightness) == Some(level as int)
    ensures var there := ResolveImplicit(store, step);
      var back := ResolveImplicit(Echoed(store, there), Opposite(step));
      Sets(back) == Some(CapabilityState.Brightness(level)) <==>
        level <= 100 && (0 <= level + Signed(step) <= 100
                         || (level == 100 && Signed(step) < -100) || (level == 0 && Signed(step) > 100))
  {
    var there := ResolveImplicit(store, step);
    var reached: int := Clamp(level + Signed(step));
    assert Sets(there) == Some(CapabilityState.Brightness(reached));
    assert NumberValue(Echoed(store, there), step.device, CapabilityKind.Brightness) == Some(reached);
  }

  /** The command is absolute, or the store does not know the state it is relative to. */
  predicate StaysAsIs(store: Store, c: Command) {
    match c
    case ToggleSwitch(device) => BoolValue(store, device, CapabilityKind.Switch) == None
    case DecreaseBrightness(device, _) => NumberValue(store, device, CapabilityKind.Brightness) == None
    case IncreaseBrightness(device, _) => NumberValue(store, device, CapabilityKind.Brightness) == None
    case _ => true
  }

  /** Resolving leaves a command alone exactly then; otherwise it makes it an absolute
      command to the same device, which resolving again leaves alone. */
  lemma ResolvesToItselfIff(store: Store, c: Command)
    ensures var resolved := ResolveImplicit(store, c);
      && (resolved == c <==> StaysAsIs(store, c))
      && (resolved != c ==> Sets(c) == None && Sets(resolved).Some? && resolved.Target() == c.Target())
      && forall later: Store :: resolved != c ==> StaysAsIs(later, resolved)
  {
  }
}
