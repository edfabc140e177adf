/** The disposable state store (`src/state.rs`): the last reported value of each
    (device, capability), rebuilt exactly by replaying the reports. */
module StateStore {
  import opened Model

  type Store = map<(DeviceId, CapabilityKind), CapabilityState>

  /** Every value sits under its own kind. */
  ghost predicate WellKeyed(store: Store) {
    forall key <- store.Keys :: store[key].Kind() == key.1
  }

  function Put(store: Store, device: DeviceId, state: CapabilityState): Store {
    store[(device, state.Kind()) := state]
  }

  function Get(store: Store, device: DeviceId, kind: CapabilityKind): Option<CapabilityState> {
    if (device, kind) in store then Some(store[(device, kind)]) else None
  }

  function BoolView(state: Option<CapabilityState>): Option<bool> {
    if state.Some? then state.value.AsBool() else None
  }

  function NumberView(state: Option<CapabilityState>): Option<int> {
    if state.Some? then state.value.AsNumber() else None
  }

  function BoolValue(store: Store, device: DeviceId, kind: CapabilityKind): Option<bool> {
    BoolView(Get(store, device, kind))
  }

  function NumberValue(store: Store, device: DeviceId, kind: CapabilityKind): Option<int> {
    NumberView(Get(store, device, kind))
  }

  /** The store an event log leaves behind: only reports write to it. */
  function Replay(events: seq<Event>): Store {
    if events == [] then map[]
    else Absorb(Replay(events[..|events| - 1]), events[|events| - 1])
  }

  function Absorb(store: Store, event: Event): Store {
    if event.StateReported? then Put(store, event.device, event.state) else store
  }

  /** The newest report of one capability in an event log, found without any store. */
  function LastReport(events: seq<Event>, device: DeviceId, kind: CapabilityKind): Option<CapabilityState> {
    if events == [] then None
    else
      var last := events[|events| - 1];
      if last.StateReported? && last.device == device && last.state.Kind() == kind then Some(last.state)
      else LastReport(events[..|events| - 1], device, kind)
  }

  /** Deleting the store and replaying the log reconstructs it: every read returns the
      newest report of exactly that capability, and `None` only if there was none. */
  lemma {:induction false} ReplayIsLastReport(events: seq<Event>)
    ensures WellKeyed(Replay(events))
    ensures forall device: DeviceId, kind: CapabilityKind ::
      Get(Replay(events), device, kind) == LastReport(events, device, kind)
  {
    if events != [] {
      ReplayIsLastReport(events[..|events| - 1]);
    }
  }

  /** The runtime object: one hash map behind the functions above. */
  class StateTable {
    var entries: Store

    constructor ()
      ensures entries == map[]
    {
      entries := map[];
    }

    method Set(device: DeviceId, state: CapabilityState)
      modifies this
      ensures entries == Put(old(entries), device, state)
    {
      entries := entries[(device, state.Kind()) := state];
    }
  }
}
