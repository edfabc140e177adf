/** Rules (`src/rule.rs`): edge triggers that see the value before the fold, a
    three-valued condition algebra over the store, and ordered commands. */
module Rules {
  import opened Model
  import opened StateStore

  datatype CrossDir = Above | Below

  datatype Trigger =
    | OnAction(device: DeviceId, action: ActionId)
    | Changed(device: DeviceId, kind: CapabilityKind, value: bool)
    | Crosses(device: DeviceId, kind: CapabilityKind, bound: int, dir: CrossDir)
    | Reports(device: DeviceId, kind: CapabilityKind)
    | Timer(key: TimerKey)
    | Time(schedule: ScheduleId)
    | OnCommandFailed(only: Option<DeviceId>)
  {
    /** The threshold test of a `crosses` trigger. */
    predicate Beyond(v: int)
      requires Crosses?
    {
      match dir
      case Above => v >= bound
      case Below => v <= bound
    }

    /** Whether one reported value satisfies an edge trigger's predicate. */
    predicate Satisfies(state: Option<CapabilityState>) {
      match this
      case Changed(_, _, value) => BoolView(state) == Some(value)
      case Crosses(_, _, _, _) => var v := NumberView(state); v.Some? && Beyond(v.value)
      case _ => false
    }

    predicate Matches(event: Event, prior: Option<CapabilityState>) {
      match (this, event)
      case (OnAction(d, a), Action(device, action)) => d == device && a == action
      case (Changed(d, k, value), StateReported(device, state)) =>
        d == device && state.Kind() == k && state.AsBool() == Some(value) && BoolView(prior) != Some(value)
      case (Crosses(d, k, _, _), StateReported(device, state)) =>
        if d != device || state.Kind() != k then false
        else
          var now := state.AsNumber();
          if now.None? then false
          else
            var before := NumberView(prior);
            Beyond(now.value) && !(before.Some? && Beyond(before.value))
      case (Reports(d, k), StateReported(device, state)) => d == device && state.Kind() == k
      case (Timer(k), TimerElapsed(key)) => k == key
      case (Time(s), TimeReached(schedule)) => s == schedule
      case (OnCommandFailed(only), CommandFailed(command, _, _)) =>
        only.None? || command.Target() == only
      case _ => false
    }

    /** The capability an edge trigger keeps an eye on; only those sustain a `for:`. */
    function Watched(): Option<(DeviceId, CapabilityKind)> {
      match this
      case Changed(device, kind, _) => Some((device, kind))
      case Crosses(device, kind, _, _) => Some((device, kind))
      case _ => None
    }

    predicate PredicateHolds(store: Store) {
      match this
      case Changed(device, kind, value) => BoolValue(store, device, kind) == Some(value)
      case Crosses(device, kind, bound, dir) =>
        (match NumberValue(store, device, kind)
         case Some(v) => (match dir case Above => v >= bound case Below => v <= bound)
         case None => false)
      case _ => false
    }
  }

  /** An edge trigger matches a report exactly when the report is of the watched
      capability, makes the predicate true, and the value it replaces did not. */
  lemma EdgeIsRisingPredicate(trigger: Trigger, event: Event, store: Store)
    requires trigger.Watched().Some? && event.StateReported? && WellKeyed(store)
    ensures var folded := Put(store, event.device, event.state);
      trigger.Matches(event, Get(store, event.device, event.state.Kind())) <==>
        trigger.Watched().value == (event.device, event.state.Kind())
        && trigger.PredicateHolds(folded) && !trigger.PredicateHolds(store)
  {
    var (device, kind) := trigger.Watched().value;
    if (device, kind) == (event.device, event.state.Kind()) {
      var folded := Put(store, event.device, event.state);
      assert Get(folded, device, kind) == Some(event.state);
    }
  }

  /** No other event, and no report of another capability, moves a sustained predicate. */
  lemma PredicateFollowsWatched(trigger: Trigger, event: Event, store: Store)
    requires trigger.Watched().Some?
    requires event.StateReported? ==> trigger.Watched().value != (event.device, event.state.Kind())
    ensures trigger.PredicateHolds(Absorb(store, event)) <==> trigger.PredicateHolds(store)
  {
    var (device, kind) := trigger.Watched().value;
    assert Get(Absorb(store, event), device, kind) == Get(store, device, kind);
  }

  datatype CmpOp = Lt | Le | Eq | Ne | Ge | Gt {
    predicate Test(actual: int, bound: int) {
      match this
      case Lt => actual < bound
      case Le => actual <= bound
      case Eq => actual == bound
      case Ne => actual != bound
      case Ge => actual >= bound
      case Gt => actual > bound
    }
  }

  datatype Truth = True | False | Unknown {
    static function FromBool(b: bool): Truth { if b then True else False }

    function Not(): Truth {
      match this
      case True => False
      case False => True
      case Unknown => Unknown
    }

    function And(other: Truth): Truth {
      match (this, other)
      case (False, _) => False
      case (_, False) => False
      case (True, True) => True
      case _ => Unknown
    }

    function Or(other: Truth): Truth {
      match (this, other)
      case (True, _) => True
      case (_, True) => True
      case (False, False) => False
      case _ => Unknown
    }
  }

  datatype Condition =
    | Always
    | Not(inner: Condition)
    | And(parts: seq<Condition>)
    | Or(parts: seq<Condition>)
    | BoolEquals(device: DeviceId, kind: CapabilityKind, value: bool)
    | Compare(device: DeviceId, kind: CapabilityKind, op: CmpOp, bound: int)
    | ColorEquals(device: DeviceId, r: U8, g: U8, b: U8)
  {
    function Eval(store: Store): Truth
      decreases this, 0
    {
      match this
      case Always => True
      case Not(inner) => inner.Eval(store).Not()
      case And(parts) => FoldAnd(True, parts, store)
      case Or(parts) => FoldOr(False, parts, store)
      case BoolEquals(device, kind, value) =>
        (match BoolValue(store, device, kind)
         case Some(actual) => Truth.FromBool(actual == value)
         case None => Unknown)
      case Compare(device, kind, op, bound) =>
        (match NumberValue(store, device, kind)
         case Some(actual) => Truth.FromBool(op.Test(actual, bound))
         case None => Unknown)
      case ColorEquals(device, r, g, b) =>
        (match Get(store, device, CapabilityKind.Color)
         case Some(Color(cr, cg, cb)) => Truth.FromBool(cr == r && cg == g && cb == b)
         case _ => Unknown)
    }

    /** The accumulating left folds of `And` and `Or`: no part is skipped. */
    static function FoldAnd(acc: Truth, parts: seq<Condition>, store: Store): Truth
      decreases parts, 1
    {
      if parts == [] then acc
      else FoldAnd(acc.And(parts[0].Eval(store)), parts[1..], store)
    }

    static function FoldOr(acc: Truth, parts: seq<Condition>, store: Store): Truth
      decreases parts, 1
    {
      if parts == [] then acc
      else FoldOr(acc.Or(parts[0].Eval(store)), parts[1..], store)
    }
  }

  datatype Rule = Rule(
    id: RuleId,
    trigger: Trigger,
    condition: Condition,
    commands: seq<Command>,
    forDuration: Option<Millis>)
  {
    predicate Fires(event: Event, prior: Option<CapabilityState>, store: Store) {
      trigger.Matches(event, prior) && condition.Eval(store) == True
    }
  }
}
