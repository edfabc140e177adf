/** The single-threaded event loop (`src/engine.rs`) as a state machine: one function per
    step, over an arbitrary environment.

    Device adapters are a script `answers`: the n-th dispatch attempt of a run gets
    `answers(n)`. Quantifying over every script covers every adapter, however adaptive,
    because the engine itself is deterministic. */
module EngineSpec {
  import opened Model
  import opened TimerKeys
  import opened StateStore
  import opened Rules
  import opened Scheduler
  import opened Scenes

  type Answers = nat -> DispatchOutcome

  // --- wiring -----------------------------------------------------------------

  datatype RetryPolicy = RetryPolicy(maxAttempts: nat, baseBackoff: Millis)

  datatype Wiring = Wiring(
    rules: seq<Rule>,
    scenes: SceneTable,
    bound: set<DeviceId>,
    retry: RetryPolicy,
    maxDepth: nat,
    keys: KeyScheme)

  const U64_MAX: nat := 0xFFFF_FFFF_FFFF_FFFF

  /** `base` shifted left `n` times. */
  function Doubled(base: Millis, n: nat): Millis {
    if n == 0 then base else 2 * Doubled(base, n - 1)
  }

  /** Delay after the given (1-based) attempt has failed: doubling, capped, saturating. */
  function Backoff(policy: RetryPolicy, failedAttempt: nat): Millis {
    var capped := if failedAttempt < 16 then failedAttempt else 16;
    var shift := if capped == 0 then 0 else capped - 1;
    var delay := Doubled(policy.baseBackoff, shift);
    if delay <= U64_MAX then delay else U64_MAX
  }

  // --- state --------------------------------------------------------------------

  datatype Queued = Queued(event: Event, depth: nat)

  datatype PendingRetry = PendingRetry(command: Command, attempt: nat)

  /** What an observer sees of one device dispatch: the resolved command, its attempt
      number, and the retry keys that led to it and out of it. */
  datatype Attempt = Attempt(
    command: Command,
    number: nat,
    at: Millis,
    outcome: DispatchOutcome,
    via: Option<TimerKey>,
    next: Option<TimerKey>)

  datatype State = State(
    now: Millis,
    queue: seq<Queued>,
    store: Store,
    timers: Timers,
    retries: map<TimerKey, PendingRetry>,
    retryCounter: nat,
    pendingFor: map<RuleId, TimerKey>,
    forCounter: nat,
    mirror: Store,
    inbox: seq<Event>,
    attempts: seq<Attempt>,
    received: seq<Event>)

  const INITIAL := State(0, [], map[], map[], map[], 0, map[], 0, map[], [], [], [])

  function Tagged(events: seq<Event>, depth: nat): (queued: seq<Queued>)
    ensures |queued| == |events|
    ensures forall i :: 0 <= i < |events| ==> queued[i] == Queued(events[i], depth)
  {
    seq(|events|, i requires 0 <= i < |events| => Queued(events[i], depth))
  }

  // --- commands from intents ------------------------------------------------------

  function CommandForState(device: DeviceId, state: CapabilityState): Option<Command> {
    match state
    case Switch(on) => Some(SetSwitch(device, on))
    case Brightness(percent) => Some(SetBrightness(device, percent, None))
    case Color(r, g, b) => Some(SetColor(device, r, g, b, None))
    case ColorTemperature(mireds) => Some(SetColorTemperature(device, mireds, None))
    case _ => None
  }

  function CommandForRequest(device: DeviceId, desired: Desired): Option<Command> {
    match desired
    case Set(state) => CommandForState(device, state)
    case Toggle => Some(ToggleSwitch(device))
    case AdjustBrightness(delta) =>
      if delta > 0 then Some(IncreaseBrightness(device, delta))
      else if delta < 0 then Some(DecreaseBrightness(device, -(delta as int)))
      else None
    case SendIr(code) => Some(SendIrCode(device, code))
  }

  function Clamp(level: int): (percent: U8)
    ensures percent <= 100
  {
    if level < 0 then 0 else if level > 100 then 100 else level
  }

  /** Relative commands become absolute against known state, and stay as they are
      otherwise. */
  function ResolveImplicit(store: Store, command: Command): Command {
    match command
    case ToggleSwitch(device) =>
      (match BoolValue(store, device, CapabilityKind.Switch)
       case Some(on) => SetSwitch(device, !on)
       case None => command)
    case DecreaseBrightness(device, amount) =>
      (match NumberValue(store, device, CapabilityKind.Brightness)
       case Some(level) => SetBrightness(device, Clamp(level - amount), None)
       case None => command)
    case IncreaseBrightness(device, amount) =>
      (match NumberValue(store, device, CapabilityKind.Brightness)
       case Some(level) => SetBrightness(device, Clamp(level + amount), None)
       case None => command)
    case _ => command
  }

  // --- dispatch -----------------------------------------------------------------

  predicate Retryable(w: Wiring, outcome: DispatchOutcome, attempt: nat) {
    outcome.Transient? && attempt < w.retry.maxAttempts
  }

  /** What an outcome puts on the bus: the adapter's own events, or a give-up notice. */
  function Reply(w: Wiring, outcome: DispatchOutcome, command: Command, attempt: nat, depth: nat): seq<Queued> {
    if outcome.Ok? then Tagged(outcome.events, depth + 1)
    else if Retryable(w, outcome, attempt) then []
    else [Queued(CommandFailed(command, outcome.reason, attempt), depth + 1)]
  }

  const UNBOUND := "no adapter bound for target device"

  function Answer(w: Wiring, answers: Answers, s: State, device: DeviceId): DispatchOutcome {
    if device in w.bound then answers(|s.attempts|) else Permanent(UNBOUND)
  }

  /** `dispatch_at` for a command that targets a device, with the handling of its outcome. */
  function Attempted(w: Wiring, answers: Answers, s: State, command: Command, attempt: nat, depth: nat,
      via: Option<TimerKey>): State
    requires command.TargetsDevice()
  {
    var outcome := Answer(w, answers, s, command.device);
    var again := Retryable(w, outcome, attempt);
    var key := w.keys.retry(s.retryCounter + 1);
    s.(attempts := s.attempts + [Attempt(command, attempt, s.now, outcome, via, if again then Some(key) else None)],
       queue := s.queue + Reply(w, outcome, command, attempt, depth),
       retryCounter := if again then s.retryCounter + 1 else s.retryCounter,
       retries := if again then s.retries[key := PendingRetry(command, attempt + 1)] else s.retries,
       timers := if again then s.timers[key := s.now + Backoff(w.retry, attempt)] else s.timers)
  }

  /** `dispatch_at` for anything but a scene activation. */
  function Deliver(w: Wiring, answers: Answers, s: State, command: Command, attempt: nat, depth: nat,
      via: Option<TimerKey>): State
    requires !command.ActivateScene?
  {
    var command := ResolveImplicit(s.store, command);
    if command.ScheduleTimer? then s.(timers := s.timers[command.key := s.now + command.after])
    else if command.CancelTimer? then s.(timers := s.timers - {command.key})
    else Attempted(w, answers, s, command, attempt, depth, via)
  }

  function DeliverAll(w: Wiring, answers: Answers, s: State, commands: seq<Command>, depth: nat): State
    requires forall c <- commands :: !c.ActivateScene?
    decreases |commands|
  {
    if commands == [] then s
    else DeliverAll(w, answers, Deliver(w, answers, s, commands[0], 1, depth, None), commands[1..], depth)
  }

  function Run(w: Wiring, answers: Answers, s: State, commands: seq<Command>, depth: nat): State {
    DeliverAll(w, answers, s, Flatten(w.scenes, commands), depth)
  }

  // --- sustained edges ------------------------------------------------------------

  function FindRule(rules: seq<Rule>, id: RuleId): Option<Rule> {
    if rules == [] then None
    else if rules[0].id == id then Some(rules[0])
    else FindRule(rules[1..], id)
  }

  predicate Sustains(w: Wiring, id: RuleId, store: Store) {
    var rule := FindRule(w.rules, id);
    rule.Some? && rule.value.trigger.PredicateHolds(store)
  }

  function Arm(w: Wiring, s: State, id: RuleId, after: Millis): State {
    var timers := if id in s.pendingFor then s.timers - {s.pendingFor[id]} else s.timers;
    var key := w.keys.sustained(s.forCounter + 1);
    s.(forCounter := s.forCounter + 1,
       pendingFor := s.pendingFor[id := key],
       timers := timers[key := s.now + after])
  }

  function ArmAll(w: Wiring, s: State, fired: seq<Rule>): State
    decreases |fired|
  {
    if fired == [] then s
    else
      match fired[0].forDuration
      case Some(after) => ArmAll(w, Arm(w, s, fired[0].id, after), fired[1..])
      case None => ArmAll(w, s, fired[1..])
  }

  function Reverted(w: Wiring, s: State): set<RuleId> {
    set id | id in s.pendingFor && !Sustains(w, id, s.store)
  }

  /** The state without some of its waits and their timers. */
  function WithoutWaits(s: State, ids: set<RuleId>): State
    requires ids <= s.pendingFor.Keys
  {
    s.(pendingFor := s.pendingFor - ids, timers := s.timers - set id | id in ids :: s.pendingFor[id])
  }

  function CancelReverted(w: Wiring, s: State): State {
    WithoutWaits(s, Reverted(w, s))
  }

  predicate AwaitedBy(s: State, id: RuleId, key: TimerKey) {
    id in s.pendingFor && s.pendingFor[id] == key
  }

  ghost function FireElapsed(w: Wiring, answers: Answers, s: State, key: TimerKey): State {
    if id: RuleId :| AwaitedBy(s, id, key) then
      var s := s.(pendingFor := s.pendingFor - {id});
      if Sustains(w, id, s.store) then Run(w, answers, s, FindRule(w.rules, id).value.commands, 0) else s
    else s
  }

  // --- one event --------------------------------------------------------------------

  function Fold(s: State, device: DeviceId, state: CapabilityState): State {
    s.(mirror := Put(s.mirror, device, state), store := Put(s.store, device, state))
  }

  function Fired(rules: seq<Rule>, event: Event, prior: Option<CapabilityState>, store: Store): seq<Rule> {
    if rules == [] then []
    else
      var rest := Fired(rules[1..], event, prior, store);
      if rules[0].Fires(event, prior, store) then [rules[0]] + rest else rest
  }

  function Immediate(fired: seq<Rule>): seq<Command> {
    if fired == [] then []
    else (if fired[0].forDuration.None? then fired[0].commands else []) + Immediate(fired[1..])
  }

  function Prior(s: State, event: Event): Option<CapabilityState> {
    if event.StateReported? then Get(s.store, event.device, event.state.Kind()) else None
  }

  /** Fold a report and drop the waits it reverts; other events leave the state alone. */
  function Folded(w: Wiring, s: State, event: Event): State {
    if event.StateReported? then CancelReverted(w, Fold(s, event.device, event.state)) else s
  }

  /** Fold, auto-cancel, match every rule, arm the sustained ones, run the others. */
  function React(w: Wiring, answers: Answers, s: State, event: Event, depth: nat): State {
    var folded := Folded(w, s, event);
    var fired := Fired(w.rules, event, Prior(s, event), folded.store);
    Run(w, answers, ArmAll(w, folded, fired), Immediate(fired), depth)
  }

  /** Re-fan the store's own value of a capability to the northbound mirror. */
  function Refan(s: State, device: DeviceId, kind: CapabilityKind): State {
    var settled := Get(s.store, device, kind);
    if settled.Some? then s.(mirror := Put(s.mirror, device, settled.value)) else s
  }

  function RunRequest(w: Wiring, answers: Answers, s: State, device: DeviceId, desired: Desired, depth: nat): State {
    var command := CommandForRequest(device, desired);
    if command.Some? then Run(w, answers, s, [command.value], depth) else s
  }

  /** An intent dispatches its command and snaps the mirror back; it folds nothing and
      matches no rule. */
  function Request(w: Wiring, answers: Answers, s: State, device: DeviceId, desired: Desired, depth: nat): State {
    Refan(RunRequest(w, answers, s, device, desired, depth), device, desired.Kind())
  }

  /** Every event that is not one of the engine's own timers. */
  function HandleUser(w: Wiring, answers: Answers, s: State, event: Event, depth: nat): State {
    match event
    case RequestedChange(device, desired) => Request(w, answers, s, device, desired, depth)
    case RequestedScene(scene) => Run(w, answers, s, [ActivateScene(scene)], depth)
    case _ => React(w, answers, s, event, depth)
  }

  function Reissue(w: Wiring, answers: Answers, s: State, key: TimerKey): State
    requires key in s.retries
  {
    var pending := s.retries[key];
    var s := s.(retries := s.retries - {key});
    if pending.command.ActivateScene? then Run(w, answers, s, [pending.command], 0)
    else Deliver(w, answers, s, pending.command, pending.attempt, 0, Some(key))
  }

  ghost function Handle(w: Wiring, answers: Answers, s: State, event: Event, depth: nat): State {
    if event.TimerElapsed? && event.key in s.retries then Reissue(w, answers, s, event.key)
    else if event.TimerElapsed? && w.keys.isFor(event.key) then FireElapsed(w, answers, s, event.key)
    else HandleUser(w, answers, s, event, depth)
  }

  predicate Dropped(w: Wiring, s: State)
    requires s.queue != []
  {
    s.queue[0].depth > w.maxDepth
  }

  /** The event the next pop handles is matched against the rules. */
  predicate ReachesRules(w: Wiring, s: State)
    requires s.queue != []
  {
    var event := s.queue[0].event;
    !Dropped(w, s) && !event.RequestedChange? && !event.RequestedScene?
    && !(event.TimerElapsed? && (event.key in s.retries || w.keys.isFor(event.key)))
  }

  /** The state an event is handled in: popped off the queue and noted as received. */
  function Popped(s: State): State
    requires s.queue != []
  {
    s.(queue := s.queue[1..], received := s.received + [s.queue[0].event])
  }

  /** One iteration of `drain`. */
  ghost function Process(w: Wiring, answers: Answers, s: State): State
    requires s.queue != []
  {
    if Dropped(w, s) then s.(queue := s.queue[1..])
    else Handle(w, answers, Popped(s), s.queue[0].event, s.queue[0].depth)
  }

  // --- driving the loop -------------------------------------------------------------

  /** The ways anything can happen. `Inject`, `Advance` and `Sync` are the host's calls,
      made only at quiescence; `Pop` is one drain iteration; `ConsumerWrite` is a
      northbound consumer flipping its own mirror at any moment. */
  datatype Input =
    | Inject(event: Event)
    | Advance(dt: Millis, produced: seq<Event>)
    | Sync
    | ConsumerWrite(device: DeviceId, state: CapabilityState)
    | Pop

  predicate Enabled(s: State, input: Input) {
    match input
    case Inject(_) => s.queue == []
    case Advance(_, _) => s.queue == []
    case Sync => s.queue == []
    case ConsumerWrite(_, _) => true
    case Pop => s.queue != []
  }

  /** Every adapter ticks once, the scheduler first: what they produce enters the queue at
      depth 0. */
  function Ticked(s: State, now: Millis, due: seq<Deadline>, produced: seq<Event>): State {
    s.(now := now,
       queue := s.queue + Tagged(Elapsed(due) + (produced + s.inbox), 0),
       timers := Remaining(s.timers, now),
       inbox := [])
  }

  ghost function Tick(s: State, dt: Millis, produced: seq<Event>): State {
    Ticked(s, s.now + dt, Due(s.timers, s.now + dt), produced)
  }

  ghost function Next(w: Wiring, answers: Answers, s: State, input: Input): State
    requires Enabled(s, input)
  {
    match input
    case Inject(event) => s.(queue := s.queue + [Queued(event, 0)])
    case Advance(dt, produced) => Tick(s, dt, produced)
    case Sync => s.(mirror := s.mirror + s.store)
    case ConsumerWrite(device, state) =>
      s.(mirror := Put(s.mirror, device, state), inbox := s.inbox + [RequestedChange(device, Desired.Set(state))])
    case Pop => Process(w, answers, s)
  }

  /** A run: the states a sequence of inputs leads through, one more than the inputs. */
  ghost predicate IsRun(w: Wiring, answers: Answers, states: seq<State>, inputs: seq<Input>) {
    && |states| == |inputs| + 1
    && states[0] == INITIAL
    && forall i :: 0 <= i < |inputs| ==> StepsTo(w, answers, states[i], inputs[i], states[i + 1])
  }

  ghost predicate StepsTo(w: Wiring, answers: Answers, s: State, input: Input, t: State) {
    Enabled(s, input) && t == Next(w, answers, s, input)
  }

  // --- assumptions on the environment -------------------------------------------------

  /** An event that looks like one of the engine's own timers. */
  predicate ReservedTimer(w: Wiring, event: Event) {
    event.TimerElapsed? && w.keys.Reserved(event.key)
  }

  /** From the n-th dispatch of the script on, the adapters answer only with events of this
      sort. */
  ghost predicate AnswersOnly(answers: Answers, n: nat, sort: Event -> bool) {
    forall m: nat | m >= n :: OutcomeOnly(answers(m), sort)
  }

  predicate OutcomeOnly(outcome: DispatchOutcome, sort: Event -> bool) {
    outcome.Ok? ==> forall e <- outcome.events :: sort(e)
  }

  function Unreserved(w: Wiring): Event -> bool {
    (e: Event) => !ReservedTimer(w, e)
  }

  /** From the n-th dispatch on, no adapter answers with one of the engine's own timers. */
  ghost predicate HonestFrom(w: Wiring, answers: Answers, n: nat) {
    AnswersOnly(answers, n, Unreserved(w))
  }

  /** None ever does. */
  ghost predicate HonestAnswers(w: Wiring, answers: Answers) {
    HonestFrom(w, answers, 0)
  }

  predicate Clean(event: Event) { !event.TimerElapsed? }

  predicate CleanOutcome(outcome: DispatchOutcome) {
    outcome.Ok? ==> forall e <- outcome.events :: Clean(e)
  }

  /** Only the scheduler produces `TimerElapsed`: no adapter forges one... */
  ghost predicate CleanAnswers(answers: Answers) {
    forall n: nat :: CleanOutcome(answers(n))
  }

  /** ...and no host injects one. */
  predicate CleanInput(input: Input) {
    match input
    case Inject(event) => Clean(event)
    case Advance(_, produced) => forall e <- produced :: Clean(e)
    case _ => true
  }

  predicate CleanInputs(inputs: seq<Input>) {
    forall i :: 0 <= i < |inputs| ==> CleanInput(inputs[i])
  }

  predicate UserKeyed(w: Wiring, command: Command) {
    && (command.ScheduleTimer? ==> !w.keys.Reserved(command.key))
    && (command.CancelTimer? ==> !w.keys.Reserved(command.key))
  }

  predicate DistinctIds(rules: seq<Rule>) {
    forall i, j :: 0 <= i < j < |rules| ==> rules[i].id != rules[j].id
  }

  /** Configurations the loop is meant for: acyclic scenes, no user timer inside a reserved
      prefix, distinct rule ids, `for:` on edge triggers only. */
  ghost predicate WellFormed(w: Wiring) {
    && w.keys.Valid()
    && Acyclic(w.scenes)
    && (forall rule <- w.rules, c <- rule.commands :: UserKeyed(w, c))
    && (forall scene <- w.scenes.Keys, c <- w.scenes[scene] :: UserKeyed(w, c))
    && DistinctIds(w.rules)
    && (forall rule <- w.rules :: rule.forDuration.Some? ==> rule.trigger.Watched().Some?)
  }
}
