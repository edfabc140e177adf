/** Quiescence (`src/engine.rs`, `drain`): when does the loop empty its queue? Every
    iteration has to finish, which acyclic scenes guarantee. Then it is enough that the
    adapters answer with the engine's own timers at most finitely often, since every other
    event moves the queue towards the depth limit; or that the limit is 0. */
module Drain {
  import opened Model
  import opened TimerKeys
  import opened StateStore
  import opened Rules
  import opened Scenes
  import opened EngineSpec
  import opened EngineInvariants
  import opened AnyRun
  import opened Reachable

  /** How many queued events sit in layer `depth`. */
  function LayerSize(queue: seq<Queued>, depth: nat): nat {
    if queue == [] then 0
    else (if queue[0].depth == depth then 1 else 0) + LayerSize(queue[1..], depth)
  }

  lemma {:induction false} LayerSizeAppend(a: seq<Queued>, b: seq<Queued>, depth: nat)
    ensures LayerSize(a + b, depth) == LayerSize(a, depth) + LayerSize(b, depth)
    decreases |a|
  {
    if a == [] {
      assert a + b == b;
    } else {
      assert (a + b)[1..] == a[1..] + b;
      LayerSizeAppend(a[1..], b, depth);
    }
  }

  lemma {:induction false} OtherLayersEmpty(queue: seq<Queued>, depth: nat)
    requires forall i :: 0 <= i < |queue| ==> queue[i].depth != depth
    ensures LayerSize(queue, depth) == 0
    decreases |queue|
  {
    if queue != [] {
      OtherLayersEmpty(queue[1..], depth);
    }
  }

  /** Layers left to visit, counting the front one. */
  function LayersLeft(w: Wiring, queue: seq<Queued>): int {
    if queue == [] then 0 else w.maxDepth + 2 - queue[0].depth
  }

  function FrontSize(queue: seq<Queued>): nat {
    if queue == [] then 0 else LayerSize(queue, queue[0].depth)
  }

  ghost predicate Closer(w: Wiring, from: seq<Queued>, after: seq<Queued>) {
    0 <= LayersLeft(w, after) < LayersLeft(w, from)
    || (LayersLeft(w, after) == LayersLeft(w, from) > 0 && FrontSize(after) < FrontSize(from))
  }

  /** Popping the front and pushing only into the next layer shrinks the front layer. */
  lemma FrontLayerShrinks(front: Queued, rest: seq<Queued>, pushed: seq<Queued>)
    requires forall i :: 0 <= i < |pushed| ==> pushed[i].depth == front.depth + 1
    ensures LayerSize(rest + pushed, front.depth) == LayerSize([front] + rest, front.depth) - 1
  {
    LayerSizeAppend(rest, pushed, front.depth);
    OtherLayersEmpty(pushed, front.depth);
    assert ([front] + rest)[1..] == rest;
  }

  lemma NextLayerIsProgress(w: Wiring, from: seq<Queued>, after: seq<Queued>)
    requires from != [] && from[1..] <= after && from[0].depth <= w.maxDepth + 1
    requires after != [] ==> from[0].depth <= after[0].depth <= w.maxDepth + 1
    requires forall i :: |from| - 1 <= i < |after| ==> after[i].depth == from[0].depth + 1
    ensures Closer(w, from, after)
  {
    var pushed := after[|from| - 1..];
    assert after == from[1..] + pushed && from == [from[0]] + from[1..];
    FrontLayerShrinks(from[0], from[1..], pushed);
  }

  lemma LayersOnlyDeepen(w: Wiring, from: seq<Queued>, after: seq<Queued>)
    requires from != [] && Layered(w, from) && Layered(w, after) && from[1..] <= after
    requires forall i :: |from| - 1 <= i < |after| ==> after[i].depth == from[0].depth + 1
    ensures from[0].depth <= w.maxDepth + 1
    ensures after != [] ==> from[0].depth <= after[0].depth <= w.maxDepth + 1
  {
    if |from| > 1 {
      assert after[0] == from[1];
    }
  }

  /** Every iteration makes progress. */
  lemma ProcessIsProgress(w: Wiring, answers: Answers, s: State, t: State)
    requires w.keys.Valid() && HonestAnswers(w, answers) && Steady(w, s) && s.queue != []
    requires t == Process(w, answers, s)
    ensures Steady(w, t) && Closer(w, s.queue, t.queue)
  {
    ProcessSteady(w, answers, s, t);
    LayersOnlyDeepen(w, s.queue, t.queue);
    NextLayerIsProgress(w, s.queue, t.queue);
  }

  /** Running to quiescence is a total function of the state and the adapters' answers. */
  ghost function Drained(w: Wiring, answers: Answers, s: State): (t: State)
    requires Acyclic(w.scenes) && w.keys.Valid() && HonestAnswers(w, answers) && Steady(w, s)
    ensures t.queue == [] && Steady(w, t)
    decreases LayersLeft(w, s.queue), FrontSize(s.queue)
  {
    if s.queue == [] then s
    else
      ProcessIsProgress(w, answers, s, Process(w, answers, s));
      Drained(w, answers, Process(w, answers, s))
  }

  /** A well-formed configuration in a clean environment is a special case... */
  lemma InvIsSteady(w: Wiring, answers: Answers, s: State)
    requires CleanAnswers(answers) && Inv(w, s)
    ensures HonestAnswers(w, answers) && Steady(w, s)
  {
    forall n: nat ensures OutcomeOnly(answers(n), Unreserved(w)) {
      assert CleanOutcome(answers(n));
    }
    forall key <- s.retries.Keys ensures KeyedRetry(w, s, key) {
      assert OwnsRetry(w, s, key);
    }
    forall id <- s.pendingFor.Keys ensures NumberedWait(w, s, id) {
      assert OwnsWait(w, s, s.pendingFor[id]);
    }
    ReplayIsLastReport(s.received);
  }

  /** ...where everything the loop relies on is kept to the end. */
  lemma {:induction false} DrainedKeepsInv(w: Wiring, answers: Answers, s: State)
    requires WellFormed(w) && CleanAnswers(answers) && Inv(w, s)
    ensures HonestAnswers(w, answers) && Steady(w, s) && Inv(w, Drained(w, answers, s))
    decreases LayersLeft(w, s.queue), FrontSize(s.queue)
  {
    InvIsSteady(w, answers, s);
    if s.queue != [] {
      ProcessKeeps(w, answers, s);
      ProcessIsProgress(w, answers, s, Process(w, answers, s));
      DrainedKeepsInv(w, answers, Process(w, answers, s));
    }
  }

  // --- iterations that finish --------------------------------------------------------------

  /** Dispatching this list of commands returns: its scenes expand in bounded depth. */
  ghost predicate Returns(w: Wiring, commands: seq<Command>) {
    Terminates(w.scenes, commands)
  }

  /** The next iteration finishes: whatever it hands out to dispatch returns. */
  ghost predicate Completes(w: Wiring, s: State)
    requires s.queue != []
  {
    var event := s.queue[0].event;
    Dropped(w, s) ||
    if event.TimerElapsed? && event.key in s.retries then Returns(w, [s.retries[event.key].command])
    else if event.TimerElapsed? && w.keys.isFor(event.key) then
      forall id | AwaitedBy(s, id, event.key) && Sustains(w, id, s.store) ::
        Returns(w, FindRule(w.rules, id).value.commands)
    else
      match event
      case RequestedChange(device, desired) =>
        var command := CommandForRequest(device, desired); command.Some? ==> Returns(w, [command.value])
      case RequestedScene(scene) => Returns(w, [ActivateScene(scene)])
      case _ => Returns(w, Immediate(Fired(w.rules, event, Prior(s, event), Absorb(s.store, event))))
  }

  lemma AcyclicCompletes(w: Wiring, s: State)
    requires Acyclic(w.scenes) && s.queue != []
    ensures Completes(w, s)
  {
    forall commands: seq<Command> ensures Returns(w, commands) {
      AcyclicNeverRevisits(w.scenes, commands);
      ExpansionTerminatesIff(w.scenes, commands);
    }
  }

  // --- drains, or not ----------------------------------------------------------------------

  /** The loop has not come to rest after `n` more iterations: one of them never finished,
      or the queue is still not empty. */
  ghost predicate StillBusy(w: Wiring, answers: Answers, s: State, n: nat)
    decreases n
  {
    s.queue != [] && (n > 0 ==> !Completes(w, s) || StillBusy(w, answers, Process(w, answers, s), n - 1))
  }

  ghost predicate Drains(w: Wiring, answers: Answers, s: State) {
    exists n: nat :: !StillBusy(w, answers, s, n)
  }

  lemma OneMore(w: Wiring, answers: Answers, s: State)
    requires s.queue != [] && Completes(w, s) && Drains(w, answers, Process(w, answers, s))
    ensures Drains(w, answers, s)
  {
    var n: nat :| !StillBusy(w, answers, Process(w, answers, s), n);
    assert !StillBusy(w, answers, s, n + 1);
  }

  lemma AtRestDrains(w: Wiring, answers: Answers, s: State)
    requires s.queue == []
    ensures Drains(w, answers, s)
  {
    assert !StillBusy(w, answers, s, 0);
  }

  // --- limit 0: nothing cascades ---------------------------------------------------------------

  /** At limit 0 what is pushed is dropped: layer 0 shrinks, or the queue does. */
  lemma ZeroLimitProgress(w: Wiring, answers: Answers, s: State)
    requires w.maxDepth == 0 && s.queue != []
    ensures var t := Process(w, answers, s);
      LayerSize(t.queue, 0) < LayerSize(s.queue, 0)
      || (LayerSize(t.queue, 0) == LayerSize(s.queue, 0) && |t.queue| < |s.queue|)
  {
    var t, front, rest := Process(w, answers, s), s.queue[0], s.queue[1..];
    if !Dropped(w, s) {
      AllowsAny(answers, Popped(s));
      HandlePushes(w, answers, Popped(s), front.event, front.depth, ANY);
      var pushed := t.queue[|rest|..];
      assert t.queue == rest + pushed && s.queue == [front] + rest;
      FrontLayerShrinks(front, rest, pushed);
    }
  }

  lemma {:induction false} ZeroLimitDrains(w: Wiring, answers: Answers, s: State)
    requires Acyclic(w.scenes) && w.maxDepth == 0
    ensures Drains(w, answers, s)
    decreases LayerSize(s.queue, 0), |s.queue|
  {
    if s.queue == [] {
      AtRestDrains(w, answers, s);
    } else {
      ZeroLimitProgress(w, answers, s);
      ZeroLimitDrains(w, answers, Process(w, answers, s));
      AcyclicCompletes(w, s);
      OneMore(w, answers, s);
    }
  }

  // --- finitely many forged timers -------------------------------------------------------------

  /** How many events in the queue look like the engine's own timers. */
  function OwnTimers(w: Wiring, queue: seq<Queued>): nat {
    if queue == [] then 0
    else (if ReservedTimer(w, queue[0].event) then 1 else 0) + OwnTimers(w, queue[1..])
  }

  lemma {:induction false} OwnTimersAppend(w: Wiring, a: seq<Queued>, b: seq<Queued>)
    ensures OwnTimers(w, a + b) == OwnTimers(w, a) + OwnTimers(w, b)
    decreases |a|
  {
    if a == [] {
      assert a + b == b;
    } else {
      assert (a + b)[1..] == a[1..] + b;
      OwnTimersAppend(w, a[1..], b);
    }
  }

  lemma {:induction false} NoOwnTimers(w: Wiring, queue: seq<Queued>)
    requires forall i :: 0 <= i < |queue| ==> !ReservedTimer(w, queue[i].event)
    ensures OwnTimers(w, queue) == 0
    decreases |queue|
  {
    if queue != [] {
      NoOwnTimers(w, queue[1..]);
    }
  }

  /** Halfway through the queue: the first `k` events are still those of a sweep at depth `m`
      or deeper, the others were pushed by it and lie deeper. */
  ghost predicate Sweeping(w: Wiring, queue: seq<Queued>, m: nat, k: nat) {
    && k <= |queue| && m <= w.maxDepth + 1 && (m == w.maxDepth + 1 ==> k == |queue|)
    && (forall i :: 0 <= i < k ==> queue[i].depth >= m)
    && (forall i :: k <= i < |queue| ==> queue[i].depth >= m + 1)
  }

  lemma OwnTimersPushed(w: Wiring, queue: seq<Queued>, after: seq<Queued>)
    requires queue != [] && queue[1..] <= after
    requires forall i :: |queue| - 1 <= i < |after| ==> !ReservedTimer(w, after[i].event)
    ensures OwnTimers(w, queue) == OwnTimers(w, after) + if ReservedTimer(w, queue[0].event) then 1 else 0
  {
    var pushed := after[|queue| - 1..];
    assert after == queue[1..] + pushed;
    OwnTimersAppend(w, queue[1..], pushed);
    NoOwnTimers(w, pushed);
  }

  lemma SweepGoesOn(w: Wiring, queue: seq<Queued>, after: seq<Queued>, m: nat, k: nat)
    requires Sweeping(w, queue, m, k) && k > 0 && queue[1..] <= after
    requires forall i :: |queue| - 1 <= i < |after| ==> after[i].depth == queue[0].depth + 1 <= w.maxDepth + 1
    ensures Sweeping(w, after, m, k - 1)
  {
    forall i | 0 <= i < |queue| - 1 ensures after[i] == queue[i + 1] {
    }
    assert |after| >= |queue| ==> after[|queue| - 1].depth > m;
  }

  /** One iteration among honest adapters, from any queue: one engine timer fewer, or one
      event of the sweep fewer. */
  lemma SweepAdvances(w: Wiring, answers: Answers, s: State, t: State, m: nat, k: nat)
    requires Tabled(w, s) && HonestFrom(w, answers, |s.attempts|) && Sweeping(w, s.queue, m, k) && k > 0
    requires t == Process(w, answers, s)
    ensures |s.attempts| <= |t.attempts|
    ensures OwnTimers(w, t.queue) < OwnTimers(w, s.queue)
      || (OwnTimers(w, t.queue) == OwnTimers(w, s.queue) && Sweeping(w, t.queue, m, k - 1))
  {
    var event := s.queue[0].event;
    if !Dropped(w, s) {
      HonestAllows(w, answers, Popped(s), |s.attempts|);
      HandlePushes(w, answers, Popped(s), event, s.queue[0].depth, Unreserved(w));
      if event.TimerElapsed? && event.key in s.retries {
        assert KeyedRetry(w, s, event.key);
      }
    }
    OwnTimersPushed(w, s.queue, t.queue);
    if !ReservedTimer(w, event) {
      SweepGoesOn(w, s.queue, t.queue, m, k);
    }
  }

  /** From any state among honest adapters the queue empties, layered or not. */
  lemma {:induction false} SweepDrains(w: Wiring, answers: Answers, s: State, m: nat, k: nat)
    requires Acyclic(w.scenes) && w.keys.Valid() && Tabled(w, s) && HonestFrom(w, answers, |s.attempts|)
    requires Sweeping(w, s.queue, m, k)
    ensures Drains(w, answers, s)
    decreases OwnTimers(w, s.queue), w.maxDepth + 1 - m, k
  {
    if s.queue == [] {
      AtRestDrains(w, answers, s);
    } else if k == 0 {
      SweepDrains(w, answers, s, m + 1, |s.queue|);
    } else {
      var t := Process(w, answers, s);
      ProcessTabled(w, answers, s, t);
      SweepAdvances(w, answers, s, t, m, k);
      if OwnTimers(w, t.queue) < OwnTimers(w, s.queue) {
        SweepDrains(w, answers, t, 0, |t.queue|);
      } else {
        SweepDrains(w, answers, t, m, k - 1);
      }
      AcyclicCompletes(w, s);
      OneMore(w, answers, s);
    }
  }

  function DispatchesUntil(s: State, n: nat): nat {
    if |s.attempts| < n then n - |s.attempts| else 0
  }

  /** A script that is honest from its n-th dispatch on drains: forging needs a dispatch, and
      an iteration without one pushes nothing. */
  lemma {:induction false} EventuallyHonestDrains(w: Wiring, answers: Answers, s: State, n: nat)
    requires Acyclic(w.scenes) && w.keys.Valid() && Tabled(w, s) && HonestFrom(w, answers, n)
    ensures Drains(w, answers, s)
    decreases DispatchesUntil(s, n), |s.queue|
  {
    if s.queue == [] {
      AtRestDrains(w, answers, s);
    } else if |s.attempts| >= n {
      SweepDrains(w, answers, s, 0, |s.queue|);
    } else {
      var t := Process(w, answers, s);
      ProcessTabled(w, answers, s, t);
      DispatchesOrShrinks(w, answers, s, t);
      EventuallyHonestDrains(w, answers, t, n);
      AcyclicCompletes(w, s);
      OneMore(w, answers, s);
    }
  }

  lemma DispatchesOrShrinks(w: Wiring, answers: Answers, s: State, t: State)
    requires s.queue != [] && t == Process(w, answers, s)
    ensures |t.attempts| > |s.attempts| || (|t.attempts| == |s.attempts| && t.queue == s.queue[1..])
  {
    if !Dropped(w, s) {
      AllowsAny(answers, Popped(s));
      HandlePushes(w, answers, Popped(s), s.queue[0].event, s.queue[0].depth, ANY);
    }
  }

  // --- any other limit: one forging adapter suffices ----------------------------------------------

  const ASK := RequestedChange(1, Set(CapabilityState.Switch(true)))

  /** No rules, one device. */
  function OneDevice(keys: KeyScheme, scenes: SceneTable, maxDepth: nat): Wiring {
    Wiring([], scenes, {1}, RetryPolicy(2, 1000), maxDepth, keys)
  }

  /** The device is busy every other time; in between it asks for the same change again and
      reports its own next retry timer as elapsed. */
  function Forging(keys: KeyScheme): Answers {
    (n: nat) => if n % 2 == 0 then Ok([ASK, TimerElapsed(keys.retry(n / 2 + 1))]) else Transient("busy")
  }

  /** Where the forging run stands after `m` rounds of two iterations. */
  ghost predicate Round(keys: KeyScheme, s: State, m: nat) {
    && s.queue == [Queued(ASK, 1), Queued(TimerElapsed(keys.retry(m + 1)), 1)]
    && |s.attempts| == 2 * m + 1 && s.retryCounter == m && s.retries == map[] && s.store == map[]
  }

  lemma ForgingScript(keys: KeyScheme, m: nat)
    ensures Forging(keys)(2 * m) == Ok([ASK, TimerElapsed(keys.retry(m + 1))])
    ensures Forging(keys)(2 * m + 1) == Transient("busy")
  {
  }

  /** Asking comes to one dispatch. */
  lemma AskDispatches(w: Wiring, answers: Answers, s: State, depth: nat)
    requires s.store == map[]
    ensures HandleUser(w, answers, s, ASK, depth) == Deliver(w, answers, s, SetSwitch(1, true), 1, depth, None)
  {
    var command := SetSwitch(1, true);
    var rest := [command][1..];
    assert rest == [] && Leaves(w.scenes, rest, w.scenes.Keys) == [];
    assert Leaves(w.scenes, [command], w.scenes.Keys) == [command] + [];
    assert Flatten(w.scenes, [command]) == [command];
    var t := Deliver(w, answers, s, command, 1, depth, None);
    assert DeliverAll(w, answers, t, rest, depth) == t;
    assert DeliverAll(w, answers, s, [command], depth) == t;
  }

  lemma BusyDelivery(w: Wiring, answers: Answers, s: State, depth: nat)
    requires 1 in w.bound && w.retry.maxAttempts == 2 && answers(|s.attempts|).Transient?
    ensures var t := Deliver(w, answers, s, SetSwitch(1, true), 1, depth, None);
      t.queue == s.queue && |t.attempts| == |s.attempts| + 1 && t.retryCounter == s.retryCounter + 1
      && t.retries == s.retries[w.keys.retry(s.retryCounter + 1) := PendingRetry(SetSwitch(1, true), 2)]
      && t.store == s.store
  {
  }

  lemma ForgedDelivery(w: Wiring, answers: Answers, s: State, attempt: nat, depth: nat, via: Option<TimerKey>,
      key: TimerKey)
    requires 1 in w.bound && answers(|s.attempts|) == Ok([ASK, TimerElapsed(key)])
    ensures var t := Deliver(w, answers, s, SetSwitch(1, true), attempt, depth, via);
      t.queue == s.queue + [Queued(ASK, depth + 1), Queued(TimerElapsed(key), depth + 1)]
      && |t.attempts| == |s.attempts| + 1 && t.retryCounter == s.retryCounter
      && t.retries == s.retries && t.store == s.store
  {
  }

  /** The first half of a round: busy, so a retry is scheduled under the forged key. */
  lemma AskIsRetried(keys: KeyScheme, scenes: SceneTable, maxDepth: nat, s: State, m: nat)
    requires maxDepth >= 1 && Round(keys, s, m)
    ensures var t := Process(OneDevice(keys, scenes, maxDepth), Forging(keys), s);
      && t.queue == [Queued(TimerElapsed(keys.retry(m + 1)), 1)] && |t.attempts| == 2 * m + 2
      && t.retryCounter == m + 1 && t.store == map[]
      && t.retries == map[keys.retry(m + 1) := PendingRetry(SetSwitch(1, true), 2)]
  {
    ForgingScript(keys, m);
    AskDispatches(OneDevice(keys, scenes, maxDepth), Forging(keys), Popped(s), 1);
    BusyDelivery(OneDevice(keys, scenes, maxDepth), Forging(keys), Popped(s), 1);
  }

  /** The second half: the forged timer re-issues the command from depth 0, whose answer
      sets up the next round. */
  lemma ForgedTimerReissues(w: Wiring, answers: Answers, s: State, key: TimerKey)
    requires 1 in w.bound && w.maxDepth >= 1 && |s.queue| == 1 && s.queue[0].depth == 1
    requires s.queue[0].event.TimerElapsed? && s.store == map[]
    requires s.retries == map[s.queue[0].event.key := PendingRetry(SetSwitch(1, true), 2)]
    requires answers(|s.attempts|) == Ok([ASK, TimerElapsed(key)])
    ensures var t := Process(w, answers, s);
      && t.queue == [Queued(ASK, 1), Queued(TimerElapsed(key), 1)] && |t.attempts| == |s.attempts| + 1
      && t.retryCounter == s.retryCounter && t.retries == map[] && t.store == map[]
  {
    var mine := s.queue[0].event.key;
    var taken := Popped(s).(retries := s.retries - {mine});
    assert s.retries - {mine} == map[];
    ForgedDelivery(w, answers, taken, 2, 0, Some(mine), key);
  }

  lemma ForgedRound(keys: KeyScheme, scenes: SceneTable, maxDepth: nat, s: State, m: nat)
    requires maxDepth >= 1 && Round(keys, s, m)
    ensures var w, answers := OneDevice(keys, scenes, maxDepth), Forging(keys);
      var t := Process(w, answers, s);
      t.queue != [] && Round(keys, Process(w, answers, t), m + 1)
  {
    var w, answers := OneDevice(keys, scenes, maxDepth), Forging(keys);
    AskIsRetried(keys, scenes, maxDepth, s, m);
    ForgingScript(keys, m + 1);
    ForgedTimerReissues(w, answers, Process(w, answers, s), keys.retry(m + 2));
  }

  lemma {:induction false} ForgingStaysBusy(keys: KeyScheme, scenes: SceneTable, maxDepth: nat, s: State, m: nat,
      n: nat)
    requires maxDepth >= 1 && Round(keys, s, m)
    ensures StillBusy(OneDevice(keys, scenes, maxDepth), Forging(keys), s, n)
    decreases n
  {
    var w, answers := OneDevice(keys, scenes, maxDepth), Forging(keys);
    ForgedRound(keys, scenes, maxDepth, s, m);
    if n >= 2 {
      ForgingStaysBusy(keys, scenes, maxDepth, Process(w, answers, Process(w, answers, s)), m + 1, n - 2);
    }
  }

  /** The state right after the host has injected an event into a fresh engine. */
  function Asked(): State {
    INITIAL.(queue := [Queued(ASK, 0)])
  }

  lemma AskedStartsRounds(keys: KeyScheme, scenes: SceneTable, maxDepth: nat)
    ensures Round(keys, Process(OneDevice(keys, scenes, maxDepth), Forging(keys), Asked()), 0)
  {
    var w, answers := OneDevice(keys, scenes, maxDepth), Forging(keys);
    ForgingScript(keys, 0);
    AskDispatches(w, answers, Popped(Asked()), 0);
    ForgedDelivery(w, answers, Popped(Asked()), 1, 0, None, keys.retry(1));
  }

  /** With one forging adapter a single request keeps the loop busy forever, in a
      configuration with no rules at all, never deeper than layer 1. */
  lemma ForgedTimersNeverDrain(keys: KeyScheme, scenes: SceneTable, maxDepth: nat, n: nat)
    requires maxDepth >= 1
    ensures StillBusy(OneDevice(keys, scenes, maxDepth), Forging(keys), Asked(), n)
  {
    AskedStartsRounds(keys, scenes, maxDepth);
    if n > 0 {
      var w := OneDevice(keys, scenes, maxDepth);
      ForgingStaysBusy(keys, scenes, maxDepth, Process(w, Forging(keys), Asked()), 0, n - 1);
    }
  }

  /** That configuration is well-formed if it has no scenes, say. */
  lemma OneDeviceWellFormed(keys: KeyScheme, maxDepth: nat)
    requires keys.Valid()
    ensures WellFormed(OneDevice(keys, map[], maxDepth))
  {
  }

  // --- a cyclic scene: one iteration never finishes ----------------------------------------------------

  /** The host asks for a scene. */
  function Requested(scene: SceneId): State {
    INITIAL.(queue := [Queued(RequestedScene(scene), 0)])
  }

  /** Activating a scene that reaches itself never returns, whatever the limit and whatever
      the adapters answer. */
  lemma CyclicSceneNeverDrains(w: Wiring, answers: Answers, scene: SceneId, n: nat)
    requires scene in w.scenes && !NoRevisit(w.scenes, w.scenes[scene], w.scenes.Keys - {scene})
    ensures StillBusy(w, answers, Requested(scene), n)
  {
    assert !NoRevisit(w.scenes, [ActivateScene(scene)], w.scenes.Keys);
    ExpansionTerminatesIff(w.scenes, [ActivateScene(scene)]);
    assert !Completes(w, Requested(scene));
  }

  // --- the exact conditions ---------------------------------------------------------------------------

  /** With these scenes and this limit every adapter script drains, in every configuration
      and every state. */
  ghost predicate AlwaysDrains(keys: KeyScheme, scenes: SceneTable, maxDepth: nat) {
    forall w: Wiring, answers: Answers, s: State | w.keys == keys && w.scenes == scenes && w.maxDepth == maxDepth ::
      Drains(w, answers, s)
  }

  /** The depth limit guarantees quiescence exactly when it is 0 and no scene reaches itself. */
  lemma DepthLimitSufficesIff(keys: KeyScheme, scenes: SceneTable, maxDepth: nat)
    ensures AlwaysDrains(keys, scenes, maxDepth) <==> maxDepth == 0 && Acyclic(scenes)
  {
    if maxDepth == 0 && Acyclic(scenes) {
      forall w: Wiring, answers: Answers, s: State | w.keys == keys && w.scenes == scenes && w.maxDepth == 0
        ensures Drains(w, answers, s)
      {
        ZeroLimitDrains(w, answers, s);
      }
    } else if maxDepth >= 1 {
      forall n: nat ensures StillBusy(OneDevice(keys, scenes, maxDepth), Forging(keys), Asked(), n) {
        ForgedTimersNeverDrain(keys, scenes, maxDepth, n);
      }
      assert !Drains(OneDevice(keys, scenes, maxDepth), Forging(keys), Asked());
    } else {
      CyclicDrainsNot(keys, scenes, maxDepth);
    }
  }

  lemma CyclicDrainsNot(keys: KeyScheme, scenes: SceneTable, maxDepth: nat)
    requires !Acyclic(scenes)
    ensures !AlwaysDrains(keys, scenes, maxDepth)
  {
    var scene :| scene in scenes.Keys && !NoRevisit(scenes, scenes[scene], scenes.Keys - {scene});
    forall n: nat ensures StillBusy(OneDevice(keys, scenes, maxDepth), Forging(keys), Requested(scene), n) {
      CyclicSceneNeverDrains(OneDevice(keys, scenes, maxDepth), Forging(keys), scene, n);
    }
    assert !Drains(OneDevice(keys, scenes, maxDepth), Forging(keys), Requested(scene));
  }

  /** Among adapters that forge finitely often, the scenes alone decide: every state with
      sane tables drains, whatever the limit, exactly when no scene reaches itself. */
  lemma HonestyLeavesScenes(keys: KeyScheme, scenes: SceneTable, maxDepth: nat)
    requires keys.Valid()
    ensures Acyclic(scenes) <==>
      forall w: Wiring, answers: Answers, s: State, n: nat
        | w.keys == keys && w.scenes == scenes && w.maxDepth == maxDepth && Tabled(w, s) && HonestFrom(w, answers, n) ::
        Drains(w, answers, s)
  {
    if Acyclic(scenes) {
      forall w: Wiring, answers: Answers, s: State, n: nat
        | w.keys == keys && w.scenes == scenes && w.maxDepth == maxDepth && Tabled(w, s) && HonestFrom(w, answers, n)
        ensures Drains(w, answers, s)
      {
        EventuallyHonestDrains(w, answers, s, n);
      }
    } else {
      var scene :| scene in scenes.Keys && !NoRevisit(scenes, scenes[scene], scenes.Keys - {scene});
      var w, answers := OneDevice(keys, scenes, maxDepth), Refusing();
      forall n: nat ensures StillBusy(w, answers, Requested(scene), n) {
        CyclicSceneNeverDrains(w, answers, scene, n);
      }
      assert Tabled(w, Requested(scene)) && HonestFrom(w, answers, 0);
      assert !Drains(w, answers, Requested(scene));
    }
  }

  function Refusing(): Answers {
    (n: nat) => Permanent("no")
  }

  /** In every configuration with acyclic scenes every state of every run drains if the
      limit is 0 or the adapters answer with the engine's own timers finitely often. */
  lemma RunsDrain(w: Wiring, answers: Answers, states: seq<State>, inputs: seq<Input>, n: nat)
    requires Acyclic(w.scenes) && w.keys.Valid() && IsRun(w, answers, states, inputs) && n < |states|
    requires w.maxDepth == 0 || exists m: nat :: HonestFrom(w, answers, m)
    ensures Drains(w, answers, states[n])
  {
    if w.maxDepth == 0 {
      ZeroLimitDrains(w, answers, states[n]);
    } else {
      var m: nat :| HonestFrom(w, answers, m);
      RunsStayTabled(w, answers, states, inputs, n);
      EventuallyHonestDrains(w, answers, states[n], m);
    }
  }
}
