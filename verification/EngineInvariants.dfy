/** What every reachable state of the event loop keeps: a layered queue, one owner for
    every generated timer key, true predicates under every pending `for:` wait, and sane
    retry entries. */
module EngineInvariants {
  import opened Model
  import opened TimerKeys
  import opened StateStore
  import opened Ordering
  import opened Scheduler
  import opened Scenes
  import opened EngineSpec

  // --- the queue ----------------------------------------------------------------

  /** The timer keys waiting in the queue as `TimerElapsed`, in order. */
  function Elapsing(queue: seq<Queued>): seq<TimerKey> {
    if queue == [] then []
    else (if queue[0].event.TimerElapsed? then [queue[0].event.key] else []) + Elapsing(queue[1..])
  }

  lemma {:induction false} ElapsingAppend(a: seq<Queued>, b: seq<Queued>)
    ensures Elapsing(a + b) == Elapsing(a) + Elapsing(b)
    decreases |a|
  {
    if a == [] {
      assert a + b == b;
    } else {
      assert (a + b)[1..] == a[1..] + b;
      ElapsingAppend(a[1..], b);
    }
  }

  ghost predicate AllClean(queue: seq<Queued>) {
    forall i :: 0 <= i < |queue| ==> Clean(queue[i].event)
  }

  lemma {:induction false} CleanNeverElapses(queue: seq<Queued>)
    requires AllClean(queue)
    ensures Elapsing(queue) == []
    decreases |queue|
  {
    if queue != [] {
      CleanNeverElapses(queue[1..]);
    }
  }

  lemma PushElapsing(queue: seq<Queued>, after: seq<Queued>)
    requires queue != [] && queue[1..] <= after
    requires forall i :: |queue| - 1 <= i < |after| ==> Clean(after[i].event)
    ensures forall key <- Elapsing(after) :: key in Elapsing(queue)
  {
    var pushed := after[|queue| - 1..];
    assert after == queue[1..] + pushed;
    ElapsingAppend(queue[1..], pushed);
    CleanNeverElapses(pushed);
  }

  /** Depths never decrease along the queue and span at most the layer `d` and the next;
      the engine's own timers sit in layer 0. */
  predicate Layer(w: Wiring, queue: seq<Queued>, d: nat) {
    && (forall i, j :: 0 <= i < j < |queue| ==> queue[i].depth <= queue[j].depth)
    && (forall i :: 0 <= i < |queue| ==> d <= queue[i].depth <= d + 1)
    && (forall i :: 0 <= i < |queue| && ReservedTimer(w, queue[i].event) ==> queue[i].depth == 0)
  }

  predicate Layered(w: Wiring, queue: seq<Queued>) {
    queue == [] ||
    (Layer(w, queue, queue[0].depth) && forall i :: 0 <= i < |queue| ==> queue[i].depth <= w.maxDepth + 1)
  }

  // --- ownership ------------------------------------------------------------------

  predicate InOnePlace(s: State, key: TimerKey) {
    key in s.timers <==> key !in Elapsing(s.queue)
  }

  /** Every wait has its own key; the key is in the scheduler or in one queued event,
      never both, never twice; and no reserved key in the scheduler is orphaned. */
  ghost predicate Owned(w: Wiring, s: State) {
    && NoDuplicates(Elapsing(s.queue))
    && (forall key <- s.retries.Keys :: OwnsRetry(w, s, key))
    && (forall id <- s.pendingFor.Keys :: OwnsWait(w, s, s.pendingFor[id]))
    && OneRulePerKey(s)
    && (forall key <- s.timers.Keys :: Claimed(w, s, key))
    && (forall key <- Elapsing(s.queue) :: Expected(w, s, key))
  }

  ghost predicate OwnsRetry(w: Wiring, s: State, key: TimerKey) {
    w.keys.isRetry(key) && w.keys.serial(key) <= s.retryCounter && InOnePlace(s, key)
  }

  ghost predicate OwnsWait(w: Wiring, s: State, key: TimerKey) {
    w.keys.isFor(key) && w.keys.serial(key) <= s.forCounter && InOnePlace(s, key)
  }

  ghost predicate OneRulePerKey(s: State) {
    forall a, b :: a in s.pendingFor && b in s.pendingFor && s.pendingFor[a] == s.pendingFor[b] ==> a == b
  }

  /** A queued reserved key is a pending retry, or a wait's key that left the scheduler. */
  ghost predicate Expected(w: Wiring, s: State, key: TimerKey) {
    (w.keys.isRetry(key) ==> key in s.retries)
    && (w.keys.isFor(key) ==> w.keys.serial(key) <= s.forCounter && key !in s.timers)
  }

  /** A reserved key in the scheduler belongs to a pending retry or a pending wait. */
  ghost predicate Claimed(w: Wiring, s: State, key: TimerKey) {
    (w.keys.isRetry(key) ==> key in s.retries)
    && (w.keys.isFor(key) ==> exists id :: AwaitedBy(s, id, key))
  }

  /** A rule waiting out its `for:` has its predicate true in the store. */
  ghost predicate Waiting(w: Wiring, s: State) {
    forall id <- s.pendingFor.Keys ::
      Sustains(w, id, s.store) && FindRule(w.rules, id).value.forDuration.Some?
  }

  /** Pending retries are device commands on an attempt between the second and the last. */
  ghost predicate Retrying(w: Wiring, s: State) {
    forall key <- s.retries.Keys ::
      2 <= s.retries[key].attempt <= w.retry.maxAttempts && s.retries[key].command.TargetsDevice()
  }

  ghost predicate Inv(w: Wiring, s: State) {
    && Layered(w, s.queue)
    && Owned(w, s)
    && Waiting(w, s)
    && Retrying(w, s)
    && s.store == Replay(s.received)
    && (forall e <- s.inbox :: e.RequestedChange?)
  }

  // --- deliveries ------------------------------------------------------------------

  /** Everything a dispatch leaves alone, and the layer it may push into. */
  ghost predicate Delivered(s: State, t: State, depth: nat) {
    && t == s.(queue := t.queue, timers := t.timers, retries := t.retries,
               retryCounter := t.retryCounter, attempts := t.attempts)
    && s.queue <= t.queue && s.attempts <= t.attempts
    && (forall i :: |s.queue| <= i < |t.queue| ==> t.queue[i].depth == depth + 1 && Clean(t.queue[i].event))
  }

  /** Arming changes the waits and their timers only. */
  ghost predicate Armed(s: State, t: State) {
    t == s.(timers := t.timers, pendingFor := t.pendingFor, forCounter := t.forCounter)
  }

  lemma ResolvedTarget(store: Store, command: Command)
    ensures var r := ResolveImplicit(store, command);
      r.TargetsDevice() == command.TargetsDevice() && r.Target() == command.Target()
      && (!command.TargetsDevice() ==> r == command)
  {
  }

  lemma ReplyFrame(w: Wiring, outcome: DispatchOutcome, command: Command, attempt: nat, depth: nat)
    requires CleanOutcome(outcome)
    ensures var pushed := Reply(w, outcome, command, attempt, depth);
      forall i :: 0 <= i < |pushed| ==> pushed[i].depth == depth + 1 && Clean(pushed[i].event)
  {
  }

  lemma DeliverFrame(w: Wiring, answers: Answers, s: State, command: Command, attempt: nat, depth: nat,
      via: Option<TimerKey>)
    requires CleanAnswers(answers) && !command.ActivateScene?
    ensures Delivered(s, Deliver(w, answers, s, command, attempt, depth, via), depth)
  {
    ResolvedTarget(s.store, command);
    if command.TargetsDevice() {
      var resolved := ResolveImplicit(s.store, command);
      assert CleanOutcome(answers(|s.attempts|));
      ReplyFrame(w, Answer(w, answers, s, resolved.device), resolved, attempt, depth);
    }
  }

  lemma DeliveredElapsing(s: State, t: State, depth: nat)
    requires Delivered(s, t, depth)
    ensures Elapsing(t.queue) == Elapsing(s.queue)
  {
    var pushed := t.queue[|s.queue|..];
    assert t.queue == s.queue + pushed;
    CleanNeverElapses(pushed);
    ElapsingAppend(s.queue, pushed);
  }

  /** Ownership reads the queue only through the timer keys waiting in it. */
  lemma OwnedByTables(w: Wiring, s: State, t: State)
    requires Owned(w, s) && Elapsing(t.queue) == Elapsing(s.queue)
    requires SameTables(s, t)
    ensures Owned(w, t)
  {
    forall key <- t.timers.Keys ensures Claimed(w, t, key) {
      assert Claimed(w, s, key);
      if w.keys.isFor(key) {
        var id :| AwaitedBy(s, id, key);
        assert AwaitedBy(t, id, key);
      }
    }
  }

  lemma UserTimerOwns(w: Wiring, s: State, key: TimerKey, timers: Timers)
    requires Owned(w, s) && !w.keys.Reserved(key)
    requires timers.Keys - {key} == s.timers.Keys - {key}
    ensures Owned(w, s.(timers := timers))
  {
    var t := s.(timers := timers);
    forall k <- t.timers.Keys ensures Claimed(w, t, k) {
      if k != key {
        assert k in t.timers.Keys - {key};
        assert Claimed(w, s, k);
        if w.keys.isFor(k) {
          var id :| AwaitedBy(s, id, k);
          assert AwaitedBy(t, id, k);
        }
      }
    }
    forall k | k != key ensures k in t.timers <==> k in s.timers {
      assert k in t.timers.Keys - {key} <==> k in s.timers.Keys - {key};
    }
  }

  /** The second assumption is exact: a user timer command keeps every wait owned if and
      only if it creates no reserved key and cancels none that is pending. */
  lemma TimerCommandOwnsIff(w: Wiring, answers: Answers, s: State, command: Command, depth: nat)
    requires w.keys.Valid() && Owned(w, s) && (command.ScheduleTimer? || command.CancelTimer?)
    ensures Owned(w, Deliver(w, answers, s, command, 1, depth, None)) <==>
      !w.keys.Reserved(command.key) || (command.ScheduleTimer? <==> command.key in s.timers)
  {
    var key, t := command.key, Deliver(w, answers, s, command, 1, depth, None);
    if !w.keys.Reserved(key) {
      UserTimerOwns(w, s, key, t.timers);
    } else if command.ScheduleTimer? <==> key in s.timers {
      assert t.timers.Keys == s.timers.Keys;
      SameKeysOwn(w, s, t);
    } else {
      ReservedBreaksOwnership(w, s, t, key);
    }
  }

  lemma SameKeysOwn(w: Wiring, s: State, t: State)
    requires Owned(w, s) && t == s.(timers := t.timers) && t.timers.Keys == s.timers.Keys
    ensures Owned(w, t)
  {
    forall key <- t.timers.Keys ensures Claimed(w, t, key) {
      assert key in s.timers.Keys && Claimed(w, s, key);
      if w.keys.isFor(key) {
        var id :| AwaitedBy(s, id, key);
        assert AwaitedBy(t, id, key);
      }
    }
    forall key ensures key in t.timers <==> key in s.timers {
      assert key in t.timers.Keys <==> key in s.timers.Keys;
    }
  }

  /** Some pending retry or wait has this key. */
  ghost predicate Held(s: State, key: TimerKey) {
    key in s.retries || exists id: RuleId :: AwaitedBy(s, id, key)
  }

  lemma HeldInOnePlace(w: Wiring, s: State, key: TimerKey)
    requires Owned(w, s) && Held(s, key)
    ensures InOnePlace(s, key)
  {
    if key in s.retries {
      assert OwnsRetry(w, s, key);
    } else {
      var id :| AwaitedBy(s, id, key);
      assert OwnsWait(w, s, s.pendingFor[id]);
    }
  }

  lemma ReservedTimerHeld(w: Wiring, s: State, key: TimerKey)
    requires Owned(w, s) && w.keys.Reserved(key) && key in s.timers
    ensures Held(s, key) && key !in Elapsing(s.queue)
  {
    assert Claimed(w, s, key);
    HeldInOnePlace(w, s, key);
  }

  lemma ReservedBreaksOwnership(w: Wiring, s: State, t: State, key: TimerKey)
    requires w.keys.Reserved(key) && Owned(w, s) && t == s.(timers := t.timers)
    requires (key in t.timers <==> key !in s.timers)
    ensures !Owned(w, t)
  {
    if Owned(w, t) {
      var before, after := if key in s.timers then s else t, if key in s.timers then t else s;
      ReservedTimerHeld(w, before, key);
      HeldSame(before, after, key);
      HeldInOnePlace(w, after, key);
      assert false;
    }
  }

  lemma HeldSame(s: State, t: State, key: TimerKey)
    requires t.retries == s.retries && t.pendingFor == s.pendingFor && Held(s, key)
    ensures Held(t, key)
  {
    if id: RuleId :| AwaitedBy(s, id, key) {
      assert AwaitedBy(t, id, key);
    }
  }

  ghost predicate SchedulesRetry(w: Wiring, s: State, t: State) {
    var key := w.keys.retry(s.retryCounter + 1);
    t.retryCounter == s.retryCounter + 1 && t.pendingFor == s.pendingFor && t.forCounter == s.forCounter
    && t.retries.Keys == s.retries.Keys + {key} && t.timers.Keys == s.timers.Keys + {key}
  }

  lemma FreshRetryKey(w: Wiring, s: State)
    requires w.keys.Valid() && Owned(w, s)
    ensures var key := w.keys.retry(s.retryCounter + 1);
      w.keys.isRetry(key) && !w.keys.isFor(key) && w.keys.serial(key) == s.retryCounter + 1
      && key !in s.retries && key !in s.timers && key !in Elapsing(s.queue)
  {
    var key := w.keys.retry(s.retryCounter + 1);
    assert w.keys.serial(key) == s.retryCounter + 1 && w.keys.isRetry(key);
    assert key !in s.retries by { assert key in s.retries ==> OwnsRetry(w, s, key); }
    assert key !in s.timers by { assert key in s.timers ==> Claimed(w, s, key); }
    assert key !in Elapsing(s.queue) by { assert key in Elapsing(s.queue) ==> Expected(w, s, key); }
  }

  lemma RetryScheduledOwns(w: Wiring, s: State, t: State)
    requires w.keys.Valid() && Owned(w, s) && SchedulesRetry(w, s, t)
    requires Elapsing(t.queue) == Elapsing(s.queue)
    ensures Owned(w, t)
  {
    var key := w.keys.retry(s.retryCounter + 1);
    FreshRetryKey(w, s);
    forall k <- t.retries.Keys ensures OwnsRetry(w, t, k) {
      assert k != key ==> OwnsRetry(w, s, k);
    }
    forall id <- t.pendingFor.Keys ensures OwnsWait(w, t, t.pendingFor[id]) {
      assert OwnsWait(w, s, s.pendingFor[id]);
    }
    forall k <- t.timers.Keys ensures Claimed(w, t, k) {
      if k != key {
        assert Claimed(w, s, k);
        if w.keys.isFor(k) {
          var id :| AwaitedBy(s, id, k);
          assert AwaitedBy(t, id, k);
        }
      }
    }
    forall k <- Elapsing(t.queue) ensures Expected(w, t, k) {
      assert Expected(w, s, k);
    }
  }

  ghost predicate SameTables(s: State, t: State) {
    t.timers == s.timers && t.retries == s.retries && t.pendingFor == s.pendingFor
    && t.retryCounter == s.retryCounter && t.forCounter == s.forCounter
  }

  /** A device dispatch moves the tables exactly as its outcome says. */
  lemma DeviceDeliveryTables(w: Wiring, answers: Answers, s: State, command: Command, attempt: nat, depth: nat,
      via: Option<TimerKey>)
    requires command.TargetsDevice()
    ensures var t := Deliver(w, answers, s, command, attempt, depth, via);
      if Retryable(w, Answer(w, answers, s, command.device), attempt) then SchedulesRetry(w, s, t) else SameTables(s, t)
  {
    ResolvedTarget(s.store, command);
  }

  lemma DeliverOwns(w: Wiring, answers: Answers, s: State, command: Command, attempt: nat, depth: nat,
      via: Option<TimerKey>)
    requires w.keys.Valid() && CleanAnswers(answers) && !command.ActivateScene? && UserKeyed(w, command) && Owned(w, s)
    ensures Owned(w, Deliver(w, answers, s, command, attempt, depth, via))
  {
    var t := Deliver(w, answers, s, command, attempt, depth, via);
    DeliverFrame(w, answers, s, command, attempt, depth, via);
    DeliveredElapsing(s, t, depth);
    if command.TargetsDevice() {
      DeviceDeliveryTables(w, answers, s, command, attempt, depth, via);
      if Retryable(w, Answer(w, answers, s, command.device), attempt) {
        RetryScheduledOwns(w, s, t);
      } else {
        OwnedByTables(w, s, t);
      }
    } else {
      UserTimerOwns(w, s, command.key, t.timers);
    }
  }

  lemma DeliveredWaits(w: Wiring, s: State, t: State, depth: nat)
    requires Delivered(s, t, depth) && Waiting(w, s)
    ensures Waiting(w, t)
  {
  }

  lemma DeliverRetrying(w: Wiring, answers: Answers, s: State, command: Command, attempt: nat, depth: nat,
      via: Option<TimerKey>)
    requires !command.ActivateScene? && attempt >= 1 && Retrying(w, s)
    ensures Retrying(w, Deliver(w, answers, s, command, attempt, depth, via))
  {
    ResolvedTarget(s.store, command);
  }

  lemma DeliverKeeps(w: Wiring, answers: Answers, s: State, command: Command, attempt: nat, depth: nat,
      via: Option<TimerKey>)
    requires w.keys.Valid() && CleanAnswers(answers) && !command.ActivateScene? && UserKeyed(w, command) && attempt >= 1
    requires Owned(w, s) && Waiting(w, s) && Retrying(w, s)
    ensures var t := Deliver(w, answers, s, command, attempt, depth, via);
      Delivered(s, t, depth) && Owned(w, t) && Waiting(w, t) && Retrying(w, t)
  {
    DeliverFrame(w, answers, s, command, attempt, depth, via);
    DeliverOwns(w, answers, s, command, attempt, depth, via);
    DeliverRetrying(w, answers, s, command, attempt, depth, via);
    DeliveredWaits(w, s, Deliver(w, answers, s, command, attempt, depth, via), depth);
  }

  lemma {:induction false} DeliverAllKeeps(w: Wiring, answers: Answers, s: State, commands: seq<Command>, depth: nat)
    requires w.keys.Valid() && CleanAnswers(answers) && (forall c <- commands :: !c.ActivateScene? && UserKeyed(w, c))
    requires Owned(w, s) && Waiting(w, s) && Retrying(w, s)
    ensures var t := DeliverAll(w, answers, s, commands, depth);
      Delivered(s, t, depth) && Owned(w, t) && Waiting(w, t) && Retrying(w, t)
    decreases |commands|
  {
    if commands != [] {
      DeliverKeeps(w, answers, s, commands[0], 1, depth, None);
      DeliverAllKeeps(w, answers, Deliver(w, answers, s, commands[0], 1, depth, None), commands[1..], depth);
    }
  }

  lemma {:induction false} LeavesUserKeyed(w: Wiring, scenes: SceneTable, commands: seq<Command>, avail: set<SceneId>)
    requires forall c <- commands :: UserKeyed(w, c)
    requires forall scene <- scenes.Keys, c <- scenes[scene] :: UserKeyed(w, c)
    ensures forall c <- Leaves(scenes, commands, avail) :: UserKeyed(w, c)
    decreases avail, |commands|
  {
    if commands != [] {
      if Opens(scenes, commands[0]) && commands[0].scene in avail {
        LeavesUserKeyed(w, scenes, scenes[commands[0].scene], avail - {commands[0].scene});
      }
      LeavesUserKeyed(w, scenes, commands[1..], avail);
    }
  }

  lemma RunKeeps(w: Wiring, answers: Answers, s: State, commands: seq<Command>, depth: nat)
    requires CleanAnswers(answers) && WellFormed(w) && (forall c <- commands :: UserKeyed(w, c))
    requires Owned(w, s) && Waiting(w, s) && Retrying(w, s)
    ensures var t := Run(w, answers, s, commands, depth);
      Delivered(s, t, depth) && Owned(w, t) && Waiting(w, t) && Retrying(w, t)
  {
    LeavesUserKeyed(w, w.scenes, commands, w.scenes.Keys);
    DeliverAllKeeps(w, answers, s, Flatten(w.scenes, commands), depth);
  }

  // --- folding, cancelling, arming ---------------------------------------------------

  lemma CancelledKeys(w: Wiring, s: State, key: TimerKey)
    requires w.keys.Valid() && Owned(w, s)
    requires key in (set id | id in Reverted(w, s) :: s.pendingFor[id])
    ensures w.keys.isFor(key) && key !in s.retries
    ensures forall id <- CancelReverted(w, s).pendingFor.Keys :: s.pendingFor[id] != key
  {
    var id :| id in Reverted(w, s) && s.pendingFor[id] == key;
    assert OwnsWait(w, s, key);
    assert key in s.retries ==> OwnsRetry(w, s, key);
  }

  lemma CancelOwns(w: Wiring, s: State)
    requires w.keys.Valid() && Owned(w, s)
    ensures Owned(w, CancelReverted(w, s))
  {
    var t := CancelReverted(w, s);
    var cancelled := set id | id in Reverted(w, s) :: s.pendingFor[id];
    assert t.timers == s.timers - cancelled;
    forall key <- cancelled
      ensures w.keys.isFor(key) && key !in s.retries && forall id <- t.pendingFor.Keys :: s.pendingFor[id] != key
    {
      CancelledKeys(w, s, key);
    }
    forall key <- t.retries.Keys ensures OwnsRetry(w, t, key) {
      assert OwnsRetry(w, s, key);
    }
    forall id <- t.pendingFor.Keys ensures OwnsWait(w, t, t.pendingFor[id]) {
      assert OwnsWait(w, s, s.pendingFor[id]);
    }
    forall key <- t.timers.Keys ensures Claimed(w, t, key) {
      assert Claimed(w, s, key);
      if w.keys.isFor(key) {
        var id :| AwaitedBy(s, id, key);
        assert AwaitedBy(t, id, key);
      }
    }
    forall key <- Elapsing(t.queue) ensures Expected(w, t, key) {
      assert Expected(w, s, key);
    }
  }
}
