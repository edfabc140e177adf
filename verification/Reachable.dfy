/** Every reachable state satisfies the engine invariant: each kind of step keeps it, for
    every adapter that does not forge timer events and every well-formed configuration. */
module Reachable {
  import opened Model
  import opened TimerKeys
  import opened StateStore
  import opened Rules
  import opened Ordering
  import opened Scheduler
  import opened EngineSpec
  import opened EngineInvariants
  import opened AnyRun

  // --- rules ------------------------------------------------------------------------

  lemma {:induction false} FindsDistinct(rules: seq<Rule>, rule: Rule)
    requires DistinctIds(rules) && rule in rules
    ensures FindRule(rules, rule.id) == Some(rule)
  {
    if rules[0] != rule {
      var i :| 0 < i < |rules| && rules[i] == rule;
      assert rules[0].id != rules[i].id;
      assert rules[1..][i - 1] == rule;
      FindsDistinct(rules[1..], rule);
    }
  }

  lemma {:induction false} FindRuleMember(rules: seq<Rule>, id: RuleId)
    ensures var found := FindRule(rules, id);
      found.Some? ==> found.value in rules && found.value.id == id
  {
    if rules != [] && rules[0].id != id {
      FindRuleMember(rules[1..], id);
    }
  }

  lemma {:induction false} FiredMembers(rules: seq<Rule>, event: Event, prior: Option<CapabilityState>, store: Store)
    ensures forall r :: r in Fired(rules, event, prior, store) <==> r in rules && r.Fires(event, prior, store)
  {
    if rules != [] {
      FiredMembers(rules[1..], event, prior, store);
      assert rules == [rules[0]] + rules[1..];
    }
  }

  /** Rules fire in the order they are configured in. */
  predicate InIdOrder(rules: seq<Rule>) {
    forall i, j :: 0 <= i < j < |rules| ==> rules[i].id < rules[j].id
  }

  lemma {:induction false} FiredInOrder(rules: seq<Rule>, event: Event, prior: Option<CapabilityState>, store: Store)
    requires InIdOrder(rules)
    ensures InIdOrder(Fired(rules, event, prior, store))
  {
    if rules != [] {
      var rest := Fired(rules[1..], event, prior, store);
      FiredInOrder(rules[1..], event, prior, store);
      FiredMembers(rules[1..], event, prior, store);
      forall j | 0 <= j < |rest| ensures rules[0].id < rest[j].id {
        assert rest[j] in rest;
        var k :| 0 <= k < |rules[1..]| && rules[1..][k] == rest[j];
        assert rules[k + 1] == rest[j];
      }
    }
  }

  lemma {:induction false} FiredDistinct(rules: seq<Rule>, event: Event, prior: Option<CapabilityState>, store: Store)
    requires DistinctIds(rules)
    ensures DistinctIds(Fired(rules, event, prior, store))
  {
    if rules != [] {
      var rest := Fired(rules[1..], event, prior, store);
      FiredDistinct(rules[1..], event, prior, store);
      FiredMembers(rules[1..], event, prior, store);
      forall j | 0 <= j < |rest| ensures rules[0].id != rest[j].id {
        assert rest[j] in rest;
        var k :| 0 <= k < |rules[1..]| && rules[1..][k] == rest[j];
        assert rules[k + 1] == rest[j];
      }
    }
  }

  /** What runs at once comes from rules without a `for:`; the others only ever arm. */
  lemma {:induction false} ImmediateMembers(fired: seq<Rule>)
    ensures forall c <- Immediate(fired) :: exists r <- fired :: r.forDuration.None? && c in r.commands
  {
    if fired != [] {
      ImmediateMembers(fired[1..]);
      assert fired == [fired[0]] + fired[1..];
      forall c <- Immediate(fired) ensures exists r <- fired :: r.forDuration.None? && c in r.commands {
        if c !in Immediate(fired[1..]) {
          assert fired[0] in fired && c in fired[0].commands;
        } else {
          var r :| r in fired[1..] && r.forDuration.None? && c in r.commands;
          assert r in fired;
        }
      }
    }
  }

  // --- arming ------------------------------------------------------------------------

  /** What arming needs of the rules that fired: their own entries, true predicates, and no
      wait already pending. */
  ghost predicate Armable(w: Wiring, s: State, fired: seq<Rule>) {
    DistinctIds(fired) && forall r <- fired | r.forDuration.Some? :: ReadyToArm(w, s, r)
  }

  ghost predicate ReadyToArm(w: Wiring, s: State, rule: Rule) {
    FindRule(w.rules, rule.id) == Some(rule) && rule.trigger.PredicateHolds(s.store) && rule.id !in s.pendingFor
  }

  lemma ArmOwns(w: Wiring, s: State, id: RuleId, after: Millis)
    requires w.keys.Valid() && Owned(w, s) && id !in s.pendingFor
    ensures Owned(w, Arm(w, s, id, after))
  {
    var t := Arm(w, s, id, after);
    var key := w.keys.sustained(s.forCounter + 1);
    assert w.keys.serial(key) == s.forCounter + 1 && w.keys.isFor(key) && !w.keys.isRetry(key);
    forall a: RuleId ensures !AwaitedBy(s, a, key) {
      assert AwaitedBy(s, a, key) ==> OwnsWait(w, s, key);
    }
    assert key !in s.timers by { assert key in s.timers ==> Claimed(w, s, key); }
    assert key !in Elapsing(s.queue) by { assert key in Elapsing(s.queue) ==> Expected(w, s, key); }
    forall k <- t.retries.Keys ensures OwnsRetry(w, t, k) {
      assert OwnsRetry(w, s, k);
    }
    forall a <- t.pendingFor.Keys ensures OwnsWait(w, t, t.pendingFor[a]) {
      if a != id {
        assert OwnsWait(w, s, s.pendingFor[a]);
      }
    }
    forall a, b | a in t.pendingFor && b in t.pendingFor && t.pendingFor[a] == t.pendingFor[b] ensures a == b {
      assert a != id ==> AwaitedBy(s, a, t.pendingFor[a]);
      assert b != id ==> AwaitedBy(s, b, t.pendingFor[b]);
    }
    forall k <- t.timers.Keys ensures Claimed(w, t, k) {
      if k == key {
        assert AwaitedBy(t, id, k);
      } else {
        assert Claimed(w, s, k);
        if w.keys.isFor(k) {
          var a :| AwaitedBy(s, a, k);
          assert AwaitedBy(t, a, k);
        }
      }
    }
    forall k <- Elapsing(t.queue) ensures Expected(w, t, k) {
      assert Expected(w, s, k);
    }
  }

  lemma {:induction false} ArmAllKeeps(w: Wiring, s: State, fired: seq<Rule>)
    requires w.keys.Valid() && Armable(w, s, fired) && Owned(w, s) && Waiting(w, s)
    ensures var t := ArmAll(w, s, fired);
      Armed(s, t) && Owned(w, t) && Waiting(w, t)
    decreases |fired|
  {
    if fired != [] {
      var rule := fired[0];
      if rule.forDuration.Some? {
        assert rule in fired && ReadyToArm(w, s, rule);
        var t := Arm(w, s, rule.id, rule.forDuration.value);
        ArmOwns(w, s, rule.id, rule.forDuration.value);
        forall r <- fired[1..] | r.forDuration.Some? ensures ReadyToArm(w, t, r) {
          assert r in fired && ReadyToArm(w, s, r);
          var k :| 0 <= k < |fired[1..]| && fired[1..][k] == r;
          assert fired[0].id != fired[k + 1].id;
        }
        ArmAllKeeps(w, t, fired[1..]);
      } else {
        forall r <- fired[1..] | r.forDuration.Some? ensures ReadyToArm(w, s, r) {
          assert r in fired;
        }
        ArmAllKeeps(w, s, fired[1..]);
      }
    }
  }

  // --- reports -------------------------------------------------------------------------

  lemma FoldedKeeps(w: Wiring, s: State, event: Event)
    requires w.keys.Valid() && Owned(w, s) && Waiting(w, s)
    ensures var t := Folded(w, s, event);
      Owned(w, t) && Waiting(w, t) && t.store == Absorb(s.store, event)
      && t == s.(mirror := t.mirror, store := t.store, pendingFor := t.pendingFor, timers := t.timers)
      && t.pendingFor.Keys <= s.pendingFor.Keys
  {
    if event.StateReported? {
      var folded := Fold(s, event.device, event.state);
      OwnedByTables(w, s, folded);
      CancelOwns(w, folded);
    }
  }

  /** A rule that is already waiting cannot match again: its predicate is still true, so
      the report is no edge. Hence `arm_for_timer` never restarts a wait. */
  lemma WaitingExcludesEdge(w: Wiring, s: State, rule: Rule, event: Event)
    requires WellFormed(w) && Waiting(w, s) && WellKeyed(s.store)
    requires rule in w.rules && rule.forDuration.Some?
    requires rule.Fires(event, Prior(s, event), Folded(w, s, event).store)
    ensures ReadyToArm(w, Folded(w, s, event), rule) && rule.id !in s.pendingFor
  {
    FindsDistinct(w.rules, rule);
    assert rule.trigger.Watched().Some?;
    assert event.StateReported?;
    EdgeIsRisingPredicate(rule.trigger, event, s.store);
    assert Folded(w, s, event).store == Put(s.store, event.device, event.state);
  }

  lemma FiredArmable(w: Wiring, s: State, event: Event)
    requires WellFormed(w) && Waiting(w, s) && WellKeyed(s.store)
    ensures var folded := Folded(w, s, event);
      Armable(w, folded, Fired(w.rules, event, Prior(s, event), folded.store))
  {
    var folded := Folded(w, s, event);
    var fired := Fired(w.rules, event, Prior(s, event), folded.store);
    FiredMembers(w.rules, event, Prior(s, event), folded.store);
    FiredDistinct(w.rules, event, Prior(s, event), folded.store);
    forall r <- fired | r.forDuration.Some? ensures ReadyToArm(w, folded, r) {
      WaitingExcludesEdge(w, s, r, event);
    }
  }

  lemma ImmediateUserKeyed(w: Wiring, s: State, event: Event)
    requires WellFormed(w)
    ensures forall c <- Immediate(Fired(w.rules, event, Prior(s, event), Folded(w, s, event).store)) :: UserKeyed(w, c)
  {
    var store := Folded(w, s, event).store;
    var fired := Fired(w.rules, event, Prior(s, event), store);
    FiredMembers(w.rules, event, Prior(s, event), store);
    ImmediateMembers(fired);
    forall c <- Immediate(fired) ensures UserKeyed(w, c) {
      var r :| r in fired && c in r.commands;
    }
  }

  /** Handling any event but a timer the engine owns. */
  lemma ReactKeeps(w: Wiring, answers: Answers, s: State, event: Event, depth: nat)
    requires WellFormed(w) && CleanAnswers(answers) && WellKeyed(s.store)
    requires Owned(w, s) && Waiting(w, s) && Retrying(w, s)
    ensures Handled(w, s, React(w, answers, s, event, depth), event, depth)
  {
    var folded := Folded(w, s, event);
    var fired := Fired(w.rules, event, Prior(s, event), folded.store);
    FoldedKeeps(w, s, event);
    FiredArmable(w, s, event);
    ArmAllKeeps(w, folded, fired);
    ImmediateUserKeyed(w, s, event);
    RunKeeps(w, answers, ArmAll(w, folded, fired), Immediate(fired), depth);
  }

  /** Handling `event` from `s` ended in `t` with everything kept. */
  ghost predicate Handled(w: Wiring, s: State, t: State, event: Event, depth: nat) {
    HandledFrom(s, t, depth) && Owned(w, t) && Waiting(w, t) && Retrying(w, t) && t.store == Absorb(s.store, event)
  }

  /** What handling one event may push, and what it never touches. */
  ghost predicate HandledFrom(s: State, t: State, depth: nat) {
    t.now == s.now && t.inbox == s.inbox && t.received == s.received
    && s.queue <= t.queue && s.attempts <= t.attempts
    && (forall i :: |s.queue| <= i < |t.queue| ==> t.queue[i].depth == depth + 1 && Clean(t.queue[i].event))
  }

  lemma MirrorOnlyKeeps(w: Wiring, s: State, t: State)
    requires t == s.(mirror := t.mirror) && Owned(w, s)
    ensures Owned(w, t) && (Waiting(w, s) ==> Waiting(w, t)) && (Retrying(w, s) ==> Retrying(w, t))
  {
    OwnedByTables(w, s, t);
  }

  lemma RequestKeeps(w: Wiring, answers: Answers, s: State, device: DeviceId, desired: Desired, depth: nat)
    requires WellFormed(w) && CleanAnswers(answers)
    requires Owned(w, s) && Waiting(w, s) && Retrying(w, s)
    ensures Handled(w, s, Request(w, answers, s, device, desired, depth), RequestedChange(device, desired), depth)
  {
    var command := CommandForRequest(device, desired);
    if command.Some? {
      RunKeeps(w, answers, s, [command.value], depth);
    }
    var ran := RunRequest(w, answers, s, device, desired, depth);
    MirrorOnlyKeeps(w, ran, Request(w, answers, s, device, desired, depth));
  }

  // --- popping timers ------------------------------------------------------------------

  /** `t` is `s` without its first event, and without the wait that event was the timer of. */
  ghost predicate TakenOff(s: State, t: State)
    requires s.queue != []
  {
    var event := s.queue[0].event;
    && t.queue == s.queue[1..] && t.timers == s.timers
    && t.retryCounter == s.retryCounter && t.forCounter == s.forCounter
    && (if event.TimerElapsed? then
          t.retries == s.retries - {event.key}
          && (forall id :: id in t.pendingFor <==> id in s.pendingFor && s.pendingFor[id] != event.key)
          && (forall id <- t.pendingFor.Keys :: t.pendingFor[id] == s.pendingFor[id])
        else t.retries == s.retries && t.pendingFor == s.pendingFor)
  }

  lemma ElapsingPop(queue: seq<Queued>)
    requires queue != [] && NoDuplicates(Elapsing(queue))
    ensures NoDuplicates(Elapsing(queue[1..]))
    ensures forall key :: key in Elapsing(queue[1..]) <==>
      key in Elapsing(queue) && !(queue[0].event.TimerElapsed? && key == queue[0].event.key)
  {
    var all, rest := Elapsing(queue), Elapsing(queue[1..]);
    if queue[0].event.TimerElapsed? {
      assert all == [queue[0].event.key] + rest;
      TailOfDistinct(all);
      assert all[1..] == rest;
    } else {
      assert all == rest;
    }
  }

  lemma TailOfDistinct<T>(xs: seq<T>)
    requires xs != [] && NoDuplicates(xs)
    ensures NoDuplicates(xs[1..])
    ensures forall x :: x in xs[1..] <==> x in xs && x != xs[0]
  {
    assert xs == [xs[0]] + xs[1..];
    forall x | x in xs[1..] ensures x != xs[0] {
      var i :| 0 <= i < |xs[1..]| && xs[1..][i] == x;
      assert xs[i + 1] == x;
    }
  }

  lemma TakenOffOwns(w: Wiring, s: State, t: State)
    requires w.keys.Valid() && Owned(w, s) && s.queue != [] && TakenOff(s, t)
    ensures Owned(w, t)
  {
    ElapsingPop(s.queue);
    forall key <- t.retries.Keys ensures OwnsRetry(w, t, key) {
      assert OwnsRetry(w, s, key);
    }
    forall id <- t.pendingFor.Keys ensures OwnsWait(w, t, t.pendingFor[id]) {
      assert OwnsWait(w, s, s.pendingFor[id]);
    }
    forall key <- t.timers.Keys ensures Claimed(w, t, key) {
      assert Claimed(w, s, key);
      if w.keys.isRetry(key) {
        assert OwnsRetry(w, s, key);
      }
      if w.keys.isFor(key) {
        var id :| AwaitedBy(s, id, key);
        assert OwnsWait(w, s, s.pendingFor[id]);
        assert AwaitedBy(t, id, key);
      }
    }
    forall key <- Elapsing(t.queue) ensures Expected(w, t, key) {
      assert Expected(w, s, key);
    }
  }

  /** A retry timer re-issues its command on the next attempt, from causal depth 0. */
  lemma RetryKeeps(w: Wiring, answers: Answers, s: State)
    requires WellFormed(w) && CleanAnswers(answers)
    requires Owned(w, s) && Waiting(w, s) && Retrying(w, s)
    requires s.queue != [] && s.queue[0].event.TimerElapsed? && s.queue[0].event.key in s.retries
    ensures Handled(w, Popped(s), Reissue(w, answers, Popped(s), s.queue[0].event.key), s.queue[0].event, 0)
  {
    var key := s.queue[0].event.key;
    var pending := s.retries[key];
    var taken := Popped(s).(retries := s.retries - {key});
    assert OwnsRetry(w, s, key);
    forall id <- s.pendingFor.Keys ensures s.pendingFor[id] != key {
      assert OwnsWait(w, s, s.pendingFor[id]);
    }
    TakenOffOwns(w, s, taken);
    DeliverKeeps(w, answers, taken, pending.command, pending.attempt, 0, Some(key));
  }

  /** An elapsed wait fires: the re-check of its predicate never rejects. With one rule
      per key it does not matter how the waiting rule is searched for. */
  lemma ElapsedFires(w: Wiring, answers: Answers, s: State, id: RuleId, key: TimerKey)
    requires Owned(w, s) && Waiting(w, s) && s.queue != [] && AwaitedBy(s, id, key)
    ensures Sustains(w, id, s.store)
    ensures FireElapsed(w, answers, Popped(s), key) ==
      Run(w, answers, Popped(s).(pendingFor := s.pendingFor - {id}), FindRule(w.rules, id).value.commands, 0)
  {
    assert AwaitedBy(Popped(s), id, key);
    forall a: RuleId ensures AwaitedBy(Popped(s), a, key) ==> a == id {
    }
  }

  /** A timer whose wait was cancelled while it sat in the queue does nothing. */
  lemma ElapsedStale(w: Wiring, answers: Answers, s: State, key: TimerKey)
    requires s.queue != [] && forall id: RuleId :: !AwaitedBy(s, id, key)
    ensures FireElapsed(w, answers, Popped(s), key) == Popped(s)
  {
    assert forall id: RuleId :: AwaitedBy(Popped(s), id, key) == AwaitedBy(s, id, key);
  }

  lemma StaleTaken(w: Wiring, s: State, key: TimerKey)
    requires w.keys.Valid() && Owned(w, s) && s.queue != [] && s.queue[0].event == TimerElapsed(key)
    requires w.keys.isFor(key)
    requires forall id: RuleId :: !AwaitedBy(s, id, key)
    ensures Owned(w, Popped(s))
  {
    assert key !in s.retries by { assert key in s.retries ==> OwnsRetry(w, s, key); }
    forall a <- s.pendingFor.Keys ensures s.pendingFor[a] != key {
      assert !AwaitedBy(s, a, key);
    }
    TakenOffOwns(w, s, Popped(s));
  }

  lemma ElapsedTaken(w: Wiring, s: State, id: RuleId, key: TimerKey)
    requires w.keys.Valid() && Owned(w, s) && AwaitedBy(s, id, key)
    requires s.queue != [] && s.queue[0].event == TimerElapsed(key) && w.keys.isFor(key)
    ensures Owned(w, Popped(s).(pendingFor := s.pendingFor - {id}))
  {
    assert key !in s.retries by { assert key in s.retries ==> OwnsRetry(w, s, key); }
    TakenOffOwns(w, s, Popped(s).(pendingFor := s.pendingFor - {id}));
  }

  lemma FiringKeeps(w: Wiring, answers: Answers, s: State, id: RuleId, key: TimerKey)
    requires WellFormed(w) && CleanAnswers(answers)
    requires Owned(w, s) && Waiting(w, s) && Retrying(w, s) && AwaitedBy(s, id, key)
    requires s.queue != [] && s.queue[0].event == TimerElapsed(key) && w.keys.isFor(key)
    ensures Handled(w, Popped(s), FireElapsed(w, answers, Popped(s), key), TimerElapsed(key), 0)
  {
    ElapsedFires(w, answers, s, id, key);
    ElapsedTaken(w, s, id, key);
    FindRuleMember(w.rules, id);
    RunKeeps(w, answers, Popped(s).(pendingFor := s.pendingFor - {id}), FindRule(w.rules, id).value.commands, 0);
  }

  lemma ElapsedKeeps(w: Wiring, answers: Answers, s: State)
    requires WellFormed(w) && CleanAnswers(answers)
    requires Owned(w, s) && Waiting(w, s) && Retrying(w, s)
    requires s.queue != [] && s.queue[0].event.TimerElapsed? && w.keys.isFor(s.queue[0].event.key)
    ensures Handled(w, Popped(s), FireElapsed(w, answers, Popped(s), s.queue[0].event.key), s.queue[0].event, 0)
  {
    var key := s.queue[0].event.key;
    if id: RuleId :| AwaitedBy(s, id, key) {
      FiringKeeps(w, answers, s, id, key);
    } else {
      ElapsedStale(w, answers, s, key);
      StaleTaken(w, s, key);
    }
  }

  /** Events that are no engine timer leave every wait where it was. */
  lemma UserEventTaken(w: Wiring, s: State)
    requires w.keys.Valid() && Owned(w, s) && s.queue != []
    requires s.queue[0].event.TimerElapsed? ==>
      s.queue[0].event.key !in s.retries && !w.keys.isFor(s.queue[0].event.key)
    ensures Owned(w, Popped(s))
  {
    if s.queue[0].event.TimerElapsed? {
      forall id <- s.pendingFor.Keys ensures s.pendingFor[id] != s.queue[0].event.key {
        assert OwnsWait(w, s, s.pendingFor[id]);
      }
    }
    TakenOffOwns(w, s, Popped(s));
  }

  lemma UserEventKeeps(w: Wiring, answers: Answers, s: State, event: Event, depth: nat)
    requires WellFormed(w) && CleanAnswers(answers) && WellKeyed(s.store)
    requires Owned(w, s) && Waiting(w, s) && Retrying(w, s)
    ensures Handled(w, s, HandleUser(w, answers, s, event, depth), event, depth)
  {
    if event.RequestedChange? {
      RequestKeeps(w, answers, s, event.device, event.desired, depth);
    } else if event.RequestedScene? {
      RunKeeps(w, answers, s, [ActivateScene(event.scene)], depth);
    } else {
      ReactKeeps(w, answers, s, event, depth);
    }
  }

  lemma UserPopKeeps(w: Wiring, answers: Answers, s: State)
    requires WellFormed(w) && CleanAnswers(answers) && Inv(w, s) && s.queue != []
    requires s.queue[0].event.TimerElapsed? ==>
      s.queue[0].event.key !in s.retries && !w.keys.isFor(s.queue[0].event.key)
    ensures var event, depth := s.queue[0].event, s.queue[0].depth;
      Handled(w, Popped(s), HandleUser(w, answers, Popped(s), event, depth), event, depth)
  {
    assert WellKeyed(s.store) by { ReplayIsLastReport(s.received); }
    UserEventTaken(w, s);
    UserEventKeeps(w, answers, Popped(s), s.queue[0].event, s.queue[0].depth);
  }

  lemma HandleKeeps(w: Wiring, answers: Answers, s: State)
    requires WellFormed(w) && CleanAnswers(answers) && Inv(w, s)
    requires s.queue != []
    ensures var event, depth := s.queue[0].event, s.queue[0].depth;
      Handled(w, Popped(s), Handle(w, answers, Popped(s), event, depth), event, depth)
  {
    var event := s.queue[0].event;
    if event.TimerElapsed? && event.key in s.retries {
      assert ReservedTimer(w, event) by { assert OwnsRetry(w, s, event.key); }
      RetryKeeps(w, answers, s);
    } else if event.TimerElapsed? && w.keys.isFor(event.key) {
      assert ReservedTimer(w, event);
      ElapsedKeeps(w, answers, s);
    } else {
      UserPopKeeps(w, answers, s);
    }
  }

  // --- steps ---------------------------------------------------------------------------

  lemma HandledInv(w: Wiring, s: State, t: State)
    requires Inv(w, s) && s.queue != [] && !Dropped(w, s)
    requires Handled(w, Popped(s), t, s.queue[0].event, s.queue[0].depth)
    ensures Inv(w, t)
  {
    PushKeepsLayers(w, s.queue, t.queue);
    assert t.received[..|t.received| - 1] == s.received;
  }

  lemma DroppedInv(w: Wiring, s: State, t: State)
    requires w.keys.Valid() && Inv(w, s) && s.queue != [] && Dropped(w, s) && t == s.(queue := s.queue[1..])
    ensures Inv(w, t)
  {
    assert !ReservedTimer(w, s.queue[0].event);
    if s.queue[0].event.TimerElapsed? {
      UserTimerTaken(w, s, t);
    } else {
      TakenOffOwns(w, s, t);
    }
  }

  lemma UserTimerTaken(w: Wiring, s: State, t: State)
    requires w.keys.Valid() && Owned(w, s) && s.queue != [] && t == s.(queue := s.queue[1..])
    requires s.queue[0].event.TimerElapsed? && !w.keys.Reserved(s.queue[0].event.key)
    ensures Owned(w, t)
  {
    var key := s.queue[0].event.key;
    assert key !in s.retries by { assert key in s.retries ==> OwnsRetry(w, s, key); }
    forall id <- s.pendingFor.Keys ensures s.pendingFor[id] != key {
      assert OwnsWait(w, s, s.pendingFor[id]);
    }
    TakenOffOwns(w, s, t);
  }

  lemma ProcessKeeps(w: Wiring, answers: Answers, s: State)
    requires WellFormed(w) && CleanAnswers(answers) && Inv(w, s) && s.queue != []
    ensures Inv(w, Process(w, answers, s))
  {
    if Dropped(w, s) {
      DroppedInv(w, s, Process(w, answers, s));
    } else {
      HandleKeeps(w, answers, s);
      HandledInv(w, s, Process(w, answers, s));
    }
  }

  /** Keys leave the scheduler for the queue; nothing else moves. */
  lemma ElapsingOwns(w: Wiring, s: State, t: State)
    requires Owned(w, s) && s.queue == []
    requires t.retries == s.retries && t.pendingFor == s.pendingFor
    requires t.retryCounter == s.retryCounter && t.forCounter == s.forCounter
    requires t.timers.Keys <= s.timers.Keys && NoDuplicates(Elapsing(t.queue))
    requires forall key :: key in Elapsing(t.queue) <==> key in s.timers && key !in t.timers
    ensures Owned(w, t)
  {
    forall key <- t.retries.Keys ensures OwnsRetry(w, t, key) {
      assert OwnsRetry(w, s, key);
    }
    forall id <- t.pendingFor.Keys ensures OwnsWait(w, t, t.pendingFor[id]) {
      assert OwnsWait(w, s, s.pendingFor[id]);
    }
    forall key <- s.timers.Keys ensures Claimed(w, t, key) && (key !in t.timers ==> Expected(w, t, key)) {
      assert Claimed(w, s, key);
      if w.keys.isFor(key) {
        var id :| AwaitedBy(s, id, key);
        assert OwnsWait(w, s, s.pendingFor[id]);
        assert AwaitedBy(t, id, key);
      }
    }
  }

  function KeySet(due: seq<Deadline>): set<TimerKey> {
    set key | key in Keys(due)
  }

  /** `due` lists each key due at `now` once. */
  ghost predicate ListsDue(timers: Timers, now: Millis, due: seq<Deadline>) {
    NoDuplicates(Keys(due)) && KeySet(due) == timers.Keys - Remaining(timers, now).Keys
  }

  lemma TickOwns(w: Wiring, s: State, now: Millis, due: seq<Deadline>, produced: seq<Event>)
    requires Owned(w, s) && s.queue == [] && ListsDue(s.timers, now, due)
    requires (forall e <- produced :: Clean(e)) && (forall e <- s.inbox :: Clean(e))
    ensures Owned(w, Ticked(s, now, due, produced))
  {
    TickElapsing(s, now, due, produced);
    forall key ensures key in Keys(due) <==> key in s.timers && key !in Remaining(s.timers, now) {
      assert key in Keys(due) <==> key in KeySet(due);
    }
    ElapsingOwns(w, s, Ticked(s, now, due, produced));
  }

  lemma TickKeeps(w: Wiring, s: State, t: State, now: Millis, due: seq<Deadline>, produced: seq<Event>)
    requires Inv(w, s) && s.queue == [] && ListsDue(s.timers, now, due)
    requires (forall e <- produced :: Clean(e)) && t == Ticked(s, now, due, produced)
    ensures Inv(w, t)
  {
    TickOwns(w, s, now, due, produced);
  }

  lemma DueListsDue(timers: Timers, now: Millis)
    ensures ListsDue(timers, now, Due(timers, now))
  {
    DueKeysDistinct(timers, now);
    forall key ensures key in KeySet(Due(timers, now)) <==> key in timers && key !in Remaining(timers, now) {
      DueKeys(timers, now, key);
    }
  }

  lemma DueKeysDistinct(timers: Timers, now: Millis)
    ensures NoDuplicates(Keys(Due(timers, now)))
  {
    var due := Due(timers, now);
    var keys := Keys(due);
    DueContents(timers, now);
    forall i, j | 0 <= i < j < |keys| ensures keys[i] != keys[j] {
      assert due[i] in due && due[j] in due && DueLess(due[i], due[j]);
      DueLessIsOrder();
    }
  }

  lemma DueKeys(timers: Timers, now: Millis, key: TimerKey)
    ensures key in Keys(Due(timers, now)) <==> key in timers && timers[key] <= now
  {
    var due := Due(timers, now);
    DueContents(timers, now);
    if key in timers && timers[key] <= now {
      assert (timers[key], key) in due;
      var i :| 0 <= i < |due| && due[i] == (timers[key], key);
      assert Keys(due)[i] == key;
    }
    if key in Keys(due) {
      var i :| 0 <= i < |due| && Keys(due)[i] == key;
      assert due[i] in due;
    }
  }

  lemma TickElapsing(s: State, now: Millis, due: seq<Deadline>, produced: seq<Event>)
    requires s.queue == [] && (forall e <- produced :: Clean(e)) && (forall e <- s.inbox :: Clean(e))
    ensures Elapsing(Ticked(s, now, due, produced).queue) == Keys(due)
  {
    var others := produced + s.inbox;
    var timed, rest := Tagged(Elapsed(due), 0), Tagged(others, 0);
    TaggedAppend(Elapsed(due), others, 0);
    assert Ticked(s, now, due, produced).queue == timed + rest;
    ElapsingAppend(timed, rest);
    CleanNeverElapses(rest);
    ElapsedKeys(due);
  }

  lemma TaggedAppend(a: seq<Event>, b: seq<Event>, depth: nat)
    ensures Tagged(a + b, depth) == Tagged(a, depth) + Tagged(b, depth)
  {
  }

  lemma {:induction false} ElapsedKeys(due: seq<Deadline>)
    ensures Elapsing(Tagged(Elapsed(due), 0)) == Keys(due)
    decreases |due|
  {
    if due != [] {
      var queue := Tagged(Elapsed(due), 0);
      assert queue[1..] == Tagged(Elapsed(due[1..]), 0);
      ElapsedKeys(due[1..]);
    }
  }

  /** A tick takes some listing of the due timers off the table, in its one order. */
  lemma TickLists(s: State, t: State, dt: Millis, produced: seq<Event>) returns (due: seq<Deadline>)
    requires t == Tick(s, dt, produced)
    ensures ListsDue(s.timers, s.now + dt, due) && t == Ticked(s, s.now + dt, due, produced)
  {
    due := Due(s.timers, s.now + dt);
    DueListsDue(s.timers, s.now + dt);
  }

  lemma AdvanceKeeps(w: Wiring, s: State, t: State, dt: Millis, produced: seq<Event>)
    requires Inv(w, s) && s.queue == [] && forall e <- produced :: Clean(e)
    requires t == Tick(s, dt, produced)
    ensures Inv(w, t)
  {
    var due := TickLists(s, t, dt, produced);
    TickKeeps(w, s, t, s.now + dt, due, produced);
  }

  lemma AdvanceLists(w: Wiring, answers: Answers, s: State, t: State, dt: Millis, produced: seq<Event>)
    returns (due: seq<Deadline>)
    requires StepsTo(w, answers, s, Input.Advance(dt, produced), t)
    ensures s.queue == [] && ListsDue(s.timers, s.now + dt, due) && t == Ticked(s, s.now + dt, due, produced)
  {
    due := TickLists(s, t, dt, produced);
  }

  lemma NextKeeps(w: Wiring, answers: Answers, s: State, input: Input)
    requires WellFormed(w) && CleanAnswers(answers) && CleanInput(input)
    requires Inv(w, s) && Enabled(s, input)
    ensures Inv(w, Next(w, answers, s, input))
  {
    match input
    case Inject(event) =>
      InjectKeeps(w, s, event);
    case Advance(dt, produced) =>
      AdvanceKeeps(w, s, Tick(s, dt, produced), dt, produced);
    case Sync =>
      MirrorOnlyKeeps(w, s, s.(mirror := s.mirror + s.store));
    case ConsumerWrite(device, state) =>
      OwnedByTables(w, s, Next(w, answers, s, input));
    case Pop =>
      ProcessKeeps(w, answers, s);
  }

  lemma InjectKeeps(w: Wiring, s: State, event: Event)
    requires Inv(w, s) && s.queue == [] && Clean(event)
    ensures Inv(w, s.(queue := s.queue + [Queued(event, 0)]))
  {
    var t := s.(queue := s.queue + [Queued(event, 0)]);
    assert t.queue == [Queued(event, 0)];
    CleanNeverElapses(t.queue);
    OwnedByTables(w, s, t);
  }

  lemma InitiallyInv(w: Wiring)
    ensures Inv(w, INITIAL)
  {
  }

  /** Main invariant: it holds in every state of every run. */
  lemma {:induction false} RunsKeepInv(w: Wiring, answers: Answers, states: seq<State>, inputs: seq<Input>, n: nat)
    requires WellFormed(w) && CleanAnswers(answers) && CleanInputs(inputs)
    requires IsRun(w, answers, states, inputs) && n < |states|
    ensures Inv(w, states[n])
  {
    if n == 0 {
      InitiallyInv(w);
    } else {
      RunsKeepInv(w, answers, states, inputs, n - 1);
      assert StepsTo(w, answers, states[n - 1], inputs[n - 1], states[n]);
      NextKeeps(w, answers, states[n - 1], inputs[n - 1]);
    }
  }
}
