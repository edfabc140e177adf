/** What one iteration of the loop does (`drain`, `dispatch_at`, `fire_elapsed_for` in
    `src/engine.rs`), told by what can be seen of it: which commands go to which adapter in
    which order, which user timers are set, which rules start to wait. */
module Orders {
  import opened Model
  import opened TimerKeys
  import opened Ordering
  import opened StateStore
  import opened Rules
  import opened Scheduler
  import opened Scenes
  import opened EngineSpec
  import opened EngineInvariants
  import opened AnyRun

  // --- what a list of commands comes to --------------------------------------------------------

  /** What the adapters get: device commands in order, resolved against the store. */
  function Sent(store: Store, leaves: seq<Command>): seq<Command> {
    if leaves == [] then []
    else if leaves[0].TargetsDevice() then [ResolveImplicit(store, leaves[0])] + Sent(store, leaves[1..])
    else Sent(store, leaves[1..])
  }

  /** The i-th dispatch of the run is answered by the device's adapter, or refused for want
      of one. */
  function Answered(w: Wiring, answers: Answers, i: nat, c: Command): DispatchOutcome
    requires c.TargetsDevice()
  {
    if c.device in w.bound then answers(i) else Permanent("no adapter bound for target device")
  }

  /** The record of one dispatch, and whether it leaves a retry behind. */
  ghost predicate Recorded(w: Wiring, answers: Answers, a: Attempt, i: nat, c: Command, number: nat,
      via: Option<TimerKey>, now: Millis) {
    && c.TargetsDevice() && a.command == c && a.number == number && a.via == via && a.at == now
    && a.outcome == Answered(w, answers, i, c)
    && (a.next.Some? <==> a.outcome.Transient? && number < w.retry.maxAttempts)
  }

  /** These commands, and no others, were dispatched in between, in this order. */
  ghost predicate Logged(w: Wiring, answers: Answers, s: State, t: State, sent: seq<Command>, number: nat,
      via: Option<TimerKey>) {
    && |t.attempts| == |s.attempts| + |sent| && s.attempts <= t.attempts
    && forall i :: |s.attempts| <= i < |t.attempts| ==>
         Recorded(w, answers, t.attempts[i], i, sent[i - |s.attempts|], number, via, s.now)
  }

  predicate Names(c: Command, key: TimerKey) {
    (c.ScheduleTimer? || c.CancelTimer?) && c.key == key
  }

  /** The last command about a timer decides. */
  function LastWord(leaves: seq<Command>, key: TimerKey): Option<Command> {
    if leaves == [] then None
    else if Names(leaves[|leaves| - 1], key) then Some(leaves[|leaves| - 1])
    else LastWord(leaves[..|leaves| - 1], key)
  }

  /** A user's timer after these commands: due `after` from now, gone, or as it was. */
  ghost predicate Follows(s: State, t: State, key: TimerKey, word: Option<Command>) {
    if word.None? then
      (key in t.timers <==> key in s.timers) && (key in s.timers ==> t.timers[key] == s.timers[key])
    else if word.value.ScheduleTimer? then key in t.timers && t.timers[key] == s.now + word.value.after
    else key !in t.timers
  }

  function WordOf(c: Command, key: TimerKey): Option<Command> {
    if Names(c, key) then Some(c) else None
  }

  ghost predicate TimersFollow(w: Wiring, s: State, t: State, leaves: seq<Command>) {
    forall key: TimerKey :: !w.keys.Reserved(key) ==> Follows(s, t, key, LastWord(leaves, key))
  }

  lemma {:induction false} SentAppend(store: Store, a: seq<Command>, b: seq<Command>)
    ensures Sent(store, a + b) == Sent(store, a) + Sent(store, b)
    decreases |a|
  {
    if a == [] {
      assert a + b == b;
    } else {
      assert (a + b)[1..] == a[1..] + b;
      SentAppend(store, a[1..], b);
    }
  }

  lemma LoggedOne(w: Wiring, answers: Answers, s: State, t: State, command: Command, attempt: nat, depth: nat,
      via: Option<TimerKey>)
    requires w.keys.Valid() && !command.ActivateScene? && t == Deliver(w, answers, s, command, attempt, depth, via)
    ensures Logged(w, answers, s, t, Sent(s.store, [command]), attempt, via)
    ensures forall key: TimerKey :: !w.keys.Reserved(key) ==> Follows(s, t, key, WordOf(command, key))
    ensures t.store == s.store && t.now == s.now && t.pendingFor == s.pendingFor
  {
    ResolvedTarget(s.store, command);
    assert [command][1..] == [] && Sent(s.store, [command][1..]) == [];
    assert w.keys.isRetry(w.keys.retry(s.retryCounter + 1));
  }

  lemma LoggedThen(w: Wiring, answers: Answers, s: State, t: State, u: State, first: seq<Command>, rest: seq<Command>,
      number: nat, via: Option<TimerKey>)
    requires Logged(w, answers, s, t, first, number, via) && Logged(w, answers, t, u, rest, number, via)
    requires t.now == s.now
    ensures Logged(w, answers, s, u, first + rest, number, via)
  {
  }

  lemma FollowsThen(w: Wiring, s: State, t: State, u: State, before: seq<Command>, last: Command)
    requires TimersFollow(w, s, t, before) && t.now == s.now
    requires forall key: TimerKey :: !w.keys.Reserved(key) ==> Follows(t, u, key, WordOf(last, key))
    ensures TimersFollow(w, s, u, before + [last])
  {
    var all := before + [last];
    assert all[..|all| - 1] == before && all[|all| - 1] == last;
    forall key: TimerKey | !w.keys.Reserved(key) ensures Follows(s, u, key, LastWord(all, key)) {
      assert Follows(s, t, key, LastWord(before, key)) && Follows(t, u, key, WordOf(last, key));
    }
  }

  lemma {:induction false} DeliverAllEnds(w: Wiring, answers: Answers, s: State, before: seq<Command>, last: Command,
      depth: nat)
    requires !last.ActivateScene? && forall c <- before :: !c.ActivateScene?
    ensures forall c <- before + [last] :: !c.ActivateScene?
    ensures DeliverAll(w, answers, s, before + [last], depth)
      == Deliver(w, answers, DeliverAll(w, answers, s, before, depth), last, 1, depth, None)
    decreases |before|
  {
    var all := before + [last];
    if before == [] {
      assert all == [last] && all[1..] == [];
    } else {
      assert all[1..] == before[1..] + [last];
      DeliverAllEnds(w, answers, Deliver(w, answers, s, before[0], 1, depth, None), before[1..], last, depth);
    }
  }

  /** A list of commands: each goes out once, in order, as a first attempt, resolved against
      the same store; and the last word about each timer holds. */
  lemma {:induction false} DeliverAllSends(w: Wiring, answers: Answers, s: State, t: State, leaves: seq<Command>,
      depth: nat)
    requires w.keys.Valid() && (forall c <- leaves :: !c.ActivateScene?)
    requires t == DeliverAll(w, answers, s, leaves, depth)
    ensures Logged(w, answers, s, t, Sent(s.store, leaves), 1, None)
    ensures TimersFollow(w, s, t, leaves) && t.store == s.store && t.now == s.now && t.pendingFor == s.pendingFor
    decreases |leaves|
  {
    if leaves != [] {
      var before, last := leaves[..|leaves| - 1], leaves[|leaves| - 1];
      assert leaves == before + [last];
      var m := DeliverAll(w, answers, s, before, depth);
      DeliverAllSends(w, answers, s, m, before, depth);
      DeliverAllEnds(w, answers, s, before, last, depth);
      LoggedOne(w, answers, m, t, last, 1, depth, None);
      SentAppend(s.store, before, [last]);
      LoggedThen(w, answers, s, m, t, Sent(s.store, before), Sent(s.store, [last]), 1, None);
      FollowsThen(w, s, m, t, before, last);
    }
  }

  // --- which rules answer ------------------------------------------------------------------------

  /** The value a report replaces, in the store before it. */
  function Replaced(store: Store, event: Event): Option<CapabilityState> {
    if event.StateReported? then Get(store, event.device, event.state.Kind()) else None
  }

  /** The trigger matches against the value before the event, and the condition is definitely
      true in the store after it. */
  predicate AnswersTo(rule: Rule, store: Store, event: Event) {
    rule.trigger.Matches(event, Replaced(store, event)) && rule.condition.Eval(Absorb(store, event)) == True
  }

  /** The places of exactly those rules from the n-th on, in order. */
  ghost predicate Picks(rules: seq<Rule>, n: nat, store: Store, event: Event, picks: seq<nat>) {
    && (forall i, j :: 0 <= i < j < |picks| ==> picks[i] < picks[j])
    && (forall k :: 0 <= k < |picks| ==> picks[k] < |rules|)
    && forall i: nat :: i in picks <==> n <= i < |rules| && AnswersTo(rules[i], store, event)
  }

  /** Their commands, those of rules without a `for:`. */
  function Commanded(rules: seq<Rule>, picks: seq<nat>): seq<Command>
    requires forall k :: 0 <= k < |picks| ==> picks[k] < |rules|
  {
    if picks == [] then []
    else if rules[picks[0]].forDuration.None? then rules[picks[0]].commands + Commanded(rules, picks[1..])
    else Commanded(rules, picks[1..])
  }

  lemma FirstPick(rules: seq<Rule>, n: nat, store: Store, event: Event, picks: seq<nat>)
    requires n < |rules| && Picks(rules, n, store, event, picks)
    ensures if AnswersTo(rules[n], store, event) then
        picks != [] && picks[0] == n && Picks(rules, n + 1, store, event, picks[1..])
      else Picks(rules, n + 1, store, event, picks)
  {
    if AnswersTo(rules[n], store, event) {
      assert n in picks;
      var k :| 0 <= k < |picks| && picks[k] == n;
      assert picks[0] in picks && k == 0;
      var rest := picks[1..];
      forall i: nat ensures i in rest <==> i in picks && i != n {
        if i in rest {
          var m :| 0 <= m < |rest| && rest[m] == i;
          assert picks[m + 1] == i && picks[0] < picks[m + 1];
        }
        assert picks == [picks[0]] + rest;
      }
    } else {
      assert n !in picks;
    }
  }

  /** The loop's selection is that one. */
  lemma {:induction false} FiredPicks(rules: seq<Rule>, n: nat, store: Store, event: Event, picks: seq<nat>,
      rest: seq<Rule>)
    requires n <= |rules| && rest == rules[n..] && Picks(rules, n, store, event, picks)
    ensures Immediate(Fired(rest, event, Replaced(store, event), Absorb(store, event))) == Commanded(rules, picks)
    decreases |rules| - n
  {
    if n < |rules| {
      FirstPick(rules, n, store, event, picks);
      var more := if AnswersTo(rules[n], store, event) then picks[1..] else picks;
      FiredPicks(rules, n + 1, store, event, more, rest[1..]);
      FiredStep(rest, event, Replaced(store, event), Absorb(store, event));
    } else {
      HasMember(picks);
    }
  }

  lemma FiredStep(rules: seq<Rule>, event: Event, prior: Option<CapabilityState>, store: Store)
    requires rules != []
    ensures Immediate(Fired(rules, event, prior, store)) ==
      (if rules[0].trigger.Matches(event, prior) && rules[0].condition.Eval(store) == True
          && rules[0].forDuration.None? then rules[0].commands else [])
      + Immediate(Fired(rules[1..], event, prior, store))
  {
    var rest := Fired(rules[1..], event, prior, store);
    assert ([rules[0]] + rest)[1..] == rest;
  }

  lemma {:induction false} SomePicks(rules: seq<Rule>, n: nat, store: Store, event: Event) returns (picks: seq<nat>)
    requires n <= |rules|
    ensures Picks(rules, n, store, event, picks)
    decreases |rules| - n
  {
    if n == |rules| {
      picks := [];
    } else {
      picks := SomePicks(rules, n + 1, store, event);
      if AnswersTo(rules[n], store, event) {
        var rest := picks;
        picks := [n] + rest;
        forall i: nat ensures i in picks <==> n <= i < |rules| && AnswersTo(rules[i], store, event) {
          assert i in picks <==> i == n || i in rest;
        }
        forall i, j | 0 <= i < j < |picks| ensures picks[i] < picks[j] {
          assert picks[j] == rest[j - 1] && rest[j - 1] in rest;
        }
      }
    }
  }

  // --- one iteration -------------------------------------------------------------------------------

  /** A wait's timer elapsed, and its rule's predicate still holds. */
  ghost predicate Ripe(w: Wiring, s: State, id: RuleId, key: TimerKey) {
    AwaitedBy(s, id, key) && Sustains(w, id, s.store)
  }

  /** The commands the next iteration hands out, scenes expanded. */
  ghost predicate Hands(w: Wiring, s: State, leaves: seq<Command>)
    requires s.queue != []
  {
    var event := s.queue[0].event;
    if Dropped(w, s) then leaves == []
    else if event.TimerElapsed? && event.key in s.retries then leaves == [s.retries[event.key].command]
    else if event.TimerElapsed? && w.keys.isFor(event.key) then HandsRipe(w, s, event.key, leaves)
    else if event.RequestedChange? then
      leaves == match CommandForRequest(event.device, event.desired) case Some(c) => [c] case None => []
    else if event.RequestedScene? then leaves == Flatten(w.scenes, [ActivateScene(event.scene)])
    else HandsPicked(w, s, event, leaves)
  }

  ghost predicate HandsRipe(w: Wiring, s: State, key: TimerKey, leaves: seq<Command>) {
    if exists id :: Ripe(w, s, id, key) then
      exists id :: Ripe(w, s, id, key) && leaves == Flatten(w.scenes, FindRule(w.rules, id).value.commands)
    else leaves == []
  }

  ghost predicate HandsPicked(w: Wiring, s: State, event: Event, leaves: seq<Command>) {
    exists picks :: Picks(w.rules, 0, s.store, event, picks)
      && leaves == Flatten(w.scenes, Commanded(w.rules, picks))
  }

  function NumberOf(w: Wiring, s: State): nat
    requires s.queue != []
  {
    var event := s.queue[0].event;
    if event.TimerElapsed? && event.key in s.retries then s.retries[event.key].attempt else 1
  }

  function ViaOf(w: Wiring, s: State): Option<TimerKey>
    requires s.queue != []
  {
    var event := s.queue[0].event;
    if event.TimerElapsed? && event.key in s.retries then Some(event.key) else None
  }

  function StoreAfter(w: Wiring, s: State): Store
    requires s.queue != []
  {
    if Dropped(w, s) then s.store else Absorb(s.store, s.queue[0].event)
  }

  /** What one iteration does to what can be seen of it. */
  ghost predicate Effect(w: Wiring, answers: Answers, s: State, t: State, leaves: seq<Command>)
    requires s.queue != []
  {
    && Logged(w, answers, s, t, Sent(StoreAfter(w, s), leaves), NumberOf(w, s), ViaOf(w, s))
    && TimersFollow(w, s, t, leaves) && t.store == StoreAfter(w, s) && t.now == s.now
  }

  /** The part of an iteration before it dispatches: no dispatch, no user timer touched. */
  ghost predicate Prepared(w: Wiring, s: State, t: State) {
    t.attempts == s.attempts && t.now == s.now
    && forall key: TimerKey :: !w.keys.Reserved(key) ==> Follows(s, t, key, None)
  }

  lemma PreparedThen(w: Wiring, answers: Answers, s: State, t: State, u: State, sent: seq<Command>, number: nat,
      via: Option<TimerKey>, leaves: seq<Command>)
    requires Prepared(w, s, t) && Logged(w, answers, t, u, sent, number, via) && TimersFollow(w, t, u, leaves)
    ensures Logged(w, answers, s, u, sent, number, via) && TimersFollow(w, s, u, leaves)
  {
    forall key: TimerKey | !w.keys.Reserved(key) ensures Follows(s, u, key, LastWord(leaves, key)) {
      assert Follows(s, t, key, None) && Follows(t, u, key, LastWord(leaves, key));
    }
  }

  lemma FoldedPrepares(w: Wiring, s: State, t: State, event: Event)
    requires w.keys.Valid() && Tabled(w, s) && t == Folded(w, s, event)
    ensures Prepared(w, s, t) && Tabled(w, t) && t.store == Absorb(s.store, event)
  {
    FewerTabled(w, s, t);
    forall id <- s.pendingFor.Keys ensures w.keys.isFor(s.pendingFor[id]) {
      assert NumberedWait(w, s, id);
    }
  }

  lemma {:induction false} ArmAllPrepares(w: Wiring, s: State, t: State, fired: seq<Rule>)
    requires w.keys.Valid() && Tabled(w, s) && t == ArmAll(w, s, fired)
    ensures Prepared(w, s, t) && t.store == s.store
    decreases |fired|
  {
    if fired != [] && fired[0].forDuration.Some? {
      var m := Arm(w, s, fired[0].id, fired[0].forDuration.value);
      ArmPrepares(w, s, m, fired[0].id, fired[0].forDuration.value);
      ArmTabled(w, s, fired[0].id, fired[0].forDuration.value);
      ArmAllPrepares(w, m, t, fired[1..]);
    } else if fired != [] {
      ArmAllPrepares(w, s, t, fired[1..]);
    }
  }

  lemma ArmPrepares(w: Wiring, s: State, t: State, id: RuleId, after: Millis)
    requires w.keys.Valid() && Tabled(w, s) && t == Arm(w, s, id, after)
    ensures Prepared(w, s, t)
  {
    assert w.keys.isFor(w.keys.sustained(s.forCounter + 1));
    assert id in s.pendingFor ==> NumberedWait(w, s, id);
  }

  lemma ReactEffect(w: Wiring, answers: Answers, s: State, t: State, leaves: seq<Command>)
    requires w.keys.Valid() && Tabled(w, s) && s.queue != [] && ReachesRules(w, s)
    requires HandsPicked(w, s, s.queue[0].event, leaves)
    requires t == React(w, answers, Popped(s), s.queue[0].event, s.queue[0].depth)
    ensures Effect(w, answers, s, t, leaves)
  {
    var event, popped := s.queue[0].event, Popped(s);
    FewerTabled(w, s, popped);
    var folded := Folded(w, popped, event);
    var fired := Fired(w.rules, event, Replaced(s.store, event), folded.store);
    var armed := ArmAll(w, folded, fired);
    FoldedPrepares(w, popped, folded, event);
    ArmAllPrepares(w, folded, armed, fired);
    var picks :| Picks(w.rules, 0, s.store, event, picks) && leaves == Flatten(w.scenes, Commanded(w.rules, picks));
    assert w.rules[0..] == w.rules;
    FiredPicks(w.rules, 0, s.store, event, picks, w.rules);
    DeliverAllSends(w, answers, armed, t, leaves, s.queue[0].depth);
    PreparedThen(w, answers, folded, armed, t, Sent(folded.store, leaves), 1, None, leaves);
    PreparedThen(w, answers, s, folded, t, Sent(folded.store, leaves), 1, None, leaves);
  }

  /** Nothing is handed out. */
  lemma QuietEffect(w: Wiring, answers: Answers, s: State, t: State)
    requires s.queue != [] && t.attempts == s.attempts && t.now == s.now && t.timers == s.timers
    requires t.store == StoreAfter(w, s)
    ensures Effect(w, answers, s, t, [])
  {
    assert Sent(StoreAfter(w, s), []) == [];
  }

  lemma DroppedEffect(w: Wiring, answers: Answers, s: State, t: State)
    requires s.queue != [] && Dropped(w, s) && t == s.(queue := s.queue[1..])
    ensures Effect(w, answers, s, t, [])
  {
    QuietEffect(w, answers, s, t);
  }

  lemma RunEffect(w: Wiring, answers: Answers, s: State, taken: State, t: State, commands: seq<Command>, depth: nat)
    requires w.keys.Valid() && s.queue != [] && NumberOf(w, s) == 1 && ViaOf(w, s) == None
    requires taken.attempts == s.attempts && taken.now == s.now && taken.timers == s.timers
    requires taken.store == StoreAfter(w, s) && t == Run(w, answers, taken, commands, depth)
    ensures Effect(w, answers, s, t, Flatten(w.scenes, commands))
  {
    DeliverAllSends(w, answers, taken, t, Flatten(w.scenes, commands), depth);
    PreparedThen(w, answers, s, taken, t, Sent(taken.store, Flatten(w.scenes, commands)), 1, None,
      Flatten(w.scenes, commands));
  }

  lemma ReissueEffect(w: Wiring, answers: Answers, s: State, t: State, leaves: seq<Command>)
    requires w.keys.Valid() && Tabled(w, s) && s.queue != [] && !Dropped(w, s)
    requires s.queue[0].event.TimerElapsed? && s.queue[0].event.key in s.retries
    requires leaves == [s.retries[s.queue[0].event.key].command]
    requires t == Reissue(w, answers, Popped(s), s.queue[0].event.key)
    ensures Effect(w, answers, s, t, leaves)
  {
    var key := s.queue[0].event.key;
    assert KeyedRetry(w, s, key);
    var pending := s.retries[key];
    var taken := Popped(s).(retries := s.retries - {key});
    LoggedOne(w, answers, taken, t, pending.command, pending.attempt, 0, Some(key));
    forall k: TimerKey | !w.keys.Reserved(k) ensures Follows(s, t, k, LastWord(leaves, k)) {
      assert leaves[..|leaves| - 1] == [] && LastWord([], k) == None;
      assert LastWord(leaves, k) == None;
      assert Follows(taken, t, k, WordOf(pending.command, k));
    }
  }

  lemma ElapsedEffect(w: Wiring, answers: Answers, s: State, t: State, key: TimerKey, leaves: seq<Command>)
    requires w.keys.Valid() && Tabled(w, s) && s.queue != [] && !Dropped(w, s)
    requires s.queue[0].event == TimerElapsed(key) && key !in s.retries && HandsRipe(w, s, key, leaves)
    requires t == FireElapsed(w, answers, Popped(s), key)
    ensures Effect(w, answers, s, t, leaves)
  {
    if id: RuleId :| AwaitedBy(Popped(s), id, key) {
      forall a: RuleId ensures AwaitedBy(Popped(s), a, key) ==> a == id {
      }
      var taken := Popped(s).(pendingFor := s.pendingFor - {id});
      if Sustains(w, id, s.store) {
        assert Ripe(w, s, id, key);
        RunEffect(w, answers, s, taken, t, FindRule(w.rules, id).value.commands, 0);
      } else {
        assert forall a :: !Ripe(w, s, a, key);
        QuietEffect(w, answers, s, t);
      }
    } else {
      assert forall a :: AwaitedBy(Popped(s), a, key) == AwaitedBy(s, a, key);
      QuietEffect(w, answers, s, t);
    }
  }

  lemma LeafFlattens(scenes: SceneTable, c: Command)
    requires !c.ActivateScene?
    ensures Flatten(scenes, [c]) == [c]
  {
    assert [c][1..] == [] && Leaves(scenes, [c][1..], scenes.Keys) == [];
  }

  lemma RequestEffect(w: Wiring, answers: Answers, s: State, t: State, device: DeviceId, desired: Desired,
      leaves: seq<Command>)
    requires w.keys.Valid() && s.queue != [] && !Dropped(w, s) && s.queue[0].event == RequestedChange(device, desired)
    requires t == Request(w, answers, Popped(s), device, desired, s.queue[0].depth)
    requires var command := CommandForRequest(device, desired);
      leaves == if command.Some? then [command.value] else []
    ensures Effect(w, answers, s, t, leaves)
  {
    var command := CommandForRequest(device, desired);
    var run := RunRequest(w, answers, Popped(s), device, desired, s.queue[0].depth);
    if command.Some? {
      LeafFlattens(w.scenes, command.value);
      RunEffect(w, answers, s, Popped(s), run, [command.value], s.queue[0].depth);
    } else {
      QuietEffect(w, answers, s, run);
    }
    assert t.attempts == run.attempts && t.timers == run.timers && t.store == run.store && t.now == run.now;
  }

  /** One iteration, whatever the configuration and the adapters: the commands it hands out
      go to their adapters in order, each once, and set the user timers they name. */
  lemma PopEffect(w: Wiring, answers: Answers, s: State, t: State, leaves: seq<Command>)
    requires w.keys.Valid() && Tabled(w, s) && s.queue != [] && Hands(w, s, leaves) && t == Process(w, answers, s)
    ensures Effect(w, answers, s, t, leaves)
  {
    var event := s.queue[0].event;
    if Dropped(w, s) {
      DroppedEffect(w, answers, s, t);
    } else if event.TimerElapsed? && event.key in s.retries {
      ReissueEffect(w, answers, s, t, leaves);
    } else if event.TimerElapsed? && w.keys.isFor(event.key) {
      ElapsedEffect(w, answers, s, t, event.key, leaves);
    } else if event.RequestedChange? {
      RequestEffect(w, answers, s, t, event.device, event.desired, leaves);
    } else if event.RequestedScene? {
      RunEffect(w, answers, s, Popped(s), t, [ActivateScene(event.scene)], s.queue[0].depth);
    } else {
      ReactEffect(w, answers, s, t, leaves);
    }
  }

  lemma SomeHands(w: Wiring, s: State) returns (leaves: seq<Command>)
    requires s.queue != []
    ensures Hands(w, s, leaves)
  {
    var event := s.queue[0].event;
    if Dropped(w, s) {
      leaves := [];
    } else if event.TimerElapsed? && event.key in s.retries {
      leaves := [s.retries[event.key].command];
    } else if event.TimerElapsed? && w.keys.isFor(event.key) {
      if id :| Ripe(w, s, id, event.key) {
        leaves := Flatten(w.scenes, FindRule(w.rules, id).value.commands);
      } else {
        leaves := [];
      }
    } else if event.RequestedChange? {
      var command := CommandForRequest(event.device, event.desired);
      leaves := if command.Some? then [command.value] else [];
    } else if event.RequestedScene? {
      leaves := Flatten(w.scenes, [ActivateScene(event.scene)]);
    } else {
      var picks := SomePicks(w.rules, 0, s.store, event);
      leaves := Flatten(w.scenes, Commanded(w.rules, picks));
    }
  }

  // --- who starts to wait ----------------------------------------------------------------------------

  /** The rule waits under a key that was never handed out before. */
  predicate Starts(w: Wiring, s: State, t: State, id: RuleId) {
    id in t.pendingFor && w.keys.serial(t.pendingFor[id]) > s.forCounter
  }

  predicate SameWait(s: State, t: State, id: RuleId) {
    id in t.pendingFor ==> id in s.pendingFor && t.pendingFor[id] == s.pendingFor[id]
  }

  lemma {:induction false} ArmAllStarts(w: Wiring, s: State, t: State, fired: seq<Rule>, id: RuleId)
    requires w.keys.Valid() && Tabled(w, s) && t == ArmAll(w, s, fired)
    ensures Starts(w, s, t, id) <==> exists rule <- fired :: rule.forDuration.Some? && rule.id == id
    ensures s.forCounter <= t.forCounter && (!Starts(w, s, t, id) ==> SameWait(s, t, id))
    ensures id in s.pendingFor ==> id in t.pendingFor
    decreases |fired|
  {
    if fired == [] {
      assert id in s.pendingFor ==> NumberedWait(w, s, id);
    } else {
      assert fired == [fired[0]] + fired[1..];
      if fired[0].forDuration.Some? {
        var m := Arm(w, s, fired[0].id, fired[0].forDuration.value);
        ArmTabled(w, s, fired[0].id, fired[0].forDuration.value);
        ArmAllStarts(w, m, t, fired[1..], id);
        assert w.keys.serial(w.keys.sustained(s.forCounter + 1)) == s.forCounter + 1;
        assert id in s.pendingFor ==> NumberedWait(w, s, id);
      } else {
        ArmAllStarts(w, s, t, fired[1..], id);
      }
    }
  }

  /** A rule with a `for:` of that id answers the event. */
  ghost predicate WaitsOn(w: Wiring, store: Store, event: Event, id: RuleId) {
    exists rule <- w.rules :: rule.forDuration.Some? && rule.id == id && AnswersTo(rule, store, event)
  }

  lemma {:induction false} FiredAnswer(rules: seq<Rule>, event: Event, prior: Option<CapabilityState>, store: Store)
    ensures forall r :: r in Fired(rules, event, prior, store) <==>
      r in rules && r.trigger.Matches(event, prior) && r.condition.Eval(store) == True
  {
    if rules != [] {
      FiredAnswer(rules[1..], event, prior, store);
      assert rules == [rules[0]] + rules[1..];
    }
  }

  lemma ReactStarts(w: Wiring, answers: Answers, s: State, t: State, event: Event, depth: nat, id: RuleId)
    requires w.keys.Valid() && Tabled(w, s) && t == React(w, answers, s, event, depth)
    ensures Starts(w, s, t, id) <==> WaitsOn(w, s.store, event, id)
    ensures !Starts(w, s, t, id) ==> SameWait(s, t, id)
  {
    var folded := Folded(w, s, event);
    var fired := Fired(w.rules, event, Replaced(s.store, event), folded.store);
    var armed := ArmAll(w, folded, fired);
    FoldedPrepares(w, s, folded, event);
    ArmAllStarts(w, folded, armed, fired, id);
    FiredAnswer(w.rules, event, Replaced(s.store, event), folded.store);
    DeliverAllSends(w, answers, armed, t, Flatten(w.scenes, Immediate(fired)), depth);
  }

  lemma KeptStarts(w: Wiring, s: State, t: State, id: RuleId)
    requires Tabled(w, s) && SameWait(s, t, id)
    ensures !Starts(w, s, t, id)
  {
    assert id in s.pendingFor ==> NumberedWait(w, s, id);
  }

  lemma OtherStarts(w: Wiring, answers: Answers, s: State, t: State, id: RuleId)
    requires w.keys.Valid() && Tabled(w, s) && s.queue != [] && !ReachesRules(w, s) && t == Process(w, answers, s)
    ensures SameWait(s, t, id)
  {
    var event, depth := s.queue[0].event, s.queue[0].depth;
    if Dropped(w, s) {
    } else if event.TimerElapsed? && event.key in s.retries {
      var pending := s.retries[event.key];
      var taken := Popped(s).(retries := s.retries - {event.key});
      assert KeyedRetry(w, s, event.key);
      LoggedOne(w, answers, taken, t, pending.command, pending.attempt, 0, Some(event.key));
    } else if event.TimerElapsed? {
      ElapsedStarts(w, answers, Popped(s), t, event.key, id);
    } else if event.RequestedChange? {
      RequestStarts(w, answers, Popped(s), t, event.device, event.desired, depth, id);
    } else {
      DeliverAllSends(w, answers, Popped(s), t, Flatten(w.scenes, [ActivateScene(event.scene)]), depth);
    }
  }

  lemma ElapsedStarts(w: Wiring, answers: Answers, s: State, t: State, key: TimerKey, id: RuleId)
    requires w.keys.Valid() && t == FireElapsed(w, answers, s, key)
    ensures SameWait(s, t, id)
  {
    forall a: RuleId | Sustains(w, a, s.store)
      ensures Run(w, answers, s.(pendingFor := s.pendingFor - {a}), FindRule(w.rules, a).value.commands, 0).pendingFor
        == s.pendingFor - {a}
    {
      var taken := s.(pendingFor := s.pendingFor - {a});
      var leaves := Flatten(w.scenes, FindRule(w.rules, a).value.commands);
      DeliverAllSends(w, answers, taken, DeliverAll(w, answers, taken, leaves, 0), leaves, 0);
    }
  }

  lemma RequestStarts(w: Wiring, answers: Answers, s: State, t: State, device: DeviceId, desired: Desired, depth: nat,
      id: RuleId)
    requires w.keys.Valid() && t == Request(w, answers, s, device, desired, depth)
    ensures SameWait(s, t, id)
  {
    var command := CommandForRequest(device, desired);
    if command.Some? {
      var leaves := Flatten(w.scenes, [command.value]);
      DeliverAllSends(w, answers, s, DeliverAll(w, answers, s, leaves, depth), leaves, depth);
    }
  }

  /** A wait starts in an iteration exactly if a rule with a `for:` answers its event: the
      trigger matches against the value before, and the condition is true after. */
  lemma WaitStartsIff(w: Wiring, answers: Answers, s: State, t: State, id: RuleId)
    requires w.keys.Valid() && Tabled(w, s) && s.queue != [] && t == Process(w, answers, s)
    ensures Starts(w, s, t, id) <==> ReachesRules(w, s) && WaitsOn(w, s.store, s.queue[0].event, id)
    ensures !Starts(w, s, t, id) ==> SameWait(s, t, id)
  {
    if ReachesRules(w, s) {
      FewerTabled(w, s, Popped(s));
      ReactStarts(w, answers, Popped(s), t, s.queue[0].event, s.queue[0].depth, id);
    } else {
      OtherStarts(w, answers, s, t, id);
      KeptStarts(w, s, t, id);
    }
  }

  /** An event no rule answers, because no trigger matches or every condition is false or
      unknown, dispatches nothing, starts no wait and touches no user timer. */
  lemma UnansweredIsSilent(w: Wiring, answers: Answers, s: State, t: State, id: RuleId)
    requires w.keys.Valid() && Tabled(w, s) && s.queue != [] && ReachesRules(w, s) && t == Process(w, answers, s)
    requires forall rule <- w.rules :: !AnswersTo(rule, s.store, s.queue[0].event)
    ensures t.attempts == s.attempts && !Starts(w, s, t, id)
    ensures forall key: TimerKey :: !w.keys.Reserved(key) ==> Follows(s, t, key, None)
  {
    WaitStartsIff(w, answers, s, t, id);
    var event := s.queue[0].event;
    assert Picks(w.rules, 0, s.store, event, []);
    assert Commanded(w.rules, []) == [] && Flatten(w.scenes, []) == [];
    assert HandsPicked(w, s, event, []);
    PopEffect(w, answers, s, t, []);
    assert Sent(StoreAfter(w, s), []) == [];
    forall key: TimerKey | !w.keys.Reserved(key) ensures Follows(s, t, key, None) {
      assert Follows(s, t, key, LastWord([], key));
    }
  }

  // --- runs --------------------------------------------------------------------------------------------

  /** The i-th dispatch got the i-th answer, and leaves a retry behind exactly if it failed
      transiently below the last attempt the policy allows. */
  predicate AsAnswered(w: Wiring, answers: Answers, a: Attempt, i: nat) {
    a.command.TargetsDevice() && a.outcome == Answered(w, answers, i, a.command)
    && (a.next.Some? <==> a.outcome.Transient? && a.number < w.retry.maxAttempts)
  }

  lemma PopRecords(w: Wiring, answers: Answers, s: State, t: State, i: nat)
    requires w.keys.Valid() && Tabled(w, s) && s.queue != [] && t == Process(w, answers, s) && i < |t.attempts|
    requires i < |s.attempts| ==> AsAnswered(w, answers, s.attempts[i], i)
    ensures AsAnswered(w, answers, t.attempts[i], i)
  {
    var leaves := SomeHands(w, s);
    PopEffect(w, answers, s, t, leaves);
    if i < |s.attempts| {
      assert t.attempts[i] == s.attempts[i];
    }
  }

  /** On every run, whatever the configuration and the adapters. */
  lemma {:induction false} RunsRecord(w: Wiring, answers: Answers, states: seq<State>, inputs: seq<Input>, n: nat,
      i: nat)
    requires w.keys.Valid() && IsRun(w, answers, states, inputs) && n < |states| && i < |states[n].attempts|
    ensures AsAnswered(w, answers, states[n].attempts[i], i)
  {
    if n > 0 {
      if i < |states[n - 1].attempts| {
        RunsRecord(w, answers, states, inputs, n - 1, i);
      }
      StepRecords(w, answers, states, inputs, n - 1, states[n - 1], states[n], i);
    }
  }

  lemma StepRecords(w: Wiring, answers: Answers, states: seq<State>, inputs: seq<Input>, n: nat, s: State, t: State,
      i: nat)
    requires w.keys.Valid() && IsRun(w, answers, states, inputs) && n < |inputs| && s == states[n] && t == states[n + 1]
    requires i < |t.attempts| && (i < |s.attempts| ==> AsAnswered(w, answers, s.attempts[i], i))
    ensures AsAnswered(w, answers, t.attempts[i], i)
  {
    RunsStayTabled(w, answers, states, inputs, n);
    assert StepsTo(w, answers, states[n], inputs[n], states[n + 1]);
    if inputs[n].Pop? {
      PopRecords(w, answers, s, t, i);
    }
  }
}
