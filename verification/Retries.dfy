/** Retries (`src/engine.rs`): transient failures become timed re-dispatches. Every chain of
    attempts is conserved: it is pending, or it ended exactly once, and its attempts are
    linked through their timer keys in number, target and time. */
module Retries {
  import opened Model
  import opened TimerKeys
  import opened StateStore
  import opened Scheduler
  import opened Scenes
  import opened EngineSpec
  import opened EngineInvariants

  // --- conservation -------------------------------------------------------------------

  /** The engine gave up on the command with this attempt: it was refused for good, or failed
      with no attempt left. */
  predicate Abandons(w: Wiring, a: Attempt) {
    a.outcome.Permanent? || (a.outcome.Transient? && a.number >= w.retry.maxAttempts)
  }

  function Started(log: seq<Attempt>): nat {
    if log == [] then 0
    else Started(log[..|log| - 1]) + if log[|log| - 1].number == 1 then 1 else 0
  }

  function Succeeded(log: seq<Attempt>): nat {
    if log == [] then 0
    else Succeeded(log[..|log| - 1]) + if log[|log| - 1].outcome.Ok? then 1 else 0
  }

  function Abandoned(w: Wiring, log: seq<Attempt>): nat {
    if log == [] then 0
    else Abandoned(w, log[..|log| - 1]) + if Abandons(w, log[|log| - 1]) then 1 else 0
  }

  lemma CountsAppend(w: Wiring, log: seq<Attempt>, a: Attempt)
    ensures Started(log + [a]) == Started(log) + if a.number == 1 then 1 else 0
    ensures Succeeded(log + [a]) == Succeeded(log) + if a.outcome.Ok? then 1 else 0
    ensures Abandoned(w, log + [a]) == Abandoned(w, log) + if Abandons(w, a) then 1 else 0
  {
    assert (log + [a])[..|log + [a]| - 1] == log;
  }

  /** Chains started = successes + give-ups + pending retries + the one in flight. */
  ghost predicate Balanced(w: Wiring, s: State, flight: Option<TimerKey>) {
    Started(s.attempts) ==
      Succeeded(s.attempts) + Abandoned(w, s.attempts) + |s.retries| + if flight.Some? then 1 else 0
  }

  function Failures(queue: seq<Queued>): nat {
    if queue == [] then 0
    else (if queue[0].event.CommandFailed? then 1 else 0) + Failures(queue[1..])
  }

  lemma {:induction false} NoFailures(queue: seq<Queued>)
    requires forall i :: 0 <= i < |queue| ==> !queue[i].event.CommandFailed?
    ensures Failures(queue) == 0
  {
    if queue != [] {
      NoFailures(queue[1..]);
    }
  }

  /** Giving up is announced once, with the command, the reason and the number of attempts; a
      failure that is retried puts nothing on the bus, and an accepted command the adapter's
      own events. */
  lemma GivingUpIsAnnounced(w: Wiring, answers: Answers, s: State, command: Command, attempt: nat, depth: nat,
      via: Option<TimerKey>)
    requires command.TargetsDevice()
    requires var outcome := Answer(w, answers, s, command.device); outcome.Ok? ==>
      forall e <- outcome.events :: !e.CommandFailed?
    ensures var t := Attempted(w, answers, s, command, attempt, depth, via);
      && s.queue <= t.queue && |t.attempts| == |s.attempts| + 1
      && var pushed, outcome := t.queue[|s.queue|..], Answer(w, answers, s, command.device);
      && (outcome.Ok? ==> pushed == Tagged(outcome.events, depth + 1))
      && (outcome.Transient? && attempt < w.retry.maxAttempts ==> pushed == [])
      && (outcome.Permanent? || (outcome.Transient? && attempt >= w.retry.maxAttempts) ==>
            pushed == [Queued(CommandFailed(command, outcome.reason, attempt), depth + 1)])
      && Failures(pushed) == (if Abandons(w, t.attempts[|s.attempts|]) then 1 else 0)
  {
    var outcome := Answer(w, answers, s, command.device);
    var pushed := Reply(w, outcome, command, attempt, depth);
    assert (s.queue + pushed)[|s.queue|..] == pushed;
    if outcome.Ok? {
      NoFailures(pushed);
    }
  }

  // --- links ----------------------------------------------------------------------------

  function WaitEnd(w: Wiring, a: Attempt): Millis {
    a.at + Backoff(w.retry, a.number)
  }

  /** A re-issued command is the stored one, or what it resolves to against some store. For
      an absolute command that is the same command. */
  ghost predicate Reissues(a: Command, b: Command) {
    b == a || exists store: Store :: b == ResolveImplicit(store, a)
  }

  lemma ReissuesResolved(a: Command, b: Command, store: Store)
    requires Reissues(a, b)
    ensures Reissues(a, ResolveImplicit(store, b))
  {
  }

  lemma ReissuesCompose(a: Command, b: Command, c: Command)
    requires Reissues(a, b) && Reissues(b, c)
    ensures Reissues(a, c)
  {
    if c != b {
      var store: Store :| c == ResolveImplicit(store, b);
      ReissuesResolved(a, b, store);
    }
  }

  /** Attempt `b` re-issues attempt `a`: its command, next in number, to the same device,
      not before its backoff is over, and exactly then under a punctual host. */
  ghost predicate Follows(w: Wiring, a: Attempt, b: Attempt, punctual: bool) {
    a.next.Some? && b.via == a.next && b.number == a.number + 1
    && Reissues(a.command, b.command) && b.command.Target() == a.command.Target()
    && WaitEnd(w, a) <= b.at && (punctual ==> WaitEnd(w, a) == b.at)
  }

  ghost predicate Numbered(w: Wiring, a: Attempt) {
    1 <= a.number <= (if w.retry.maxAttempts > 1 then w.retry.maxAttempts else 1)
    && (a.number == 1 <==> a.via.None?)
    && (a.next.Some? <==> a.outcome.Transient? && a.number < w.retry.maxAttempts)
  }

  /** Some later attempt was reached through this key. */
  ghost predicate Followed(log: seq<Attempt>, key: TimerKey) {
    exists i :: 0 <= i < |log| && log[i].via == Some(key)
  }

  /** Some attempt left this key behind. */
  ghost predicate Issued(log: seq<Attempt>, key: TimerKey) {
    exists p :: 0 <= p < |log| && log[p].next == Some(key)
  }

  ghost predicate HasOrigin(w: Wiring, log: seq<Attempt>, i: nat, punctual: bool)
    requires i < |log|
  {
    exists p :: 0 <= p < i && Follows(w, log[p], log[i], punctual)
  }

  /** The retry key an attempt left behind is pending or followed, and never both. */
  ghost predicate Accounted(w: Wiring, s: State, a: Attempt, flight: Option<TimerKey>) {
    a.next.Some? ==>
      var key := a.next.value;
      w.keys.isRetry(key) && w.keys.serial(key) <= s.retryCounter
      && (key in s.retries ==> s.retries[key] == PendingRetry(a.command, a.number + 1) && !Followed(s.attempts, key))
      && (key !in s.retries ==> (Followed(s.attempts, key) <==> flight != Some(key)))
  }

  /** While it waits, the key's deadline is the end of the backoff. */
  ghost predicate OnTime(w: Wiring, s: State, a: Attempt, punctual: bool) {
    a.next.Some? && a.next.value in s.retries ==>
      (a.next.value in s.timers ==> s.timers[a.next.value] == WaitEnd(w, a))
      && (a.next.value in Elapsing(s.queue) ==>
            WaitEnd(w, a) <= s.now && (punctual ==> WaitEnd(w, a) == s.now))
  }

  /** No key is left behind twice, and none is followed twice. */
  ghost predicate DistinctKeys(log: seq<Attempt>) {
    log == [] ||
    var before, a := log[..|log| - 1], log[|log| - 1];
    DistinctKeys(before)
    && (a.next.Some? ==> !Issued(before, a.next.value))
    && (a.via.Some? ==> !Followed(before, a.via.value))
  }

  lemma {:induction false} DistinctKeysPairwise(log: seq<Attempt>, p: nat, q: nat)
    requires DistinctKeys(log) && p < q < |log|
    ensures log[p].next.Some? ==> log[p].next != log[q].next
    ensures log[p].via.Some? ==> log[p].via != log[q].via
  {
    var before := log[..|log| - 1];
    if q < |before| {
      DistinctKeysPairwise(before, p, q);
    } else {
      assert before[p] == log[p];
      assert log[p].next.Some? ==> Issued(before, log[p].next.value);
      assert log[p].via.Some? ==> Followed(before, log[p].via.value);
    }
  }

  /** The log alone: attempts are numbered within the policy and linked one to one. */
  ghost predicate Linked(w: Wiring, log: seq<Attempt>, punctual: bool) {
    && (forall i :: 0 <= i < |log| ==> Numbered(w, log[i]))
    && (forall i :: 0 <= i < |log| && log[i].via.Some? ==> HasOrigin(w, log, i, punctual))
    && DistinctKeys(log)
  }

  /** Everything the attempt log and the retry table say about each other. */
  ghost predicate Ledger(w: Wiring, s: State, flight: Option<TimerKey>, punctual: bool) {
    && Linked(w, s.attempts, punctual)
    && (forall i :: 0 <= i < |s.attempts| ==> Entry(w, s, s.attempts[i], flight, punctual))
    && (forall key <- s.retries.Keys :: Issued(s.attempts, key))
  }

  ghost predicate Entry(w: Wiring, s: State, a: Attempt, flight: Option<TimerKey>, punctual: bool) {
    Accounted(w, s, a, flight) && OnTime(w, s, a, punctual)
  }

  // --- one attempt ------------------------------------------------------------------------

  lemma AttemptedLog(w: Wiring, answers: Answers, s: State, command: Command, attempt: nat, depth: nat,
      via: Option<TimerKey>)
    requires command.TargetsDevice()
    ensures var t := Attempted(w, answers, s, command, attempt, depth, via);
      var outcome := Answer(w, answers, s, command.device);
      var key := w.keys.retry(s.retryCounter + 1);
      var again := Retryable(w, outcome, attempt);
      && t.attempts == s.attempts + [Attempt(command, attempt, s.now, outcome, via, if again then Some(key) else None)]
      && t.now == s.now
      && t.retries == (if again then s.retries[key := PendingRetry(command, attempt + 1)] else s.retries)
      && t.retryCounter == (if again then s.retryCounter + 1 else s.retryCounter)
      && t.timers == (if again then s.timers[key := s.now + Backoff(w.retry, attempt)] else s.timers)
  {
  }

  /** The new attempt is a fresh start, or takes over the chain in flight. */
  ghost predicate Continues(w: Wiring, s: State, command: Command, attempt: nat, flight: Option<TimerKey>,
      punctual: bool) {
    match flight
    case None => attempt == 1
    case Some(key) =>
      key !in s.retries && w.keys.serial(key) <= s.retryCounter && !Followed(s.attempts, key)
      && exists p :: 0 <= p < |s.attempts| &&
           Follows(w, s.attempts[p], Attempt(command, attempt, s.now, Ok([]), Some(key), None), punctual)
  }

  lemma AttemptBalances(w: Wiring, answers: Answers, s: State, command: Command, attempt: nat, depth: nat,
      flight: Option<TimerKey>)
    requires w.keys.Valid() && command.TargetsDevice() && Owned(w, s) && Balanced(w, s, flight)
    requires attempt == 1 <==> flight.None?
    ensures Balanced(w, Attempted(w, answers, s, command, attempt, depth, flight), None)
  {
    var t := Attempted(w, answers, s, command, attempt, depth, flight);
    AttemptedLog(w, answers, s, command, attempt, depth, flight);
    CountsAppend(w, s.attempts, t.attempts[|s.attempts|]);
    var key := w.keys.retry(s.retryCounter + 1);
    assert key !in s.retries by {
      assert w.keys.serial(key) == s.retryCounter + 1;
      assert key in s.retries ==> OwnsRetry(w, s, key);
    }
  }

  /** `t` is `s` after one more attempt `a`, whose retry key, if any, is fresh. */
  ghost predicate Extended(w: Wiring, s: State, t: State, a: Attempt) {
    var key := w.keys.retry(s.retryCounter + 1);
    && t.attempts == s.attempts + [a] && t.now == s.now && a.at == s.now
    && a.next == (if Retryable(w, a.outcome, a.number) then Some(key) else None)
    && t.retries == (if a.next.Some? then s.retries[key := PendingRetry(a.command, a.number + 1)] else s.retries)
    && t.retryCounter == (if a.next.Some? then s.retryCounter + 1 else s.retryCounter)
    && t.timers == (if a.next.Some? then s.timers[key := WaitEnd(w, a)] else s.timers)
    && Elapsing(t.queue) == Elapsing(s.queue)
  }

  lemma FollowedGrows(log: seq<Attempt>, a: Attempt, key: TimerKey)
    ensures Followed(log + [a], key) <==> Followed(log, key) || a.via == Some(key)
  {
    if Followed(log, key) {
      var i :| 0 <= i < |log| && log[i].via == Some(key);
      assert (log + [a])[i].via == Some(key);
    }
    if a.via == Some(key) {
      assert (log + [a])[|log|].via == Some(key);
    }
  }

  lemma ExtendedAccounts(w: Wiring, s: State, t: State, a: Attempt, i: nat)
    requires w.keys.Valid() && Owned(w, s) && Extended(w, s, t, a)
    requires i < |s.attempts| && Accounted(w, s, s.attempts[i], a.via)
    requires a.via.Some? ==> a.via.value !in s.retries
    ensures Accounted(w, t, s.attempts[i], None)
  {
    if s.attempts[i].next.Some? {
      FreshRetryKey(w, s);
      FollowedGrows(s.attempts, a, s.attempts[i].next.value);
    }
  }

  lemma ExtendedDistinct(w: Wiring, s: State, t: State, a: Attempt, punctual: bool)
    requires w.keys.Valid() && Owned(w, s) && Extended(w, s, t, a) && Ledger(w, s, a.via, punctual)
    requires a.via.Some? ==> !Followed(s.attempts, a.via.value)
    ensures DistinctKeys(t.attempts)
  {
    FreshRetryKey(w, s);
    assert t.attempts[..|t.attempts| - 1] == s.attempts;
    forall p | 0 <= p < |s.attempts| && s.attempts[p].next.Some? ensures s.attempts[p].next != a.next {
      assert Entry(w, s, s.attempts[p], a.via, punctual);
    }
  }

  /** The new attempt itself: its key is pending, due when its backoff ends, unfollowed. */
  lemma NewestAccounted(w: Wiring, s: State, t: State, a: Attempt, punctual: bool)
    requires w.keys.Valid() && Owned(w, s) && Extended(w, s, t, a)
    requires Ledger(w, s, a.via, punctual)
    requires a.via.Some? ==> w.keys.serial(a.via.value) <= s.retryCounter
    ensures Entry(w, t, a, None, punctual)
  {
    if a.next.Some? {
      var key := a.next.value;
      FreshRetryKey(w, s);
      forall i | 0 <= i < |s.attempts| ensures s.attempts[i].via != Some(key) {
        if s.attempts[i].via.Some? {
          assert HasOrigin(w, s.attempts, i, punctual);
          var p :| 0 <= p < i && Follows(w, s.attempts[p], s.attempts[i], punctual);
          assert Entry(w, s, s.attempts[p], a.via, punctual);
        }
      }
      FollowedGrows(s.attempts, a, key);
    }
  }

  lemma ExtendedEntry(w: Wiring, s: State, t: State, a: Attempt, punctual: bool, i: nat)
    requires w.keys.Valid() && Owned(w, s) && Extended(w, s, t, a) && i < |s.attempts|
    requires Entry(w, s, s.attempts[i], a.via, punctual)
    requires a.via.Some? ==> a.via.value !in s.retries
    ensures Entry(w, t, s.attempts[i], None, punctual)
  {
    ExtendedAccounts(w, s, t, a, i);
    FreshRetryKey(w, s);
  }

  lemma ExtendedOrigins(w: Wiring, s: State, a: Attempt, punctual: bool)
    requires Linked(w, s.attempts, punctual)
    requires Continues(w, s, a.command, a.number, a.via, punctual) && a.at == s.now
    ensures var log := s.attempts + [a];
      forall i :: 0 <= i < |log| && log[i].via.Some? ==> HasOrigin(w, log, i, punctual)
  {
    var n, log := |s.attempts|, s.attempts + [a];
    forall i | 0 <= i < |log| && log[i].via.Some? ensures HasOrigin(w, log, i, punctual) {
      if i < n {
        assert HasOrigin(w, s.attempts, i, punctual);
        var p :| 0 <= p < i && Follows(w, s.attempts[p], s.attempts[i], punctual);
        assert Follows(w, log[p], log[i], punctual);
      } else {
        var next := Attempt(a.command, a.number, s.now, Ok([]), a.via, None);
        var p :| 0 <= p < n && Follows(w, s.attempts[p], next, punctual);
        assert Follows(w, log[p], log[i], punctual);
      }
    }
  }

  lemma ExtendedIssued(w: Wiring, s: State, t: State, a: Attempt, key: TimerKey)
    requires Extended(w, s, t, a) && key in t.retries && (key in s.retries ==> Issued(s.attempts, key))
    ensures Issued(t.attempts, key)
  {
    if key in s.retries {
      var p :| 0 <= p < |s.attempts| && s.attempts[p].next == Some(key);
      assert t.attempts[p].next == Some(key);
    } else {
      assert t.attempts[|s.attempts|].next == Some(key);
    }
  }

  lemma ExtendedEntries(w: Wiring, s: State, t: State, a: Attempt, punctual: bool)
    requires w.keys.Valid() && Owned(w, s) && Ledger(w, s, a.via, punctual) && Extended(w, s, t, a)
    requires Continues(w, s, a.command, a.number, a.via, punctual)
    ensures forall i :: 0 <= i < |t.attempts| ==> Entry(w, t, t.attempts[i], None, punctual)
    ensures forall key <- t.retries.Keys :: Issued(t.attempts, key)
  {
    NewestAccounted(w, s, t, a, punctual);
    forall i | 0 <= i < |s.attempts| ensures Entry(w, t, s.attempts[i], None, punctual) {
      ExtendedEntry(w, s, t, a, punctual, i);
    }
    forall key <- t.retries.Keys ensures Issued(t.attempts, key) {
      ExtendedIssued(w, s, t, a, key);
    }
  }

  lemma ExtendedLedger(w: Wiring, s: State, t: State, a: Attempt, punctual: bool)
    requires w.keys.Valid() && Owned(w, s) && Ledger(w, s, a.via, punctual) && Extended(w, s, t, a)
    requires Numbered(w, a) && Continues(w, s, a.command, a.number, a.via, punctual)
    ensures Ledger(w, t, None, punctual)
  {
    ExtendedEntries(w, s, t, a, punctual);
    ExtendedDistinct(w, s, t, a, punctual);
    ExtendedOrigins(w, s, a, punctual);
  }

  /** The retry ledger of a state: conserved, linked, on time. */
  ghost predicate Books(w: Wiring, s: State, flight: Option<TimerKey>, punctual: bool) {
    Balanced(w, s, flight) && Ledger(w, s, flight, punctual)
  }

  lemma AttemptedExtends(w: Wiring, answers: Answers, s: State, command: Command, attempt: nat, depth: nat,
      via: Option<TimerKey>) returns (a: Attempt)
    requires CleanAnswers(answers) && command.TargetsDevice()
    ensures a.command == command && a.number == attempt && a.via == via
    ensures Extended(w, s, Attempted(w, answers, s, command, attempt, depth, via), a)
  {
    var t := Attempted(w, answers, s, command, attempt, depth, via);
    a := t.attempts[|s.attempts|];
    AttemptedLog(w, answers, s, command, attempt, depth, via);
    AttemptedFrame(w, answers, s, command, attempt, depth, via);
    DeliveredElapsing(s, t, depth);
  }

  lemma AttemptedKeepsBooks(w: Wiring, answers: Answers, s: State, command: Command, attempt: nat, depth: nat,
      via: Option<TimerKey>, punctual: bool)
    requires w.keys.Valid() && CleanAnswers(answers) && command.TargetsDevice()
    requires Owned(w, s) && Books(w, s, via, punctual) && Continues(w, s, command, attempt, via, punctual)
    requires attempt == 1 || 2 <= attempt <= w.retry.maxAttempts
    requires attempt == 1 <==> via.None?
    ensures Books(w, Attempted(w, answers, s, command, attempt, depth, via), None, punctual)
  {
    AttemptBalances(w, answers, s, command, attempt, depth, via);
    var a := AttemptedExtends(w, answers, s, command, attempt, depth, via);
    ExtendedLedger(w, s, Attempted(w, answers, s, command, attempt, depth, via), a, punctual);
  }

  lemma AttemptedFrame(w: Wiring, answers: Answers, s: State, command: Command, attempt: nat, depth: nat,
      via: Option<TimerKey>)
    requires CleanAnswers(answers) && command.TargetsDevice()
    ensures Delivered(s, Attempted(w, answers, s, command, attempt, depth, via), depth)
  {
    assert CleanOutcome(answers(|s.attempts|));
    ReplyFrame(w, Answer(w, answers, s, command.device), command, attempt, depth);
  }

  /** Steps that write no attempt and move no pending retry key keep the books. */
  ghost predicate RetriesUntouched(s: State, t: State) {
    && t.attempts == s.attempts && t.retries == s.retries && t.retryCounter == s.retryCounter && t.now == s.now
    && (forall key <- s.retries.Keys :: key in t.timers ==> key in s.timers && t.timers[key] == s.timers[key])
    && (forall key <- s.retries.Keys :: key in Elapsing(t.queue) ==> key in Elapsing(s.queue))
  }

  lemma UntouchedKeepsBooks(w: Wiring, s: State, t: State, flight: Option<TimerKey>, punctual: bool)
    requires Books(w, s, flight, punctual) && RetriesUntouched(s, t)
    ensures Books(w, t, flight, punctual)
  {
    forall i | 0 <= i < |s.attempts| ensures Entry(w, t, s.attempts[i], flight, punctual) {
      assert Entry(w, s, s.attempts[i], flight, punctual);
    }
  }

  /** A delivery: a fresh command, or the retry in flight. */
  lemma DeliverKeepsBooks(w: Wiring, answers: Answers, s: State, command: Command, attempt: nat, depth: nat,
      via: Option<TimerKey>, punctual: bool)
    requires w.keys.Valid() && CleanAnswers(answers) && !command.ActivateScene? && UserKeyed(w, command)
    requires Owned(w, s) && Books(w, s, via, punctual)
    requires attempt == 1 || 2 <= attempt <= w.retry.maxAttempts
    requires attempt == 1 <==> via.None?
    requires via.Some? ==> command.TargetsDevice() && Continues(w, s, command, attempt, via, punctual)
    ensures Books(w, Deliver(w, answers, s, command, attempt, depth, via), None, punctual)
  {
    ResolvedTarget(s.store, command);
    if command.TargetsDevice() {
      var resolved := ResolveImplicit(s.store, command);
      assert Continues(w, s, resolved, attempt, via, punctual) by {
        if via.Some? {
          var p :| 0 <= p < |s.attempts| &&
            Follows(w, s.attempts[p], Attempt(command, attempt, s.now, Ok([]), via, None), punctual);
          ReissuesResolved(s.attempts[p].command, command, s.store);
          assert Follows(w, s.attempts[p], Attempt(resolved, attempt, s.now, Ok([]), via, None), punctual);
        }
      }
      AttemptedKeepsBooks(w, answers, s, resolved, attempt, depth, via, punctual);
    } else {
      var t := Deliver(w, answers, s, command, attempt, depth, via);
      forall key <- s.retries.Keys ensures key in t.timers ==> key in s.timers && t.timers[key] == s.timers[key] {
        assert OwnsRetry(w, s, key);
      }
      UntouchedKeepsBooks(w, s, t, None, punctual);
    }
  }

  lemma {:induction false} DeliverAllKeepsBooks(w: Wiring, answers: Answers, s: State, commands: seq<Command>,
      depth: nat, punctual: bool)
    requires w.keys.Valid() && CleanAnswers(answers) && (forall c <- commands :: !c.ActivateScene? && UserKeyed(w, c))
    requires Owned(w, s) && Books(w, s, None, punctual)
    ensures Books(w, DeliverAll(w, answers, s, commands, depth), None, punctual)
    decreases |commands|
  {
    if commands != [] {
      DeliverKeepsBooks(w, answers, s, commands[0], 1, depth, None, punctual);
      DeliverOwns(w, answers, s, commands[0], 1, depth, None);
      var t := Deliver(w, answers, s, commands[0], 1, depth, None);
      DeliverAllKeepsBooks(w, answers, t, commands[1..], depth, punctual);
    }
  }

  lemma RunKeepsBooks(w: Wiring, answers: Answers, s: State, commands: seq<Command>, depth: nat, punctual: bool)
    requires CleanAnswers(answers) && WellFormed(w) && (forall c <- commands :: UserKeyed(w, c))
    requires Owned(w, s) && Books(w, s, None, punctual)
    ensures Books(w, Run(w, answers, s, commands, depth), None, punctual)
  {
    LeavesUserKeyed(w, w.scenes, commands, w.scenes.Keys);
    DeliverAllKeepsBooks(w, answers, s, Flatten(w.scenes, commands), depth, punctual);
  }
}
