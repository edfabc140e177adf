/** When the attempts of a retried command happen (`RetryPolicy::backoff`,
    `schedule_retry`): every attempt of every run stands at the end of a chain that starts
    with attempt 1, one backoff after another. */
module RetryTiming {
  import opened Model
  import opened EngineSpec
  import opened Retries
  import opened RetryRuns

  // --- the backoff schedule ------------------------------------------------------------

  function PowerOfTwo(n: nat): nat {
    if n == 0 then 1 else 2 * PowerOfTwo(n - 1)
  }

  lemma {:induction false} DoubledScales(base: Millis, n: nat)
    ensures Doubled(base, n) == base * PowerOfTwo(n)
  {
    if n > 0 {
      DoubledScales(base, n - 1);
      assert base * PowerOfTwo(n) == 2 * (base * PowerOfTwo(n - 1));
    }
  }

  lemma {:induction false} DoubledGrows(base: Millis, m: nat, n: nat)
    requires m <= n
    ensures Doubled(base, m) <= Doubled(base, n)
    decreases n
  {
    if m < n {
      DoubledGrows(base, m, n - 1);
    }
  }

  /** Longer after every failure, and never longer than 2^15 times the base. */
  lemma BackoffMonotoneAndCapped(policy: RetryPolicy, m: nat, n: nat)
    requires m <= n
    ensures Backoff(policy, m) <= Backoff(policy, n)
    ensures Backoff(policy, n) <= policy.baseBackoff * PowerOfTwo(15)
    ensures n >= 16 && Doubled(policy.baseBackoff, 15) <= U64_MAX ==>
      Backoff(policy, n) == policy.baseBackoff * PowerOfTwo(15)
  {
    var a := if m < 16 then m else 16;
    var b := if n < 16 then n else 16;
    var shiftA := if a == 0 then 0 else a - 1;
    var shiftB := if b == 0 then 0 else b - 1;
    DoubledGrows(policy.baseBackoff, shiftA, shiftB);
    DoubledGrows(policy.baseBackoff, shiftB, 15);
    DoubledScales(policy.baseBackoff, 15);
  }

  /** In closed form: the base doubled for every failure after the first, at most fifteen
      times, and at most what 64 bits hold. */
  lemma BackoffIs(policy: RetryPolicy, n: nat)
    ensures var doublings := if n == 0 then 0 else if n <= 16 then n - 1 else 15;
      var delay := policy.baseBackoff * PowerOfTwo(doublings);
      Backoff(policy, n) == if delay <= 0xFFFF_FFFF_FFFF_FFFF then delay else 0xFFFF_FFFF_FFFF_FFFF
  {
    DoubledScales(policy.baseBackoff, if n == 0 then 0 else if n <= 16 then n - 1 else 15);
  }

  /** Time from the first attempt to the n-th. */
  function TotalBackoff(policy: RetryPolicy, n: nat): Millis {
    if n <= 1 then 0 else TotalBackoff(policy, n - 1) + Backoff(policy, n - 1)
  }

  lemma {:induction false} BackoffDoubles(policy: RetryPolicy, n: nat)
    requires 1 <= n <= 16 && Doubled(policy.baseBackoff, 15) <= U64_MAX
    ensures Backoff(policy, n) == Doubled(policy.baseBackoff, n - 1)
  {
    DoubledGrows(policy.baseBackoff, n - 1, 15);
  }

  /** Without saturation the first seventeen attempts form a geometric series... */
  lemma {:induction false} DoublingSchedule(policy: RetryPolicy, n: nat)
    requires 1 <= n <= 17 && Doubled(policy.baseBackoff, 15) <= U64_MAX
    ensures TotalBackoff(policy, n) == policy.baseBackoff * PowerOfTwo(n - 1) - policy.baseBackoff
  {
    if n > 1 {
      DoublingSchedule(policy, n - 1);
      BackoffDoubles(policy, n - 1);
      DoubledScales(policy.baseBackoff, n - 2);
      DoubledScales(policy.baseBackoff, n - 1);
    }
  }

  /** ...and every later one adds the same capped delay. */
  lemma {:induction false} CappedSchedule(policy: RetryPolicy, n: nat)
    requires n >= 17 && Doubled(policy.baseBackoff, 15) <= U64_MAX
    ensures TotalBackoff(policy, n) ==
      policy.baseBackoff * PowerOfTwo(16) - policy.baseBackoff + (n - 17) * (policy.baseBackoff * PowerOfTwo(15))
  {
    if n == 17 {
      DoublingSchedule(policy, 17);
    } else {
      CappedSchedule(policy, n - 1);
      BackoffMonotoneAndCapped(policy, 0, n - 1);
      var step := policy.baseBackoff * PowerOfTwo(15);
      assert (n - 17) * step == (n - 18) * step + step;
    }
  }

  // --- chains ------------------------------------------------------------------------------

  /** Positions in the log, first to last, each attempt the re-issue of the one before. */
  ghost predicate IsChain(w: Wiring, log: seq<Attempt>, chain: seq<nat>, punctual: bool) {
    && chain != []
    && (forall k :: 0 <= k < |chain| ==> chain[k] < |log|)
    && log[chain[0]].number == 1
    && (forall k :: 0 <= k < |chain| - 1 ==> Linking(w, log, chain[k], chain[k + 1], punctual))
  }

  ghost predicate Linking(w: Wiring, log: seq<Attempt>, p: nat, q: nat, punctual: bool) {
    p < q < |log| && Follows(w, log[p], log[q], punctual)
  }

  lemma {:induction false} ChainEndingAt(w: Wiring, log: seq<Attempt>, i: nat, punctual: bool) returns (chain: seq<nat>)
    requires Linked(w, log, punctual) && i < |log|
    ensures IsChain(w, log, chain, punctual) && chain[|chain| - 1] == i && |chain| == log[i].number
    decreases i
  {
    assert Numbered(w, log[i]);
    if log[i].via.None? {
      chain := [i];
    } else {
      assert HasOrigin(w, log, i, punctual);
      var p :| 0 <= p < i && Follows(w, log[p], log[i], punctual);
      var before := ChainEndingAt(w, log, p, punctual);
      ChainGrows(w, log, before, i, punctual);
      chain := before + [i];
    }
  }

  lemma ChainGrows(w: Wiring, log: seq<Attempt>, chain: seq<nat>, i: nat, punctual: bool)
    requires IsChain(w, log, chain, punctual) && Linking(w, log, chain[|chain| - 1], i, punctual)
    ensures IsChain(w, log, chain + [i], punctual)
  {
    var grown := chain + [i];
    forall k | 0 <= k < |grown| - 1 ensures Linking(w, log, grown[k], grown[k + 1], punctual) {
      if k < |chain| - 1 {
        assert Linking(w, log, chain[k], chain[k + 1], punctual);
      }
    }
  }

  lemma {:induction false} ChainTiming(w: Wiring, log: seq<Attempt>, chain: seq<nat>, punctual: bool, k: nat)
    requires IsChain(w, log, chain, punctual) && k < |chain|
    ensures var first, last := log[chain[0]], log[chain[k]];
      && last.number == k + 1
      && Reissues(first.command, last.command) && last.command.Target() == first.command.Target()
      && first.at + TotalBackoff(w.retry, k + 1) <= last.at
      && (punctual ==> first.at + TotalBackoff(w.retry, k + 1) == last.at)
  {
    if k > 0 {
      ChainTiming(w, log, chain, punctual, k - 1);
      assert Linking(w, log, chain[k - 1], chain[k], punctual);
      ReissuesCompose(log[chain[0]].command, log[chain[k - 1]].command, log[chain[k]].command);
    }
  }

  /** Retry timing over whole runs: the n-th attempt of a command happens no sooner than
      the first n - 1 backoffs after the first, re-issuing its command to its device, and
      exactly then if the host never oversleeps. */
  lemma AttemptsAreSpaced(w: Wiring, answers: Answers, states: seq<State>, inputs: seq<Input>, n: nat, i: nat,
      punctual: bool)
    returns (first: nat)
    requires WellFormed(w) && CleanAnswers(answers) && CleanInputs(inputs)
    requires IsRun(w, answers, states, inputs) && n < |states| && i < |states[n].attempts|
    requires punctual ==> PunctualHost(states, inputs)
    ensures var log := states[n].attempts;
      && first <= i && log[first].number == 1
      && Reissues(log[first].command, log[i].command) && log[first].command.Target() == log[i].command.Target()
      && log[first].at + TotalBackoff(w.retry, log[i].number) <= log[i].at
      && (punctual ==> log[first].at + TotalBackoff(w.retry, log[i].number) == log[i].at)
  {
    RunsKeepBooks(w, answers, states, inputs, n, punctual);
    var log := states[n].attempts;
    var chain := ChainEndingAt(w, log, i, punctual);
    ChainTiming(w, log, chain, punctual, |chain| - 1);
    ChainAscends(w, log, chain, punctual, |chain| - 1);
    first := chain[0];
  }

  lemma {:induction false} ChainAscends(w: Wiring, log: seq<Attempt>, chain: seq<nat>, punctual: bool, k: nat)
    requires IsChain(w, log, chain, punctual) && k < |chain|
    ensures chain[0] <= chain[k]
  {
    if k > 0 {
      ChainAscends(w, log, chain, punctual, k - 1);
      assert Linking(w, log, chain[k - 1], chain[k], punctual);
    }
  }

  /** Each chain makes at most `max(1, max_attempts)` dispatches, and once no retry is
      pending every chain has ended: its last attempt succeeded or was given up on. */
  lemma ChainsEnd(w: Wiring, answers: Answers, states: seq<State>, inputs: seq<Input>, n: nat, i: nat)
    requires WellFormed(w) && CleanAnswers(answers) && CleanInputs(inputs)
    requires IsRun(w, answers, states, inputs) && n < |states| && i < |states[n].attempts|
    ensures var a := states[n].attempts[i];
      && 1 <= a.number <= (if w.retry.maxAttempts > 1 then w.retry.maxAttempts else 1)
      && (states[n].retries == map[] ==>
            a.outcome.Ok? || Abandons(w, a) || (exists q: nat :: Linking(w, states[n].attempts, i, q, false)))
  {
    RunsKeepBooks(w, answers, states, inputs, n, false);
    var s := states[n];
    var a := s.attempts[i];
    assert Entry(w, s, a, None, false) && Numbered(w, a);
    if s.retries == map[] && a.next.Some? {
      assert Followed(s.attempts, a.next.value);
      FollowedIsLinked(w, s.attempts, i);
    }
  }

  /** The attempt that took a key over is linked to the one that left it behind. */
  lemma FollowedIsLinked(w: Wiring, log: seq<Attempt>, i: nat)
    requires Linked(w, log, false) && i < |log| && log[i].next.Some? && Followed(log, log[i].next.value)
    ensures exists q: nat :: Linking(w, log, i, q, false)
  {
    var q :| 0 <= q < |log| && log[q].via == log[i].next;
    assert HasOrigin(w, log, q, false);
    var p :| 0 <= p < q && Follows(w, log[p], log[q], false);
    OneIssuer(log, p, i);
    assert Linking(w, log, i, q, false);
  }

  lemma OneIssuer(log: seq<Attempt>, p: nat, i: nat)
    requires DistinctKeys(log) && p < |log| && i < |log| && log[p].next.Some? && log[p].next == log[i].next
    ensures p == i
  {
    if p < i {
      DistinctKeysPairwise(log, p, i);
    } else if i < p {
      DistinctKeysPairwise(log, i, p);
    }
  }

  /** No retry is pending: whatever was left for a retry has been re-issued. */
  ghost predicate AllFollowed(log: seq<Attempt>) {
    forall i :: 0 <= i < |log| && log[i].next.Some? ==> Followed(log, log[i].next.value)
  }

  /** Following a chain as far as the log goes: it ends with an attempt left for no retry. */
  lemma {:induction false} FollowChain(w: Wiring, log: seq<Attempt>, chain: seq<nat>, last: nat)
    returns (whole: seq<nat>)
    requires Linked(w, log, false) && AllFollowed(log) && IsChain(w, log, chain, false)
    requires last == chain[|chain| - 1]
    ensures IsChain(w, log, whole, false) && whole[0] == chain[0] && log[whole[|whole| - 1]].next == None
    decreases |log| - last
  {
    if log[last].next.Some? {
      FollowedIsLinked(w, log, last);
      var q: nat :| Linking(w, log, last, q, false);
      ChainGrows(w, log, chain, q, false);
      whole := FollowChain(w, log, chain + [q], q);
    } else {
      whole := chain;
    }
  }

  /** Every command is tried until it succeeds, is refused for good, or has been tried as
      often as the policy allows: with no retry pending, its chain ends there, every attempt
      before the last having failed transiently. So a command that always fails transiently
      is tried exactly `max(1, max_attempts)` times. */
  lemma ChainsRunOut(w: Wiring, answers: Answers, states: seq<State>, inputs: seq<Input>, n: nat, first: nat)
    returns (chain: seq<nat>)
    requires WellFormed(w) && CleanAnswers(answers) && CleanInputs(inputs)
    requires IsRun(w, answers, states, inputs) && n < |states| && states[n].retries == map[]
    requires first < |states[n].attempts| && states[n].attempts[first].number == 1
    ensures var log := states[n].attempts;
      && IsChain(w, log, chain, false) && chain[0] == first
      && (forall k :: 0 <= k < |chain| - 1 ==> log[chain[k]].outcome.Transient?)
      && var last := log[chain[|chain| - 1]].outcome;
         last.Ok? || last.Permanent? || |chain| == if w.retry.maxAttempts > 1 then w.retry.maxAttempts else 1
  {
    RunsKeepBooks(w, answers, states, inputs, n, false);
    var s := states[n];
    forall i | 0 <= i < |s.attempts| && s.attempts[i].next.Some?
      ensures Followed(s.attempts, s.attempts[i].next.value)
    {
      assert Entry(w, s, s.attempts[i], None, false);
    }
    chain := FollowChain(w, s.attempts, [first], first);
    ChainTiming(w, s.attempts, chain, false, |chain| - 1);
    assert Numbered(w, s.attempts[chain[|chain| - 1]]);
    forall k | 0 <= k < |chain| - 1 ensures s.attempts[chain[k]].outcome.Transient? {
      assert Linking(w, s.attempts, chain[k], chain[k + 1], false);
      assert Numbered(w, s.attempts[chain[k]]);
    }
  }
}
