/** From the text of an accepted configuration to what the running engine does: when a rule
    runs, and what its commands ask of the adapters, told by the configuration's own nodes
    and the events heard so far. */
module Behaviour {
  import opened Model
  import opened StateStore
  import opened Rules
  import opened RawConfig
  import opened Resolve
  import opened Meaning
  import opened EngineSpec
  import opened Orders
  import Mirror

  /** What the rule's guard says of a log; no guard always holds. */
  ghost predicate GuardHolds(env: Env, guard: Option<Value>, log: seq<Event>) {
    guard.Some? ==> NodeHolds(env, guard.value, log)
  }

  ghost predicate GuardReported(env: Env, guard: Option<Value>, log: seq<Event>) {
    guard.Some? ==> NodeReported(env, guard.value, log)
  }

  lemma GuardPreserved(env: Env, guard: Option<Value>, c: Condition, before: seq<Event>, log: seq<Event>)
    requires GuardMeans(env, guard, c) && GuardReported(env, guard, before + log)
    ensures c.Eval(Replay(log)) == True ==> GuardHolds(env, guard, before + log)
    ensures GuardReported(env, guard, log) ==> (c.Eval(Replay(log)) == True <==> GuardHolds(env, guard, log))
  {
    if guard.Some? {
      PartialVerdictPreserved(env, guard.value, c, before, log);
      if GuardReported(env, guard, log) {
        ConditionPreserved(env, guard.value, c, log);
      }
    }
  }

  lemma ReplayGrows(log: seq<Event>, event: Event)
    ensures Replay(log + [event]) == Absorb(Replay(log), event)
    ensures Replaced(Replay(log), event) == Before(log, event)
  {
    assert (log + [event])[..|log + [event]| - 1] == log;
    ReplayIsLastReport(log);
  }

  /** An accepted rule answers an event only as written: its `when` node answers it over the
      log so far, and its guard holds of the log with the event, whatever the capabilities
      never reported may be. With the guard's capabilities reported, exactly then. */
  lemma RuleAnswersAsWritten(raw: Raw, c: Compiled, i: nat, log: seq<Event>, event: Event, before: seq<Event>)
    requires CompilesTo(raw, c) && i < |raw.rules|
    requires GuardReported(c.env, raw.rules[i].condition, before + (log + [event]))
    ensures var rule := raw.rules[i];
      && (AnswersTo(c.rules[i], Replay(log), event) ==>
            NodeAnswers(c.env, rule.when, log, event) && GuardHolds(c.env, rule.condition, before + (log + [event])))
      && (GuardReported(c.env, rule.condition, log + [event]) ==>
            (AnswersTo(c.rules[i], Replay(log), event) <==>
               NodeAnswers(c.env, rule.when, log, event) && GuardHolds(c.env, rule.condition, log + [event])))
  {
    var rule := raw.rules[i];
    assert RuleMeans(c.env, rule, i, c.rules[i]);
    TriggerPreserved(c.env, rule.when, c.rules[i].trigger, log, event);
    ReplayGrows(log, event);
    GuardPreserved(c.env, rule.condition, c.rules[i].condition, before, log + [event]);
  }

  /** On every run the event at the head of the queue is answered by exactly those accepted
      rules that are written to answer it. */
  lemma RunsAnswerAsWritten(raw: Raw, c: Compiled, w: Wiring, answers: Answers, states: seq<State>, inputs: seq<Input>,
      n: nat, i: nat, log: seq<Event>, event: Event)
    requires CompilesTo(raw, c) && w.rules == c.rules && i < |raw.rules|
    requires IsRun(w, answers, states, inputs) && n < |states| && states[n].queue != []
    requires log == states[n].received && event == states[n].queue[0].event
    requires GuardReported(c.env, raw.rules[i].condition, log + [event])
    ensures AnswersTo(c.rules[i], states[n].store, event) <==>
      NodeAnswers(c.env, raw.rules[i].when, log, event) && GuardHolds(c.env, raw.rules[i].condition, log + [event])
  {
    Mirror.RunsReplay(w, answers, states, inputs, n);
    assert [] + (log + [event]) == log + [event];
    RuleAnswersAsWritten(raw, c, i, log, event, []);
  }

  /** Each command of an accepted rule reaches its adapter as what its node asks for. */
  lemma CommandsAskAsWritten(raw: Raw, c: Compiled, i: nat, j: nat, log: seq<Event>)
    requires CompilesTo(raw, c) && i < |raw.rules| && j < |raw.rules[i].commands|
    ensures |c.rules[i].commands| == |raw.rules[i].commands|
    ensures NodeAsks(c.env, raw.rules[i].commands[j], log, ResolveImplicit(Replay(log), c.rules[i].commands[j]))
  {
    assert RuleMeans(c.env, raw.rules[i], i, c.rules[i]);
    CommandPreserved(c.env, raw.rules[i].commands[j], c.rules[i].commands[j], log,
      ResolveImplicit(Replay(log), c.rules[i].commands[j]));
  }

  /** So does each command of an accepted scene. */
  lemma ScenesAskAsWritten(raw: Raw, c: Compiled, i: nat, j: nat, log: seq<Event>)
    requires CompilesTo(raw, c) && i < |raw.scenes| && j < |raw.scenes[i].commands|
    ensures |c.scenes| == |raw.scenes| && |c.scenes[i]| == |raw.scenes[i].commands|
    ensures NodeAsks(c.env, raw.scenes[i].commands[j], log, ResolveImplicit(Replay(log), c.scenes[i][j]))
  {
    assert CommandsMean(c.env, raw.scenes[i].commands, c.scenes[i]);
    CommandPreserved(c.env, raw.scenes[i].commands[j], c.scenes[i][j], log,
      ResolveImplicit(Replay(log), c.scenes[i][j]));
  }

  /** An accepted rule waits exactly if its node says `for:`, as long as the text says. */
  lemma RulesWaitAsWritten(raw: Raw, c: Compiled, i: nat)
    requires CompilesTo(raw, c) && i < |raw.rules|
    ensures var wait, sustained := c.rules[i].forDuration, raw.rules[i].sustained;
      && (wait.Some? <==> sustained.Some?) && c.rules[i].id == i
      && (sustained.Some? ==> wait == c.env.scalars.duration(sustained.value))
  {
    assert RuleMeans(c.env, raw.rules[i], i, c.rules[i]);
  }
}
