/** When a configuration is accepted (`src/compile/resolve.rs`), told by its own text: every
    name it uses is declared, every node fits, every check passes. */
module Acceptance {
  import opened Model
  import opened Rules
  import opened RawConfig
  import opened Resolve
  import opened Meaning
  import opened MeaningExists

  // --- devices ---------------------------------------------------------------------------------

  ghost predicate Known(text: string) {
    exists kind :: NameOf(kind) == text && Nameable(kind)
  }

  /** Its adapter is declared and its capabilities are ones a configuration may name. */
  ghost predicate DeviceFits(raw: Raw, d: RawDevice) {
    (exists a <- raw.adapters :: a.name == d.adapter) && forall text <- d.capabilities :: Known(text)
  }

  lemma {:induction false} IndexExists(names: seq<string>) returns (index: map<string, nat>)
    requires Distinct(names)
    ensures Indexes(index, names)
  {
    if names == [] {
      index := map[];
    } else {
      var before, last := names[..|names| - 1], names[|names| - 1];
      var rest := IndexExists(before);
      index := rest[last := |before|];
      assert names == before + [last];
      forall i | 0 <= i < |names| ensures names[i] in index && index[names[i]] == i {
        assert i < |before| ==> names[i] == before[i] && before[i] in before;
      }
    }
  }

  lemma {:induction false} KindsExist(texts: seq<string>) returns (kinds: seq<CapabilityKind>)
    requires forall text <- texts :: Known(text)
    ensures CapabilitiesMean(texts, kinds)
  {
    if texts == [] {
      kinds := [];
    } else {
      assert texts[0] in texts && forall text <- texts[1..] :: text in texts;
      var kind :| NameOf(kind) == texts[0] && Nameable(kind);
      NamesRoundTrip(kind, texts[0]);
      var rest := KindsExist(texts[1..]);
      kinds := [kind] + rest;
    }
  }

  lemma DeviceExists(raw: Raw, i: nat) returns (device: DeviceDef)
    requires i < |raw.devices| && DeviceFits(raw, raw.devices[i])
    ensures DeviceMeans(raw, i, device)
  {
    var d := raw.devices[i];
    var a :| a in raw.adapters && a.name == d.adapter;
    var k :| 0 <= k < |raw.adapters| && raw.adapters[k] == a;
    var kinds := KindsExist(d.capabilities);
    device := DeviceDef(d.name, k, kinds, Interned(d.events, EventsBefore(raw.devices, i)));
  }

  lemma {:induction false} DevicesExist(raw: Raw, n: nat) returns (devices: seq<DeviceDef>)
    requires n <= |raw.devices| && forall d <- raw.devices :: DeviceFits(raw, d)
    ensures |devices| == n && forall i :: 0 <= i < n ==> DeviceMeans(raw, i, devices[i])
  {
    if n == 0 {
      devices := [];
    } else {
      var before := DevicesExist(raw, n - 1);
      assert raw.devices[n - 1] in raw.devices;
      var last := DeviceExists(raw, n - 1);
      devices := before + [last];
    }
  }

  lemma MeantDeviceFits(raw: Raw, i: nat, device: DeviceDef)
    requires i < |raw.devices| && DeviceMeans(raw, i, device)
    ensures DeviceFits(raw, raw.devices[i])
  {
    var d := raw.devices[i];
    assert raw.adapters[device.adapter] in raw.adapters;
    forall text <- d.capabilities ensures Known(text) {
      var j :| 0 <= j < |d.capabilities| && d.capabilities[j] == text;
      NamesRoundTrip(device.capabilities[j], text);
    }
  }

  ghost predicate EnvExists(raw: Raw) {
    exists env :: EnvMeans(raw, env)
  }

  /** The devices can be resolved exactly if each fits. */
  lemma EnvExistsIff(raw: Raw)
    requires raw.Keyed()
    ensures EnvExists(raw) <==> forall d <- raw.devices :: DeviceFits(raw, d)
  {
    if env :| EnvMeans(raw, env) {
      forall d <- raw.devices ensures DeviceFits(raw, d) {
        var i :| 0 <= i < |raw.devices| && raw.devices[i] == d;
        MeantDeviceFits(raw, i, env.devices[i]);
      }
    }
    if forall d <- raw.devices :: DeviceFits(raw, d) {
      var devices := DevicesExist(raw, |raw.devices|);
      var byDevice := IndexExists(raw.DeviceNames());
      var byScene := IndexExists(raw.SceneNames());
      var bySchedule := IndexExists(raw.ScheduleNames());
      assert EnvMeans(raw, Env(devices, byDevice, byScene, bySchedule, raw.scalars));
    }
  }

  // --- scenes and rules ----------------------------------------------------------------------------

  ghost predicate CommandsFit(env: Env, nodes: seq<Value>) {
    forall node <- nodes :: CommandFits(env, node)
  }

  /** A `for:` has a valid duration and stands on an edge trigger. */
  predicate SustainedFits(env: Env, rule: RawRule) {
    rule.sustained.Some? ==>
      env.scalars.duration(rule.sustained.value).Some?
      && rule.when.Node? && (rule.when.verb.WhenChanged? || rule.when.verb.WhenCrosses?)
  }

  ghost predicate RuleFits(env: Env, rule: RawRule) {
    && TriggerFits(env, rule.when) && CommandsFit(env, rule.commands) && SustainedFits(env, rule)
    && (rule.condition.Some? ==> ConditionFits(env, rule.condition.value))
  }

  lemma {:induction false} CommandsExist(env: Env, nodes: seq<Value>) returns (commands: seq<Command>)
    requires CommandsFit(env, nodes)
    ensures CommandsMean(env, nodes, commands)
  {
    if nodes == [] {
      commands := [];
    } else {
      assert nodes[0] in nodes && forall node <- nodes[1..] :: node in nodes;
      CommandMeansIff(env, nodes[0]);
      var first :| CommandMeans(env, nodes[0], first);
      var rest := CommandsExist(env, nodes[1..]);
      commands := [first] + rest;
    }
  }

  lemma MeantCommandsFit(env: Env, nodes: seq<Value>, commands: seq<Command>)
    requires CommandsMean(env, nodes, commands)
    ensures CommandsFit(env, nodes)
  {
    forall node <- nodes ensures CommandFits(env, node) {
      var i :| 0 <= i < |nodes| && nodes[i] == node;
      assert CommandMeans(env, node, commands[i]);
      CommandMeansIff(env, node);
    }
  }

  lemma WatchedVerb(env: Env, v: Value, t: Trigger)
    requires TriggerMeans(env, v, t)
    ensures t.Watched().Some? <==> v.verb.WhenChanged? || v.verb.WhenCrosses?
  {
  }

  lemma RuleExists(env: Env, raw: RawRule, i: nat) returns (rule: Rule)
    requires RuleFits(env, raw)
    ensures RuleMeans(env, raw, i, rule)
  {
    TriggerMeansIff(env, raw.when);
    var trigger :| TriggerMeans(env, raw.when, trigger);
    WatchedVerb(env, raw.when, trigger);
    var condition := Always;
    if raw.condition.Some? {
      ConditionMeansIff(env, raw.condition.value);
      condition :| ConditionMeans(env, raw.condition.value, condition);
    }
    var commands := CommandsExist(env, raw.commands);
    var wait := if raw.sustained.Some? then env.scalars.duration(raw.sustained.value) else None;
    rule := Rule(i, trigger, condition, commands, wait);
  }

  lemma MeantRuleFits(env: Env, raw: RawRule, i: nat, rule: Rule)
    requires RuleMeans(env, raw, i, rule)
    ensures RuleFits(env, raw)
  {
    TriggerMeansIff(env, raw.when);
    WatchedVerb(env, raw.when, rule.trigger);
    MeantCommandsFit(env, raw.commands, rule.commands);
    if raw.condition.Some? {
      assert ConditionMeans(env, raw.condition.value, rule.condition);
      ConditionMeansIff(env, raw.condition.value);
    }
  }

  lemma {:induction false} RulesExist(env: Env, raws: seq<RawRule>) returns (rules: seq<Rule>)
    requires forall raw <- raws :: RuleFits(env, raw)
    ensures RulesMean(env, raws, rules)
  {
    if raws == [] {
      rules := [];
    } else {
      var before, last := raws[..|raws| - 1], raws[|raws| - 1];
      assert last in raws && forall raw <- before :: raw in raws;
      var init := RulesExist(env, before);
      var rule := RuleExists(env, last, |before|);
      rules := init + [rule];
      forall i | 0 <= i < |raws| ensures RuleMeans(env, raws[i], i, rules[i]) {
        assert i < |before| ==> RuleMeans(env, before[i], i, init[i]);
      }
    }
  }

  lemma {:induction false} ScenesExist(env: Env, raws: seq<RawScene>) returns (scenes: seq<seq<Command>>)
    requires forall raw <- raws :: CommandsFit(env, raw.commands)
    ensures ScenesMean(env, raws, scenes)
  {
    if raws == [] {
      scenes := [];
    } else {
      assert raws[0] in raws && forall raw <- raws[1..] :: raw in raws;
      var first := CommandsExist(env, raws[0].commands);
      var rest := ScenesExist(env, raws[1..]);
      scenes := [first] + rest;
    }
  }

  /** Known adapters, declared exposures, fitting scenes and rules, and nothing reported by
      any check. */
  ghost predicate Fits(raw: Raw, env: Env) {
    && (forall a <- raw.adapters :: a.known && NoErrors(a.checks))
    && (forall a <- raw.adapters | a.exposes.Named? :: forall n <- a.exposes.names :: n in raw.DeviceNames())
    && (forall d <- env.devices :: NoErrors(raw.validate(d)))
    && (forall s <- raw.schedules :: s.valid) && NoErrors(raw.systemChecks)
    && (forall scene <- raw.scenes :: CommandsFit(env, scene.commands))
    && (forall rule <- raw.rules :: RuleFits(env, rule))
  }

  lemma FittingCompiles(raw: Raw, env: Env)
    requires EnvMeans(raw, env) && Fits(raw, env)
    ensures Compilable(raw)
  {
    var scenes := ScenesExist(env, raw.scenes);
    var rules := RulesExist(env, raw.rules);
    assert CompilesTo(raw, Compiled(env, scenes, rules));
  }

  lemma CompiledFits(raw: Raw, c: Compiled)
    requires CompilesTo(raw, c)
    ensures Fits(raw, c.env)
  {
    forall scene <- raw.scenes ensures CommandsFit(c.env, scene.commands) {
      var i :| 0 <= i < |raw.scenes| && raw.scenes[i] == scene;
      MeantCommandsFit(c.env, scene.commands, c.scenes[i]);
    }
    forall rule <- raw.rules ensures RuleFits(c.env, rule) {
      var i :| 0 <= i < |raw.rules| && raw.rules[i] == rule;
      MeantRuleFits(c.env, rule, i, c.rules[i]);
    }
  }

  /** A configuration whose devices resolve is accepted exactly if everything in it fits. */
  lemma AcceptedIff(raw: Raw, env: Env)
    requires raw.Keyed() && EnvMeans(raw, env)
    ensures Compilable(raw) <==> Fits(raw, env)
  {
    if c :| CompilesTo(raw, c) {
      EnvUnique(raw, env, c.env);
      CompiledFits(raw, c);
    }
    if Fits(raw, env) {
      FittingCompiles(raw, env);
    }
  }
}
