/** Which nodes mean something at all (`src/compile/lower.rs`): those with the payload their
    verb takes, whose references resolve to devices that declare what is asked of them. */
module MeaningExists {
  import opened Model
  import opened Rules
  import opened RawConfig
  import opened Meaning

  /** A known device that declares the capability of that name. */
  ghost predicate Able(env: Env, name: string, capability: string) {
    name in env.deviceIndex && exists kind :: NameOf(kind) == capability && env.Declares(env.deviceIndex[name], kind)
  }

  lemma AbleIs(env: Env, name: string, kind: CapabilityKind, capability: string)
    requires capability == NameOf(kind)
    ensures Able(env, name, capability) <==> name in env.deviceIndex && env.Declares(env.deviceIndex[name], kind)
  {
    if name in env.deviceIndex {
      if k :| NameOf(k) == capability && env.Declares(env.deviceIndex[name], k) {
        NamesRoundTrip(k, capability);
        NamesRoundTrip(kind, capability);
      }
    }
  }

  // --- commands ------------------------------------------------------------------------------

  predicate TransitionFits(env: Env, text: Option<string>) {
    text.Some? ==> env.scalars.duration(text.value).Some?
  }

  ghost predicate CommandFits(env: Env, v: Value) {
    v.Node?
    && if v.payload.Name? then CommandNameFits(env, v.verb, v.payload.text)
       else v.payload.Fields? && CommandRecordFits(env, v.verb, v.payload.record)
  }

  ghost predicate CommandNameFits(env: Env, verb: Verb, text: string) {
    if verb.TurnOn? || verb.TurnOff? || verb.ToggleIt? then Able(env, text, "switch")
    else if verb.Activate? then text in env.sceneIndex
    else verb.CancelIt?
  }

  ghost predicate CommandRecordFits(env: Env, verb: Verb, record: Record) {
    if verb.ScheduleIt? then record.ScheduleFields? && env.scalars.duration(record.after).Some?
    else if verb.DecreaseBy? then record.DecreaseFields? && Able(env, record.device, "brightness")
    else if verb.IncreaseBy? then record.IncreaseFields? && Able(env, record.device, "brightness")
    else if verb.SendIrTo? then record.SendIrFields? && Able(env, record.device, "ir_transmitter")
    else LevelFits(env, verb, record)
  }

  ghost predicate LevelFits(env: Env, verb: Verb, record: Record) {
    if verb.SetBrightnessTo? then
      record.SetBrightnessFields? && Able(env, record.device, "brightness") && TransitionFits(env, record.transition)
    else if verb.SetColorTo? then
      record.SetColorFields? && Able(env, record.device, "color") && TransitionFits(env, record.transition)
      && env.scalars.color(record.color).Some?
    else
      verb.SetTemperatureTo? && record.SetTemperatureFields? && Able(env, record.device, "color_temperature")
      && TransitionFits(env, record.transition) && exists result :: WhitePoint(record.kelvin, record.mireds, result)
  }

  function Faded(env: Env, text: Option<string>): Option<Millis> {
    if text.Some? then env.scalars.duration(text.value) else None
  }

  lemma CommandNameExists(env: Env, v: Value)
    requires v.Node? && v.payload.Name?
    ensures (exists c :: CommandMeans(env, v, c)) <==> CommandNameFits(env, v.verb, v.payload.text)
  {
    var text := v.payload.text;
    AbleIs(env, text, CapabilityKind.Switch, "switch");
    if CommandNameFits(env, v.verb, text) {
      var c :=
        if v.verb.TurnOn? then SetSwitch(env.deviceIndex[text], true)
        else if v.verb.TurnOff? then SetSwitch(env.deviceIndex[text], false)
        else if v.verb.ToggleIt? then ToggleSwitch(env.deviceIndex[text])
        else if v.verb.Activate? then ActivateScene(env.sceneIndex[text])
        else CancelTimer(text);
      assert CommandMeans(env, v, c);
    }
  }

  lemma CommandRecordExists(env: Env, v: Value)
    requires v.Node? && v.payload.Fields?
    requires !v.verb.SetBrightnessTo? && !v.verb.SetColorTo? && !v.verb.SetTemperatureTo?
    ensures (exists c :: CommandMeans(env, v, c)) <==> CommandRecordFits(env, v.verb, v.payload.record)
  {
    var record := v.payload.record;
    if record.DecreaseFields? || record.IncreaseFields? {
      AbleIs(env, record.device, CapabilityKind.Brightness, "brightness");
    } else if record.SendIrFields? {
      AbleIs(env, record.device, CapabilityKind.IrTransmitter, "ir_transmitter");
    }
    if CommandRecordFits(env, v.verb, record) {
      var c :=
        if v.verb.ScheduleIt? then ScheduleTimer(record.key, env.scalars.duration(record.after).value)
        else if v.verb.DecreaseBy? then DecreaseBrightness(env.deviceIndex[record.device], record.amount)
        else if v.verb.IncreaseBy? then IncreaseBrightness(env.deviceIndex[record.device], record.amount)
        else SendIrCode(env.deviceIndex[record.device], record.code);
      assert CommandMeans(env, v, c);
    }
  }

  lemma WhitePointMeans(kelvin: Option<U32>, mireds: Option<U16>, result: U16)
    ensures TemperatureMeans(kelvin, mireds, result) <==> WhitePoint(kelvin, mireds, result)
  {
    if WhitePoint(kelvin, mireds, result) && kelvin.Some? {
      var k: int := kelvin.value;
      assert (result + 1) * k == result * k + k;
      assert 1_000_000 / k == result by {
        DivisionUnique(1_000_000, k, result);
      }
    }
    if TemperatureMeans(kelvin, mireds, result) {
      KelvinInMireds(kelvin, mireds, result);
    }
  }

  lemma ProductGrows(a: nat, b: nat, k: nat)
    requires a <= b
    ensures a * k <= b * k
  {
  }

  lemma DivisionUnique(a: nat, k: nat, q: nat)
    requires k > 0 && q * k <= a < q * k + k
    ensures a / k == q
  {
    var r := a / k;
    assert r * k <= a < r * k + k;
    if r < q {
      ProductGrows(r + 1, q, k);
    } else {
      ProductGrows(q, r, k);
      if q < r {
        ProductGrows(q + 1, r, k);
      }
    }
  }

  lemma BrightnessExists(env: Env, v: Value)
    requires v.Node? && v.payload.Fields? && v.verb.SetBrightnessTo?
    ensures (exists c :: CommandMeans(env, v, c)) <==> CommandRecordFits(env, v.verb, v.payload.record)
  {
    var record := v.payload.record;
    if record.SetBrightnessFields? {
      AbleIs(env, record.device, CapabilityKind.Brightness, "brightness");
      if CommandRecordFits(env, v.verb, record) {
        var c := SetBrightness(env.deviceIndex[record.device], record.level, Faded(env, record.transition));
        assert CommandMeans(env, v, c);
      }
    }
  }

  lemma ColorExists(env: Env, v: Value)
    requires v.Node? && v.payload.Fields? && v.verb.SetColorTo?
    ensures (exists c :: CommandMeans(env, v, c)) <==> CommandRecordFits(env, v.verb, v.payload.record)
  {
    var record := v.payload.record;
    if record.SetColorFields? {
      AbleIs(env, record.device, CapabilityKind.Color, "color");
      if CommandRecordFits(env, v.verb, record) {
        var (r, g, b) := env.scalars.color(record.color).value;
        assert CommandMeans(env, v,
          SetColor(env.deviceIndex[record.device], r, g, b, Faded(env, record.transition)));
      }
    }
  }

  lemma TemperatureExists(env: Env, v: Value)
    requires v.Node? && v.payload.Fields? && v.verb.SetTemperatureTo?
    ensures (exists c :: CommandMeans(env, v, c)) <==> CommandRecordFits(env, v.verb, v.payload.record)
  {
    var record := v.payload.record;
    if record.SetTemperatureFields? {
      AbleIs(env, record.device, CapabilityKind.ColorTemperature, "color_temperature");
      forall result: U16
        ensures TemperatureMeans(record.kelvin, record.mireds, result)
          <==> WhitePoint(record.kelvin, record.mireds, result)
      {
        WhitePointMeans(record.kelvin, record.mireds, result);
      }
      if CommandRecordFits(env, v.verb, record) {
        var result :| WhitePoint(record.kelvin, record.mireds, result);
        assert CommandMeans(env, v,
          SetColorTemperature(env.deviceIndex[record.device], result, Faded(env, record.transition)));
      }
    }
  }

  /** A command node means something exactly if it fits. */
  lemma CommandMeansIff(env: Env, v: Value)
    ensures (exists c :: CommandMeans(env, v, c)) <==> CommandFits(env, v)
  {
    if v.Node? && v.payload.Name? {
      CommandNameExists(env, v);
    } else if v.Node? && v.payload.Fields? {
      if v.verb.SetBrightnessTo? {
        BrightnessExists(env, v);
      } else if v.verb.SetColorTo? {
        ColorExists(env, v);
      } else if v.verb.SetTemperatureTo? {
        TemperatureExists(env, v);
      } else {
        CommandRecordExists(env, v);
      }
    }
  }

  // --- triggers ------------------------------------------------------------------------------

  const BOOLEAN: CapabilityKind -> bool := (kind: CapabilityKind) => kind.IsBool()
  const NUMERIC: CapabilityKind -> bool := (kind: CapabilityKind) => kind.IsNumeric()
  const ANY_SHAPE: CapabilityKind -> bool := (kind: CapabilityKind) => true

  /** A known device that declares the capability of that name, one of the right shape that
      a configuration may name. */
  ghost predicate Offers(env: Env, name: string, capability: string, shape: CapabilityKind -> bool) {
    name in env.deviceIndex && exists kind :: NameOf(kind) == capability && shape(kind) && Nameable(kind)
                                              && env.Declares(env.deviceIndex[name], kind)
  }

  /** The clock's own capabilities cannot be named. */
  predicate Nameable(kind: CapabilityKind) {
    !kind.TimeOfDay? && !kind.SunUp?
  }

  ghost predicate TriggerFits(env: Env, v: Value) {
    v.Node?
    && if v.payload.Name? then TriggerNameFits(env, v.verb, v.payload.text)
       else v.payload.Fields? && TriggerRecordFits(env, v.verb, v.payload.record)
  }

  ghost predicate TriggerNameFits(env: Env, verb: Verb, text: string) {
    if verb.WhenEvent? then exists device, action :: Announces(env, text, device, action)
    else if verb.WhenSchedule? then text in env.scheduleIndex
    else if verb.WhenCommandFailed? then text == "*" || text in env.deviceIndex
    else verb.WhenTimer?
  }

  ghost predicate TriggerRecordFits(env: Env, verb: Verb, record: Record) {
    if verb.WhenChanged? then record.ChangedFields? && Offers(env, record.device, record.capability, BOOLEAN)
    else if verb.WhenCrosses? then
      record.CrossesFields? && Offers(env, record.device, record.capability, NUMERIC)
      && record.above.Some? != record.below.Some?
    else verb.WhenReports? && record.ReportsFields? && Offers(env, record.device, record.capability, ANY_SHAPE)
  }

  lemma AnnouncesMeans(env: Env, text: string, device: DeviceId, action: ActionId)
    ensures Announces(env, text, device, action) <==> EventMeans(env, text, device, action)
  {
    if device < |env.devices| {
      forall name, rest ensures Dotted(text, name, rest) <==> SplitDot(text) == Some((name, rest)) {
        SplitsAtFirstDot(text, name, rest);
      }
      forall rest ensures FirstNamed(env.devices[device].events, rest, action)
        <==> FindEvent(env.devices[device].events, rest) == Some(action)
      {
        FindsFirst(env.devices[device].events, rest, action);
      }
      if EventMeans(env, text, device, action) {
        var split := SplitDot(text).value;
        assert Dotted(text, split.0, split.1);
      }
    }
  }

  lemma TriggerNameExists(env: Env, v: Value)
    requires v.Node? && v.payload.Name?
    ensures (exists t :: TriggerMeans(env, v, t)) <==> TriggerNameFits(env, v.verb, v.payload.text)
  {
    var text := v.payload.text;
    forall device, action ensures Announces(env, text, device, action) <==> EventMeans(env, text, device, action) {
      AnnouncesMeans(env, text, device, action);
    }
    if TriggerNameFits(env, v.verb, text) {
      if v.verb.WhenEvent? {
        var device, action :| Announces(env, text, device, action);
        assert TriggerMeans(env, v, OnAction(device, action));
      } else {
        var t :=
          if v.verb.WhenSchedule? then Time(env.scheduleIndex[text])
          else if v.verb.WhenTimer? then Timer(text)
          else OnCommandFailed(if text == "*" then None else Some(env.deviceIndex[text]));
        assert TriggerMeans(env, v, t);
      }
    }
  }

  lemma TriggerRecordExists(env: Env, v: Value)
    requires v.Node? && v.payload.Fields?
    ensures (exists t :: TriggerMeans(env, v, t)) <==> TriggerRecordFits(env, v.verb, v.payload.record)
  {
    var record := v.payload.record;
    if record.ChangedFields? || record.CrossesFields? || record.ReportsFields? {
      forall kind ensures ParseCapability(record.capability) == Some(kind)
        <==> record.capability == NameOf(kind) && !kind.TimeOfDay? && !kind.SunUp?
      {
        NamesRoundTrip(kind, record.capability);
      }
      if TriggerRecordFits(env, v.verb, record) {
        RecordMeans(env, v);
      }
    }
  }

  lemma RecordMeans(env: Env, v: Value)
    requires v.Node? && v.payload.Fields? && TriggerRecordFits(env, v.verb, v.payload.record)
    ensures exists t :: TriggerMeans(env, v, t)
  {
    var record := v.payload.record;
    var device := env.deviceIndex[record.device];
    var kind :| NameOf(kind) == record.capability && !kind.TimeOfDay? && !kind.SunUp? && env.Declares(device, kind)
      && (record.ChangedFields? ==> kind.IsBool()) && (record.CrossesFields? ==> kind.IsNumeric());
    NamesRoundTrip(kind, record.capability);
    var t :=
      if record.ChangedFields? then Changed(device, kind, record.value)
      else if record.ReportsFields? then Reports(device, kind)
      else if record.above.Some? then Crosses(device, kind, record.above.value, Above)
      else Crosses(device, kind, record.below.value, Below);
    assert TriggerMeans(env, v, t);
  }

  /** A trigger node means something exactly if it fits. */
  lemma TriggerMeansIff(env: Env, v: Value)
    ensures (exists t :: TriggerMeans(env, v, t)) <==> TriggerFits(env, v)
  {
    if v.Node? && v.payload.Name? {
      TriggerNameExists(env, v);
    } else if v.Node? && v.payload.Fields? {
      TriggerRecordExists(env, v);
    }
  }

  // --- conditions ----------------------------------------------------------------------------

  ghost predicate ConditionFits(env: Env, v: Value)
    decreases v
  {
    v.Node?
    && if v.verb.Negate? then ConditionFits(env, v.payload)
       else if v.verb.All? || v.verb.Any? then
         v.payload.Items? && forall item <- v.payload.items :: ConditionFits(env, item)
       else LeafFits(env, v.verb, v.payload)
  }

  ghost predicate LeafFits(env: Env, verb: Verb, payload: Value) {
    if verb.IsSunUp? then payload.Flag?
    else if verb.TimeAfter? || verb.TimeBefore? then payload.Name? && env.scalars.time(payload.text).Some?
    else payload.Fields? && ReadingFits(env, verb, payload.record)
  }

  ghost predicate ReadingFits(env: Env, verb: Verb, record: Record) {
    if verb.IsSwitch? then record.SwitchFields? && Able(env, record.device, "switch")
    else if verb.IsOccupancy? then record.OccupancyFields? && Able(env, record.device, "occupancy")
    else if verb.IsCompare? then
      record.CompareFields? && Offers(env, record.device, record.capability, NUMERIC)
      && record.op in {"<", "<=", "==", "!=", ">=", ">"}
    else
      verb.IsColor? && record.ColorFields? && Able(env, record.device, "color")
      && env.scalars.color(record.color).Some?
  }

  lemma CompareExists(env: Env, v: Value)
    requires IsRecord(v, IsCompare) && v.payload.record.CompareFields?
    ensures Meaningful(env, v) <==> ReadingFits(env, v.verb, v.payload.record)
  {
    var record := v.payload.record;
    forall kind ensures ParseCapability(record.capability) == Some(kind)
      <==> record.capability == NameOf(kind) && !kind.TimeOfDay? && !kind.SunUp?
    {
      NamesRoundTrip(kind, record.capability);
    }
    if c :| ConditionMeans(env, v, c) {
      assert c.Compare?;
    }
    if ReadingFits(env, v.verb, record) {
      var kind :| NameOf(kind) == record.capability && kind.IsNumeric() && !kind.TimeOfDay?
        && env.Declares(env.deviceIndex[record.device], kind);
      assert ConditionMeans(env, v,
        Compare(env.deviceIndex[record.device], kind, ParseOp(record.op).value, record.bound));
    }
  }

  lemma LeafExists(env: Env, v: Value)
    requires v.Node? && !v.verb.Negate? && !v.verb.All? && !v.verb.Any?
    requires !(v.verb.IsCompare? && v.payload.Fields? && v.payload.record.CompareFields?)
    ensures Meaningful(env, v) <==> LeafFits(env, v.verb, v.payload)
  {
    if LeafFits(env, v.verb, v.payload) {
      var c := LeafMeans(env, v);
    }
    if c :| ConditionMeans(env, v, c) {
      MeaningShape(env, v, c);
      LeafMeaningFits(env, v, c);
    }
  }

  lemma LeafMeaningFits(env: Env, v: Value, c: Condition)
    requires ConditionMeans(env, v, c) && !c.Not? && !c.And? && !c.Or?
    requires !(v.verb.IsCompare? && v.payload.Fields? && v.payload.record.CompareFields?)
    ensures LeafFits(env, v.verb, v.payload)
  {
    if v.payload.Fields? {
      var record := v.payload.record;
      if record.SwitchFields? {
        AbleIs(env, record.device, CapabilityKind.Switch, "switch");
      } else if record.OccupancyFields? {
        AbleIs(env, record.device, CapabilityKind.Occupancy, "occupancy");
      } else if record.ColorFields? {
        AbleIs(env, record.device, CapabilityKind.Color, "color");
      }
    }
  }

  lemma LeafMeans(env: Env, v: Value) returns (c: Condition)
    requires v.Node? && LeafFits(env, v.verb, v.payload)
    requires !v.verb.Negate? && !v.verb.All? && !v.verb.Any? && !v.verb.IsCompare?
    ensures ConditionMeans(env, v, c)
  {
    if v.verb.IsSunUp? {
      c := BoolEquals(env.Clock(), CapabilityKind.SunUp, v.payload.on);
    } else if v.verb.TimeAfter? || v.verb.TimeBefore? {
      var op := if v.verb.TimeAfter? then Ge else Lt;
      c := Compare(env.Clock(), CapabilityKind.TimeOfDay, op, env.scalars.time(v.payload.text).value);
    } else {
      var record := v.payload.record;
      var device := env.deviceIndex[record.device];
      if v.verb.IsSwitch? {
        AbleIs(env, record.device, CapabilityKind.Switch, "switch");
        c := BoolEquals(device, CapabilityKind.Switch, record.on);
      } else if v.verb.IsOccupancy? {
        AbleIs(env, record.device, CapabilityKind.Occupancy, "occupancy");
        c := BoolEquals(device, CapabilityKind.Occupancy, record.occupied);
      } else {
        AbleIs(env, record.device, CapabilityKind.Color, "color");
        var (r, g, b) := env.scalars.color(record.color).value;
        c := ColorEquals(device, r, g, b);
      }
    }
  }

  ghost predicate Meaningful(env: Env, v: Value) {
    exists c :: ConditionMeans(env, v, c)
  }

  lemma MeaningShape(env: Env, v: Value, c: Condition)
    requires ConditionMeans(env, v, c)
    ensures (v.verb.Negate? <==> c.Not?) && (v.verb.All? <==> c.And?) && (v.verb.Any? <==> c.Or?)
  {
  }

  /** A condition node means something exactly if it fits, part by part. */
  lemma {:induction false} ConditionMeansIff(env: Env, v: Value)
    ensures Meaningful(env, v) <==> ConditionFits(env, v)
    decreases v
  {
    if v.Node? && v.verb.Negate? {
      ConditionMeansIff(env, v.payload);
      NegationMeansIff(env, v);
    } else if v.Node? && (v.verb.All? || v.verb.Any?) {
      if v.payload.Items? {
        forall item <- v.payload.items ensures Meaningful(env, item) <==> ConditionFits(env, item) {
          ConditionMeansIff(env, item);
        }
      }
      ItemsMeanIff(env, v);
    } else if IsRecord(v, IsCompare) && v.payload.record.CompareFields? {
      CompareExists(env, v);
    } else if v.Node? {
      LeafExists(env, v);
    }
  }

  lemma NegationMeansIff(env: Env, v: Value)
    requires v.Node? && v.verb.Negate?
    ensures Meaningful(env, v) <==> Meaningful(env, v.payload)
  {
    if c :| ConditionMeans(env, v, c) {
      MeaningShape(env, v, c);
      assert ConditionMeans(env, v.payload, c.inner);
    }
    if inner :| ConditionMeans(env, v.payload, inner) {
      assert ConditionMeans(env, v, Condition.Not(inner));
    }
  }

  lemma PartMeans(env: Env, items: seq<Value>, parts: seq<Condition>, item: Value)
    requires PartsMean(env, items, parts) && item in items
    ensures Meaningful(env, item)
  {
    var i :| 0 <= i < |items| && items[i] == item;
    assert ConditionMeans(env, items[i], parts[i]);
  }

  lemma ItemsMeanIff(env: Env, v: Value)
    requires v.Node? && (v.verb.All? || v.verb.Any?)
    ensures Meaningful(env, v) <==> v.payload.Items? && forall item <- v.payload.items :: Meaningful(env, item)
  {
    if c :| ConditionMeans(env, v, c) {
      MeaningShape(env, v, c);
      forall item <- v.payload.items ensures Meaningful(env, item) {
        PartMeans(env, v.payload.items, c.parts, item);
      }
    }
    if v.payload.Items? && forall item <- v.payload.items :: Meaningful(env, item) {
      var parts := PartsExist(env, v.payload.items);
      assert ConditionMeans(env, v, if v.verb.All? then Condition.And(parts) else Condition.Or(parts));
    }
  }

  lemma {:induction false} PartsExist(env: Env, items: seq<Value>) returns (parts: seq<Condition>)
    requires forall item <- items :: Meaningful(env, item)
    ensures PartsMean(env, items, parts)
  {
    if items == [] {
      parts := [];
    } else {
      assert items[0] in items && forall item <- items[1..] :: item in items;
      var first :| ConditionMeans(env, items[0], first);
      var rest := PartsExist(env, items[1..]);
      parts := [first] + rest;
    }
  }
}
