/** Edge triggers over a whole event log: one match per maximal run of satisfying
    reports of the watched capability. */
module EdgeRuns {
  import opened Model
  import opened StateStore
  import opened Rules

  predicate IsReportOf(event: Event, device: DeviceId, kind: CapabilityKind) {
    event.StateReported? && event.device == device && event.state.Kind() == kind
  }

  /** How many events of the log the trigger matches, each against the value stored just
      before it. */
  function MatchCount(trigger: Trigger, events: seq<Event>): nat
    requires trigger.Watched().Some?
  {
    if events == [] then 0
    else
      var before := events[..|events| - 1];
      var event := events[|events| - 1];
      var kind := if event.StateReported? then event.state.Kind() else trigger.Watched().value.1;
      var prior := if event.StateReported? then Get(Replay(before), event.device, kind) else None;
      MatchCount(trigger, before) + if trigger.Matches(event, prior) then 1 else 0
  }

  /** For each report of the watched capability, in order, whether it satisfies. */
  function Verdicts(trigger: Trigger, events: seq<Event>): seq<bool>
    requires trigger.Watched().Some?
  {
    if events == [] then []
    else
      var before := Verdicts(trigger, events[..|events| - 1]);
      var event := events[|events| - 1];
      var (device, kind) := trigger.Watched().value;
      if IsReportOf(event, device, kind) then before + [trigger.Satisfies(Some(event.state))] else before
  }

  function LeadingLength(verdicts: seq<bool>, value: bool): (n: nat)
    ensures n <= |verdicts|
    ensures forall i :: 0 <= i < n ==> verdicts[i] == value
    ensures n < |verdicts| ==> verdicts[n] != value
  {
    if verdicts == [] || verdicts[0] != value then 0 else 1 + LeadingLength(verdicts[1..], value)
  }

  lemma {:induction false} LeadingLengthIs(verdicts: seq<bool>, value: bool, n: nat)
    requires n <= |verdicts|
    requires forall i :: 0 <= i < n ==> verdicts[i] == value
    requires n < |verdicts| ==> verdicts[n] != value
    ensures LeadingLength(verdicts, value) == n
  {
    if n > 0 {
      LeadingLengthIs(verdicts[1..], value, n - 1);
    }
  }

  /** The number of maximal runs of `true`, peeled off one run at a time. */
  function RunCount(verdicts: seq<bool>): nat
    decreases |verdicts|
  {
    if verdicts == [] then 0
    else if !verdicts[0] then RunCount(verdicts[1..])
    else 1 + RunCount(verdicts[LeadingLength(verdicts, true)..])
  }

  /** Appending one verdict starts a new run exactly when it is `true` and the list did
      not already end in one. */
  lemma {:induction false} RunCountAppend(verdicts: seq<bool>, v: bool)
    ensures RunCount(verdicts + [v]) ==
            RunCount(verdicts) + if v && (verdicts == [] || !verdicts[|verdicts| - 1]) then 1 else 0
    decreases |verdicts|
  {
    var longer := verdicts + [v];
    if verdicts == [] {
      assert longer[1..] == [];
      assert LeadingLength([true], true) == 1;
    } else if !verdicts[0] {
      assert longer[1..] == verdicts[1..] + [v];
      RunCountAppend(verdicts[1..], v);
    } else {
      var n := LeadingLength(verdicts, true);
      if n < |verdicts| {
        LeadingLengthIs(longer, true, n);
        assert longer[n..] == verdicts[n..] + [v];
        RunCountAppend(verdicts[n..], v);
      } else {
        var m := if v then n + 1 else n;
        LeadingLengthIs(longer, true, m);
        assert verdicts[n..] == [];
        assert longer[m..] == if v then [] else [v];
        assert RunCount([false]) == 0 by { assert [false][1..] == []; }
      }
    }
  }

  lemma {:induction false} LastVerdict(trigger: Trigger, events: seq<Event>)
    requires trigger.Watched().Some?
    ensures var (device, kind) := trigger.Watched().value;
      var verdicts := Verdicts(trigger, events);
      var last := LastReport(events, device, kind);
      (verdicts == [] <==> last.None?)
      && (verdicts != [] ==> verdicts[|verdicts| - 1] == trigger.Satisfies(last))
  {
    if events != [] {
      LastVerdict(trigger, events[..|events| - 1]);
    }
  }

  /** Event by event: the trigger matches exactly on the report that starts a run. */
  lemma MatchStartsRun(trigger: Trigger, before: seq<Event>, event: Event)
    requires trigger.Watched().Some? && event.StateReported?
    ensures var (device, kind) := trigger.Watched().value;
      var verdicts := Verdicts(trigger, before);
      trigger.Matches(event, Get(Replay(before), event.device, event.state.Kind())) <==>
        IsReportOf(event, device, kind) && trigger.Satisfies(Some(event.state))
        && (verdicts == [] || !verdicts[|verdicts| - 1])
  {
    ReplayIsLastReport(before);
    LastVerdict(trigger, before);
  }

  /** A `changed` or `crosses` trigger matches once per maximal run of satisfying reports,
      a satisfying first-ever report counting as the start of a run. */
  lemma {:induction false} EdgesCountRuns(trigger: Trigger, events: seq<Event>)
    requires trigger.Watched().Some?
    ensures MatchCount(trigger, events) == RunCount(Verdicts(trigger, events))
  {
    if events != [] {
      var before := events[..|events| - 1];
      var event := events[|events| - 1];
      var (device, kind) := trigger.Watched().value;
      EdgesCountRuns(trigger, before);
      if event.StateReported? {
        MatchStartsRun(trigger, before, event);
      }
      if IsReportOf(event, device, kind) {
        RunCountAppend(Verdicts(trigger, before), trigger.Satisfies(Some(event.state)));
      } else {
        OthersNeverMatch(trigger, event);
      }
    }
  }

  lemma OthersNeverMatch(trigger: Trigger, event: Event)
    requires trigger.Watched().Some?
    requires !IsReportOf(event, trigger.Watched().value.0, trigger.Watched().value.1)
    ensures forall prior :: !trigger.Matches(event, prior)
  {
  }
}
