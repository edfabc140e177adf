/** The clock adapter (`src/adapters/clock.rs`): time of day as state, and cron schedules
    that fire every occurrence once, in time order, however the host spaces its ticks.
    Instants are UTC milliseconds; a cron expression is its set of occurrences with an exact
    `next`, a time zone gives whole minutes, and the sun is an arbitrary predicate. */
module Clock {
  import opened Model
  import opened Ordering

  type Instant = int

  const MINUTE_MS: nat := 60_000

  // --- cron ------------------------------------------------------------------------------

  datatype Cron = Cron(occurs: Instant -> bool, next: Instant -> Option<Instant>) {
    /** `next` finds the first occurrence strictly after an instant. */
    ghost predicate Finds() {
      forall t: Instant :: IsNext(t, next(t))
    }

    ghost predicate IsNext(t: Instant, found: Option<Instant>) {
      match found
      case None => forall u | u > t :: !occurs(u)
      case Some(u) => u > t && occurs(u) && forall v | t < v < u :: !occurs(v)
    }

    /** Everything that occurs in `(from, until]`, in order. */
    ghost function Occurrences(from: Instant, until: Instant): seq<Instant>
      requires Finds()
      decreases until - from
    {
      var found := next(from);
      if found.Some? && found.value <= until then
        assert IsNext(from, found);
        [found.value] + Occurrences(found.value, until)
      else []
    }

    lemma {:induction false} OccurrencesAre(from: Instant, until: Instant)
      requires Finds()
      ensures forall u :: u in Occurrences(from, until) <==> from < u <= until && occurs(u)
      ensures NoDuplicates(Occurrences(from, until))
      decreases until - from
    {
      assert IsNext(from, next(from));
      if next(from).Some? && next(from).value <= until {
        OccurrencesAre(next(from).value, until);
      }
    }

    /** Skipping over a stretch without occurrences does not change what comes next. */
    lemma NextSkips(from: Instant, until: Instant)
      requires Finds() && from <= until
      requires next(from).Some? ==> next(from).value > until
      ensures next(until) == next(from)
    {
      assert IsNext(from, next(from)) && IsNext(until, next(until));
    }
  }

  // --- firing order ------------------------------------------------------------------------

  type Firing = (Instant, ScheduleId)

  predicate FiresBefore(a: Firing, b: Firing) {
    a.0 < b.0 || (a.0 == b.0 && a.1 < b.1)
  }

  lemma FiresBeforeIsOrder()
    ensures StrictOrder(FiresBefore)
  {
  }

  datatype Schedule = Schedule(id: ScheduleId, cron: Cron)

  ghost predicate WellFormed(schedules: seq<Schedule>) {
    && (forall i :: 0 <= i < |schedules| ==> schedules[i].cron.Finds())
    && forall i, j :: 0 <= i < j < |schedules| ==> schedules[i].id != schedules[j].id
  }

  ghost predicate OccursAt(schedules: seq<Schedule>, d: Firing) {
    exists i :: 0 <= i < |schedules| && schedules[i].id == d.1 && schedules[i].cron.occurs(d.0)
  }

  ghost function FiringSet(schedules: seq<Schedule>, from: Instant, until: Instant): (due: set<Firing>)
    requires WellFormed(schedules)
    ensures forall d :: d in due <==> from < d.0 <= until && OccursAt(schedules, d)
  {
    if schedules == [] then {}
    else
      var last := schedules[|schedules| - 1];
      var rest := schedules[..|schedules| - 1];
      last.cron.OccurrencesAre(from, until);
      var due := FiringSet(rest, from, until) + set u | u in last.cron.Occurrences(from, until) :: (u, last.id);
      FiringSetStep(schedules, from, until, due);
      due
  }

  lemma FiringSetStep(schedules: seq<Schedule>, from: Instant, until: Instant, due: set<Firing>)
    requires WellFormed(schedules) && schedules != []
    requires forall d :: d in due <==>
      from < d.0 <= until && (OccursAt(schedules[..|schedules| - 1], d)
                           || (d.1 == schedules[|schedules| - 1].id && schedules[|schedules| - 1].cron.occurs(d.0)))
    ensures forall d :: d in due <==> from < d.0 <= until && OccursAt(schedules, d)
  {
    var rest, last := schedules[..|schedules| - 1], schedules[|schedules| - 1];
    forall d ensures OccursAt(schedules, d) <==> OccursAt(rest, d) || (d.1 == last.id && last.cron.occurs(d.0)) {
      if OccursAt(rest, d) {
        var i :| 0 <= i < |rest| && rest[i].id == d.1 && rest[i].cron.occurs(d.0);
        assert schedules[i] == rest[i];
      }
      if OccursAt(schedules, d) {
        var i :| 0 <= i < |schedules| && schedules[i].id == d.1 && schedules[i].cron.occurs(d.0);
        assert i < |rest| ==> rest[i] == schedules[i];
      }
    }
  }

  /** Everything that fires in `(from, until]`, by time and then schedule. */
  ghost function Fired(schedules: seq<Schedule>, from: Instant, until: Instant): (fired: seq<Firing>)
    requires WellFormed(schedules)
  {
    FiresBeforeIsOrder();
    Sorted(FiresBefore, FiringSet(schedules, from, until))
  }

  /** By time first, and at one instant by schedule. */
  lemma FiredInOrder(schedules: seq<Schedule>, from: Instant, until: Instant, i: nat, j: nat)
    requires WellFormed(schedules) && i < j < |Fired(schedules, from, until)|
    ensures var fired := Fired(schedules, from, until);
      fired[i].0 < fired[j].0 || (fired[i].0 == fired[j].0 && fired[i].1 < fired[j].1)
  {
    FiresBeforeIsOrder();
  }

  /** One late tick fires what two ticks fire. */
  lemma FiredComposes(schedules: seq<Schedule>, a: Instant, b: Instant, c: Instant)
    requires WellFormed(schedules) && a <= b <= c
    ensures Fired(schedules, a, b) + Fired(schedules, b, c) == Fired(schedules, a, c)
  {
    FiresBeforeIsOrder();
    AscendingAppend(FiresBefore, Fired(schedules, a, b), Fired(schedules, b, c));
    AscendingUnique(FiresBefore, Fired(schedules, a, b) + Fired(schedules, b, c), Fired(schedules, a, c));
  }

  ghost predicate Increasing(from: Instant, ticks: seq<Instant>)
    decreases |ticks|
  {
    ticks == [] || (from <= ticks[0] && Increasing(ticks[0], ticks[1..]))
  }

  ghost function FiredOver(schedules: seq<Schedule>, from: Instant, ticks: seq<Instant>): seq<Firing>
    requires WellFormed(schedules)
    decreases |ticks|
  {
    if ticks == [] then [] else Fired(schedules, from, ticks[0]) + FiredOver(schedules, ticks[0], ticks[1..])
  }

  lemma FiredNothing(schedules: seq<Schedule>, from: Instant, until: Instant)
    requires WellFormed(schedules) && until <= from
    ensures Fired(schedules, from, until) == []
  {
    HasMember(Fired(schedules, from, until));
  }

  /** Exactly once, and independent of tick spacing: whatever increasing instants the host
      ticks at, the concatenated output is every occurrence up to the last tick in order. */
  lemma {:induction false} TickSpacingIrrelevant(schedules: seq<Schedule>, from: Instant, ticks: seq<Instant>)
    requires WellFormed(schedules) && Increasing(from, ticks)
    ensures var until := if ticks == [] then from else ticks[|ticks| - 1];
      from <= until && FiredOver(schedules, from, ticks) == Fired(schedules, from, until)
    decreases |ticks|
  {
    if ticks == [] {
      FiredNothing(schedules, from, from);
    } else {
      TickSpacingIrrelevant(schedules, ticks[0], ticks[1..]);
      FiredComposes(schedules, from, ticks[0], ticks[|ticks| - 1]);
    }
  }

  function Announced(fired: seq<Firing>): (events: seq<Event>)
    ensures |events| == |fired| && forall i :: 0 <= i < |fired| ==> events[i] == TimeReached(fired[i].1)
  {
    seq(|fired|, i requires 0 <= i < |fired| => TimeReached(fired[i].1))
  }

  // --- the civil minute -----------------------------------------------------------------------

  /** Minute of the local day; `zone` maps a UTC minute to the local offset in minutes. */
  function LocalMinute(zone: int -> int, wall: Instant): (minute: nat)
    ensures minute < 1440
  {
    var utc := wall / MINUTE_MS;
    (utc + zone(utc)) % 1440
  }

  function ToNextMinute(wall: Instant): (ms: nat)
    ensures 1 <= ms <= MINUTE_MS && (wall + ms) % MINUTE_MS == 0
  {
    MINUTE_MS - wall % MINUTE_MS
  }

  lemma SameMinute(zone: int -> int, wall: Instant, dt: nat)
    requires dt < ToNextMinute(wall)
    ensures LocalMinute(zone, wall + dt) == LocalMinute(zone, wall)
  {
    assert wall == (wall / MINUTE_MS) * MINUTE_MS + wall % MINUTE_MS;
    assert (wall + dt) / MINUTE_MS == wall / MINUTE_MS;
  }

  // --- what was last published -----------------------------------------------------------------

  /** The instant of the last publication after a tick: this one, unless it falls into the
      same minute of the day as the last. */
  function Published(zone: int -> int, last: Option<Instant>, wall: Instant): Option<Instant> {
    if last.Some? && LocalMinute(zone, last.value) == LocalMinute(zone, wall) then last else Some(wall)
  }

  /** Minutes shown by a local clock that never wraps. */
  function LocalClock(zone: int -> int, wall: Instant): int {
    wall / 60_000 + zone(wall / 60_000)
  }

  /** A tick publishes afresh, the time and the sun of this very moment, unless the local
      clock stands whole days from where it stood at the last publication; then it says
      nothing, whatever the sun has done since. */
  lemma PublishesAfreshIff(device: DeviceId, zone: int -> int, sun: Instant -> bool, last: Option<Instant>,
      wall: Instant)
    ensures var said := if last.Some? then Some(LocalMinute(zone, last.value)) else None;
      var events := MinuteEvents(device, said, LocalMinute(zone, wall), sun(wall));
      if last.Some? && (LocalClock(zone, wall) - LocalClock(zone, last.value)) % 1440 == 0 then
        events == [] && Published(zone, last, wall) == last
      else
        && Published(zone, last, wall) == Some(wall)
        && events == [StateReported(device, CapabilityState.TimeOfDay(LocalClock(zone, wall) % 1440)),
                      StateReported(device, CapabilityState.SunUp(sun(wall)))]
  {
    if last.Some? {
      SameRemainder(LocalClock(zone, last.value), LocalClock(zone, wall));
    }
  }

  /** Under one fixed offset that minute is the same exactly for ticks whole days apart,
      give or take the seconds within the minute. */
  lemma SameMinuteIffWholeDays(offset: int, last: Instant, wall: Instant)
    ensures LocalMinute(_ => offset, last) == LocalMinute(_ => offset, wall) <==>
      (wall / MINUTE_MS - last / MINUTE_MS) % 1440 == 0
  {
    SameRemainder(last / MINUTE_MS + offset, wall / MINUTE_MS + offset);
  }

  lemma SameRemainder(a: int, b: int)
    ensures a % 1440 == b % 1440 <==> (b - a) % 1440 == 0
  {
  }

  /** A failing input: a day after the publication, or any part of that minute later, the
      tick says nothing although the sun has changed. */
  lemma StaleSunAfterADay(device: DeviceId, d: nat)
    requires d < MINUTE_MS
    ensures var zone, sun, wall := (u: int) => 0, (t: Instant) => t == 0, 86_400_000 + d;
      && MinuteEvents(device, Some(LocalMinute(zone, 0)), LocalMinute(zone, wall), sun(wall)) == []
      && Published(zone, Some(0), wall) == Some(0) && sun(0) != sun(wall)
  {
    assert (86_400_000 + d) / MINUTE_MS == 1440;
  }

  /** The local minute never stands still across a UTC minute: no offset drops by exactly
      one minute (modulo a day). */
  ghost predicate NeverRepeats(zone: int -> int) {
    forall u: int :: (zone(u + 1) - zone(u) + 1) % 1440 != 0
  }

  predicate SameUtcMinute(a: Instant, b: Instant) {
    a / MINUTE_MS == b / MINUTE_MS
  }

  /** A host that sleeps at most to the next minute boundary skips no minute. */
  ghost predicate Unskipped(wall: Instant, ticks: seq<Instant>)
    decreases |ticks|
  {
    ticks == [] || (wall <= ticks[0] <= wall + ToNextMinute(wall) && Unskipped(ticks[0], ticks[1..]))
  }

  function PublishedOver(zone: int -> int, last: Option<Instant>, ticks: seq<Instant>): Option<Instant>
    decreases |ticks|
  {
    if ticks == [] then last else PublishedOver(zone, Published(zone, last, ticks[0]), ticks[1..])
  }

  lemma MinuteAdvances(zone: int -> int, wall: Instant, tick: Instant)
    requires NeverRepeats(zone) && wall <= tick <= wall + ToNextMinute(wall)
    ensures LocalMinute(zone, tick) == LocalMinute(zone, wall) <==> SameUtcMinute(wall, tick)
  {
    var u := wall / MINUTE_MS;
    assert wall == u * MINUTE_MS + wall % MINUTE_MS;
    assert tick / MINUTE_MS == u || tick / MINUTE_MS == u + 1;
    SameRemainder(u + zone(u), u + 1 + zone(u + 1));
    assert (zone(u + 1) - zone(u) + 1) % 1440 != 0;
  }

  /** So under such a host what is published always dates from the current minute, over any
      sequence of ticks. */
  lemma {:induction false} PunctualHostStaysCurrent(zone: int -> int, last: Instant, wall: Instant, ticks: seq<Instant>)
    requires NeverRepeats(zone) && SameUtcMinute(last, wall) && Unskipped(wall, ticks)
    ensures var published := PublishedOver(zone, Some(last), ticks);
      published.Some? && SameUtcMinute(published.value, if ticks == [] then wall else ticks[|ticks| - 1])
    decreases |ticks|
  {
    if ticks != [] {
      MinuteAdvances(zone, wall, ticks[0]);
      assert LocalMinute(zone, last) == LocalMinute(zone, wall);
      var published := Published(zone, Some(last), ticks[0]);
      PunctualHostStaysCurrent(zone, published.value, ticks[0], ticks[1..]);
    }
  }

  // --- waking --------------------------------------------------------------------------------

  function Ahead(next: Instant, wall: Instant): nat {
    if next > wall then next - wall else 0
  }

  /** The delay asked for: the next minute boundary, or the soonest armed schedule. */
  ghost predicate IsClockWake(nexts: seq<Option<Instant>>, wall: Instant, delay: nat) {
    && delay <= ToNextMinute(wall)
    && (forall n <- nexts :: n.Some? ==> delay <= Ahead(n.value, wall))
    && (delay == ToNextMinute(wall) || exists n <- nexts :: n.Some? && delay == Ahead(n.value, wall))
  }

  ghost predicate ArmedAt(schedules: seq<Schedule>, nexts: seq<Option<Instant>>, wall: Instant) {
    |nexts| == |schedules| && forall i :: 0 <= i < |schedules| ==> nexts[i] == schedules[i].cron.next(wall)
  }

  /** Wake exactness: after a tick at `wall`, sleeping less than the delay reaches no
      occurrence and no new minute, and sleeping exactly the delay overshoots none. */
  lemma ClockWakeIsExact(schedules: seq<Schedule>, zone: int -> int, nexts: seq<Option<Instant>>, wall: Instant,
      delay: nat, dt: nat)
    requires WellFormed(schedules) && ArmedAt(schedules, nexts, wall) && IsClockWake(nexts, wall, delay) && dt <= delay
    ensures forall d <- Fired(schedules, wall, wall + dt) :: d.0 == wall + delay
    ensures dt < delay ==>
      Fired(schedules, wall, wall + dt) == [] && LocalMinute(zone, wall + dt) == LocalMinute(zone, wall)
  {
    var fired := Fired(schedules, wall, wall + dt);
    forall d <- fired ensures d.0 == wall + delay == wall + dt {
      assert d in FiringSet(schedules, wall, wall + dt);
      var i :| 0 <= i < |schedules| && schedules[i].id == d.1 && schedules[i].cron.occurs(d.0);
      NoneBefore(schedules[i].cron, wall, d.0);
      assert nexts[i] in nexts;
    }
    HasMember(fired);
    if dt < delay {
      SameMinute(zone, wall, dt);
    }
  }

  lemma NoneBefore(cron: Cron, t: Instant, u: Instant)
    requires cron.Finds() && t < u && cron.occurs(u)
    ensures cron.next(t).Some? && t < cron.next(t).value <= u
  {
    assert cron.IsNext(t, cron.next(t));
  }

  // --- the adapter ----------------------------------------------------------------------------

  datatype ScheduleState = ScheduleState(id: ScheduleId, cron: Cron, nextFire: Option<Instant>, armed: bool)

  function Described(states: seq<ScheduleState>): (schedules: seq<Schedule>)
    ensures |schedules| == |states|
    ensures forall i :: 0 <= i < |states| ==> schedules[i] == Schedule(states[i].id, states[i].cron)
  {
    seq(|states|, i requires 0 <= i < |states| => Schedule(states[i].id, states[i].cron))
  }

  /** How far a schedule has been served: not armed yet, or every occurrence up to an
      instant fired and the next one cached. */
  ghost predicate ServedTo(s: ScheduleState, reached: Option<Instant>) {
    match reached
    case None => !s.armed && s.nextFire == None
    case Some(t) => s.armed && s.nextFire == s.cron.next(t)
  }

  /** Where firing resumes: at the tick itself if the schedule was not armed before it. */
  function Resume(reached: Option<Instant>, local: Instant): Instant {
    match reached
    case None => local
    case Some(t) => t
  }

  function Later(reached: Option<Instant>, local: Instant): Instant {
    if reached.Some? && reached.value > local then reached.value else local
  }

  /** The firings of the first `n` schedules, gathered in no particular order. */
  ghost predicate Gathers(crons: seq<Schedule>, fired: seq<Firing>, n: nat, from: Instant, local: Instant)
    requires n <= |crons|
  {
    NoDuplicates(fired) && forall d :: d in fired <==> from < d.0 <= local && OccursAt(crons[..n], d)
  }

  /** Every schedule served up to the instant, nothing else about it changed. */
  ghost predicate CaughtUp(was: seq<ScheduleState>, updated: seq<ScheduleState>, reached: Instant) {
    |updated| == |was| && forall j :: 0 <= j < |was| ==>
      updated[j].id == was[j].id && updated[j].cron == was[j].cron && ServedTo(updated[j], Some(reached))
  }

  lemma CaughtUpKeeps(was: seq<ScheduleState>, updated: seq<ScheduleState>, reached: Instant)
    requires CaughtUp(was, updated, reached)
    ensures Described(updated) == Described(was) && forall s <- updated :: ServedTo(s, Some(reached))
  {
  }

  lemma SortedIsFired(crons: seq<Schedule>, fired: seq<Firing>, sorted: seq<Firing>, from: Instant, local: Instant)
    requires WellFormed(crons) && StrictOrder(FiresBefore) && Gathers(crons, fired, |crons|, from, local)
    requires sorted == Sorted(FiresBefore, set d | d in fired)
    ensures sorted == Fired(crons, from, local)
  {
    assert crons[..|crons|] == crons;
    AscendingUnique(FiresBefore, sorted, Fired(crons, from, local));
  }

  function Stamped(times: seq<Instant>, id: ScheduleId): (firings: seq<Firing>)
    ensures |firings| == |times| && forall k :: 0 <= k < |times| ==> firings[k] == (times[k], id)
  {
    seq(|times|, k requires 0 <= k < |times| => (times[k], id))
  }

  /** What a tick says about the time of day: only when the minute is not the last one said. */
  function MinuteEvents(device: DeviceId, last: Option<nat>, minute: nat, sunUp: bool): seq<Event>
    requires minute < 1440
  {
    if last == Some(minute) then []
    else [StateReported(device, CapabilityState.TimeOfDay(minute)), StateReported(device, CapabilityState.SunUp(sunUp))]
  }

  class ClockAdapter {
    const device: DeviceId
    const bootEpoch: Instant
    const zone: int -> int
    const sun: Instant -> bool
    var lastMinute: Option<nat>
    var schedules: seq<ScheduleState>
    /** The latest instant ticked at, and the one last published. */
    ghost var reached: Option<Instant>
    ghost var published: Option<Instant>

    ghost predicate Valid()
      reads this
    {
      && WellFormed(Described(schedules)) && (forall s <- schedules :: ServedTo(s, reached))
      && lastMinute == (if published.Some? then Some(LocalMinute(zone, published.value)) else None)
    }

    constructor (device: DeviceId, bootEpoch: Instant, zone: int -> int, sun: Instant -> bool, crons: seq<Schedule>)
      requires WellFormed(crons)
      ensures Valid() && Described(schedules) == crons && reached == None && published == None
      ensures this.device == device && this.bootEpoch == bootEpoch && this.zone == zone && this.sun == sun
    {
      this.device, this.bootEpoch, this.zone, this.sun := device, bootEpoch, zone, sun;
      lastMinute, reached, published := None, None, None;
      schedules := seq(|crons|, i requires 0 <= i < |crons| => ScheduleState(crons[i].id, crons[i].cron, None, false));
    }

    /** One schedule of `fire_due_schedules`: arm it if need be, then fire every occurrence
        up to now and cache the next one. */
    method CatchUp(s: ScheduleState, local: Instant, ghost served: Option<Instant>) returns (caught: ScheduleState,
        times: seq<Instant>)
      requires s.cron.Finds() && ServedTo(s, served)
      ensures times == s.cron.Occurrences(Resume(served, local), local)
      ensures caught.id == s.id && caught.cron == s.cron && ServedTo(caught, Some(Later(served, local)))
    {
      var next := if s.armed then s.nextFire else s.cron.next(local);
      ghost var from := Resume(served, local);
      times := [];
      while next.Some? && next.value <= local
        invariant next == s.cron.next(from) && (from <= local || from == Later(served, local))
        invariant times + s.cron.Occurrences(from, local) == s.cron.Occurrences(Resume(served, local), local)
        decreases local - from
      {
        assert s.cron.IsNext(from, next);
        times := times + [next.value];
        from := next.value;
        next := s.cron.next(next.value);
      }
      if from <= local {
        s.cron.NextSkips(from, local);
      }
      caught := ScheduleState(s.id, s.cron, next, true);
    }

    /** Catches every schedule up with the moment, collecting what fired on the way. */
    method CatchAllUp(local: Instant) returns (fired: seq<Firing>, updated: seq<ScheduleState>)
      requires Valid()
      ensures Gathers(Described(schedules), fired, |schedules|, Resume(reached, local), local)
      ensures CaughtUp(schedules, updated, Later(reached, local))
    {
      ghost var crons := Described(schedules);
      ghost var from := Resume(reached, local);
      fired, updated := [], [];
      for i := 0 to |schedules|
        invariant Gathers(crons, fired, i, from, local)
        invariant CaughtUp(schedules[..i], updated, Later(reached, local))
      {
        assert schedules[i] in schedules && crons[i].cron.Finds();
        var caught, times := CatchUp(schedules[i], local, reached);
        crons[i].cron.OccurrencesAre(from, local);
        GatherOne(crons, i, fired, times, from, local);
        fired := fired + Stamped(times, schedules[i].id);
        updated := updated + [caught];
      }
      assert schedules[..|schedules|] == schedules;
    }

    /** Fires what occurred since the last tick, by time and then schedule, once. */
    method FireDueSchedules(local: Instant) returns (events: seq<Event>)
      requires Valid()
      modifies this`schedules, this`reached
      ensures Valid() && Described(schedules) == old(Described(schedules))
      ensures reached == Some(Later(old(reached), local))
      ensures events == Announced(Fired(Described(schedules), Resume(old(reached), local), local))
    {
      var fired, updated := CatchAllUp(local);
      FiresBeforeIsOrder();
      var sorted := Sort(FiresBefore, fired);
      SortedIsFired(Described(schedules), fired, sorted, Resume(reached, local), local);
      CaughtUpKeeps(schedules, updated, Later(reached, local));
      schedules, reached := updated, Some(Later(reached, local));
      events := Announced(sorted);
    }

    method RepublishMinute(wall: Instant) returns (events: seq<Event>)
      requires lastMinute == (if published.Some? then Some(LocalMinute(zone, published.value)) else None)
      modifies this`lastMinute, this`published
      ensures lastMinute == Some(LocalMinute(zone, wall)) && published == Published(zone, old(published), wall)
      ensures events == MinuteEvents(device, old(lastMinute), LocalMinute(zone, wall), sun(wall))
    {
      var minute := LocalMinute(zone, wall);
      events := [];
      if lastMinute != Some(minute) {
        lastMinute, published := Some(minute), Some(wall);
        events := [StateReported(device, CapabilityState.TimeOfDay(minute)),
                   StateReported(device, CapabilityState.SunUp(sun(wall)))];
      }
    }

    method Tick(now: Millis) returns (events: seq<Event>)
      requires Valid()
      modifies this
      ensures Valid() && Described(schedules) == old(Described(schedules))
      ensures reached == Some(Later(old(reached), bootEpoch + now))
      ensures lastMinute == Some(LocalMinute(zone, bootEpoch + now))
      ensures published == Published(zone, old(published), bootEpoch + now)
      ensures events ==
        MinuteEvents(device, old(lastMinute), LocalMinute(zone, bootEpoch + now), sun(bootEpoch + now))
        + Announced(Fired(Described(schedules), Resume(old(reached), bootEpoch + now), bootEpoch + now))
    {
      var wall := bootEpoch + now;
      var minute := RepublishMinute(wall);
      var fired := FireDueSchedules(wall);
      events := minute + fired;
    }

    function Nexts(): (nexts: seq<Option<Instant>>)
      reads this
      ensures |nexts| == |schedules| && forall i :: 0 <= i < |schedules| ==> nexts[i] == schedules[i].nextFire
    {
      seq(|schedules|, i requires 0 <= i < |schedules| reads this => schedules[i].nextFire)
    }

    /** The soonest of the next minute boundary and the cached occurrences. Right after a
        tick that makes the wake exact. */
    method NextWake(now: Millis) returns (delay: nat)
      requires Valid()
      ensures IsClockWake(Nexts(), bootEpoch + now, delay)
      ensures reached == Some(bootEpoch + now) ==> ArmedAt(Described(schedules), Nexts(), bootEpoch + now)
    {
      var wall := bootEpoch + now;
      delay := ToNextMinute(wall);
      ghost var nexts := Nexts();
      for i := 0 to |schedules|
        invariant IsClockWake(nexts[..i], wall, delay)
      {
        WakeGrows(nexts[..i], wall, delay, nexts[i]);
        assert nexts[..i + 1] == nexts[..i] + [nexts[i]];
        if schedules[i].nextFire.Some? {
          var ahead := Ahead(schedules[i].nextFire.value, wall);
          if ahead < delay {
            delay := ahead;
          }
        }
      }
      assert nexts[..|schedules|] == nexts;
      if reached == Some(wall) {
        forall i | 0 <= i < |schedules| ensures nexts[i] == Described(schedules)[i].cron.next(wall) {
          assert ServedTo(schedules[i], reached);
        }
      }
    }
  }

  lemma WakeGrows(nexts: seq<Option<Instant>>, wall: Instant, delay: nat, next: Option<Instant>)
    requires IsClockWake(nexts, wall, delay)
    ensures IsClockWake(nexts + [next], wall,
      if next.Some? && Ahead(next.value, wall) < delay then Ahead(next.value, wall) else delay)
  {
    var grown := nexts + [next];
    assert grown[|nexts|] == next;
    assert forall n :: n in grown <==> n in nexts || n == next;
  }

  /** Adding one schedule's occurrences to what the earlier ones fired. */
  lemma GatherOne(crons: seq<Schedule>, i: nat, fired: seq<Firing>, times: seq<Instant>, from: Instant, local: Instant)
    requires WellFormed(crons) && i < |crons| && Gathers(crons, fired, i, from, local) && NoDuplicates(times)
    requires forall u :: u in times <==> from < u <= local && crons[i].cron.occurs(u)
    ensures Gathers(crons, fired + Stamped(times, crons[i].id), i + 1, from, local)
  {
    var added := Stamped(times, crons[i].id);
    forall d: Firing ensures d in added <==> d.1 == crons[i].id && d.0 in times {
      if d.1 == crons[i].id && d.0 in times {
        var k :| 0 <= k < |times| && times[k] == d.0;
        assert added[k] == d;
      }
    }
    forall d <- fired ensures d.1 != crons[i].id {
      assert OccursAt(crons[..i], d);
      var j :| 0 <= j < i && crons[..i][j].id == d.1 && crons[..i][j].cron.occurs(d.0);
      assert crons[j].id != crons[i].id;
    }
    forall a, b | 0 <= a < b < |fired + added| ensures (fired + added)[a] != (fired + added)[b] {
      if a < |fired| <= b {
        assert fired[a] in fired && added[b - |fired|] in added;
      }
    }
    OccursAtSplit(crons, i);
  }

  lemma OccursAtSplit(crons: seq<Schedule>, i: nat)
    requires i < |crons|
    ensures forall d :: OccursAt(crons[..i + 1], d) <==>
      OccursAt(crons[..i], d) || (d.1 == crons[i].id && crons[i].cron.occurs(d.0))
  {
    forall d: Firing ensures OccursAt(crons[..i + 1], d) <==>
      OccursAt(crons[..i], d) || (d.1 == crons[i].id && crons[i].cron.occurs(d.0))
    {
      if OccursAt(crons[..i], d) {
        var j :| 0 <= j < i && crons[..i][j].id == d.1 && crons[..i][j].cron.occurs(d.0);
        assert crons[..i + 1][j] == crons[..i][j];
      }
      if d.1 == crons[i].id && crons[i].cron.occurs(d.0) {
        assert crons[..i + 1][i] == crons[i];
      }
      if OccursAt(crons[..i + 1], d) {
        var j :| 0 <= j < i + 1 && crons[..i + 1][j].id == d.1 && crons[..i + 1][j].cron.occurs(d.0);
        assert j < i ==> crons[..i][j] == crons[..i + 1][j];
      }
    }
  }
}
