/** Cron occurrences over whole runs: the clock (`src/adapters/clock.rs`) among the adapters
    of the loop (`src/engine.rs`). The loop hears every occurrence since the first tick, once
    and in order, and on a host that sleeps no longer than asked, each at its instant. */
module CronRuns {
  import opened Model
  import opened Scheduler
  import opened EngineSpec
  import opened AnyRun
  import opened Waking
  import Clock

  // --- occurrences among events ------------------------------------------------------------

  /** Only the clock says that a time is reached. */
  const UNTIMED: Event -> bool := (e: Event) => !e.TimeReached?

  function Times(events: seq<Event>): seq<Event> {
    if events == [] then []
    else if events[0].TimeReached? then [events[0]] + Times(events[1..])
    else Times(events[1..])
  }

  function Waiting(queue: seq<Queued>): seq<Event> {
    if queue == [] then []
    else if queue[0].event.TimeReached? then [queue[0].event] + Waiting(queue[1..])
    else Waiting(queue[1..])
  }

  /** The occurrences heard so far, and after them the ones still queued. */
  function Announcements(s: State): seq<Event> {
    Times(s.received) + Waiting(s.queue)
  }

  lemma {:induction false} TimesAppend(a: seq<Event>, b: seq<Event>)
    ensures Times(a + b) == Times(a) + Times(b)
    decreases |a|
  {
    if a == [] {
      assert a + b == b;
    } else {
      assert (a + b)[1..] == a[1..] + b;
      TimesAppend(a[1..], b);
    }
  }

  lemma {:induction false} WaitingAppend(a: seq<Queued>, b: seq<Queued>)
    ensures Waiting(a + b) == Waiting(a) + Waiting(b)
    decreases |a|
  {
    if a == [] {
      assert a + b == b;
    } else {
      assert (a + b)[1..] == a[1..] + b;
      WaitingAppend(a[1..], b);
    }
  }

  lemma {:induction false} WaitingTagged(events: seq<Event>, queue: seq<Queued>)
    requires queue == Tagged(events, 0)
    ensures Waiting(queue) == Times(events)
    decreases |events|
  {
    if events != [] {
      assert queue[1..] == Tagged(events[1..], 0);
      WaitingTagged(events[1..], queue[1..]);
    }
  }

  lemma {:induction false} TimesNone(events: seq<Event>)
    requires forall e <- events :: UNTIMED(e)
    ensures Times(events) == []
  {
    if events != [] {
      assert events[0] in events && forall e <- events[1..] :: e in events;
      TimesNone(events[1..]);
    }
  }

  lemma {:induction false} WaitingNone(queue: seq<Queued>)
    requires forall i :: 0 <= i < |queue| ==> UNTIMED(queue[i].event)
    ensures Waiting(queue) == []
  {
    if queue != [] {
      WaitingNone(queue[1..]);
    }
  }

  lemma {:induction false} WaitingMember(queue: seq<Queued>, q: Queued)
    requires q in queue && q.event.TimeReached?
    ensures q.event in Waiting(queue)
  {
    if q != queue[0] {
      WaitingMember(queue[1..], q);
    }
  }

  lemma TimesPopped(s: State, t: State)
    requires s.queue != [] && t == Popped(s)
    ensures Announcements(t) == Announcements(s)
  {
    var event := s.queue[0].event;
    TimesAppend(s.received, [event]);
    assert Times([event]) == if event.TimeReached? then [event] else [];
  }

  lemma WaitingPushed(queue: seq<Queued>, after: seq<Queued>)
    requires queue <= after && forall i :: |queue| <= i < |after| ==> UNTIMED(after[i].event)
    ensures Waiting(after) == Waiting(queue)
  {
    var rest := after[|queue|..];
    assert after == queue + rest;
    WaitingAppend(queue, rest);
    WaitingNone(rest);
  }

  // --- the clock among the adapters ----------------------------------------------------------

  /** What a clock announces between two instants. */
  type Clockwork = (Clock.Instant, Clock.Instant) -> seq<Event>

  ghost function CronOf(schedules: seq<Clock.Schedule>): Clockwork
    requires Clock.WellFormed(schedules)
  {
    (from: Clock.Instant, until: Clock.Instant) => Clock.Announced(Clock.Fired(schedules, from, until))
  }

  ghost predicate Composes(fires: Clockwork) {
    forall a, b, c | a <= b <= c :: fires(a, b) + fires(b, c) == fires(a, c)
  }

  lemma CronComposes(schedules: seq<Clock.Schedule>)
    requires Clock.WellFormed(schedules)
    ensures Composes(CronOf(schedules))
  {
    forall a, b, c | a <= b <= c ensures CronOf(schedules)(a, b) + CronOf(schedules)(b, c) == CronOf(schedules)(a, c) {
      Clock.FiredComposes(schedules, a, b, c);
      AnnouncedAppend(Clock.Fired(schedules, a, b), Clock.Fired(schedules, b, c));
    }
  }

  lemma AnnouncedAppend(a: seq<Clock.Firing>, b: seq<Clock.Firing>)
    ensures Clock.Announced(a + b) == Clock.Announced(a) + Clock.Announced(b)
  {
  }

  /** The instants of the clock's first and latest tick. */
  datatype Ticks = Ticks(begun: Option<Clock.Instant>, reached: Option<Clock.Instant>)

  /** On an advance the clock announces what its tick fires; no host, and nothing else that
      ticks, claims that a time is reached. */
  predicate ClockMoves(input: Input, c: Ticks, d: Ticks, fires: Clockwork, wall: Clock.Instant) {
    match input
    case Advance(_, produced) =>
      && Times(produced) == fires(Clock.Resume(c.reached, wall), wall)
      && d == Ticks(if c.begun == None then Some(wall) else c.begun, Some(Clock.Later(c.reached, wall)))
    case Inject(event) => UNTIMED(event) && d == c
    case _ => d == c
  }

  lemma {:induction false} TimesAll(events: seq<Event>)
    requires forall e <- events :: e.TimeReached?
    ensures Times(events) == events
  {
    if events != [] {
      assert events[0] in events && forall e <- events[1..] :: e in events;
      TimesAll(events[1..]);
    }
  }

  /** This is what the adapter's own tick returns (`ClockAdapter.Tick`), the time of day and
      the sun aside. */
  lemma TickSays(device: DeviceId, last: Option<nat>, minute: nat, sunUp: bool, fired: seq<Clock.Firing>)
    requires minute < 1440
    ensures Times(Clock.MinuteEvents(device, last, minute, sunUp) + Clock.Announced(fired)) == Clock.Announced(fired)
  {
    TimesAppend(Clock.MinuteEvents(device, last, minute, sunUp), Clock.Announced(fired));
    TimesNone(Clock.MinuteEvents(device, last, minute, sunUp));
    TimesAll(Clock.Announced(fired));
  }

  /** A run with such a clock, booted at `epoch`, among the adapters. */
  ghost predicate IsClockRun(w: Wiring, answers: Answers, states: seq<State>, inputs: seq<Input>, clock: seq<Ticks>,
      fires: Clockwork, epoch: int)
  {
    && IsRun(w, answers, states, inputs) && AnswersOnly(answers, 0, UNTIMED)
    && |clock| == |states| && clock[0] == Ticks(None, None)
    && forall i :: 0 <= i < |inputs| ==> ClockMoves(inputs[i], clock[i], clock[i + 1], fires, epoch + states[i + 1].now)
  }

  lemma StepAt(w: Wiring, answers: Answers, states: seq<State>, inputs: seq<Input>, clock: seq<Ticks>,
      fires: Clockwork, epoch: int, n: nat, s: State, input: Input, t: State)
    requires IsClockRun(w, answers, states, inputs, clock, fires, epoch) && n < |inputs|
    requires s == states[n] && input == inputs[n] && t == states[n + 1]
    ensures StepsTo(w, answers, s, input, t) && ClockMoves(input, clock[n], clock[n + 1], fires, epoch + t.now)
    ensures t.now == s.now + if input.Advance? then input.dt else 0
  {
    assert StepsTo(w, answers, states[n], inputs[n], states[n + 1]);
    NowMoves(w, answers, s, input, t);
  }

  /** What ought to have been announced by an instant. */
  function Expected(fires: Clockwork, begun: Option<Clock.Instant>, wall: int): seq<Event> {
    match begun
    case None => []
    case Some(first) => fires(first, wall)
  }

  lemma NowMoves(w: Wiring, answers: Answers, s: State, input: Input, t: State)
    requires StepsTo(w, answers, s, input, t)
    ensures t.now == s.now + if input.Advance? then input.dt else 0
  {
    if input.Pop? && !Dropped(w, s) {
      AllowsAny(answers, Popped(s));
      HandlePushes(w, answers, Popped(s), s.queue[0].event, s.queue[0].depth, ANY);
    }
  }

  // --- one step --------------------------------------------------------------------------------

  /** Occurrences are queued at depth 0, and consumers request none. */
  ghost predicate Timely(s: State) {
    (forall q <- s.queue :: q.event.TimeReached? ==> q.depth == 0) && forall e <- s.inbox :: UNTIMED(e)
  }

  lemma GrownTimely(queue: seq<Queued>, after: seq<Queued>)
    requires queue != [] && queue[1..] <= after
    requires forall i :: |queue| - 1 <= i < |after| ==> UNTIMED(after[i].event)
    ensures Waiting(after) == Waiting(queue[1..])
    ensures forall q <- after :: q.event.TimeReached? ==> q in queue
  {
    WaitingPushed(queue[1..], after);
    forall q | q in after && q.event.TimeReached? ensures q in queue {
      var i :| 0 <= i < |after| && after[i] == q;
      assert after[i] == queue[1..][i];
    }
  }

  lemma ProcessAnnounces(w: Wiring, answers: Answers, s: State, t: State)
    requires AnswersOnly(answers, 0, UNTIMED) && Timely(s) && s.queue != [] && t == Process(w, answers, s)
    ensures Timely(t) && Announcements(t) == Announcements(s)
    ensures forall q <- t.queue :: q.event.TimeReached? ==> q in s.queue
  {
    if Dropped(w, s) {
      assert s.queue[0] in s.queue;
    } else {
      TimesPopped(s, Popped(s));
      HandlePushes(w, answers, Popped(s), s.queue[0].event, s.queue[0].depth, UNTIMED);
      GrownTimely(s.queue, t.queue);
    }
  }

  lemma TimesOfTick(due: seq<Deadline>, produced: seq<Event>, inbox: seq<Event>)
    requires forall e <- inbox :: UNTIMED(e)
    ensures Times(Elapsed(due) + (produced + inbox)) == Times(produced)
  {
    TimesAppend(Elapsed(due), produced + inbox);
    TimesAppend(produced, inbox);
    TimesNone(Elapsed(due));
    TimesNone(inbox);
  }

  lemma TickQueue(due: seq<Deadline>, produced: seq<Event>, inbox: seq<Event>, queue: seq<Queued>)
    requires (forall e <- inbox :: UNTIMED(e)) && queue == Tagged(Elapsed(due) + (produced + inbox), 0)
    ensures Waiting(queue) == Times(produced)
    ensures forall q <- queue :: q.depth == 0 && (q.event.TimeReached? ==> q.event in Times(produced))
  {
    TimesOfTick(due, produced, inbox);
    WaitingTagged(Elapsed(due) + (produced + inbox), queue);
    forall q | q in queue && q.event.TimeReached? ensures q.event in Times(produced) {
      WaitingMember(queue, q);
    }
  }

  lemma TickAnnounces(s: State, t: State, dt: Millis, produced: seq<Event>)
    requires Timely(s) && s.queue == [] && t == Tick(s, dt, produced)
    ensures Timely(t) && Announcements(t) == Announcements(s) + Times(produced)
    ensures forall q <- t.queue :: q.event.TimeReached? ==> q.event in Times(produced)
  {
    TickQueue(Due(s.timers, s.now + dt), produced, s.inbox, t.queue);
  }

  lemma StepAnnounces(w: Wiring, answers: Answers, s: State, input: Input, t: State)
    requires AnswersOnly(answers, 0, UNTIMED) && Timely(s) && StepsTo(w, answers, s, input, t)
    requires input.Inject? ==> UNTIMED(input.event)
    ensures Timely(t)
    ensures Announcements(t) == Announcements(s) + if input.Advance? then Times(input.produced) else []
    ensures forall q <- t.queue :: q.event.TimeReached? ==>
      if input.Advance? then q.event in Times(input.produced) else q in s.queue
  {
    match input
    case Pop => ProcessAnnounces(w, answers, s, t);
    case Advance(dt, produced) => TickAnnounces(s, t, dt, produced);
    case Inject(event) => WaitingPushed(s.queue, t.queue);
    case _ =>
  }

  // --- nothing lost, nothing twice -------------------------------------------------------------

  /** What has been announced is what occurred since the first tick. */
  ghost predicate Kept(s: State, c: Ticks, fires: Clockwork, wall: Clock.Instant) {
    Timely(s) && Announcements(s) == Expected(fires, c.begun, wall) && Ticking(c, wall)
  }

  predicate Ticking(c: Ticks, wall: Clock.Instant) {
    c.reached == (if c.begun == None then None else Some(wall)) && (c.begun.Some? ==> c.begun.value <= wall)
  }

  lemma StepKeeps(w: Wiring, answers: Answers, s: State, input: Input, t: State, c: Ticks, d: Ticks, fires: Clockwork,
      before: Clock.Instant, after: Clock.Instant)
    requires AnswersOnly(answers, 0, UNTIMED) && StepsTo(w, answers, s, input, t) && Composes(fires)
    requires Kept(s, c, fires, before) && ClockMoves(input, c, d, fires, after)
    requires before <= after && (!input.Advance? ==> before == after)
    ensures Kept(t, d, fires, after)
  {
    StepAnnounces(w, answers, s, input, t);
    if c.begun.Some? && input.Advance? {
      assert fires(c.begun.value, before) + fires(before, after) == fires(c.begun.value, after);
    }
  }

  lemma StepKeepsAt(w: Wiring, answers: Answers, states: seq<State>, inputs: seq<Input>, clock: seq<Ticks>,
      fires: Clockwork, epoch: int, n: nat, s: State, input: Input, t: State)
    requires IsClockRun(w, answers, states, inputs, clock, fires, epoch) && n < |inputs| && Composes(fires)
    requires s == states[n] && input == inputs[n] && t == states[n + 1]
    requires Kept(s, clock[n], fires, epoch + s.now)
    ensures Kept(t, clock[n + 1], fires, epoch + t.now)
  {
    StepAt(w, answers, states, inputs, clock, fires, epoch, n, s, input, t);
    StepKeeps(w, answers, s, input, t, clock[n], clock[n + 1], fires, epoch + s.now, epoch + t.now);
  }

  lemma {:induction false} RunsKeep(w: Wiring, answers: Answers, states: seq<State>, inputs: seq<Input>,
      clock: seq<Ticks>, fires: Clockwork, epoch: int, n: nat)
    requires IsClockRun(w, answers, states, inputs, clock, fires, epoch) && n < |states| && Composes(fires)
    ensures Kept(states[n], clock[n], fires, epoch + states[n].now)
  {
    if n > 0 {
      RunsKeep(w, answers, states, inputs, clock, fires, epoch, n - 1);
      var s, input, t := states[n - 1], inputs[n - 1], states[n];
      StepKeepsAt(w, answers, states, inputs, clock, fires, epoch, n - 1, s, input, t);
    }
  }

  /** On every run, whatever the host and the other adapters do: what the rules have heard of
      the time, and after it what is still queued, is every occurrence since the clock's first
      tick, once, by time and then schedule. The depth limit drops none of it. */
  lemma EveryOccurrenceHeard(w: Wiring, answers: Answers, states: seq<State>, inputs: seq<Input>, clock: seq<Ticks>,
      schedules: seq<Clock.Schedule>, epoch: int, n: nat)
    requires Clock.WellFormed(schedules) && n < |states|
    requires IsClockRun(w, answers, states, inputs, clock, CronOf(schedules), epoch)
    ensures Announcements(states[n]) == Expected(CronOf(schedules), clock[n].begun, epoch + states[n].now)
  {
    CronComposes(schedules);
    RunsKeep(w, answers, states, inputs, clock, CronOf(schedules), epoch, n);
  }

  // --- on time ---------------------------------------------------------------------------------

  /** Once the clock has ticked the host never sleeps longer than the engine asks. */
  ghost predicate Obedient(states: seq<State>, inputs: seq<Input>, clock: seq<Ticks>, schedules: seq<Clock.Schedule>,
      epoch: int)
    requires |clock| == |states| == |inputs| + 1
  {
    forall i :: 0 <= i < |inputs| && inputs[i].Advance? && clock[i].begun.Some? ==>
      Obeys(states[i], inputs[i].dt, schedules, epoch)
  }

  ghost predicate OfInstant(event: Event, schedules: seq<Clock.Schedule>, wall: Clock.Instant) {
    event.TimeReached? ==> Clock.OccursAt(schedules, (wall, event.schedule))
  }

  /** Every occurrence in the queue is one of this very instant. */
  ghost predicate OnTime(s: State, schedules: seq<Clock.Schedule>, wall: Clock.Instant) {
    forall q <- s.queue :: OfInstant(q.event, schedules, wall)
  }

  ghost predicate TickOnTime(input: Input, c: Ticks, fires: Clockwork, schedules: seq<Clock.Schedule>,
      wall: Clock.Instant)
  {
    input.Advance? ==> forall e <- fires(Clock.Resume(c.reached, wall), wall) :: OfInstant(e, schedules, wall)
  }

  /** The second instant comes no later than the clock asked for at the first. */
  ghost predicate Near(schedules: seq<Clock.Schedule>, from: Clock.Instant, wall: Clock.Instant) {
    exists nexts, delay :: Clock.ArmedAt(schedules, nexts, from) && Clock.IsClockWake(nexts, from, delay)
      && from <= wall <= from + delay
  }

  /** After such a sleep the clock announces only what occurs at the second instant. */
  ghost predicate Punctual(fires: Clockwork, schedules: seq<Clock.Schedule>) {
    forall from, wall, e | e in fires(from, wall) && (from == wall || Near(schedules, from, wall)) ::
      OfInstant(e, schedules, wall)
  }

  lemma FiredNear(schedules: seq<Clock.Schedule>, from: Clock.Instant, wall: Clock.Instant, nexts: seq<Option<int>>,
      delay: nat)
    requires Clock.WellFormed(schedules)
    requires from == wall || (Clock.ArmedAt(schedules, nexts, from) && Clock.IsClockWake(nexts, from, delay)
                              && from <= wall <= from + delay)
    ensures forall d <- Clock.Fired(schedules, from, wall) :: d.0 == wall
  {
    if from == wall {
      Clock.FiredNothing(schedules, from, wall);
    } else {
      Clock.ClockWakeIsExact(schedules, (u: int) => 0, nexts, from, delay, wall - from);
    }
  }

  lemma FiredOfInstant(schedules: seq<Clock.Schedule>, from: Clock.Instant, wall: Clock.Instant, e: Event)
    requires Clock.WellFormed(schedules) && (forall d <- Clock.Fired(schedules, from, wall) :: d.0 == wall)
    requires e in Clock.Announced(Clock.Fired(schedules, from, wall))
    ensures OfInstant(e, schedules, wall)
  {
    var fired := Clock.Fired(schedules, from, wall);
    var i :| 0 <= i < |fired| && Clock.Announced(fired)[i] == e;
    assert fired[i] in fired && fired[i] in Clock.FiringSet(schedules, from, wall);
  }

  lemma CronNear(schedules: seq<Clock.Schedule>, from: Clock.Instant, wall: Clock.Instant, e: Event)
    requires Clock.WellFormed(schedules) && (from == wall || Near(schedules, from, wall))
    requires e in Clock.Announced(Clock.Fired(schedules, from, wall))
    ensures OfInstant(e, schedules, wall)
  {
    var nexts, delay :| from == wall || (Clock.ArmedAt(schedules, nexts, from)
      && Clock.IsClockWake(nexts, from, delay) && from <= wall <= from + delay);
    FiredNear(schedules, from, wall, nexts, delay);
    FiredOfInstant(schedules, from, wall, e);
  }

  lemma CronPunctual(schedules: seq<Clock.Schedule>)
    requires Clock.WellFormed(schedules)
    ensures Punctual(CronOf(schedules), schedules)
  {
    forall from, wall, e | (from == wall || Near(schedules, from, wall)) && e in CronOf(schedules)(from, wall)
      ensures OfInstant(e, schedules, wall)
    {
      CronNear(schedules, from, wall, e);
    }
  }

  lemma AskedIsNear(s: State, schedules: seq<Clock.Schedule>, epoch: int, delay: Millis, from: Clock.Instant,
      wall: Clock.Instant)
    requires EngineDelay(s, schedules, epoch, delay) && from == epoch + s.now && from <= wall <= from + delay
    ensures Near(schedules, from, wall)
  {
    var own, nexts, tick, others :| Asked(s, schedules, epoch, own, nexts, tick, others, delay);
    LeastIsWithin(s, schedules, epoch, own, nexts, tick, others, delay);
  }

  lemma ObeysIsNear(s: State, dt: Millis, schedules: seq<Clock.Schedule>, epoch: int, from: Clock.Instant,
      wall: Clock.Instant)
    requires Obeys(s, dt, schedules, epoch) && from == epoch + s.now && wall == from + dt
    ensures Near(schedules, from, wall)
  {
    var delay :| EngineDelay(s, schedules, epoch, delay) && dt <= delay;
    AskedIsNear(s, schedules, epoch, delay, from, wall);
  }

  lemma StepOnTime(w: Wiring, answers: Answers, s: State, input: Input, t: State, c: Ticks, d: Ticks, fires: Clockwork,
      schedules: seq<Clock.Schedule>, before: Clock.Instant, after: Clock.Instant)
    requires AnswersOnly(answers, 0, UNTIMED) && Timely(s) && StepsTo(w, answers, s, input, t)
    requires ClockMoves(input, c, d, fires, after) && TickOnTime(input, c, fires, schedules, after)
    requires OnTime(s, schedules, before) && (!input.Advance? ==> before == after)
    ensures OnTime(t, schedules, after)
  {
    StepAnnounces(w, answers, s, input, t);
  }

  lemma TickIsOnTime(s: State, input: Input, t: State, c: Ticks, fires: Clockwork, schedules: seq<Clock.Schedule>,
      epoch: int)
    requires Punctual(fires, schedules) && Ticking(c, epoch + s.now)
    requires t.now == s.now + if input.Advance? then input.dt else 0
    requires input.Advance? && c.begun.Some? ==> Obeys(s, input.dt, schedules, epoch)
    ensures TickOnTime(input, c, fires, schedules, epoch + t.now)
  {
    if input.Advance? && c.begun.Some? {
      ObeysIsNear(s, input.dt, schedules, epoch, epoch + s.now, epoch + t.now);
    }
  }

  lemma StepOnTimeAt(w: Wiring, answers: Answers, states: seq<State>, inputs: seq<Input>, clock: seq<Ticks>,
      fires: Clockwork, schedules: seq<Clock.Schedule>, epoch: int, n: nat, s: State, input: Input, t: State)
    requires IsClockRun(w, answers, states, inputs, clock, fires, epoch) && n < |inputs|
    requires s == states[n] && input == inputs[n] && t == states[n + 1]
    requires Composes(fires) && Punctual(fires, schedules)
    requires Obedient(states, inputs, clock, schedules, epoch) && OnTime(s, schedules, epoch + s.now)
    ensures OnTime(t, schedules, epoch + t.now)
  {
    StepAt(w, answers, states, inputs, clock, fires, epoch, n, s, input, t);
    RunsKeep(w, answers, states, inputs, clock, fires, epoch, n);
    TickIsOnTime(s, input, t, clock[n], fires, schedules, epoch);
    StepOnTime(w, answers, s, input, t, clock[n], clock[n + 1], fires, schedules, epoch + s.now, epoch + t.now);
  }

  lemma {:induction false} AllOnTime(w: Wiring, answers: Answers, states: seq<State>, inputs: seq<Input>,
      clock: seq<Ticks>, fires: Clockwork, schedules: seq<Clock.Schedule>, epoch: int, n: nat)
    requires IsClockRun(w, answers, states, inputs, clock, fires, epoch) && n < |states|
    requires Composes(fires) && Punctual(fires, schedules) && Obedient(states, inputs, clock, schedules, epoch)
    ensures OnTime(states[n], schedules, epoch + states[n].now)
  {
    if n > 0 {
      AllOnTime(w, answers, states, inputs, clock, fires, schedules, epoch, n - 1);
      var s, input, t := states[n - 1], inputs[n - 1], states[n];
      StepOnTimeAt(w, answers, states, inputs, clock, fires, schedules, epoch, n - 1, s, input, t);
    }
  }

  /** On an obedient host every state of every run has only occurrences of that very instant
      in its queue, so each is processed at the time it is due. */
  lemma OccurrencesHeardOnTime(w: Wiring, answers: Answers, states: seq<State>, inputs: seq<Input>, clock: seq<Ticks>,
      schedules: seq<Clock.Schedule>, epoch: int, n: nat)
    requires Clock.WellFormed(schedules) && n < |states|
    requires IsClockRun(w, answers, states, inputs, clock, CronOf(schedules), epoch)
    requires Obedient(states, inputs, clock, schedules, epoch)
    ensures OnTime(states[n], schedules, epoch + states[n].now)
  {
    CronComposes(schedules);
    CronPunctual(schedules);
    AllOnTime(w, answers, states, inputs, clock, CronOf(schedules), schedules, epoch, n);
  }
}
