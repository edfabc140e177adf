/** The sleeping host (`next_wake_delay` in `src/engine.rs`): bounded by the least delay any
    adapter asks for, it reaches every timer and every cron occurrence exactly on time, over
    whole runs. */
module Waking {
  import opened Model
  import opened Scheduler
  import opened EngineSpec
  import opened RetryRuns
  import Clock
  import Engine

  /** The delay the engine reports in this state: the least of what the scheduler, the clock
      (armed by its tick at this instant) and any other adapters ask for. */
  ghost predicate EngineDelay(s: State, schedules: seq<Clock.Schedule>, epoch: int, delay: Millis) {
    exists own, nexts, tick, others :: Asked(s, schedules, epoch, own, nexts, tick, others, delay)
  }

  ghost predicate Asked(s: State, schedules: seq<Clock.Schedule>, epoch: int, own: Option<Millis>,
      nexts: seq<Option<int>>, tick: nat, others: seq<Option<Millis>>, delay: Millis)
  {
    && IsWake(s.timers, s.now, own)
    && Clock.ArmedAt(schedules, nexts, epoch + s.now) && Clock.IsClockWake(nexts, epoch + s.now, tick)
    && Engine.IsLeastWake([own, Some(tick)] + others, Some(delay))
  }

  /** The host never sleeps longer than the engine asks. */
  ghost predicate ObedientHost(states: seq<State>, inputs: seq<Input>, schedules: seq<Clock.Schedule>, epoch: int)
    requires |states| == |inputs| + 1
  {
    forall i :: 0 <= i < |inputs| && inputs[i].Advance? ==> Obeys(states[i], inputs[i].dt, schedules, epoch)
  }

  ghost predicate Obeys(s: State, dt: Millis, schedules: seq<Clock.Schedule>, epoch: int) {
    exists delay :: EngineDelay(s, schedules, epoch, delay) && dt <= delay
  }

  lemma LeastIsWithin(s: State, schedules: seq<Clock.Schedule>, epoch: int, own: Option<Millis>,
      nexts: seq<Option<int>>, tick: nat, others: seq<Option<Millis>>, delay: Millis)
    requires Asked(s, schedules, epoch, own, nexts, tick, others, delay)
    ensures delay <= tick && (own.Some? ==> delay <= own.value)
  {
    var all := [own, Some(tick)] + others;
    assert all[0] in all && all[1] in all;
  }

  lemma ObedientIsPunctual(states: seq<State>, inputs: seq<Input>, schedules: seq<Clock.Schedule>, epoch: int)
    requires |states| == |inputs| + 1 && ObedientHost(states, inputs, schedules, epoch)
    ensures PunctualHost(states, inputs)
  {
    forall i | 0 <= i < |inputs| && inputs[i].Advance? ensures SleepsWithin(states[i], inputs[i].dt) {
      assert Obeys(states[i], inputs[i].dt, schedules, epoch);
      var delay :| EngineDelay(states[i], schedules, epoch, delay) && inputs[i].dt <= delay;
      var own, nexts, tick, others :| Asked(states[i], schedules, epoch, own, nexts, tick, others, delay);
      LeastIsWithin(states[i], schedules, epoch, own, nexts, tick, others, delay);
    }
  }

  /** Between two instants the clock fires only at the second one and skips no minute; after
      too short a sleep it has nothing to say. */
  ghost predicate ClockOnTime(schedules: seq<Clock.Schedule>, zone: int -> int, before: int, after: int, early: bool)
    requires Clock.WellFormed(schedules)
  {
    && (forall d <- Clock.Fired(schedules, before, after) :: d.0 == after)
    && after <= before + Clock.ToNextMinute(before)
    && (early ==>
          Clock.Fired(schedules, before, after) == []
          && Clock.LocalMinute(zone, after) == Clock.LocalMinute(zone, before))
  }

  lemma ClockWithin(schedules: seq<Clock.Schedule>, zone: int -> int, nexts: seq<Option<int>>, before: int, after: int,
      tick: nat, early: bool)
    requires Clock.WellFormed(schedules) && Clock.ArmedAt(schedules, nexts, before)
    requires Clock.IsClockWake(nexts, before, tick) && before <= after <= before + tick
    requires early ==> after < before + tick
    ensures ClockOnTime(schedules, zone, before, after, early)
  {
    Clock.ClockWakeIsExact(schedules, zone, nexts, before, tick, after - before);
  }

  /** The scheduler likewise. */
  ghost predicate TimersOnTime(timers: Timers, after: Millis, early: bool) {
    (forall d <- Due(timers, after) :: d.0 == after) && (early ==> Due(timers, after) == [])
  }

  lemma TimersWithin(w: Wiring, answers: Answers, states: seq<State>, inputs: seq<Input>, n: nat, own: Option<Millis>,
      after: Millis, early: bool)
    requires IsRun(w, answers, states, inputs) && PunctualHost(states, inputs) && n < |inputs| && inputs[n].Advance?
    requires IsWake(states[n].timers, states[n].now, own) && after == states[n + 1].now
    requires early && own.Some? ==> inputs[n].dt < own.value
    ensures TimersOnTime(states[n].timers, after, early)
  {
    TimersElapseOnTime(w, answers, states, inputs, n, own);
  }

  lemma TimersObey(w: Wiring, answers: Answers, states: seq<State>, inputs: seq<Input>, n: nat,
      schedules: seq<Clock.Schedule>, epoch: int, delay: Millis, after: Millis, early: bool)
    requires IsRun(w, answers, states, inputs) && PunctualHost(states, inputs) && n < |inputs| && inputs[n].Advance?
    requires EngineDelay(states[n], schedules, epoch, delay) && after == states[n + 1].now
    requires early ==> inputs[n].dt < delay
    ensures TimersOnTime(states[n].timers, after, early)
  {
    var own, nexts, tick, others :| Asked(states[n], schedules, epoch, own, nexts, tick, others, delay);
    LeastIsWithin(states[n], schedules, epoch, own, nexts, tick, others, delay);
    TimersWithin(w, answers, states, inputs, n, own, after, early);
  }

  lemma ClockObeys(s: State, schedules: seq<Clock.Schedule>, zone: int -> int, epoch: int, delay: Millis, before: int,
      after: int, early: bool)
    requires Clock.WellFormed(schedules) && EngineDelay(s, schedules, epoch, delay)
    requires before == epoch + s.now && before <= after <= before + delay && (early ==> after < before + delay)
    ensures ClockOnTime(schedules, zone, before, after, early)
  {
    var own, nexts, tick, others :| Asked(s, schedules, epoch, own, nexts, tick, others, delay);
    LeastIsWithin(s, schedules, epoch, own, nexts, tick, others, delay);
    ClockWithin(schedules, zone, nexts, before, after, tick, early);
  }

  /** Wake exactness over runs: with a host that sleeps at most as long as the engine asks,
      each advance elapses timers only at the very instant it reaches, and an advance shorter
      than asked for elapses none... */
  lemma EveryTimerOnTime(w: Wiring, answers: Answers, states: seq<State>, inputs: seq<Input>, n: nat,
      schedules: seq<Clock.Schedule>, epoch: int, delay: Millis)
    requires IsRun(w, answers, states, inputs) && ObedientHost(states, inputs, schedules, epoch)
    requires n < |inputs| && inputs[n].Advance? && EngineDelay(states[n], schedules, epoch, delay)
    ensures TimersOnTime(states[n].timers, states[n + 1].now, inputs[n].dt < delay)
  {
    ObedientIsPunctual(states, inputs, schedules, epoch);
    TimersObey(w, answers, states, inputs, n, schedules, epoch, delay, states[n + 1].now, inputs[n].dt < delay);
  }

  /** ...and the clock, on the same host, fires every occurrence at its instant, skips no
      minute, and has nothing to say after a shorter advance. */
  lemma EveryOccurrenceOnTime(w: Wiring, answers: Answers, states: seq<State>, inputs: seq<Input>, n: nat,
      schedules: seq<Clock.Schedule>, zone: int -> int, epoch: int, delay: Millis, before: int, after: int)
    requires IsRun(w, answers, states, inputs) && Clock.WellFormed(schedules)
    requires n < |inputs| && inputs[n].Advance? && EngineDelay(states[n], schedules, epoch, delay)
    requires inputs[n].dt <= delay && before == epoch + states[n].now && after == epoch + states[n + 1].now
    ensures ClockOnTime(schedules, zone, before, after, after < before + delay)
  {
    AdvanceMoves(w, answers, states, inputs, n);
    ClockObeys(states[n], schedules, zone, epoch, delay, before, after, after < before + delay);
  }
}
