/** Time as an adapter (`src/adapters/scheduler.rs`): pending timers with absolute fire
    times, held in a hash map whose iteration order nobody may observe. */
module Scheduler {
  import opened Model
  import opened Ordering

  type Timers = map<TimerKey, Millis>
  type Deadline = (Millis, TimerKey)

  /** The firing order: by time, then by key. */
  predicate DueLess(a: Deadline, b: Deadline) {
    a.0 < b.0 || (a.0 == b.0 && NameLess(a.1, b.1))
  }

  lemma DueLessIsOrder()
    ensures StrictOrder(DueLess)
  {
    forall a: Deadline ensures !DueLess(a, a) {
      NameLessTotal(a.1, a.1);
    }
    forall a: Deadline, b: Deadline, c: Deadline | DueLess(a, b) && DueLess(b, c) ensures DueLess(a, c) {
      if a.0 == b.0 == c.0 { NameLessTransitive(a.1, b.1, c.1); }
    }
    forall a: Deadline, b: Deadline ensures a == b || DueLess(a, b) || DueLess(b, a) {
      NameLessTotal(a.1, b.1);
    }
  }

  predicate IsDue(timers: Timers, now: Millis, d: Deadline) {
    d.1 in timers && timers[d.1] == d.0 && d.0 <= now
  }

  /** `d` fires before every other due timer. */
  predicate IsNext(timers: Timers, now: Millis, d: Deadline) {
    IsDue(timers, now, d) &&
    forall key <- timers.Keys | timers[key] <= now && key != d.1 :: DueLess(d, (timers[key], key))
  }

  /** The timers due at `now`, in firing order. */
  ghost function Due(timers: Timers, now: Millis): seq<Deadline>
    decreases timers.Keys
  {
    if d: Deadline :| IsNext(timers, now, d) then [d] + Due(timers - {d.1}, now) else []
  }

  lemma NextExists(timers: Timers, now: Millis, d: Deadline) returns (first: Deadline)
    requires IsDue(timers, now, d)
    ensures IsNext(timers, now, first)
  {
    DueLessIsOrder();
    var due := Sorted(DueLess, set key | key in timers && timers[key] <= now :: (timers[key], key));
    assert d in due;
    first := due[0];
    assert first in due;
    forall key <- timers.Keys | timers[key] <= now && key != first.1 ensures DueLess(first, (timers[key], key)) {
      FirstIsLeast(DueLess, due, (timers[key], key));
    }
  }

  lemma {:induction false} DueContents(timers: Timers, now: Millis)
    ensures Ascending(DueLess, Due(timers, now))
    ensures forall d :: d in Due(timers, now) <==> IsDue(timers, now, d)
    decreases timers.Keys
  {
    if first: Deadline :| IsNext(timers, now, first) {
      var d := Due(timers, now)[0];
      assert IsNext(timers, now, d);
      var rest := timers - {d.1};
      DueContents(rest, now);
      assert Due(timers, now) == [d] + Due(rest, now);
      forall e <- Due(rest, now) ensures DueLess(d, e) {
        assert IsDue(rest, now, e);
      }
      forall e: Deadline ensures e in Due(timers, now) <==> IsDue(timers, now, e) {
        assert e in Due(timers, now) <==> e == d || IsDue(rest, now, e);
      }
      AscendingAppend(DueLess, [d], Due(rest, now));
    } else {
      forall d: Deadline ensures !IsDue(timers, now, d) {
        if IsDue(timers, now, d) {
          var first := NextExists(timers, now, d);
        }
      }
    }
  }

  /** By time first, and at one instant by the text of the key. */
  lemma FiresInOrder(timers: Timers, now: Millis, i: nat, j: nat)
    requires i < j < |Due(timers, now)|
    ensures var due := Due(timers, now);
      due[i].0 < due[j].0 || (due[i].0 == due[j].0 && Precedes(due[i].1, due[j].1))
  {
    DueContents(timers, now);
    NameLessPrecedes(Due(timers, now)[i].1, Due(timers, now)[j].1);
  }

  function Remaining(timers: Timers, now: Millis): Timers {
    map key | key in timers && timers[key] > now :: timers[key]
  }

  function Forget(timers: Timers, due: seq<Deadline>): Timers {
    if due == [] then timers else Forget(timers - {due[0].1}, due[1..])
  }

  lemma {:induction false} ForgetMembers(timers: Timers, due: seq<Deadline>)
    ensures forall key :: key in Forget(timers, due) <==> key in timers && forall d <- due :: d.1 != key
    ensures forall key <- Forget(timers, due) :: Forget(timers, due)[key] == timers[key]
    decreases |due|
  {
    if due != [] {
      ForgetMembers(timers - {due[0].1}, due[1..]);
      assert due == [due[0]] + due[1..];
    }
  }

  /** Removing the due keys one at a time leaves exactly the deadlines still ahead. */
  lemma ForgetDue(timers: Timers, now: Millis)
    ensures Forget(timers, Due(timers, now)) == Remaining(timers, now)
  {
    var due := Due(timers, now);
    DueContents(timers, now);
    ForgetMembers(timers, due);
    forall key <- timers.Keys ensures key in Forget(timers, due) <==> timers[key] > now {
      assert (timers[key], key) in due <==> IsDue(timers, now, (timers[key], key));
    }
  }

  function Keys(due: seq<Deadline>): (keys: seq<TimerKey>)
    ensures |keys| == |due| && forall i :: 0 <= i < |due| ==> keys[i] == due[i].1
  {
    seq(|due|, i requires 0 <= i < |due| => due[i].1)
  }

  function Elapsed(due: seq<Deadline>): (events: seq<Event>)
    ensures |events| == |due| && forall i :: 0 <= i < |due| ==> events[i] == TimerElapsed(due[i].1)
  {
    seq(|due|, i requires 0 <= i < |due| => TimerElapsed(due[i].1))
  }

  /** Ticking twice with nothing scheduled in between fires what one late tick fires, in
      the same order, and leaves the same table. */
  lemma TickSpacingIrrelevant(timers: Timers, t1: Millis, t2: Millis)
    requires t1 <= t2
    ensures Due(timers, t1) + Due(Remaining(timers, t1), t2) == Due(timers, t2)
    ensures Remaining(Remaining(timers, t1), t2) == Remaining(timers, t2)
  {
    var first := Due(timers, t1);
    var second := Due(Remaining(timers, t1), t2);
    DueContents(timers, t1);
    DueContents(Remaining(timers, t1), t2);
    DueContents(timers, t2);
    AscendingAppend(DueLess, first, second);
    DueLessIsOrder();
    AscendingUnique(DueLess, first + second, Due(timers, t2));
  }

  /** The soonest pending deadline, if any, and nothing else. */
  ghost predicate IsSoonest(timers: Timers, soonest: Option<Millis>) {
    match soonest
    case None => timers == map[]
    case Some(t) => (exists key <- timers.Keys :: timers[key] == t) && forall key <- timers.Keys :: t <= timers[key]
  }

  lemma SoonestGrows(seen: Timers, soonest: Option<Millis>, key: TimerKey, t: Millis)
    requires IsSoonest(seen, soonest) && key !in seen
    ensures IsSoonest(seen[key := t], if soonest.None? || t < soonest.value then Some(t) else soonest)
  {
    var grown := seen[key := t];
    assert grown[key] == t;
    if soonest.Some? && soonest.value <= t {
      var k :| k in seen && seen[k] == soonest.value;
      assert k in grown.Keys && grown[k] == soonest.value;
    }
  }

  /** The delay a host may sleep: how far the soonest deadline lies ahead, floored at 0. */
  ghost predicate IsWake(timers: Timers, now: Millis, delay: Option<Millis>) {
    match delay
    case None => timers == map[]
    case Some(d) =>
      exists t: Millis :: IsSoonest(timers, Some(t)) && d == if t <= now then 0 else t - now
  }

  /** Sleeping at most the reported delay never overshoots a deadline that is still ahead,
      and sleeping strictly less fires nothing. */
  lemma WakeIsExact(timers: Timers, now: Millis, delay: Option<Millis>, dt: Millis)
    requires IsWake(timers, now, delay) && (delay.Some? ==> dt <= delay.value)
    requires forall key <- timers.Keys :: now <= timers[key]
    ensures forall d <- Due(timers, now + dt) :: d.0 == now + dt
    ensures forall key <- timers.Keys :: now + dt <= timers[key]
    ensures delay.None? || dt < delay.value ==> Due(timers, now + dt) == []
  {
    DueContents(timers, now + dt);
    HasMember(Due(timers, now + dt));
  }

  class SchedulerAdapter {
    var pending: Timers

    constructor ()
      ensures pending == map[]
    {
      pending := map[];
    }

    method Dispatch(cmd: Command, now: Millis) returns (outcome: DispatchOutcome)
      modifies this
      ensures outcome == Ok([])
      ensures pending == (match cmd
                          case ScheduleTimer(key, after) => old(pending)[key := now + after]
                          case CancelTimer(key) => old(pending) - {key}
                          case _ => old(pending))
    {
      match cmd {
        case ScheduleTimer(key, after) => pending := pending[key := now + after];
        case CancelTimer(key) => pending := pending - {key};
        case _ =>
      }
      outcome := Ok([]);
    }

    /** Walks the map in an arbitrary order, keeping what is due. */
    method CollectDue(now: Millis) returns (due: seq<Deadline>)
      ensures NoDuplicates(due)
      ensures forall d :: d in due <==> d.1 in pending && pending[d.1] == d.0 && d.0 <= now
    {
      due := [];
      var unvisited := pending.Keys;
      while unvisited != {}
        invariant unvisited <= pending.Keys && NoDuplicates(due)
        invariant forall d :: d in due <==>
          d.1 in pending && d.1 !in unvisited && pending[d.1] == d.0 && d.0 <= now
        decreases unvisited
      {
        var key :| key in unvisited;
        unvisited := unvisited - {key};
        if pending[key] <= now {
          assert (pending[key], key) !in due;
          due := due + [(pending[key], key)];
        }
      }
    }

    /** Fires every due timer once, in (time, key) order whatever order the map is walked
        in, and keeps the rest. */
    method Tick(now: Millis) returns (events: seq<Event>)
      modifies this
      ensures events == Elapsed(Due(old(pending), now))
      ensures pending == Remaining(old(pending), now)
    {
      var due := CollectDue(now);
      DueLessIsOrder();
      due := Sort(DueLess, due);
      DueContents(pending, now);
      AscendingUnique(DueLess, due, Due(pending, now));
      ForgetDue(pending, now);
      for i := 0 to |due|
        invariant Forget(pending, due[i..]) == Remaining(old(pending), now)
      {
        assert due[i..][1..] == due[i + 1..];
        pending := pending - {due[i].1};
      }
      events := Elapsed(due);
    }

    ghost function Visited(unvisited: set<TimerKey>): Timers
      reads this
    {
      map key | key in pending && key !in unvisited :: pending[key]
    }

    method NextWake(now: Millis) returns (delay: Option<Millis>)
      ensures IsWake(pending, now, delay)
    {
      var soonest: Option<Millis> := None;
      var unvisited := pending.Keys;
      while unvisited != {}
        invariant unvisited <= pending.Keys
        invariant IsSoonest(Visited(unvisited), soonest)
        decreases unvisited
      {
        var key :| key in unvisited;
        ghost var seen := Visited(unvisited);
        unvisited := unvisited - {key};
        SoonestGrows(seen, soonest, key, pending[key]);
        assert Visited(unvisited) == seen[key := pending[key]];
        if soonest.None? || pending[key] < soonest.value {
          soonest := Some(pending[key]);
        }
      }
      assert Visited({}) == pending;
      delay := if soonest.None? then None
               else Some(if soonest.value <= now then 0 else soonest.value - now);
    }
  }
}
