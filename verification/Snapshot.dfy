/** One stream connection against a running engine (`serve_stream` in
    `src/adapters/rest_api/http.rs`, `fan_state_folded` in `src/engine.rs`): subscribe, read
    a snapshot of the mirror key by key, then overlay the delivered frames. Each
    lock-protected section is one atomic step; the engine broadcasts a report before the
    mirror shows it, so the two are separate steps. */
module Snapshot {
  import opened Model
  import opened StateStore
  import opened Stream

  type Cell = (DeviceId, CapabilityKind)

  function CellOf(device: DeviceId, state: CapabilityState): Cell {
    (device, state.Kind())
  }

  datatype Report = Report(device: DeviceId, state: CapabilityState) {
    function Cell(): Cell { CellOf(device, state) }
  }

  /** The connection, the mirror, and the report that is broadcast but not yet written.
      `sent` is every frame since the subscription, kept for the record. */
  datatype System = System(
    mirror: Store,
    unwritten: Option<Report>,
    subscribed: bool,
    box: Mailbox,
    snapshot: map<Cell, Option<CapabilityState>>,
    delivered: seq<Frame>,
    sawLagged: bool,
    sent: seq<Frame>)

  datatype Step =
    | Announce(report: Report)
    | Write
    | Chatter(frame: Frame)
    | Subscribe
    | Read(cell: Cell)
    | Drain

  /** The engine is one thread: a report is written before the next one is announced, and
      other frames concern no capability. The connection subscribes first, reads each
      declared cell once, and drains only after the whole snapshot went out. */
  predicate Enabled(declared: set<Cell>, s: System, step: Step) {
    match step
    case Announce(_) => s.unwritten == None
    case Write => s.unwritten.Some?
    case Chatter(frame) => !frame.StateFrame? && s.unwritten == None
    case Subscribe => !s.subscribed
    case Read(cell) => s.subscribed && cell in declared && cell !in s.snapshot
    case Drain => s.subscribed && s.snapshot.Keys == declared
  }

  function Posted(s: System, frame: Frame): System {
    if s.subscribed then s.(box := s.box.Push(frame), sent := s.sent + [frame]) else s
  }

  function Next(s: System, step: Step): System
    requires step.Write? ==> s.unwritten.Some?
  {
    match step
    case Announce(report) => Posted(s, StateFrame(report.device, report.state)).(unwritten := Some(report))
    case Write => s.(mirror := Put(s.mirror, s.unwritten.value.device, s.unwritten.value.state), unwritten := None)
    case Chatter(frame) => Posted(s, frame)
    case Subscribe => s.(subscribed := true)
    case Read(cell) => s.(snapshot := s.snapshot[cell := Get(s.mirror, cell.0, cell.1)])
    case Drain => s.(delivered := s.delivered + s.box.queue, sawLagged := s.sawLagged || s.box.lagged, box := EMPTY)
  }

  ghost predicate IsRun(declared: set<Cell>, states: seq<System>, steps: seq<Step>) {
    && |states| == |steps| + 1
    && states[0] == System(states[0].mirror, None, false, EMPTY, map[], [], false, [])
    && forall i :: 0 <= i < |steps| ==> Follows(declared, states[i], steps[i], states[i + 1])
  }

  predicate Follows(declared: set<Cell>, s: System, step: Step, t: System) {
    Enabled(declared, s, step) && t == Next(s, step)
  }

  // --- what the client sees -----------------------------------------------------------------

  /** The newest frame for a cell in a list of frames. */
  function Newest(frames: seq<Frame>, cell: Cell): Option<CapabilityState> {
    if frames == [] then None
    else
      var last := frames[|frames| - 1];
      if last.StateFrame? && CellOf(last.device, last.state) == cell then Some(last.state)
      else Newest(frames[..|frames| - 1], cell)
  }

  lemma {:induction false} NewestAppend(a: seq<Frame>, b: seq<Frame>, cell: Cell)
    ensures Newest(a + b, cell) == if Newest(b, cell).Some? then Newest(b, cell) else Newest(a, cell)
    decreases |b|
  {
    if b == [] {
      assert a + b == a;
    } else {
      assert (a + b)[..|a + b| - 1] == a + b[..|b| - 1];
      NewestAppend(a, b[..|b| - 1], cell);
    }
  }

  /** The client's view: the snapshot, overlaid with every delivered frame in order. */
  function View(s: System, cell: Cell): Option<CapabilityState>
    requires cell in s.snapshot
  {
    var latest := Newest(s.delivered, cell);
    if latest.Some? then latest else s.snapshot[cell]
  }

  /** The value the mirror has, or is about to have. */
  function Eventual(s: System, cell: Cell): Option<CapabilityState> {
    if s.unwritten.Some? && s.unwritten.value.Cell() == cell then Some(s.unwritten.value.state)
    else Get(s.mirror, cell.0, cell.1)
  }

  /** Everything arrived: nothing queued, nothing in flight, no frame dropped on the way. */
  predicate Settled(declared: set<Cell>, s: System) {
    s.snapshot.Keys == declared && s.box == EMPTY && !s.sawLagged && s.unwritten == None
  }

  // --- nothing is lost unless the flag says so ------------------------------------------------

  /** Delivered and queued frames together are all frames since subscribing, unless a
      `lagged` notice was given or is due. */
  predicate Whole(s: System) {
    s.sawLagged || s.box.lagged || s.delivered + s.box.queue == s.sent
  }

  lemma PostedWhole(s: System, frame: Frame)
    requires Whole(s)
    ensures Whole(Posted(s, frame))
  {
    assert s.delivered + (s.box.queue + [frame]) == (s.delivered + s.box.queue) + [frame];
  }

  lemma {:induction false} RunsAreWhole(declared: set<Cell>, states: seq<System>, steps: seq<Step>, n: nat)
    requires IsRun(declared, states, steps) && n < |states|
    ensures Whole(states[n])
  {
    if n > 0 {
      var s, step := states[n - 1], steps[n - 1];
      RunsAreWhole(declared, states, steps, n - 1);
      assert Follows(declared, s, step, states[n]);
      match step
      case Announce(report) => PostedWhole(s, StateFrame(report.device, report.state));
      case Chatter(frame) => PostedWhole(s, frame);
      case Drain => assert (s.delivered + s.box.queue) + [] == s.sent || s.sawLagged || s.box.lagged;
      case _ =>
    }
  }

  // --- the missed window -------------------------------------------------------------------------

  /** The read of this cell falls into the window: a report of the cell is broadcast but not
      written, and the broadcast came before the subscription. */
  predicate InWindow(s: System, cell: Cell) {
    s.unwritten.Some? && s.unwritten.value.Cell() == cell && Newest(s.sent, cell) == None
  }

  /** How a cell stands between subscription and settling: a frame carries its eventual
      value, or the snapshot does, or the read at step `r` fell into the window. */
  ghost predicate Standing(states: seq<System>, steps: seq<Step>, n: nat, cell: Cell)
    requires |states| == |steps| + 1 && n < |states|
  {
    var s := states[n];
    && (!s.subscribed ==> s.sent == [] && s.snapshot == map[])
    && (Newest(s.sent, cell).Some? ==> Newest(s.sent, cell) == Eventual(s, cell))
    && (Newest(s.sent, cell).None? && cell in s.snapshot ==>
          exists r :: 0 <= r < n && ReadAt(states, steps, r, s, cell))
  }

  /** Step `r` read the cell, when no frame for it had been sent and its eventual value was
      what it still is. */
  ghost predicate ReadAt(states: seq<System>, steps: seq<Step>, r: nat, s: System, cell: Cell)
    requires r < |steps| && |states| == |steps| + 1
  {
    && steps[r] == Read(cell) && cell in s.snapshot
    && s.snapshot[cell] == Get(states[r].mirror, cell.0, cell.1)
    && Eventual(s, cell) == Eventual(states[r], cell) && Newest(states[r].sent, cell) == None
  }

  predicate AnnouncesCell(step: Step, cell: Cell) {
    step.Announce? && step.report.Cell() == cell
  }

  /** Only announcing the cell moves its newest frame, or its eventual value. */
  lemma StepMoves(declared: set<Cell>, s: System, step: Step, t: System, cell: Cell)
    requires Follows(declared, s, step, t)
    ensures Newest(t.sent, cell) ==
      if AnnouncesCell(step, cell) && s.subscribed then Some(step.report.state) else Newest(s.sent, cell)
    ensures Eventual(t, cell) == if AnnouncesCell(step, cell) then Some(step.report.state) else Eventual(s, cell)
  {
    if t.sent != s.sent {
      var frame := t.sent[|s.sent|];
      assert t.sent == s.sent + [frame] && [frame][..0] == [];
      NewestAppend(s.sent, [frame], cell);
    }
  }

  lemma StandingStep(declared: set<Cell>, states: seq<System>, steps: seq<Step>, n: nat, cell: Cell)
    requires |states| == |steps| + 1 && n < |steps| && Follows(declared, states[n], steps[n], states[n + 1])
    requires Standing(states, steps, n, cell)
    ensures Standing(states, steps, n + 1, cell)
  {
    var s, t := states[n], states[n + 1];
    StepMoves(declared, s, steps[n], t, cell);
    if Newest(t.sent, cell).None? && cell in t.snapshot {
      ReadStands(declared, states, steps, n, s, t, cell);
    }
  }

  lemma ReadStands(declared: set<Cell>, states: seq<System>, steps: seq<Step>, n: nat, s: System, t: System, cell: Cell)
    requires |states| == |steps| + 1 && n < |steps| && s == states[n] && t == states[n + 1]
    requires Follows(declared, s, steps[n], t) && Standing(states, steps, n, cell)
    requires Newest(t.sent, cell).None? && Newest(s.sent, cell).None? && cell in t.snapshot
    requires Eventual(t, cell) == Eventual(s, cell) || !s.subscribed
    ensures exists r :: 0 <= r < n + 1 && ReadAt(states, steps, r, t, cell)
  {
    if steps[n] == Read(cell) {
      assert ReadAt(states, steps, n, t, cell);
    } else {
      assert t.snapshot == s.snapshot
        || (steps[n].Read? && t.snapshot == s.snapshot[steps[n].cell := t.snapshot[steps[n].cell]]);
      var r :| 0 <= r < n && ReadAt(states, steps, r, s, cell);
      assert ReadAt(states, steps, r, t, cell);
    }
  }

  lemma {:induction false} RunsStand(declared: set<Cell>, states: seq<System>, steps: seq<Step>, n: nat, cell: Cell)
    requires IsRun(declared, states, steps) && n < |states|
    ensures Standing(states, steps, n, cell)
  {
    if n > 0 {
      RunsStand(declared, states, steps, n - 1, cell);
      assert Follows(declared, states[n - 1], steps[n - 1], states[n]);
      StandingStep(declared, states, steps, n - 1, cell);
    }
  }

  // --- the exact condition -------------------------------------------------------------------------

  ghost predicate QuietSince(steps: seq<Step>, r: nat, n: nat, cell: Cell)
    requires n <= |steps|
  {
    forall m :: r <= m < n ==> !AnnouncesCell(steps[m], cell)
  }

  /** The snapshot read of the cell fell into the window, read something else than what was
      about to be written, and no later report of the cell repaired it. */
  ghost predicate Missed(states: seq<System>, steps: seq<Step>, n: nat, cell: Cell)
    requires |states| == |steps| + 1 && n < |states|
  {
    exists r :: 0 <= r < n && MissedAt(states, steps, n, cell, r)
  }

  ghost predicate MissedAt(states: seq<System>, steps: seq<Step>, n: nat, cell: Cell, r: nat)
    requires |states| == |steps| + 1 && r < n < |states|
  {
    && steps[r] == Read(cell) && InWindow(states[r], cell)
    && Get(states[r].mirror, cell.0, cell.1) != Some(states[r].unwritten.value.state)
    && QuietSince(steps, r, n, cell)
  }

  /** Frames of a cell sent after `r` are exactly announcements of it after `r`. */
  lemma {:induction false} QuietIffNoFrame(declared: set<Cell>, states: seq<System>, steps: seq<Step>, r: nat,
      n: nat, cell: Cell)
    requires IsRun(declared, states, steps) && r <= n < |states|
    requires states[r].subscribed && Newest(states[r].sent, cell) == None
    ensures states[n].subscribed
    ensures Newest(states[n].sent, cell) == None <==> QuietSince(steps, r, n, cell)
    decreases n
  {
    if r < n {
      QuietIffNoFrame(declared, states, steps, r, n - 1, cell);
      var s, t := states[n - 1], states[n];
      assert Follows(declared, s, steps[n - 1], t);
      StepMoves(declared, s, steps[n - 1], t, cell);
      assert QuietSince(steps, r, n, cell) <==> QuietSince(steps, r, n - 1, cell) && !AnnouncesCell(steps[n - 1], cell);
    }
  }

  /** A cell is read once. */
  lemma {:induction false} ReadOnce(declared: set<Cell>, states: seq<System>, steps: seq<Step>, r: nat, n: nat,
      cell: Cell)
    requires IsRun(declared, states, steps) && r < n < |states| && steps[r] == Read(cell)
    ensures cell in states[n].snapshot && (n < |steps| ==> steps[n] != Read(cell))
    decreases n
  {
    assert Follows(declared, states[n - 1], steps[n - 1], states[n]);
    if r < n - 1 {
      ReadOnce(declared, states, steps, r, n - 1, cell);
    }
    if n < |steps| {
      assert Follows(declared, states[n], steps[n], states[n + 1]);
    }
  }

  /** Subscribe, then snapshot, then deltas: when everything has arrived and no `lagged`
      notice was seen, the client's view of a declared cell is the mirror's, except exactly
      when the cell was missed. */
  lemma ClientAgreesIff(declared: set<Cell>, states: seq<System>, steps: seq<Step>, n: nat, cell: Cell)
    requires IsRun(declared, states, steps) && n < |states| && Settled(declared, states[n]) && cell in declared
    ensures View(states[n], cell) == Get(states[n].mirror, cell.0, cell.1) <==> !Missed(states, steps, n, cell)
  {
    var s := states[n];
    RunsAreWhole(declared, states, steps, n);
    RunsStand(declared, states, steps, n, cell);
    assert s.delivered == s.sent;
    if Newest(s.sent, cell).None? {
      var r :| 0 <= r < n && ReadAt(states, steps, r, s, cell);
      assert Follows(declared, states[r], steps[r], states[r + 1]);
      QuietIffNoFrame(declared, states, steps, r, n, cell);
      forall q | 0 <= q < n && MissedAt(states, steps, n, cell, q) ensures q == r {
        if q < r { ReadOnce(declared, states, steps, q, r, cell); }
        if r < q { ReadOnce(declared, states, steps, r, q, cell); }
      }
      assert MissedAt(states, steps, n, cell, r) <==> Get(states[r].mirror, cell.0, cell.1) != Eventual(s, cell);
    } else {
      forall r | 0 <= r < n ensures !MissedAt(states, steps, n, cell, r) {
        if MissedAt(states, steps, n, cell, r) {
          assert Follows(declared, states[r], steps[r], states[r + 1]);
          QuietIffNoFrame(declared, states, steps, r, n, cell);
        }
      }
    }
  }

  // --- the window as an interleaving ----------------------------------------------------------------

  /** Report announced at `b`, subscription at `q`, read at `r`, and still no write. */
  ghost predicate Straddles(steps: seq<Step>, b: nat, q: nat, r: nat, cell: Cell)
    requires r < |steps|
  {
    b < q < r && AnnouncesCell(steps[b], cell) && steps[q] == Subscribe && NoWrite(steps, b, r)
  }

  ghost predicate NoWrite(steps: seq<Step>, b: nat, r: nat)
    requires r <= |steps|
  {
    forall m :: b < m < r ==> !steps[m].Write?
  }

  /** An unwritten report was announced, and not written since. */
  lemma {:induction false} AnnouncedAt(declared: set<Cell>, states: seq<System>, steps: seq<Step>,
      n: nat) returns (b: nat)
    requires IsRun(declared, states, steps) && n < |states| && states[n].unwritten.Some?
    ensures b < n && steps[b] == Announce(states[n].unwritten.value) && NoWrite(steps, b, n)
  {
    var s, t := states[n - 1], states[n];
    assert Follows(declared, s, steps[n - 1], t);
    if steps[n - 1].Announce? {
      b := n - 1;
    } else {
      b := AnnouncedAt(declared, states, steps, n - 1);
    }
  }

  lemma {:induction false} SubscribedAt(declared: set<Cell>, states: seq<System>, steps: seq<Step>,
      n: nat) returns (q: nat)
    requires IsRun(declared, states, steps) && n < |states| && states[n].subscribed
    ensures q < n && steps[q] == Subscribe && !states[q].subscribed && states[q + 1].subscribed
  {
    assert Follows(declared, states[n - 1], steps[n - 1], states[n]);
    if states[n - 1].subscribed {
      q := SubscribedAt(declared, states, steps, n - 1);
    } else {
      q := n - 1;
    }
  }

  /** While a report is unwritten the engine sends nothing else. */
  lemma {:induction false} SilentWhileUnwritten(declared: set<Cell>, states: seq<System>, steps: seq<Step>, b: nat,
      m: nat)
    requires IsRun(declared, states, steps) && b < m < |states| && steps[b].Announce? && NoWrite(steps, b, m)
    ensures states[m].unwritten == Some(steps[b].report) && states[m].sent == states[b + 1].sent
    decreases m
  {
    assert Follows(declared, states[m - 1], steps[m - 1], states[m]);
    if b + 1 < m {
      SilentWhileUnwritten(declared, states, steps, b, m - 1);
    }
  }

  /** A snapshot read falls into the window exactly when the subscription and the read both
      lie between one report's broadcast and its mirror write. */
  lemma WindowIsInterleaving(declared: set<Cell>, states: seq<System>, steps: seq<Step>, r: nat, cell: Cell)
    requires IsRun(declared, states, steps) && r < |steps| && steps[r] == Read(cell)
    ensures InWindow(states[r], cell) <==> exists b: nat, q: nat :: Straddles(steps, b, q, r, cell)
  {
    assert Follows(declared, states[r], steps[r], states[r + 1]);
    if InWindow(states[r], cell) {
      var b := AnnouncedAt(declared, states, steps, r);
      var q := SubscribedAt(declared, states, steps, r);
      SilentWhileUnwritten(declared, states, steps, b, r);
      if q < b {
        SubscribedStays(declared, states, steps, q + 1, b);
        assert Follows(declared, states[b], steps[b], states[b + 1]);
        StepMoves(declared, states[b], steps[b], states[b + 1], cell);
      }
      assert Straddles(steps, b, q, r, cell);
    }
    if b: nat, q: nat :| Straddles(steps, b, q, r, cell) {
      SilentWhileUnwritten(declared, states, steps, b, r);
      UnsubscribedUntil(declared, states, steps, b + 1, q);
      RunsStand(declared, states, steps, b + 1, cell);
    }
  }

  lemma {:induction false} SubscribedStays(declared: set<Cell>, states: seq<System>, steps: seq<Step>, q: nat, n: nat)
    requires IsRun(declared, states, steps) && q <= n < |states| && states[q].subscribed
    ensures states[n].subscribed
    decreases n
  {
    if q < n {
      SubscribedStays(declared, states, steps, q, n - 1);
      assert Follows(declared, states[n - 1], steps[n - 1], states[n]);
    }
  }

  lemma UnsubscribedUntil(declared: set<Cell>, states: seq<System>, steps: seq<Step>, m: nat, q: nat)
    requires IsRun(declared, states, steps) && m <= q < |steps| && steps[q] == Subscribe
    ensures !states[m].subscribed
  {
    assert Follows(declared, states[q], steps[q], states[q + 1]);
    if states[m].subscribed {
      SubscribedStays(declared, states, steps, m, q);
    }
  }

  /** The window is real: a connection that subscribes and reads between the broadcast and
      the mirror write of one report never learns of it. */
  lemma UpdateCanBeMissed(device: DeviceId) returns (states: seq<System>, steps: seq<Step>)
    ensures var cell: Cell := (device, CapabilityKind.Switch);
      && IsRun({cell}, states, steps) && Settled({cell}, states[|steps|])
      && View(states[|steps|], cell) == None
      && Get(states[|steps|].mirror, device, CapabilityKind.Switch) == Some(CapabilityState.Switch(true))
  {
    var cell: Cell := (device, CapabilityKind.Switch);
    steps := [Announce(Report(device, CapabilityState.Switch(true))), Subscribe, Read(cell), Write, Drain];
    var start := System(map[], None, false, EMPTY, map[], [], false, []);
    var announced := Next(start, steps[0]);
    var attached := Next(announced, steps[1]);
    var read := Next(attached, steps[2]);
    var written := Next(read, steps[3]);
    var drained := Next(written, steps[4]);
    states := [start, announced, attached, read, written, drained];
    assert read.snapshot == map[cell := None];
    assert forall i :: 0 <= i < |steps| ==> Follows({cell}, states[i], steps[i], states[i + 1]);
  }
}
