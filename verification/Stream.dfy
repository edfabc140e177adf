/** The SSE fan-out (`src/adapters/rest_api/stream.rs`): one bounded mailbox per
    subscriber, dropping its oldest frame and raising a flag on overflow. Every method is
    one lock-protected section, so any interleaving of them is a run of the system. */
module Stream {
  import opened Model
  import opened Rules

  datatype Frame =
    | StateFrame(device: DeviceId, state: CapabilityState)
    | RuleFrame(rule: RuleId, truth: Truth, fired: bool)
    | ActionFrame(device: DeviceId, action: ActionId, depth: nat)
    | FailureFrame(command: Command, reason: string, attempts: nat)

  const QUEUE_CAPACITY: nat := 256

  // --- one mailbox ------------------------------------------------------------------------

  datatype Mailbox = Mailbox(queue: seq<Frame>, lagged: bool) {
    function Push(frame: Frame): Mailbox {
      if |queue| >= QUEUE_CAPACITY then Mailbox(queue[1..] + [frame], true)
      else Mailbox(queue + [frame], lagged)
    }
  }

  const EMPTY := Mailbox([], false)

  function Filled(box: Mailbox, frames: seq<Frame>): Mailbox
    decreases |frames|
  {
    if frames == [] then box else Filled(box.Push(frames[0]), frames[1..])
  }

  lemma {:induction false} FilledAppend(box: Mailbox, frames: seq<Frame>, frame: Frame)
    ensures Filled(box, frames + [frame]) == Filled(box, frames).Push(frame)
    decreases |frames|
  {
    if frames == [] {
      assert (frames + [frame])[1..] == [];
    } else {
      assert (frames + [frame])[1..] == frames[1..] + [frame];
      FilledAppend(box.Push(frames[0]), frames[1..], frame);
    }
  }

  /** What an unbounded mailbox would still owe, cut to the newest frames that fit. */
  function Newest(frames: seq<Frame>): (kept: seq<Frame>)
    ensures |frames| <= QUEUE_CAPACITY ==> kept == frames
    ensures |frames| > QUEUE_CAPACITY ==> kept == frames[|frames| - QUEUE_CAPACITY..]
  {
    if |frames| <= QUEUE_CAPACITY then frames else frames[|frames| - QUEUE_CAPACITY..]
  }

  /** The bounded mailbox refines the unbounded history: it holds exactly the newest frames
      that fit, and the flag is up exactly when some did not. */
  lemma {:induction false} MailboxHoldsNewest(frames: seq<Frame>)
    ensures Filled(EMPTY, frames) == Mailbox(Newest(frames), |frames| > 256)
    ensures |Newest(frames)| == if |frames| <= 256 then |frames| else 256
    decreases |frames|
  {
    if frames != [] {
      var before, frame := frames[..|frames| - 1], frames[|frames| - 1];
      assert frames == before + [frame];
      MailboxHoldsNewest(before);
      FilledAppend(EMPTY, before, frame);
      assert Newest(before + [frame]) == Mailbox(Newest(before), true).Push(frame).queue;
    }
  }

  // --- any interleaving of pushes and drains -------------------------------------------------

  datatype Act = Push(frame: Frame) | Take

  datatype Delivery = Delivery(frames: seq<Frame>, lagged: bool)

  /** What the bounded mailbox hands out, drain by drain; an idle drain hands out nothing. */
  function Deliveries(box: Mailbox, acts: seq<Act>): seq<Delivery>
    decreases |acts|
  {
    if acts == [] then []
    else
      match acts[0]
      case Push(frame) => Deliveries(box.Push(frame), acts[1..])
      case Take =>
        if box.queue != [] || box.lagged then [Delivery(box.queue, box.lagged)] + Deliveries(EMPTY, acts[1..])
        else Deliveries(box, acts[1..])
  }

  /** What an unbounded queue hands out instead, starting with `owed` in it. */
  function Chunks(owed: seq<Frame>, acts: seq<Act>): seq<seq<Frame>>
    decreases |acts|
  {
    if acts == [] then []
    else
      match acts[0]
      case Push(frame) => Chunks(owed + [frame], acts[1..])
      case Take => if owed != [] then [owed] + Chunks([], acts[1..]) else Chunks([], acts[1..])
  }

  function Leftover(owed: seq<Frame>, acts: seq<Act>): seq<Frame>
    decreases |acts|
  {
    if acts == [] then owed
    else
      match acts[0]
      case Push(frame) => Leftover(owed + [frame], acts[1..])
      case Take => Leftover([], acts[1..])
  }

  function Pushed(acts: seq<Act>): seq<Frame> {
    if acts == [] then []
    else (match acts[0] case Push(frame) => [frame] case Take => []) + Pushed(acts[1..])
  }

  function Joined(chunks: seq<seq<Frame>>): seq<Frame> {
    if chunks == [] then [] else chunks[0] + Joined(chunks[1..])
  }

  /** Each batch is exactly the newest frames that fit of those broadcast since the previous
      batch, and it is flagged exactly when some did not fit. */
  lemma {:induction false} BatchesAreNewest(owed: seq<Frame>, acts: seq<Act>)
    ensures var batches, chunks := Deliveries(Filled(EMPTY, owed), acts), Chunks(owed, acts);
      && |batches| == |chunks|
      && forall i :: 0 <= i < |batches| ==>
           batches[i] == Delivery(Newest(chunks[i]), |chunks[i]| > QUEUE_CAPACITY)
    decreases |acts|
  {
    MailboxHoldsNewest(owed);
    if acts != [] {
      match acts[0]
      case Push(frame) =>
        FilledAppend(EMPTY, owed, frame);
        BatchesAreNewest(owed + [frame], acts[1..]);
      case Take =>
        assert Filled(EMPTY, []) == EMPTY;
        BatchesAreNewest([], acts[1..]);
    }
  }

  /** The unbounded queue loses nothing and reorders nothing. */
  lemma {:induction false} ChunksAreHistory(owed: seq<Frame>, acts: seq<Act>)
    ensures Joined(Chunks(owed, acts)) + Leftover(owed, acts) == owed + Pushed(acts)
    decreases |acts|
  {
    if acts != [] {
      match acts[0]
      case Push(frame) =>
        ChunksAreHistory(owed + [frame], acts[1..]);
        assert owed + [frame] + Pushed(acts[1..]) == owed + Pushed(acts);
      case Take =>
        ChunksAreHistory([], acts[1..]);
        if owed != [] {
          assert ([owed] + Chunks([], acts[1..]))[1..] == Chunks([], acts[1..]);
        }
        assert [] + Pushed(acts[1..]) == Pushed(acts[1..]) == Pushed(acts);
    }
  }

  function Frames(batches: seq<Delivery>): seq<seq<Frame>> {
    if batches == [] then [] else [batches[0].frames] + Frames(batches[1..])
  }

  lemma {:induction false} UnflaggedFrames(batches: seq<Delivery>, chunks: seq<seq<Frame>>)
    requires |batches| == |chunks|
    requires forall i :: 0 <= i < |batches| ==> !batches[i].lagged && batches[i].frames == chunks[i]
    ensures Frames(batches) == chunks
  {
    if batches != [] {
      UnflaggedFrames(batches[1..], chunks[1..]);
      assert chunks == [chunks[0]] + chunks[1..];
    }
  }

  /** Batches none of which is flagged concatenate to the whole history since subscribing,
      up to what has not been drained yet. */
  lemma UnflaggedBatchesAreHistory(acts: seq<Act>)
    requires forall b <- Deliveries(EMPTY, acts) :: !b.lagged
    ensures Joined(Frames(Deliveries(EMPTY, acts))) + Leftover([], acts) == Pushed(acts)
  {
    var batches, chunks := Deliveries(EMPTY, acts), Chunks([], acts);
    assert Filled(EMPTY, []) == EMPTY;
    BatchesAreNewest([], acts);
    forall i | 0 <= i < |batches| ensures !batches[i].lagged && batches[i].frames == chunks[i] {
      assert batches[i] in batches;
    }
    UnflaggedFrames(batches, chunks);
    ChunksAreHistory([], acts);
  }

  // --- the registry ------------------------------------------------------------------------

  datatype Subscriber = Subscriber(id: nat, box: Mailbox, live: bool)

  datatype Batch = Frames(frames: seq<Frame>, lagged: bool) | Idle | Done

  /** The batch that owes exactly these frames. */
  function BatchOf(news: seq<Frame>): Batch {
    if news == [] then Idle else Batch.Frames(Newest(news), |news| > QUEUE_CAPACITY)
  }

  predicate DistinctSubscribers(subscribers: seq<Subscriber>) {
    forall i, j :: 0 <= i < j < |subscribers| ==> subscribers[i].id != subscribers[j].id
  }

  predicate Has(subscribers: seq<Subscriber>, id: nat) {
    exists sub <- subscribers :: sub.id == id
  }

  lemma SameSubscribers(subscribers: seq<Subscriber>, others: seq<Subscriber>)
    requires |subscribers| == |others| && forall i :: 0 <= i < |others| ==> subscribers[i].id == others[i].id
    ensures forall id :: Has(subscribers, id) <==> Has(others, id)
  {
    forall i | 0 <= i < |others| ensures subscribers[i] in subscribers && others[i] in others {
    }
  }

  lemma Joining(subscribers: seq<Subscriber>, sub: Subscriber, all: seq<Subscriber>)
    requires DistinctSubscribers(subscribers) && (forall s <- subscribers :: s.id < sub.id)
    requires all == subscribers + [sub]
    ensures DistinctSubscribers(all) && !Has(subscribers, sub.id) && Has(all, sub.id)
  {
    assert all[|subscribers|] == sub;
  }

  lemma Leaving(subscribers: seq<Subscriber>, at: nat, rest: seq<Subscriber>)
    requires DistinctSubscribers(subscribers) && at < |subscribers|
    requires rest == subscribers[..at] + subscribers[at + 1..]
    ensures DistinctSubscribers(rest)
    ensures forall sub <- rest :: sub in subscribers && sub.id != subscribers[at].id
    ensures forall a :: Has(rest, a) <==> Has(subscribers, a) && a != subscribers[at].id
  {
    forall a | Has(subscribers, a) && a != subscribers[at].id ensures Has(rest, a) {
      var j :| 0 <= j < |subscribers| && subscribers[j].id == a;
      assert subscribers[j] == rest[if j < at then j else j - 1];
    }
  }

  /** Draining everything leaves nothing to owe and extends what was given. */
  lemma AllDrained(sent: seq<Frame>, joined: nat, drained: nat, news: seq<Frame>)
    requires joined <= drained <= |sent| && news == sent[drained..]
    ensures sent[|sent|..] == [] && sent[joined..|sent|] == sent[joined..drained] + news
    ensures Filled(EMPTY, []) == EMPTY
    ensures Filled(EMPTY, news) == Mailbox(Newest(news), |news| > QUEUE_CAPACITY)
  {
    MailboxHoldsNewest(news);
  }

  class Broadcaster {
    var subscribers: seq<Subscriber>
    var nextId: nat
    var stopped: bool

    /** Every frame ever broadcast, and per subscriber where its history began, how much of
        it has been drained, what it was given, and whether a batch was flagged. */
    ghost var sent: seq<Frame>
    ghost var joined: map<nat, nat>
    ghost var drained: map<nat, nat>
    ghost var given: map<nat, seq<Frame>>
    ghost var flagged: set<nat>

    ghost predicate Tracked(id: nat)
      reads this
    {
      && id < nextId && id in joined && id in drained && id in given
      && joined[id] <= drained[id] <= |sent|
      && (id !in flagged ==> given[id] == sent[joined[id]..drained[id]])
    }

    ghost predicate Owes(sub: Subscriber)
      reads this
    {
      Tracked(sub.id) && sub.live && sub.box == Filled(EMPTY, sent[drained[sub.id]..])
    }

    ghost predicate Valid()
      reads this
    {
      DistinctSubscribers(subscribers) && forall sub <- subscribers :: Owes(sub)
    }

    predicate Attached(id: nat)
      reads this
    {
      Has(subscribers, id)
    }

    constructor ()
      ensures Valid() && subscribers == [] && sent == [] && !stopped
    {
      subscribers, nextId, stopped := [], 0, false;
      sent, joined, drained, given, flagged := [], map[], map[], map[], {};
    }

    /** A new subscriber's history starts now. */
    method Subscribe() returns (id: nat)
      requires Valid()
      modifies this
      ensures Valid() && Attached(id) && !old(Attached(id))
      ensures subscribers == old(subscribers) + [Subscriber(id, EMPTY, true)]
      ensures joined == old(joined)[id := |sent|] && drained == old(drained)[id := |sent|]
      ensures given == old(given)[id := []] && id !in flagged
      ensures sent == old(sent) && stopped == old(stopped)
    {
      id := nextId;
      forall sub <- subscribers ensures sub.id < id {
        assert Owes(sub);
      }
      nextId := nextId + 1;
      subscribers := subscribers + [Subscriber(id, EMPTY, true)];
      Joining(old(subscribers), Subscriber(id, EMPTY, true), subscribers);
      joined, drained, given := joined[id := |sent|], drained[id := |sent|], given[id := []];
      flagged := flagged - {id};
      assert sent[|sent|..] == [] && sent[|sent|..|sent|] == [];
      forall sub <- subscribers ensures Owes(sub) {
        if sub.id != id {
          assert sub in old(subscribers) && old(Owes(sub));
        }
      }
    }

    method Broadcast(frame: Frame)
      requires Valid()
      modifies this
      ensures Valid() && sent == old(sent) + [frame]
      ensures joined == old(joined) && drained == old(drained) && given == old(given) && flagged == old(flagged)
      ensures stopped == old(stopped) && nextId == old(nextId)
      ensures forall id :: Attached(id) <==> old(Attached(id))
    {
      var updated: seq<Subscriber> := [];
      for i := 0 to |subscribers|
        invariant |updated| == i
        invariant forall j :: 0 <= j < i ==>
          updated[j] ==
            (if subscribers[j].live then subscribers[j].(box := subscribers[j].box.Push(frame)) else subscribers[j])
      {
        var sub := subscribers[i];
        updated := updated + [if sub.live then sub.(box := sub.box.Push(frame)) else sub];
      }
      ghost var was := subscribers;
      ghost var before := sent;
      subscribers, sent := updated, sent + [frame];
      forall j | 0 <= j < |was| ensures Owes(updated[j]) {
        assert old(Owes(was[j]));
        var from := drained[was[j].id];
        assert sent[from..] == before[from..] + [frame];
        assert sent[joined[was[j].id]..from] == before[joined[was[j].id]..from];
        FilledAppend(EMPTY, before[from..], frame);
      }
      SameSubscribers(updated, was);
    }

    method Find(id: nat) returns (at: Option<nat>)
      ensures at.Some? ==> at.value < |subscribers| && subscribers[at.value].id == id
      ensures at.None? <==> !Attached(id)
    {
      for i := 0 to |subscribers|
        invariant forall j :: 0 <= j < i ==> subscribers[j].id != id
      {
        if subscribers[i].id == id {
          assert subscribers[i] in subscribers;
          return Some(i);
        }
      }
      return None;
    }

    /** Drains everything pending: the newest frames that fit of those broadcast since the
        last batch, flagged exactly when some were dropped. */
    method NextBatch(id: nat) returns (batch: Batch)
      requires Valid()
      modifies this
      ensures Valid() && sent == old(sent) && joined == old(joined) && stopped == old(stopped)
      ensures forall a :: Attached(a) <==> old(Attached(a))
      ensures stopped || !Attached(id) ==> batch == Done && drained == old(drained) && given == old(given)
      ensures !stopped && Attached(id) ==> id in old(drained) && id in old(given) && old(drained)[id] <= |sent|
      ensures !stopped && Attached(id) ==> batch == BatchOf(sent[old(drained)[id]..])
      ensures !stopped && Attached(id) ==> drained == old(drained)[id := |sent|]
      ensures !stopped && Attached(id) ==>
        given == old(given)[id := old(given)[id] + Newest(sent[old(drained)[id]..])]
      ensures !stopped && Attached(id) ==>
        flagged == old(flagged) + if |sent| - old(drained)[id] > QUEUE_CAPACITY then {id} else {}
    {
      var at := Find(id);
      if stopped || at == None {
        batch := Done;
      } else {
        batch := DrainAt(at.value);
      }
    }

    method DrainAt(at: nat) returns (batch: Batch)
      requires Valid() && at < |subscribers|
      modifies this
      ensures Valid() && sent == old(sent) && joined == old(joined) && stopped == old(stopped)
      ensures forall a :: Attached(a) <==> old(Attached(a))
      ensures old(Tracked(subscribers[at].id))
      ensures var id := old(subscribers)[at].id;
        var news := sent[old(drained)[id]..];
        && batch == BatchOf(news)
        && drained == old(drained)[id := |sent|] && given == old(given)[id := old(given)[id] + Newest(news)]
        && flagged == old(flagged) + if |news| > QUEUE_CAPACITY then {id} else {}
    {
      var sub := subscribers[at];
      assert Owes(sub);
      ghost var news := sent[drained[sub.id]..];
      AllDrained(sent, joined[sub.id], drained[sub.id], news);
      batch := if sub.box.queue != [] || sub.box.lagged then Batch.Frames(sub.box.queue, sub.box.lagged) else Idle;
      subscribers := subscribers[at := Subscriber(sub.id, EMPTY, sub.live)];
      drained, given := drained[sub.id := |sent|], given[sub.id := given[sub.id] + Newest(news)];
      flagged := flagged + if sub.box.lagged then {sub.id} else {};
      forall j | 0 <= j < |subscribers| ensures Owes(subscribers[j]) && subscribers[j].id == old(subscribers)[j].id {
        assert old(Owes(subscribers[j]));
      }
      SameSubscribers(subscribers, old(subscribers));
    }

    /** Detaches one subscriber and nobody else; detaching twice is harmless. */
    method Remove(id: nat)
      requires Valid()
      modifies this
      ensures Valid() && sent == old(sent) && joined == old(joined) && drained == old(drained) && given == old(given)
      ensures flagged == old(flagged) && stopped == old(stopped)
      ensures forall a :: Attached(a) <==> old(Attached(a)) && a != id
    {
      var at := Find(id);
      if at != None {
        ghost var was := subscribers;
        subscribers := subscribers[..at.value] + subscribers[at.value + 1..];
        Leaving(was, at.value, subscribers);
        forall sub <- subscribers ensures Owes(sub) {
          assert old(Owes(sub));
        }
      }
    }

    /** Shutdown ends every stream at its next batch. */
    method Shutdown()
      requires Valid()
      modifies this`stopped
      ensures Valid() && stopped
    {
      stopped := true;
    }
  }
}
