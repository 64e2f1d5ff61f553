// internal/lab/broadcaster.go as a step system: lossy fan-out to bounded channels.
module BroadcasterModel {
  type Event = string

  // Live: registered; Removed: deleted from the table, channel still open; Closed.
  datatype Phase = Live | Removed | Closed

  // One subscriber: its channel's capacity and buffer, whether its receiver is blocked
  // in a receive, and everything it has received.
  datatype Sub = Sub(cap: nat, buf: seq<Event>, parked: bool, received: seq<Event>, phase: Phase)

  function NewSub(cap: nat): Sub { Sub(cap, [], false, [], Live) }

  // A non-blocking send has somewhere to go.
  predicate Accepts(s: Sub) { s.parked || |s.buf| < s.cap }

  function Offer(s: Sub, ev: Event): Sub {
    if s.parked then s.(parked := false, received := s.received + [ev])
    else if |s.buf| < s.cap then s.(buf := s.buf + [ev])
    else s
  }

  // A receive takes the oldest buffered event, or blocks until one is sent.
  function Take(s: Sub): Sub {
    if s.buf != [] then s.(buf := s.buf[1..], received := s.received + [s.buf[0]])
    else if s.phase == Closed then s
    else s.(parked := true)
  }

  // The two halves of a cancel function, in their order.
  function Remove(s: Sub): Sub { s.(phase := Removed) }

  function Close(s: Sub): Sub { s.(phase := Closed, parked := false) }

  // --------------------------------------------------------------------------
  // Runs
  // --------------------------------------------------------------------------

  // A receive by nobody and a second cancel do nothing.
  datatype Op =
    | Subscribe(cap: nat)
    | Publish(ev: Event)
    | Receive(id: nat)
    | CancelRemove(id: nat)
    | CancelClose(id: nat)

  // Every subscriber ever, by id; seq is the last id given out.
  datatype State = State(subs: map<nat, Sub>, last: nat)

  const START := State(map[], 0)

  function Step(s: State, op: Op): State {
    match op
    case Subscribe(cap) => State(s.subs[s.last + 1 := NewSub(cap)], s.last + 1)
    case Publish(ev) =>
      s.(subs := map id | id in s.subs :: if s.subs[id].phase == Live then Offer(s.subs[id], ev) else s.subs[id])
    case Receive(id) => if id in s.subs then s.(subs := s.subs[id := Take(s.subs[id])]) else s
    case CancelRemove(id) =>
      if id in s.subs && s.subs[id].phase == Live then s.(subs := s.subs[id := Remove(s.subs[id])]) else s
    case CancelClose(id) =>
      if id in s.subs && s.subs[id].phase == Removed then s.(subs := s.subs[id := Close(s.subs[id])]) else s
  }

  function After(log: seq<Op>): State {
    if log == [] then START else Step(After(log[..|log| - 1]), log[|log| - 1])
  }

  // --------------------------------------------------------------------------
  // Independence
  // --------------------------------------------------------------------------

  // The operations subscriber id can notice: its own, every publish, and every
  // subscribe, which only fixes the numbering.
  predicate Concerns(op: Op, id: nat) {
    match op
    case Subscribe(_) => true
    case Publish(_) => true
    case Receive(x) => x == id
    case CancelRemove(x) => x == id
    case CancelClose(x) => x == id
  }

  function Project(log: seq<Op>, id: nat): seq<Op> {
    if log == [] then []
    else
      var n := |log| - 1;
      if Concerns(log[n], id) then Project(log[..n], id) + [log[n]] else Project(log[..n], id)
  }

  lemma AfterAppend(log: seq<Op>, op: Op)
    ensures After(log + [op]) == Step(After(log), op)
  {
    assert (log + [op])[..|log|] == log;
  }

  // Same subscriber id, same numbering.
  predicate SameFor(s: State, t: State, id: nat) {
    s.last == t.last && (id in s.subs <==> id in t.subs) && (id in s.subs ==> s.subs[id] == t.subs[id])
  }

  lemma SameStep(s: State, t: State, op: Op, id: nat)
    requires SameFor(s, t, id)
    ensures SameFor(Step(s, op), Step(t, op), id)
    ensures !Concerns(op, id) ==> SameFor(Step(s, op), t, id)
  {
  }

  // What a subscriber holds and has received does not depend on what the others
  // receive or when they cancel.
  lemma {:induction false} Independence(log: seq<Op>, id: nat)
    ensures SameFor(After(log), After(Project(log, id)), id)
  {
    if log != [] {
      var n := |log| - 1;
      Independence(log[..n], id);
      SameStep(After(log[..n]), After(Project(log[..n], id)), log[n], id);
      if Concerns(log[n], id) {
        AfterAppend(Project(log[..n], id), log[n]);
      }
    }
  }

  // --------------------------------------------------------------------------
  // What is delivered
  // --------------------------------------------------------------------------

  ghost predicate SubOk(s: Sub) {
    && |s.buf| <= s.cap
    && (s.parked ==> s.buf == [] && s.phase != Closed)
  }

  // Ids are given out in order, and each channel respects its capacity.
  lemma {:induction false} RunOk(log: seq<Op>)
    ensures forall id :: id in After(log).subs <==> 1 <= id <= After(log).last
    ensures forall id :: id in After(log).subs ==> SubOk(After(log).subs[id])
  {
    if log != [] {
      RunOk(log[..|log| - 1]);
    }
  }

  // Operation p offers its event to subscriber id.
  ghost predicate OfferedAt(log: seq<Op>, id: nat, p: nat) {
    && p < |log| && log[p].Publish?
    && id in After(log[..p]).subs && After(log[..p]).subs[id].phase == Live
  }

  // The buffer was full and nobody was waiting.
  ghost predicate FullAt(log: seq<Op>, id: nat, p: nat)
    requires OfferedAt(log, id, p)
  {
    !Accepts(After(log[..p]).subs[id])
  }

  // The positions of the publishes that reached subscriber id.
  ghost function Kept(log: seq<Op>, id: nat): seq<nat> {
    if log == [] then []
    else
      var n := |log| - 1;
      if OfferedAt(log, id, n) && !FullAt(log, id, n) then Kept(log[..n], id) + [n] else Kept(log[..n], id)
  }

  lemma {:induction false} KeptInOrder(log: seq<Op>, id: nat)
    ensures Positions(log, Kept(log, id))
    ensures forall i, j :: 0 <= i < j < |Kept(log, id)| ==> Kept(log, id)[i] < Kept(log, id)[j]
    ensures forall p: nat :: p in Kept(log, id) <==> OfferedAt(log, id, p) && !FullAt(log, id, p)
  {
    if log != [] {
      var n := |log| - 1;
      var before := log[..n];
      KeptInOrder(before, id);
      assert forall p: nat :: p < n ==> before[..p] == log[..p] && before[p] == log[p];
      assert forall p: nat :: p < n ==> (OfferedAt(before, id, p) <==> OfferedAt(log, id, p));
    }
  }

  // Positions of publishes in a run, and what they published.
  ghost predicate Positions(log: seq<Op>, ps: seq<nat>) {
    forall i :: 0 <= i < |ps| ==> ps[i] < |log| && log[ps[i]].Publish?
  }

  ghost function Events(log: seq<Op>, positions: seq<nat>): seq<Event>
    requires Positions(log, positions)
  {
    if positions == [] then []
    else Events(log, positions[..|positions| - 1]) + [log[positions[|positions| - 1]].ev]
  }

  lemma {:induction false} EventsExtend(log: seq<Op>, op: Op, positions: seq<nat>)
    requires Positions(log, positions)
    ensures Events(log + [op], positions) == Events(log, positions)
  {
    if positions != [] {
      EventsExtend(log, op, positions[..|positions| - 1]);
    }
  }

  // What a subscriber has received, followed by what is buffered for it.
  function Delivered(s: Sub): seq<Event> { s.received + s.buf }

  lemma TakeDelivers(s: Sub)
    ensures Delivered(Take(s)) == Delivered(s)
  {
    if s.buf != [] {
      assert s.buf == [s.buf[0]] + s.buf[1..];
    }
  }

  lemma OfferDelivers(s: Sub, ev: Event)
    requires SubOk(s)
    ensures Delivered(Offer(s, ev)) == Delivered(s) + if Accepts(s) then [ev] else []
  {
  }

  // One step delivers the event it offers with room, and nothing else.
  lemma DeliverStep(s: State, op: Op, id: nat)
    requires id in s.subs && SubOk(s.subs[id]) && id <= s.last
    ensures id in Step(s, op).subs
    ensures Delivered(Step(s, op).subs[id])
            == Delivered(s.subs[id])
               + if op.Publish? && s.subs[id].phase == Live && Accepts(s.subs[id]) then [op.ev] else []
  {
    TakeDelivers(s.subs[id]);
    if op.Publish? {
      OfferDelivers(s.subs[id], op.ev);
    }
  }

  lemma KeptStep(log: seq<Op>, op: Op, id: nat)
    requires id in After(log).subs
    ensures Kept(log + [op], id)
            == if op.Publish? && After(log).subs[id].phase == Live && Accepts(After(log).subs[id])
               then Kept(log, id) + [|log|] else Kept(log, id)
  {
    assert (log + [op])[..|log|] == log;
  }

  lemma EventsLast(log: seq<Op>, positions: seq<nat>, p: nat)
    requires Positions(log, positions)
    requires p < |log| && log[p].Publish?
    ensures Events(log, positions + [p]) == Events(log, positions) + [log[p].ev]
  {
    assert (positions + [p])[..|positions|] == positions;
  }

  // The delivered events after one more step, from those before it.
  lemma DeliveredStep(before: seq<Op>, op: Op, id: nat)
    requires id in After(before).subs && Positions(before, Kept(before, id))
    requires Delivered(After(before).subs[id]) == Events(before, Kept(before, id))
    ensures id in After(before + [op]).subs && Positions(before + [op], Kept(before + [op], id))
    ensures Delivered(After(before + [op]).subs[id]) == Events(before + [op], Kept(before + [op], id))
  {
    var log, kept, n := before + [op], Kept(before, id), |before|;
    RunOk(before);
    AfterAppend(before, op);
    DeliverStep(After(before), op, id);
    KeptStep(before, op, id);
    EventsExtend(before, op, kept);
    if op.Publish? {
      EventsLast(log, kept, n);
    }
  }

  // Received plus buffered is exactly the in-order subsequence of the events published
  // while subscribed that did not meet a full buffer.
  lemma {:induction false} DeliveredExactly(log: seq<Op>, id: nat)
    requires id in After(log).subs
    ensures Positions(log, Kept(log, id))
    ensures Delivered(After(log).subs[id]) == Events(log, Kept(log, id))
  {
    var before, op := log[..|log| - 1], log[|log| - 1];
    assert log == before + [op];
    if id in After(before).subs {
      DeliveredExactly(before, id);
      DeliveredStep(before, op, id);
    } else {
      NothingYet(log, id);
      AfterAppend(before, op);
    }
  }

  // Nothing is kept before the subscription exists.
  lemma {:induction false} NothingYet(log: seq<Op>, id: nat)
    requires log == [] || id !in After(log[..|log| - 1]).subs
    ensures Kept(log, id) == []
  {
    if log != [] {
      var before := log[..|log| - 1];
      RunOk(before);
      if before != [] {
        RunOk(before[..|before| - 1]);
      }
      NothingYet(before, id);
    }
  }

  // With a real buffer, an event is missed exactly when the buffer held its capacity.
  lemma MissedWhenFull(log: seq<Op>, id: nat, p: nat)
    requires OfferedAt(log, id, p) && After(log[..p]).subs[id].cap >= 1
    ensures p !in Kept(log, id) <==> |After(log[..p]).subs[id].buf| == After(log[..p]).subs[id].cap
  {
    KeptInOrder(log, id);
    RunOk(log[..p]);
  }

  lemma {:induction false} EventsLength(log: seq<Op>, positions: seq<nat>)
    requires Positions(log, positions)
    ensures |Events(log, positions)| == |positions|
  {
    if positions != [] {
      EventsLength(log, positions[..|positions| - 1]);
    }
  }

  // got are the first events that reached the subscriber, n more than it had if there
  // are so many.
  ghost predicate HandsOver(log: seq<Op>, id: nat, n: nat, got: seq<Event>)
    requires id in After(log).subs
  {
    var had, all := |After(log).subs[id].received|, Kept(log, id);
    && Positions(log, all) && got <= Events(log, all)
    && |got| == if had + n < |all| then had + n else |all|
  }

  // A receive hands over the next event that has reached the subscriber, if there is
  // one it has not received.
  lemma ReceiveDelivers(log: seq<Op>, id: nat)
    requires id in After(log).subs
    ensures id in After(log + [Receive(id)]).subs && Kept(log + [Receive(id)], id) == Kept(log, id)
    ensures HandsOver(log, id, 1, After(log + [Receive(id)]).subs[id].received)
  {
    AfterAppend(log, Receive(id));
    KeptStep(log, Receive(id), id);
    DeliveredExactly(log, id);
    EventsLength(log, Kept(log, id));
    TakeDelivers(After(log).subs[id]);
  }

  function Receives(id: nat, n: nat): seq<Op> { seq(n, _ => Receive(id)) }

  // So n receives in a row hand over n more events or all there are, also after the
  // channel was closed, and as many receives as are buffered leave nothing behind.
  lemma {:induction false} Drained(log: seq<Op>, id: nat, n: nat)
    requires id in After(log).subs
    ensures id in After(log + Receives(id, n)).subs && Kept(log + Receives(id, n), id) == Kept(log, id)
    ensures HandsOver(log, id, n, After(log + Receives(id, n)).subs[id].received)
    decreases n
  {
    if n == 0 {
      assert log + Receives(id, 0) == log;
      DeliveredExactly(log, id);
      EventsLength(log, Kept(log, id));
    } else {
      Drained(log, id, n - 1);
      assert log + Receives(id, n) == log + Receives(id, n - 1) + [Receive(id)];
      OneMore(log, Receives(id, n - 1), id, n - 1);
    }
  }

  lemma OneMore(log: seq<Op>, more: seq<Op>, id: nat, n: nat)
    requires id in After(log).subs && id in After(log + more).subs && Kept(log + more, id) == Kept(log, id)
    requires HandsOver(log, id, n, After(log + more).subs[id].received)
    ensures id in After(log + more + [Receive(id)]).subs
    ensures Kept(log + more + [Receive(id)], id) == Kept(log, id)
    ensures HandsOver(log, id, n + 1, After(log + more + [Receive(id)]).subs[id].received)
  {
    ReceiveDelivers(log + more, id);
    SameEvents(log, more, Kept(log, id));
    DeliveredExactly(log, id);
    EventsLength(log, Kept(log, id));
  }

  lemma {:induction false} SameEvents(log: seq<Op>, more: seq<Op>, positions: seq<nat>)
    requires Positions(log, positions)
    ensures Positions(log + more, positions) && Events(log + more, positions) == Events(log, positions)
  {
    if positions != [] {
      SameEvents(log, more, positions[..|positions| - 1]);
    }
  }

  // A receiver that waits at an empty channel gets the next event published, whatever
  // the channel's capacity.
  lemma WaiterGets(log: seq<Op>, id: nat, ev: Event)
    requires id in After(log).subs && After(log).subs[id].phase == Live && After(log).subs[id].buf == []
    ensures var after := After(log + [Receive(id)] + [Publish(ev)]);
            id in after.subs && after.subs[id].received == After(log).subs[id].received + [ev]
  {
    AfterAppend(log, Receive(id));
    AfterAppend(log + [Receive(id)], Publish(ev));
  }

  // Once cancelled, a subscriber is offered nothing more.
  ghost predicate Cancelled(s: State, id: nat) { id in s.subs && s.subs[id].phase != Live }

  lemma {:induction false} CancelStops(log: seq<Op>, id: nat, more: seq<Op>)
    requires id in After(log).subs
    ensures Cancelled(After(log + [CancelRemove(id)] + more), id)
    ensures Kept(log + [CancelRemove(id)] + more, id) == Kept(log, id)
  {
    var start := log + [CancelRemove(id)];
    if more == [] {
      assert start + more == start;
      AfterAppend(log, CancelRemove(id));
      KeptStep(log, CancelRemove(id), id);
    } else {
      var n := |more| - 1;
      CancelStops(log, id, more[..n]);
      assert start + more == start + more[..n] + [more[n]];
      RunOk(start + more[..n]);
      AfterAppend(start + more[..n], more[n]);
      KeptStep(start + more[..n], more[n], id);
    }
  }

  // The two halves of a cancel take effect in their order and once, and leave what is
  // buffered to be received.
  lemma CancelInOrder(log: seq<Op>, id: nat)
    requires id in After(log).subs
    ensures var s := After(log).subs[id];
            && id in After(log + [CancelRemove(id)]).subs && id in After(log + [CancelClose(id)]).subs
            && var removed, closed := After(log + [CancelRemove(id)]).subs[id], After(log + [CancelClose(id)]).subs[id];
               && removed == s.(phase := if s.phase == Live then Removed else s.phase)
               && closed.phase == (if s.phase == Removed then Closed else s.phase)
               && closed.buf == s.buf && closed.received == s.received && closed.cap == s.cap
               && (closed.phase == Closed && s.phase == Removed ==> !closed.parked)
  {
    AfterAppend(log, CancelRemove(id));
    AfterAppend(log, CancelClose(id));
  }

  // A subscriber keeps the capacity it subscribed with.
  lemma {:induction false} CapacityKept(log: seq<Op>, p: nat)
    requires p < |log| && log[p].Subscribe?
    ensures var id := After(log[..p]).last + 1;
            id in After(log).subs && After(log).subs[id].cap == log[p].cap
  {
    var n := |log| - 1;
    RunOk(log[..n]);
    if p < n {
      CapacityKept(log[..n], p);
      assert log[..n][..p] == log[..p];
      SameCapacity(After(log[..n]), log[n], After(log[..p]).last + 1);
    }
  }

  lemma SameCapacity(s: State, op: Op, id: nat)
    requires id in s.subs && id <= s.last
    ensures id in Step(s, op).subs && Step(s, op).subs[id].cap == s.subs[id].cap
  {
  }
}
