// internal/angels/sentinel/dedup.go: RateTracker, a sliding-window event counter over
// a buffer with a logical start index, lazy compaction and a hard cap.
module RateTracker {

  const MAX_TRACKER_EVENTS := 4096

  // --------------------------------------------------------------------------
  // The abstract queue: events inside the window, capped, and the peak count
  // --------------------------------------------------------------------------

  datatype Op = Add(at: int) | Count(at: int) | Reset

  datatype Queue = Queue(events: seq<int>, peak: nat)

  const EMPTY := Queue([], 0)

  // Drop the leading events older than cutoff.
  function DropOld(events: seq<int>, cutoff: int): seq<int> {
    if events != [] && events[0] < cutoff then DropOld(events[1..], cutoff) else events
  }

  function Apply(q: Queue, op: Op, window: int): Queue {
    match op
    case Add(now) =>
      var live := DropOld(q.events, now - window);
      var events := if |live| < MAX_TRACKER_EVENTS then live + [now] else live;
      Queue(events, if |events| > q.peak then |events| else q.peak)
    case Count(now) => q.(events := DropOld(q.events, now - window))
    case Reset => EMPTY
  }

  // The queue after a whole run.
  function Replay(log: seq<Op>, window: int): Queue {
    if log == [] then EMPTY else Apply(Replay(log[..|log| - 1], window), log[|log| - 1], window)
  }

  lemma ReplayStep(log: seq<Op>, op: Op, window: int)
    ensures Replay(log + [op], window) == Apply(Replay(log, window), op, window)
  {
    assert (log + [op])[..|log|] == log;
  }

  lemma AddApplies(q: Queue, now: int, window: int, kept: seq<int>, events: seq<int>, peak: nat)
    requires kept == DropOld(q.events, now - window)
    requires events == if |kept| < MAX_TRACKER_EVENTS then kept + [now] else kept
    requires peak == if |events| > q.peak then |events| else q.peak
    ensures Apply(q, Add(now), window).events == events && Apply(q, Add(now), window).peak == peak
  {
  }

  // What Add or Count returns as the last operation of a run.
  function Answer(log: seq<Op>, window: int): nat {
    |Replay(log, window).events|
  }

  // --------------------------------------------------------------------------
  // The tracker
  // --------------------------------------------------------------------------

  class RateTracker {
    const window: int
    var data: array<int>   // the backing array of the events slice
    var len: nat           // len(events)
    var startIdx: nat      // events[startIdx:] are valid
    var maxSeen: nat

    ghost var live: seq<int>   // events[startIdx:]
    ghost var log: seq<Op>     // every call so far
    ghost var accepted: nat    // Adds that were stored
    ghost var evictions: nat   // steps of the eviction loop
    ghost var copies: nat      // elements moved by compaction

    ghost predicate Holds()
      reads this, data
    {
      startIdx <= len <= data.Length && live == data[startIdx..len]
    }

    ghost predicate Valid()
      reads this, data
    {
      && Holds() && Bounded()
      && live == Replay(log, window).events
      && maxSeen == Replay(log, window).peak
    }

    // Sizes and costs: the live part is capped, the dead part is at most as long as
    // the live part or 64, each copied element was paid for by an eviction, and each
    // eviction by an accepted Add.
    ghost predicate Bounded()
      reads this
    {
      && startIdx <= len
      && len - startIdx <= MAX_TRACKER_EVENTS
      && (startIdx > 64 ==> startIdx <= len / 2)
      && copies + startIdx <= evictions
      && evictions + (len - startIdx) <= accepted
    }

    // The buffer never outgrows twice the cap, and all eviction and copying work
    // together is at most two steps per accepted Add.
    lemma AmortisedCost()
      requires Valid()
      ensures len <= 8192 && len - startIdx <= 4096
      ensures evictions + copies <= 2 * accepted
    {
    }

    constructor (window: int)
      ensures Valid() && fresh(data)
      ensures this.window == window && log == [] && accepted == evictions == copies == 0
    {
      this.window := window;
      data := new int[128];
      len, startIdx, maxSeen := 0, 0, 0;
      live, log, accepted, evictions, copies := [], [], 0, 0, 0;
    }

    method Evict(now: int)
      requires Holds() && len - startIdx <= MAX_TRACKER_EVENTS
      requires copies + startIdx <= evictions && evictions + (len - startIdx) <= accepted
      modifies this`startIdx, this`len, this`live, this`evictions, this`copies, data
      ensures data == old(data) && Holds() && Bounded()
      ensures live == DropOld(old(live), now - window)
    {
      var cutoff := now - window;
      while startIdx < len && data[startIdx] < cutoff
        invariant Holds() && len == old(len) && data[..] == old(data[..])
        invariant copies + startIdx <= evictions && evictions + (len - startIdx) <= accepted
        invariant len - startIdx <= MAX_TRACKER_EVENTS
        invariant DropOld(live, cutoff) == DropOld(old(live), cutoff)
      {
        assert live[0] == data[startIdx] && live[1..] == data[startIdx + 1..len];
        startIdx := startIdx + 1;
        live := live[1..];
        evictions := evictions + 1;
      }
      if startIdx > len / 2 && startIdx > 64 {
        Compact();
      }
    }

    // copy(r.events, r.events[r.startIdx:]) followed by the reslice.
    method Compact()
      requires Holds() && startIdx > len / 2
      modifies this`startIdx, this`len, this`copies, data
      ensures startIdx == 0 && len == old(len - startIdx)
      ensures Holds() && data == old(data)
      ensures copies == old(copies) + len < old(copies + startIdx) + 1
    {
      var n := len - startIdx;
      for i := 0 to n
        invariant startIdx == old(startIdx) && len == old(len) && data == old(data)
        invariant forall k :: 0 <= k < i ==> data[k] == live[k]
        invariant forall k :: startIdx + i <= k < len ==> data[k] == live[k - startIdx]
        invariant copies == old(copies) + i
      {
        data[i] := data[startIdx + i];
        copies := copies + 1;
      }
      len := n;
      startIdx := 0;
    }

    // append(r.events, now)
    method Append(now: int)
      requires Holds()
      modifies this`data, this`len, this`live, data
      ensures data == old(data) || fresh(data)
      ensures Holds() && len == old(len) + 1 && live == old(live) + [now]
    {
      if len == data.Length {
        var grown := new int[2 * len + 1];
        for i := 0 to len
          invariant data == old(data) && len == old(len) && live == old(live) && data[..] == old(data[..])
          invariant grown[..i] == data[..i]
        {
          grown[i] := data[i];
        }
        data := grown;
      }
      data[len] := now;
      assert data[startIdx..len + 1] == data[startIdx..len] + [now];
      len := len + 1;
      live := live + [now];
    }

    method Add(now: int) returns (count: nat)
      requires Valid()
      modifies this, data
      ensures Valid() && (data == old(data) || fresh(data))
      ensures log == old(log) + [Op.Add(now)] && count == Answer(log, window)
      ensures accepted == old(accepted) + if |DropOld(old(live), now - window)| < MAX_TRACKER_EVENTS then 1 else 0
    {
      ReplayStep(log, Op.Add(now), window);
      log := log + [Op.Add(now)];
      count := EvictAndStore(now);
    }

    // Add does to the live events and the peak what it does to the abstract queue.
    method EvictAndStore(now: int) returns (count: nat)
      requires Holds() && Bounded()
      modifies `data, `len, `startIdx, `live, `maxSeen, `accepted, `evictions, `copies, data
      ensures data == old(data) || fresh(data)
      ensures Holds() && Bounded() && count == |live|
      ensures var q := Apply(Queue(old(live), old(maxSeen)), Op.Add(now), window);
              live == q.events && maxSeen == q.peak
      ensures accepted == old(accepted) + if |DropOld(old(live), now - window)| < MAX_TRACKER_EVENTS then 1 else 0
    {
      Evict(now);
      ghost var kept := live;
      count := Store(now);
      AddApplies(Queue(old(live), old(maxSeen)), now, window, kept, live, maxSeen);
    }

    // Append the event unless the cap is reached, and keep the peak.
    method Store(now: int) returns (count: nat)
      requires Holds() && Bounded()
      modifies `data, `len, `live, `maxSeen, `accepted, data
      ensures data == old(data) || fresh(data)
      ensures Holds() && Bounded()
      ensures live == if |old(live)| < MAX_TRACKER_EVENTS then old(live) + [now] else old(live)
      ensures count == |live| && maxSeen == if count > old(maxSeen) then count else old(maxSeen)
      ensures accepted == old(accepted) + if |old(live)| < MAX_TRACKER_EVENTS then 1 else 0
    {
      if len - startIdx < MAX_TRACKER_EVENTS {
        Append(now);
        accepted := accepted + 1;
      }
      count := len - startIdx;
      if count > maxSeen {
        maxSeen := count;
      }
    }

    method Count(now: int) returns (count: nat)
      requires Valid()
      modifies this`startIdx, this`len, this`live, this`evictions, this`copies, this`log, data
      ensures Valid() && data == old(data)
      ensures log == old(log) + [Op.Count(now)] && count == Answer(log, window)
    {
      ReplayStep(log, Op.Count(now), window);
      log := log + [Op.Count(now)];
      Evict(now);
      count := len - startIdx;
    }

    method MaxSeen() returns (peak: nat)
      requires Valid()
      ensures peak == Replay(log, window).peak
    {
      peak := maxSeen;
    }

    method Reset()
      requires Valid()
      modifies this`startIdx, this`len, this`live, this`maxSeen, this`log
      ensures Valid() && log == old(log) + [Op.Reset]
    {
      ReplayStep(log, Op.Reset, window);
      log := log + [Op.Reset];
      len, startIdx, live, maxSeen := 0, 0, [], 0;
    }
  }

  // --------------------------------------------------------------------------
  // What the queue means
  // --------------------------------------------------------------------------

  // The events at or after cutoff, wherever they stand.
  function Within(events: seq<int>, cutoff: int): seq<int> {
    if events == [] then []
    else
      var n := |events| - 1;
      if events[n] < cutoff then Within(events[..n], cutoff) else Within(events[..n], cutoff) + [events[n]]
  }

  // The Adds since the last Reset ...
  function Requested(log: seq<Op>): seq<int> {
    if log == [] then []
    else match log[|log| - 1]
         case Add(at) => Requested(log[..|log| - 1]) + [at]
         case Count(_) => Requested(log[..|log| - 1])
         case Reset => []
  }

  // ... and those of them that found room.
  function Stored(log: seq<Op>, window: int): seq<int> {
    if log == [] then []
    else
      var before := log[..|log| - 1];
      match log[|log| - 1]
      case Add(at) =>
        if |Within(Stored(before, window), at - window)| < MAX_TRACKER_EVENTS
        then Stored(before, window) + [at] else Stored(before, window)
      case Count(_) => Stored(before, window)
      case Reset => []
  }

  // Calls are made at non-decreasing times, the last of them not after now.
  predicate Timely(log: seq<Op>, now: int) {
    if log == [] then true
    else match log[|log| - 1]
         case Add(at) => at <= now && Timely(log[..|log| - 1], at)
         case Count(at) => at <= now && Timely(log[..|log| - 1], at)
         case Reset => Timely(log[..|log| - 1], now)
  }

  // Times that never decrease and do not exceed now.
  predicate Sorted(events: seq<int>, now: int) {
    && (forall i, j :: 0 <= i < j < |events| ==> events[i] <= events[j])
    && (forall i :: 0 <= i < |events| ==> events[i] <= now)
  }

  // On a sorted sequence, dropping a prefix is filtering.
  lemma {:induction false} DropIsWithin(events: seq<int>, now: int, cutoff: int)
    requires Sorted(events, now)
    ensures DropOld(events, cutoff) == Within(events, cutoff)
  {
    if events != [] {
      var n := |events| - 1;
      DropIsWithin(events[..n], now, cutoff);
      DropLast(events[..n], events[n], cutoff);
      assert events == events[..n] + [events[n]];
      if events[n] < cutoff {
        AllOld(events[..n], cutoff);
      }
    }
  }

  lemma {:induction false} DropLast(events: seq<int>, last: int, cutoff: int)
    ensures DropOld(events + [last], cutoff)
            == if DropOld(events, cutoff) == [] then (if last < cutoff then [] else [last])
               else DropOld(events, cutoff) + [last]
  {
    if events == [] {
      assert [last][1..] == [];
    } else {
      assert (events + [last])[1..] == events[1..] + [last];
      DropLast(events[1..], last, cutoff);
    }
  }

  lemma {:induction false} AllOld(events: seq<int>, cutoff: int)
    requires forall i :: 0 <= i < |events| ==> events[i] < cutoff
    ensures DropOld(events, cutoff) == []
  {
    if events != [] {
      AllOld(events[1..], cutoff);
    }
  }

  lemma WithinAppend(events: seq<int>, last: int, cutoff: int)
    ensures Within(events + [last], cutoff)
            == if last < cutoff then Within(events, cutoff) else Within(events, cutoff) + [last]
  {
    assert (events + [last])[..|events|] == events;
  }

  lemma {:induction false} WithinSorted(events: seq<int>, now: int, cutoff: int)
    requires Sorted(events, now)
    ensures Sorted(Within(events, cutoff), now)
  {
    if events != [] {
      var n := |events| - 1;
      WithinSorted(events[..n], events[n], cutoff);
    }
  }

  // A later cutoff absorbs an earlier one.
  lemma {:induction false} WithinTwice(events: seq<int>, early: int, late: int)
    requires early <= late
    ensures Within(Within(events, early), late) == Within(events, late)
  {
    if events != [] {
      var n := |events| - 1;
      WithinTwice(events[..n], early, late);
      WithinAppend(Within(events[..n], early), events[n], late);
    }
  }

  lemma {:induction false} StoredSorted(log: seq<Op>, window: int, now: int)
    requires Timely(log, now)
    ensures Sorted(Stored(log, window), now)
  {
    if log != [] {
      var before := log[..|log| - 1];
      match log[|log| - 1]
      case Add(at) => StoredSorted(before, window, at);
      case Count(at) => StoredSorted(before, window, at);
      case Reset =>
    }
  }

  // events shows, from now on, what the window holds of stored.
  ghost predicate ShowsWindow(events: seq<int>, stored: seq<int>, window: int, now: int) {
    DropOld(events, now - window) == Within(stored, now - window) && Sorted(events, now)
  }

  // At any time not before the last call, the queue shows exactly the stored events
  // of the window ending then: neither eviction nor its laziness can be observed.
  lemma {:induction false} QueueIsWindow(log: seq<Op>, window: int, now: int)
    requires Timely(log, now)
    ensures ShowsWindow(Replay(log, window).events, Stored(log, window), window, now)
  {
    if log != [] {
      var before := log[..|log| - 1];
      match log[|log| - 1]
      case Reset =>
      case Add(at) =>
        QueueIsWindow(before, window, at);
        StoredSorted(before, window, at);
        AddShows(Replay(before, window), Stored(before, window), window, at, now);
      case Count(at) =>
        QueueIsWindow(before, window, at);
        StoredSorted(before, window, at);
        WindowShrinks(Stored(before, window), window, at, now);
    }
  }

  lemma AddShows(q: Queue, stored: seq<int>, window: int, at: int, now: int)
    requires at <= now && Sorted(stored, at) && ShowsWindow(q.events, stored, window, at)
    ensures ShowsWindow(Apply(q, Add(at), window).events,
                        if |Within(stored, at - window)| < MAX_TRACKER_EVENTS then stored + [at] else stored,
                        window, now)
  {
    if |Within(stored, at - window)| < MAX_TRACKER_EVENTS {
      WindowGrows(stored, window, at, now);
    } else {
      WindowShrinks(stored, window, at, now);
    }
  }

  // Taking the window at one time and again at a later time is taking it once ...
  lemma WindowShrinks(stored: seq<int>, window: int, at: int, now: int)
    requires at <= now && Sorted(stored, at)
    ensures ShowsWindow(Within(stored, at - window), stored, window, now)
  {
    var live := Within(stored, at - window);
    WithinSorted(stored, at, at - window);
    WithinTwice(stored, at - window, now - window);
    DropIsWithin(live, now, now - window);
  }

  // ... also with an event added in between.
  lemma WindowGrows(stored: seq<int>, window: int, at: int, now: int)
    requires at <= now && Sorted(stored, at)
    ensures ShowsWindow(Within(stored, at - window) + [at], stored + [at], window, now)
  {
    GrownSorted(stored, at, at - window);
    DropSorted(Within(stored, at - window) + [at], at, now, now - window);
    WithinTwiceGrown(stored, at, at - window, now - window);
  }

  lemma GrownSorted(stored: seq<int>, at: int, cutoff: int)
    requires Sorted(stored, at)
    ensures Sorted(Within(stored, cutoff) + [at], at)
  {
    WithinSorted(stored, at, cutoff);
  }

  lemma DropSorted(events: seq<int>, at: int, now: int, cutoff: int)
    requires at <= now && Sorted(events, at)
    ensures Sorted(events, now) && DropOld(events, cutoff) == Within(events, cutoff)
  {
    DropIsWithin(events, at, cutoff);
  }

  lemma WithinTwiceGrown(stored: seq<int>, last: int, early: int, late: int)
    requires early <= late
    ensures Within(Within(stored, early) + [last], late) == Within(stored + [last], late)
  {
    WithinTwice(stored, early, late);
    WithinAppend(Within(stored, early), last, late);
    WithinAppend(stored, last, late);
  }

  // A timely Count answers with the number of stored events in its window.
  lemma CountIsWindow(log: seq<Op>, window: int, now: int)
    requires Timely(log, now)
    ensures Answer(log + [Count(now)], window) == |Within(Stored(log, window), now - window)|
  {
    assert (log + [Count(now)])[..|log|] == log;
    QueueIsWindow(log, window, now);
  }

  // No Add since the last Reset was turned away.
  predicate NeverRefused(log: seq<Op>, window: int) {
    Stored(log, window) == Requested(log)
  }

  // An Add is stored exactly if its window holds fewer than 4096 stored events, and
  // then counts itself.
  lemma AddIsWindow(log: seq<Op>, window: int, now: int)
    requires Timely(log, now)
    ensures var n := |Within(Stored(log, window), now - window)|;
            && Answer(log + [Add(now)], window) == (if n < 4096 then n + 1 else n)
            && Stored(log + [Add(now)], window)
               == (if n < 4096 then Stored(log, window) + [now] else Stored(log, window))
  {
    AnswerStep(log, now, window);
    StoredStep(log, now, window);
    QueueIsWindow(log, window, now);
  }

  lemma AnswerStep(log: seq<Op>, now: int, window: int)
    ensures var n := |DropOld(Replay(log, window).events, now - window)|;
            Answer(log + [Add(now)], window) == if n < MAX_TRACKER_EVENTS then n + 1 else n
  {
    ReplayStep(log, Add(now), window);
    AddGrows(Replay(log, window), now, window);
  }

  lemma AddGrows(q: Queue, now: int, window: int)
    ensures var n := |DropOld(q.events, now - window)|;
            |Apply(q, Add(now), window).events| == if n < MAX_TRACKER_EVENTS then n + 1 else n
  {
  }

  lemma StoredStep(log: seq<Op>, now: int, window: int)
    ensures Stored(log + [Add(now)], window)
            == if |Within(Stored(log, window), now - window)| < MAX_TRACKER_EVENTS
               then Stored(log, window) + [now] else Stored(log, window)
  {
    assert (log + [Add(now)])[..|log|] == log;
  }

  // While nothing was refused, Count is the number of Adds in the window, and a
  // window with fewer than 4096 Adds refuses nothing.
  lemma CountIsAdds(log: seq<Op>, window: int, now: int)
    requires Timely(log, now) && NeverRefused(log, window)
    ensures Answer(log + [Count(now)], window) == |Within(Requested(log), now - window)|
    ensures NeverRefused(log + [Add(now)], window)
            <==> |Within(Requested(log), now - window)| < 4096
  {
    CountIsWindow(log, window, now);
    AddIsWindow(log, window, now);
    assert (log + [Add(now)])[..|log|] == log;
    assert Requested(log + [Add(now)]) == Requested(log) + [now];
    assert |Requested(log) + [now]| > |Requested(log)|;
  }

  // Positions of Adds that no later Reset has erased.
  predicate Current(log: seq<Op>, i: nat) {
    && i < |log| && log[i].Add?
    && forall j :: i < j < |log| ==> log[j] != Reset
  }

  lemma EarlierCurrent(log: seq<Op>)
    requires log != [] && log[|log| - 1] != Reset
    ensures var before := log[..|log| - 1];
            forall i: nat :: i < |before| ==>
              (Current(log, i) <==> Current(before, i)) && log[..i + 1] == before[..i + 1]
  {
  }

  // maxSeen is the maximum of what the current Adds returned, 0 if there are none.
  lemma {:induction false} PeakIsMaximum(log: seq<Op>, window: int)
    ensures forall i :: Current(log, i) ==> Answer(log[..i + 1], window) <= Replay(log, window).peak
    ensures Replay(log, window).peak == 0
            || exists i :: Current(log, i) && Answer(log[..i + 1], window) == Replay(log, window).peak
    ensures (exists i :: Current(log, i)) ==> Replay(log, window).peak > 0
  {
    if log != [] {
      var n := |log| - 1;
      var before := log[..n];
      PeakIsMaximum(before, window);
      assert log[..n + 1] == log;
      if log[n] != Reset {
        EarlierCurrent(log);
      }
      if log[n].Add? {
        assert Current(log, n);
        assert Answer(log, window) > 0;
      } else if log[n] == Reset {
        assert forall i: nat :: !Current(log, i);
      }
    }
  }
}
