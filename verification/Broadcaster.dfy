// internal/lab/broadcaster.go on its own objects: the table of channels and the loop
// that fills them.
module Broadcaster {
  import opened BroadcasterModel

  // A buffered channel with at most one receiver, and what that receiver got.
  class Channel {
    const cap: nat
    var buf: seq<Event>
    var parked: bool
    var closed: bool
    ghost var received: seq<Event>

    ghost function View(registered: bool): Sub
      reads this
    {
      Sub(cap, buf, parked, received, if registered then Live else if closed then Closed else Removed)
    }

    constructor (cap: nat)
      ensures !closed && View(true) == NewSub(cap)
      ensures this.cap == cap && buf == [] && !parked && received == []
    {
      this.cap := cap;
      buf, parked, closed, received := [], false, false, [];
    }

    // select { case ch <- ev: default: }; a send on a closed channel would panic.
    method TrySend(ev: Event)
      requires !closed
      modifies this
      ensures !closed && View(true) == Offer(old(View(true)), ev)
      ensures old(parked) ==> received == old(received) + [ev] && buf == old(buf) && !parked
      ensures !old(parked) ==> received == old(received) && !parked
      ensures !old(parked) ==> buf == if |old(buf)| < cap then old(buf) + [ev] else old(buf)
    {
      if parked {
        parked := false;
        received := received + [ev];
      } else if |buf| < cap {
        buf := buf + [ev];
      }
    }

    // <-ch, by the one goroutine that owns the subscription.
    method Receive(ghost registered: bool)
      requires registered ==> !closed
      modifies this
      ensures closed == old(closed) && View(registered) == Take(old(View(registered)))
      ensures old(buf) != [] ==> received == old(received) + [old(buf)[0]] && buf == old(buf)[1..]
      ensures old(buf) == [] ==> received == old(received) && buf == [] && (!closed ==> parked)
    {
      if |buf| > 0 {
        received := received + [buf[0]];
        buf := buf[1..];
      } else if !closed {
        parked := true;
      }
    }

    // close(ch); closing twice would panic.
    method Close()
      requires !closed
      modifies this
      ensures closed && View(false) == BroadcasterModel.Close(old(View(false)))
      ensures !parked && buf == old(buf) && received == old(received)
    {
      closed := true;
      parked := false;
    }
  }

  class Broadcaster {
    var subs: map<nat, Channel>
    var last: nat

    // Ids map to distinct open channels: nothing registered is closed.
    ghost predicate Valid()
      reads this, subs.Values
    {
      && (forall id :: id in subs ==> 1 <= id <= last && !subs[id].closed)
      && (forall i, j :: i in subs && j in subs && i != j ==> subs[i] != subs[j])
    }

    ghost function Views(): map<nat, Sub>
      reads this, subs.Values
    {
      map id | id in subs :: subs[id].View(true)
    }

    constructor ()
      ensures Valid() && subs == map[] && last == 0
    {
      subs, last := map[], 0;
    }

    method Subscribe(bufSize: nat) returns (id: nat, ch: Channel)
      requires Valid()
      modifies this
      ensures Valid() && fresh(ch) && id == last == old(last) + 1 && id !in old(subs)
      ensures subs == old(subs)[id := ch] && Views() == old(Views())[id := NewSub(bufSize)]
      ensures ch.cap == bufSize && ch.buf == [] && ch.received == []
    {
      last := last + 1;
      id := last;
      ch := new Channel(bufSize);
      subs := subs[id := ch];
    }

    // The locked half of the cancel function; Channel.Close is the other.
    method Unregister(id: nat) returns (ch: Channel)
      requires Valid() && id in subs
      modifies this`subs
      ensures Valid() && ch == old(subs)[id] && !ch.closed && subs == old(subs) - {id}
    {
      ch := subs[id];
      subs := subs - {id};
    }

    // Publish visits the subscribers in any order; every send finds an open channel.
    method Publish(ev: Event)
      requires Valid()
      modifies subs.Values
      ensures Valid()
      ensures Views() == map id | id in old(Views()) :: Offer(old(Views())[id], ev)
    {
      ghost var before := Views();
      var left := subs.Keys;
      while left != {}
        invariant Valid() && left <= subs.Keys
        invariant Views() == Served(before, left, ev)
        decreases left
      {
        var id :| id in left;
        ServedStep(before, left, id, ev);
        SendTo(id, ev);
        left := left - {id};
      }
    }

    method SendTo(id: nat, ev: Event)
      requires Valid() && id in subs
      modifies subs[id]
      ensures Valid() && Views() == old(Views())[id := Offer(old(Views())[id], ev)]
    {
      ghost var before := Views();
      subs[id].TrySend(ev);
      assert forall x :: x in subs && x != id ==> Views()[x] == before[x];
    }
  }

  // The views with the event offered to all but those left.
  ghost function Served(views: map<nat, Sub>, left: set<nat>, ev: Event): map<nat, Sub> {
    map id | id in views :: if id in left then views[id] else Offer(views[id], ev)
  }

  lemma ServedStep(views: map<nat, Sub>, left: set<nat>, id: nat, ev: Event)
    requires id in left && id in views
    ensures Served(views, left, ev)[id] == views[id]
    ensures Served(views, left - {id}, ev) == Served(views, left, ev)[id := Offer(views[id], ev)]
  {
  }
}
