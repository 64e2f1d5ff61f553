// internal/angels/sentinel/dedup.go: Deduplicator, a map from connection keys to the
// time they were last reported, pruned lazily and halved when it grows too large.
module Deduplicator {
  import opened Digits
  import Addresses

  const DEDUP_TTL := 300_000_000_000   // five minutes, in nanoseconds
  const MAX_DEDUP_SIZE := 100_000
  const PRUNE_AT := 500

  // A [6]byte made by OutboundConn.CompactKey.
  datatype Key = Key(bytes: seq<Byte>)

  function KeyOf(ip: Addresses.IP, port: nat): Key
    requires port < 0x1_0000
  {
    Key(Addresses.CompactKey(ip, port))
  }

  // --------------------------------------------------------------------------
  // The reference: a map nothing ever leaves on account of its age
  // --------------------------------------------------------------------------

  // One call: a question with its answer, whether it inserted the key, and the keys
  // pruneHalf discarded during it; or a Reset.
  datatype Event = Asked(key: Key, at: int, isNew: bool, inserted: bool, dropped: set<Key>) | Cleared

  function Next(ref: map<Key, int>, e: Event): map<Key, int> {
    match e
    case Asked(key, at, isNew, _, dropped) => (if isNew then ref[key := at] else ref) - dropped
    case Cleared => map[]
  }

  function Reference(log: seq<Event>): map<Key, int> {
    if log == [] then map[] else Next(Reference(log[..|log| - 1]), log[|log| - 1])
  }

  predicate Fresh(m: map<Key, int>, key: Key, now: int) {
    key !in m || now - m[key] > DEDUP_TTL
  }

  // Every answer of the run is the one the reference gives.
  ghost predicate Faithful(log: seq<Event>) {
    forall i :: 0 <= i < |log| && log[i].Asked? ==>
      log[i].isNew == Fresh(Reference(log[..i]), log[i].key, log[i].at)
  }

  // Questions are asked at non-decreasing times from start on.
  function Latest(log: seq<Event>, start: int): int {
    if log == [] then start
    else match log[|log| - 1]
         case Asked(_, at, _, _, _) => at
         case Cleared => Latest(log[..|log| - 1], start)
  }

  ghost predicate Timely(log: seq<Event>, start: int) {
    forall i :: 0 <= i < |log| && log[i].Asked? ==> Latest(log[..i], start) <= log[i].at
  }

  // seen is the reference minus entries that have expired for good.
  predicate Represents(seen: map<Key, int>, ref: map<Key, int>, now: int) {
    && seen.Keys <= ref.Keys
    && (forall k :: k in seen ==> seen[k] == ref[k])
    && (forall k :: k in ref && k !in seen ==> now - ref[k] > DEDUP_TTL)
  }

  // pruneHalf: the newer half stays as it was.
  ghost predicate NewerHalf(m: map<Key, int>, m': map<Key, int>) {
    && m'.Keys <= m.Keys
    && (forall k :: k in m' ==> m'[k] == m[k])
    && |m'| == |m| - |m| / 2
    && (forall k, k' :: k in m && k !in m' && k' in m' ==> m[k] <= m[k'])
  }

  // The cap: a map that reached it loses its older half.
  ghost predicate Capped(m: map<Key, int>, m': map<Key, int>, dropped: set<Key>) {
    if |m| < MAX_DEDUP_SIZE then m' == m && dropped == {}
    else NewerHalf(m, m') && dropped == m.Keys - m'.Keys
  }

  // The fields of a deduplicator.
  datatype Book = Fields(seen: map<Key, int>, calls: nat, lastPruneAt: int)

  predicate Due(b: Book, now: int) { b.calls + 1 >= PRUNE_AT && now - b.lastPruneAt >= DEDUP_TTL / 4 }

  function Pruning(seen: map<Key, int>, now: int): map<Key, int> {
    map k | k in seen && now - seen[k] <= DEDUP_TTL :: seen[k]
  }

  // What one question does to the fields.
  ghost predicate Moved(b: Book, key: Key, now: int, isNew: bool, dropped: set<Key>, b': Book) {
    if key in b.seen then
      b' == b.(seen := if isNew then b.seen[key := now] else b.seen) && dropped == {}
    else
      var grown := b.seen[key := now];
      && b'.calls == (if b.calls + 1 >= PRUNE_AT then 0 else b.calls + 1)
      && b'.lastPruneAt == (if Due(b, now) then now else b.lastPruneAt)
      && Capped(if Due(b, now) then Pruning(grown, now) else grown, b'.seen, dropped)
  }

  // A key on record stays, its time renewed if it had expired, and nothing else happens.
  lemma OnRecord(b: Book, key: Key, now: int, isNew: bool, dropped: set<Key>, b': Book)
    requires Moved(b, key, now, isNew, dropped, b') && key in b.seen
    ensures b'.calls == b.calls && b'.lastPruneAt == b.lastPruneAt && dropped == {}
    ensures b'.seen.Keys == b.seen.Keys && b'.seen[key] == (if isNew then now else b.seen[key])
    ensures forall k :: k in b.seen && k != key ==> b'.seen[k] == b.seen[k]
  {
  }

  // Any other key is inserted.  When that is the 500th insertion since the last such
  // moment, and 75 seconds or more after the last pruning, nothing older than five
  // minutes stays; otherwise nothing goes, unless the map now has 100000 keys.
  lemma Insertion(b: Book, key: Key, now: int, isNew: bool, dropped: set<Key>, b': Book)
    requires Moved(b, key, now, isNew, dropped, b') && key !in b.seen && b.calls < 500
    ensures b'.calls == (b.calls + 1) % 500
    ensures var due := b.calls == 499 && now - b.lastPruneAt >= 75_000_000_000;
            var grown := b.seen[key := now];
            && b'.lastPruneAt == (if due then now else b.lastPruneAt)
            && (forall k :: k in b'.seen ==> k in grown && b'.seen[k] == grown[k])
            && (due ==> forall k :: k in b'.seen ==> now - b'.seen[k] <= 300_000_000_000)
            && (forall k :: k in grown && k !in b'.seen && k !in dropped ==> due && now - grown[k] > 300_000_000_000)
            && dropped <= grown.Keys - b'.seen.Keys
  {
  }

  // Keys are discarded exactly when 100000 are left after that: 50000 of them, none
  // reported later than one that stays.
  lemma AtTheCap(b: Book, key: Key, now: int, isNew: bool, dropped: set<Key>, b': Book)
    requires Moved(b, key, now, isNew, dropped, b') && |b.seen| < 100_000
    ensures dropped != {} ==> key !in b.seen && |dropped| == |b'.seen| == 50_000 && b'.seen.Keys !! dropped
    ensures |b'.seen| < 100_000
    ensures forall d, k :: d in dropped && k in b'.seen ==>
              var grown := b.seen[key := now]; d in grown && k in grown && grown[d] <= grown[k]
  {
    var grown := b.seen[key := now];
    if key !in b.seen {
      OneMore(b.seen, key, now);
      Fewer(Pruning(grown, now).Keys, grown.Keys);
      CapCounts(if Due(b, now) then Pruning(grown, now) else grown, b'.seen, dropped);
    }
  }

  // An insertion put together from its three parts.
  lemma MovedByInsertion(b: Book, key: Key, now: int, grown: map<Key, int>, kept: map<Key, int>,
                         dropped: set<Key>, b': Book)
    requires key !in b.seen && grown == b.seen[key := now]
    requires kept == if Due(b, now) then Pruning(grown, now) else grown
    requires Capped(kept, b'.seen, dropped)
    requires b'.calls == if b.calls + 1 >= PRUNE_AT then 0 else b.calls + 1
    requires b'.lastPruneAt == if Due(b, now) then now else b.lastPruneAt
    ensures Moved(b, key, now, true, dropped, b')
  {
  }

  lemma CapCounts(kept: map<Key, int>, half: map<Key, int>, dropped: set<Key>)
    requires Capped(kept, half, dropped) && |kept| <= 100_000
    ensures dropped != {} <==> |kept| == 100_000
    ensures dropped != {} ==> |dropped| == |half| == 50_000 && half.Keys + dropped == kept.Keys && half.Keys !! dropped
    ensures forall d, k :: d in dropped && k in half ==> d in kept && k in kept && kept[d] <= kept[k]
    ensures |half| + |dropped| == |kept|
  {
    if |kept| >= MAX_DEDUP_SIZE {
      assert half.Keys + dropped == kept.Keys;
      assert |dropped| == |kept.Keys| - |half.Keys|;
    }
  }

  lemma OneMore(m: map<Key, int>, key: Key, now: int)
    requires key !in m
    ensures |m[key := now]| == |m| + 1
  {
    assert m[key := now].Keys == m.Keys + {key};
  }

  lemma Fewer<T>(a: set<T>, b: set<T>)
    requires a <= b
    ensures |a| <= |b|
  {
    assert b == a + (b - a);
  }

  // Insertions of a run, and when the last pruning happened in it: at every 500th
  // insertion that comes at least a quarter of the TTL after the pruning before it.
  function Insertions(log: seq<Event>): nat {
    if log == [] then 0
    else
      var e := log[|log| - 1];
      Insertions(log[..|log| - 1]) + if e.Asked? && e.inserted then 1 else 0
  }

  function LastPrune(log: seq<Event>, start: int): int {
    if log == [] then start
    else
      var e, last := log[|log| - 1], LastPrune(log[..|log| - 1], start);
      if e.Asked? && e.inserted && Insertions(log) % 500 == 0 && e.at - last >= 75_000_000_000 then e.at else last
  }

  // Whenever the cap was reached, 50000 keys were discarded, none of them reported after
  // one that stayed and has not expired.
  ghost predicate Halves(log: seq<Event>) {
    forall j :: 0 <= j < |log| && log[j].Asked? && log[j].dropped != {} ==>
      HalvedAt(Reference(log[..j])[log[j].key := log[j].at], log[j].at, log[j].dropped)
  }

  ghost predicate HalvedAt(ref: map<Key, int>, at: int, dropped: set<Key>) {
    && |dropped| == 50_000 && dropped <= ref.Keys
    && forall d, k :: d in dropped && k in ref && k !in dropped && at - ref[k] <= 300_000_000_000 ==> ref[d] <= ref[k]
  }

  // A key reported strictly later than all others was not discarded at once.
  ghost predicate KeepsNewest(log: seq<Event>) {
    forall j :: 0 <= j < |log| && log[j].Asked? && Newest(log, j) ==> log[j].key !in log[j].dropped
  }

  ghost predicate Newest(log: seq<Event>, j: nat)
    requires j < |log| && log[j].Asked?
  {
    forall i :: 0 <= i < j && log[i].Asked? ==> log[i].at < log[j].at
  }

  // --------------------------------------------------------------------------
  // The deduplicator
  // --------------------------------------------------------------------------

  class Deduplicator {
    var seen: map<Key, int>
    var calls: nat
    var lastPruneAt: int
    ghost const start: int
    ghost var log: seq<Event>

    ghost function Book(): Book
      reads this
    {
      Fields(seen, calls, lastPruneAt)
    }

    ghost predicate Valid()
      reads this
    {
      && |seen| < MAX_DEDUP_SIZE
      && Represents(seen, Reference(log), Latest(log, start))
      && Faithful(log) && Timely(log, start)
      && Halves(log) && KeepsNewest(log)
      && calls == Insertions(log) % 500 && lastPruneAt == LastPrune(log, start)
    }

    constructor (now: int)
      ensures Valid() && log == [] && start == now && seen == map[]
    {
      seen := map[];
      calls := 0;
      lastPruneAt := now;
      start := now;
      log := [];
    }

    // A key on record stays, its time renewed if it had expired.  Any other is inserted;
    // every 500th insertion deletes what has expired if the last pruning is at least 75
    // seconds ago; and a map that has then reached 100000 keys loses the older half.
    method IsNew(ip: Addresses.IP, port: nat, now: int) returns (isNew: bool, ghost dropped: set<Key>)
      requires Valid() && port < 0x1_0000 && Latest(log, start) <= now
      modifies this
      ensures Valid()
      ensures log == old(log) + [Asked(KeyOf(ip, port), now, isNew, KeyOf(ip, port) !in old(seen), dropped)]
      ensures isNew == Fresh(Reference(old(log)), KeyOf(ip, port), now)
      ensures Moved(old(Book()), KeyOf(ip, port), now, isNew, dropped, Book())
    {
      var key := KeyOf(ip, port);
      ghost var inserted := key !in seen;
      NewestOnRecord(log, seen, start, now);
      ghost var book := Book();
      isNew, dropped := Answer(key, now, Reference(log), Latest(log, start));
      ghost var e := Asked(key, now, isNew, inserted, dropped);
      Recorded(log, e, start);
      Counted(log, start, e, book, Book());
      log := log + [e];
    }

    // The body of IsNew under its lock.
    method Answer(key: Key, now: int, ghost ref: map<Key, int>, ghost last: int)
      returns (isNew: bool, ghost dropped: set<Key>)
      requires |seen| < MAX_DEDUP_SIZE && Represents(seen, ref, last) && last <= now
      modifies `seen, `calls, `lastPruneAt
      ensures |seen| < MAX_DEDUP_SIZE && isNew == Fresh(ref, key, now)
      ensures Represents(seen, (if isNew then ref[key := now] else ref) - dropped, now)
      ensures Moved(old(Book()), key, now, isNew, dropped, Book())
      ensures dropped != {} ==> HalvedAt(ref[key := now], now, dropped)
      ensures (forall k :: k in old(seen) ==> old(seen)[k] < now) ==> key !in dropped
    {
      dropped := {};
      if key !in seen {
        isNew := true;
        dropped := Remember(key, now, ref, last);
      } else {
        isNew := now - seen[key] > DEDUP_TTL;
        Refreshed(seen, ref, last, key, now);
        if isNew {
          seen := seen[key := now];
        }
        Halved(seen, seen, if isNew then ref[key := now] else ref, now);
      }
    }

    // The branch of IsNew for a key not on record: store it, prune now and then, and
    // halve the map at the cap.
    method Remember(key: Key, now: int, ghost ref: map<Key, int>, ghost last: int) returns (ghost dropped: set<Key>)
      requires key !in seen && |seen| < MAX_DEDUP_SIZE && Represents(seen, ref, last) && last <= now
      modifies `seen, `calls, `lastPruneAt
      ensures |seen| < MAX_DEDUP_SIZE && Represents(seen, ref[key := now] - dropped, now)
      ensures Moved(old(Book()), key, now, true, dropped, Book())
      ensures dropped != {} ==> HalvedAt(ref[key := now], now, dropped)
      ensures (forall k :: k in old(seen) ==> old(seen)[k] < now) ==> key !in dropped
    {
      Refreshed(seen, ref, last, key, now);
      seen := seen[key := now];
      OneMore(old(seen), key, now);
      ghost var grown, book := seen, old(Book());
      PruneSometimes(now, ref[key := now]);
      ghost var kept := seen;
      dropped := Cap(key, now, ref[key := now]);
      MovedByInsertion(book, key, now, grown, kept, dropped, Book());
    }

    // The cap.
    method Cap(ghost key: Key, ghost now: int, ghost ref: map<Key, int>) returns (ghost dropped: set<Key>)
      requires Represents(seen, ref, now) && |seen| <= MAX_DEDUP_SIZE
      modifies `seen
      ensures |seen| < MAX_DEDUP_SIZE && Represents(seen, ref - dropped, now) && Capped(old(seen), seen, dropped)
      ensures dropped != {} ==> HalvedAt(ref, now, dropped)
      ensures && key in old(seen) && old(seen)[key] == now
              && (forall k :: k in old(seen) && k != key ==> old(seen)[k] < now)
              ==> key !in dropped
    {
      dropped := {};
      Halved(seen, seen, ref, now);
      if |seen| >= MAX_DEDUP_SIZE {
        ghost var full := seen;
        PruneHalf();
        dropped := full.Keys - seen.Keys;
        Halved(full, seen, ref, now);
        HalfDropped(full, seen, ref, now);
        if key in full && full[key] == now {
          NewestStays(full, seen, key, now);
        }
      }
    }

    // Every so many insertions, if the last pruning is long enough ago.
    method PruneSometimes(now: int, ghost ref: map<Key, int>)
      requires Represents(seen, ref, now)
      modifies `seen, `calls, `lastPruneAt
      ensures Represents(seen, ref, now) && |seen| <= |old(seen)|
      ensures calls == (if old(calls) + 1 >= PRUNE_AT then 0 else old(calls) + 1)
      ensures lastPruneAt == (if Due(old(Book()), now) then now else old(lastPruneAt))
      ensures seen == if Due(old(Book()), now) then Pruning(old(seen), now) else old(seen)
    {
      calls := calls + 1;
      if calls >= PRUNE_AT {
        if now - lastPruneAt >= DEDUP_TTL / 4 {
          Prune(now);
          Pruned(old(seen), seen, ref, now);
          lastPruneAt := now;
        }
        calls := 0;
      }
    }

    method Reset()
      requires Valid()
      modifies this`seen, this`log
      ensures Valid() && log == old(log) + [Cleared] && seen == map[]
    {
      ghost var book := Book();
      seen := map[];
      Recorded(log, Cleared, start);
      Counted(log, start, Cleared, book, Book());
      log := log + [Cleared];
    }

    method Size() returns (n: nat)
      requires Valid()
      ensures n == |seen| < MAX_DEDUP_SIZE
    {
      n := |seen|;
    }

    // for key, last := range seen: delete what has expired, in any order.
    method Prune(now: int)
      modifies this`seen
      ensures seen.Keys <= old(seen).Keys && |seen| <= |old(seen)|
      ensures forall k :: k in seen ==> seen[k] == old(seen)[k]
      ensures forall k :: k in old(seen) ==> (k in seen <==> now - old(seen)[k] <= DEDUP_TTL)
    {
      var keys := seen.Keys;
      while keys != {}
        invariant keys <= seen.Keys <= old(seen).Keys && |seen| <= |old(seen)|
        invariant forall k :: k in seen ==> seen[k] == old(seen)[k]
        invariant forall k :: k in old(seen) && k !in keys ==> (k in seen <==> now - old(seen)[k] <= DEDUP_TTL)
        decreases keys
      {
        var key :| key in keys;
        if now - seen[key] > DEDUP_TTL {
          assert |(seen - {key}).Keys| <= |seen.Keys| by { assert (seen - {key}).Keys == seen.Keys - {key}; }
          seen := seen - {key};
        }
        keys := keys - {key};
      }
    }

    method PruneHalf()
      modifies this`seen
      ensures NewerHalf(old(seen), seen)
    {
      var entries := Entries(seen);
      entries := SortByTime(entries, seen);
      var keep := |entries| / 2;
      assert entries == entries[..keep] + entries[keep..];
      var newMap := MapOf(entries[keep..]);
      NewerHalfKept(entries[..keep], entries[keep..], seen, newMap);
      seen := newMap;
    }
  }

  // for _, e := range entries: newMap[e.key] = e.last
  method MapOf(entries: seq<Entry>) returns (newMap: map<Key, int>)
    requires Distinct(entries)
    ensures Lists(entries, newMap)
    ensures forall k :: k in newMap ==> exists i :: 0 <= i < |entries| && entries[i].key == k
  {
    newMap := map[];
    for i := 0 to |entries|
      invariant |newMap| == i
      invariant forall k :: k in newMap ==> exists j :: 0 <= j < i && entries[j].key == k
      invariant forall j :: 0 <= j < i ==> entries[j].key in newMap && newMap[entries[j].key] == entries[j].last
    {
      newMap := newMap[entries[i].key := entries[i].last];
    }
  }

  lemma NewerHalfKept(older: seq<Entry>, newer: seq<Entry>, m: map<Key, int>, newMap: map<Key, int>)
    requires Lists(older + newer, m) && Ascending(older + newer) && |older| == |older + newer| / 2
    requires Lists(newer, newMap)
    requires forall k :: k in newMap ==> exists i :: 0 <= i < |newer| && newer[i].key == k
    ensures NewerHalf(m, newMap)
  {
    var entries := older + newer;
    forall k | k in newMap
      ensures k in m && newMap[k] == m[k]
    {
      var i :| 0 <= i < |newer| && newer[i].key == k;
      assert entries[|older| + i] == newer[i];
    }
    forall k, k' | k in m && k !in newMap && k' in newMap
      ensures m[k] <= m[k']
    {
      var i := Position(entries, m, k);
      var i' :| 0 <= i' < |newer| && newer[i'].key == k';
      OlderIsOlder(older, newer, m, newMap, i, i');
    }
  }

  lemma OlderIsOlder(older: seq<Entry>, newer: seq<Entry>, m: map<Key, int>, newMap: map<Key, int>, i: nat, i': nat)
    requires Lists(older + newer, m) && Ascending(older + newer) && Lists(newer, newMap)
    requires i < |older + newer| && (older + newer)[i].key !in newMap && i' < |newer|
    ensures newer[i'].key in m && m[(older + newer)[i].key] <= m[newer[i'].key]
  {
    var entries := older + newer;
    assert entries[|older| + i'] == newer[i'];
    assert forall j :: |older| <= j < |entries| ==> entries[j] == newer[j - |older|];
  }

  // Reporting a key in both maps, or only letting time pass, keeps one representing
  // the other.
  lemma Refreshed(seen: map<Key, int>, ref: map<Key, int>, last: int, key: Key, now: int)
    requires Represents(seen, ref, last) && last <= now
    ensures Represents(seen[key := now], ref[key := now], now)
    ensures Represents(seen, ref, now)
  {
  }

  // Deleting what has expired is deleting what the reference treats as absent.
  lemma Pruned(seen: map<Key, int>, seen': map<Key, int>, ref: map<Key, int>, now: int)
    requires Represents(seen, ref, now) && seen'.Keys <= seen.Keys
    requires forall k :: k in seen ==> (k in seen' <==> now - seen[k] <= DEDUP_TTL)
    requires forall k :: k in seen' ==> seen'[k] == seen[k]
    ensures Represents(seen', ref, now)
  {
  }

  // Deleting anything else must be deleted from the reference, too.
  lemma Halved(seen: map<Key, int>, seen': map<Key, int>, ref: map<Key, int>, now: int)
    requires Represents(seen, ref, now) && seen'.Keys <= seen.Keys
    requires forall k :: k in seen' ==> seen'[k] == seen[k]
    ensures Represents(seen', ref - (seen.Keys - seen'.Keys), now)
    ensures seen' == seen ==> ref - (seen.Keys - seen'.Keys) == ref - {} == ref
  {
    assert seen' == seen ==> seen.Keys - seen'.Keys == {};
  }

  // What halving discards, seen from the reference.
  lemma HalfDropped(full: map<Key, int>, half: map<Key, int>, ref: map<Key, int>, now: int)
    requires Represents(full, ref, now) && NewerHalf(full, half) && |full| == 100_000
    ensures HalvedAt(ref, now, full.Keys - half.Keys)
  {
    assert full.Keys - (full.Keys - half.Keys) == half.Keys;
    assert |full.Keys - half.Keys| == |full.Keys| - |half.Keys|;
  }

  lemma NewestStays(full: map<Key, int>, half: map<Key, int>, key: Key, now: int)
    requires NewerHalf(full, half) && |full| == 100_000 && key in full && full[key] == now
    ensures (forall k :: k in full && k != key ==> full[k] < now) ==> key in half
  {
    assert |half.Keys| > 0;
    var k :| k in half.Keys;
  }

  // Everything on record was reported by an earlier call, so if all those were before
  // now, everything on record is older.
  lemma NewestOnRecord(log: seq<Event>, seen: map<Key, int>, start: int, now: int)
    requires Represents(seen, Reference(log), Latest(log, start))
    ensures (forall i :: 0 <= i < |log| && log[i].Asked? ==> log[i].at < now) ==>
              forall k :: k in seen ==> seen[k] < now
  {
    assert log[..|log|] == log;
    forall k | k in seen
      ensures exists i :: 0 <= i < |log| && log[i].Asked? && log[i].at == seen[k]
    {
      var i := ReportExists(log, k, |log|);
    }
  }

  lemma NextCount(n: nat)
    ensures (n % 500 + 1) % 500 == (n + 1) % 500 && (n % 500 == 499 <==> (n + 1) % 500 == 0)
  {
  }

  datatype Entry = Entry(key: Key, last: int)

  // es lists the entries of m, each once.
  predicate Lists(es: seq<Entry>, m: map<Key, int>) {
    && |es| == |m|
    && (forall i :: 0 <= i < |es| ==> es[i].key in m && m[es[i].key] == es[i].last)
    && Distinct(es)
  }

  predicate Distinct(es: seq<Entry>) {
    forall i, j :: 0 <= i < j < |es| ==> es[i].key != es[j].key
  }

  predicate Ascending(es: seq<Entry>) {
    forall i, j :: 0 <= i < j < |es| ==> es[i].last <= es[j].last
  }

  // for k, t := range seen, in any order.
  method Entries(m: map<Key, int>) returns (es: seq<Entry>)
    ensures Lists(es, m)
  {
    es := [];
    var keys := m.Keys;
    while keys != {}
      invariant keys <= m.Keys && |es| + |keys| == |m|
      invariant forall i :: 0 <= i < |es| ==> es[i].key in m && es[i].key !in keys && m[es[i].key] == es[i].last
      invariant Distinct(es)
      decreases keys
    {
      var k :| k in keys;
      es := es + [Entry(k, m[k])];
      keys := keys - {k};
    }
  }

  // sort.Slice by last: any ascending arrangement of the same entries.
  method SortByTime(es: seq<Entry>, ghost m: map<Key, int>) returns (sorted: seq<Entry>)
    requires Lists(es, m)
    ensures Lists(sorted, m) && Ascending(sorted)
  {
    sorted := [];
    for i := 0 to |es|
      invariant |sorted| == i && Ascending(sorted)
      invariant forall k :: 0 <= k < i ==> sorted[k] in es[..i]
      invariant Distinct(sorted)
    {
      forall k | 0 <= k < i
        ensures sorted[k].key != es[i].key
      {
        var e :| 0 <= e < i && es[e] == sorted[k];
      }
      sorted := Insert(sorted, es[i]);
    }
    assert es[..|es|] == es;
  }

  method Insert(sorted: seq<Entry>, e: Entry) returns (sorted': seq<Entry>)
    requires Ascending(sorted) && Distinct(sorted)
    requires forall k :: 0 <= k < |sorted| ==> sorted[k].key != e.key
    ensures |sorted'| == |sorted| + 1 && Ascending(sorted') && Distinct(sorted')
    ensures forall k :: 0 <= k < |sorted'| ==> sorted'[k] == e || sorted'[k] in sorted
  {
    var p := |sorted|;
    while p > 0 && e.last < sorted[p - 1].last
      invariant 0 <= p <= |sorted|
      invariant forall k :: p <= k < |sorted| ==> e.last < sorted[k].last
    {
      p := p - 1;
    }
    sorted' := sorted[..p] + [e] + sorted[p..];
    InsertedAt(sorted, e, p);
  }

  lemma InsertedAt(sorted: seq<Entry>, e: Entry, p: nat)
    requires Ascending(sorted) && Distinct(sorted) && p <= |sorted|
    requires forall k :: 0 <= k < |sorted| ==> sorted[k].key != e.key
    requires p > 0 ==> sorted[p - 1].last <= e.last
    requires forall k :: p <= k < |sorted| ==> e.last < sorted[k].last
    ensures var s := sorted[..p] + [e] + sorted[p..];
            && Ascending(s) && Distinct(s)
            && forall k :: 0 <= k < |s| ==> s[k] == e || s[k] in sorted
  {
    var s := sorted[..p] + [e] + sorted[p..];
    assert forall k :: 0 <= k < p ==> sorted[k].last <= e.last;
    Inserted(sorted, e, p, s);
  }

  lemma Inserted(sorted: seq<Entry>, e: Entry, p: nat, s: seq<Entry>)
    requires Ascending(sorted) && Distinct(sorted) && p <= |sorted| && |s| == |sorted| + 1
    requires s[p] == e && (forall k :: 0 <= k < p ==> s[k] == sorted[k])
    requires forall k :: p < k < |s| ==> s[k] == sorted[k - 1]
    requires forall k :: 0 <= k < |sorted| ==> sorted[k].key != e.key
    requires forall k :: 0 <= k < p ==> sorted[k].last <= e.last
    requires forall k :: p <= k < |sorted| ==> e.last < sorted[k].last
    ensures Ascending(s) && Distinct(s)
  {
    forall k, l | 0 <= k < l < |s|
      ensures s[k].last <= s[l].last && s[k].key != s[l].key
    {
      if k > p {
        assert s[k] == sorted[k - 1];
      }
      if l > p {
        assert s[l] == sorted[l - 1];
      }
    }
  }

  // A list with as many distinct keys as the map has lists them all.
  lemma Position(es: seq<Entry>, m: map<Key, int>, k: Key) returns (i: nat)
    requires Lists(es, m) && k in m
    ensures i < |es| && es[i].key == k
  {
    DistinctKeys(es);
    SameSize((set e | e in es :: e.key), m.Keys);
    var e :| e in es && e.key == k;
    i :| 0 <= i < |es| && es[i] == e;
  }

  lemma {:induction false} DistinctKeys(es: seq<Entry>)
    requires Distinct(es)
    ensures |set e | e in es :: e.key| == |es|
  {
    if es != [] {
      var n := |es| - 1;
      DistinctKeys(es[..n]);
      var keys, keys' := (set e | e in es[..n] :: e.key), (set e | e in es :: e.key);
      assert es == es[..n] + [es[n]];
      assert keys' == keys + {es[n].key};
    }
  }

  lemma SameSize<T>(a: set<T>, b: set<T>)
    requires a <= b && |a| == |b|
    ensures a == b
  {
    assert b == a + (b - a);
  }

  // Appending an event extends each property of the run by one instance.
  lemma Recorded(log: seq<Event>, e: Event, start: int)
    requires Faithful(log) && Timely(log, start) && Halves(log) && KeepsNewest(log)
    requires e.Asked? ==> e.isNew == Fresh(Reference(log), e.key, e.at) && Latest(log, start) <= e.at
    requires e.Asked? && e.dropped != {} ==> HalvedAt(Reference(log)[e.key := e.at], e.at, e.dropped)
    requires e.Asked? && (forall i :: 0 <= i < |log| && log[i].Asked? ==> log[i].at < e.at) ==> e.key !in e.dropped
    ensures Faithful(log + [e]) && Timely(log + [e], start) && Halves(log + [e]) && KeepsNewest(log + [e])
    ensures Reference(log + [e]) == Next(Reference(log), e)
    ensures Latest(log + [e], start) == if e.Asked? then e.at else Latest(log, start)
  {
    var log' := log + [e];
    assert log'[..|log|] == log;
    assert forall i :: 0 <= i < |log| ==> log'[..i] == log[..i];
    NewestExtends(log, e);
  }

  // The counters of a run after one more call.
  lemma Counted(log: seq<Event>, start: int, e: Event, b: Book, b': Book)
    requires b.calls == Insertions(log) % 500 && b.lastPruneAt == LastPrune(log, start)
    requires e.Asked? ==>
               Moved(b, e.key, e.at, e.isNew, e.dropped, b') && e.inserted == (e.key !in b.seen)
    requires e.Cleared? ==> b'.calls == b.calls && b'.lastPruneAt == b.lastPruneAt
    ensures b'.calls == Insertions(log + [e]) % 500 && b'.lastPruneAt == LastPrune(log + [e], start)
  {
    assert (log + [e])[..|log|] == log;
    NextCount(Insertions(log));
  }

  lemma NewestExtends(log: seq<Event>, e: Event)
    requires KeepsNewest(log)
    requires e.Asked? && (forall i :: 0 <= i < |log| && log[i].Asked? ==> log[i].at < e.at) ==> e.key !in e.dropped
    ensures KeepsNewest(log + [e])
  {
    var log' := log + [e];
    forall j | 0 <= j < |log'| && log'[j].Asked? && Newest(log', j)
      ensures log'[j].key !in log'[j].dropped
    {
      assert forall i :: 0 <= i < |log| ==> log[i] == log'[i];
      if j < |log| {
        assert Newest(log, j);
      }
    }
  }

  // --------------------------------------------------------------------------
  // What the answers mean, without any map
  // --------------------------------------------------------------------------

  // Between call i and call j, neither Reset nor pruneHalf removed the key.
  ghost predicate Undisturbed(log: seq<Event>, key: Key, i: nat, j: nat)
    requires i <= j <= |log|
  {
    forall m :: i <= m < j ==> log[m].Asked? && key !in log[m].dropped
  }

  ghost predicate Reported(log: seq<Event>, key: Key, i: nat) {
    i < |log| && log[i].Asked? && log[i].key == key && log[i].isNew
  }

  lemma {:induction false} LatestIsMonotone(log: seq<Event>, start: int, i: nat, j: nat)
    requires i <= j <= |log| && Timely(log, start)
    ensures Latest(log[..i], start) <= Latest(log[..j], start)
    decreases j
  {
    if i < j {
      LatestIsMonotone(log, start, i, j - 1);
      assert log[..j][..j - 1] == log[..j - 1];
    }
  }

  // Nothing that happens after a report precedes it.
  lemma ReportsOrdered(log: seq<Event>, start: int, i: nat, j: nat)
    requires Timely(log, start) && i < j < |log| && log[i].Asked? && log[j].Asked?
    ensures log[i].at <= log[j].at
  {
    LatestIsMonotone(log, start, i + 1, j);
    assert log[..i + 1][..i] == log[..i];
  }

  // A reported key stays in the reference, at its report or a later one.
  lemma {:induction false} ReportStays(log: seq<Event>, start: int, key: Key, i: nat, j: nat)
    requires Timely(log, start) && i < j <= |log| && Reported(log, key, i) && Undisturbed(log, key, i, j)
    ensures key in Reference(log[..j]) && Reference(log[..j])[key] >= log[i].at
    decreases j
  {
    var e := log[j - 1];
    ReferenceStep(log, j);
    if i < j - 1 {
      ReportStays(log, start, key, i, j - 1);
      ReportsOrdered(log, start, i, j - 1);
    }
  }

  lemma ReferenceStep(log: seq<Event>, j: nat)
    requires 0 < j <= |log| && log[j - 1].Asked?
    ensures var ref, e := Reference(log[..j - 1]), log[j - 1];
            Reference(log[..j]) == Next(ref, e)
  {
    assert log[..j][..j - 1] == log[..j - 1];
  }

  // What the reference holds was reported and has not been removed since.
  lemma {:induction false} ReportExists(log: seq<Event>, key: Key, j: nat) returns (i: nat)
    requires j <= |log| && key in Reference(log[..j])
    ensures i < j && Reported(log, key, i) && Undisturbed(log, key, i, j)
    ensures log[i].at == Reference(log[..j])[key]
    decreases j
  {
    assert log[..j][..j - 1] == log[..j - 1];
    if Reported(log, key, j - 1) {
      i := j - 1;
    } else {
      i := ReportExists(log, key, j - 1);
    }
  }

  // An answer is "new" exactly when every earlier report of the key that has not been
  // removed since lies more than the TTL back.
  lemma AnswerMeaning(log: seq<Event>, start: int, j: nat)
    requires Faithful(log) && Timely(log, start) && j < |log| && log[j].Asked?
    ensures log[j].isNew
            <==> forall i: nat :: i < j && Reported(log, log[j].key, i) && Undisturbed(log, log[j].key, i, j)
                   ==> log[j].at - log[i].at > DEDUP_TTL
  {
    var key := log[j].key;
    if log[j].isNew {
      forall i: nat | i < j && Reported(log, key, i) && Undisturbed(log, key, i, j)
        ensures log[j].at - log[i].at > DEDUP_TTL
      {
        ReportStays(log, start, key, i, j);
      }
    } else {
      var i := ReportExists(log, key, j);
      assert log[j].at - log[i].at <= DEDUP_TTL;
    }
  }

  // So a key reported strictly later than all before it is not new when it is asked for
  // again within the TTL, whether or not its report filled the map.
  lemma AskedAgain(log: seq<Event>, start: int, j: nat)
    requires Faithful(log) && Timely(log, start) && KeepsNewest(log) && j + 1 < |log|
    requires log[j].Asked? && log[j].isNew && Newest(log, j)
    requires log[j + 1].Asked? && log[j + 1].key == log[j].key && log[j + 1].at - log[j].at <= 300_000_000_000
    ensures !log[j + 1].isNew
  {
    AnswerMeaning(log, start, j + 1);
    assert Reported(log, log[j].key, j) && Undisturbed(log, log[j].key, j, j + 1);
  }

  // The same for connections: among IPv4 peers a key is an address and a port.
  datatype Peer = Peer(ip: Addresses.IP, port: nat)

  // The run asked about these peers, call by call; the peer beside a Reset means nothing.
  ghost predicate AsksAbout(log: seq<Event>, peers: seq<Peer>) {
    && |peers| == |log|
    && forall i :: 0 <= i < |log| && log[i].Asked? ==>
         && Addresses.To4(peers[i].ip).Some? && peers[i].port < 0x1_0000
         && log[i].key == KeyOf(peers[i].ip, peers[i].port)
  }

  predicate SamePeer(p: Peer, q: Peer) { Addresses.To4(p.ip) == Addresses.To4(q.ip) && p.port == q.port }

  // An earlier call reported this peer.
  ghost predicate ReportedPeer(log: seq<Event>, peers: seq<Peer>, p: Peer, i: nat)
    requires AsksAbout(log, peers)
  {
    i < |log| && log[i].Asked? && log[i].isNew && SamePeer(peers[i], p)
  }

  // A connection is new exactly when every earlier report of the same address and port
  // that has not been removed since lies more than the TTL back.
  lemma ConnectionMeaning(log: seq<Event>, peers: seq<Peer>, start: int, j: nat)
    requires Faithful(log) && Timely(log, start) && AsksAbout(log, peers) && j < |log| && log[j].Asked?
    ensures log[j].isNew
            <==> forall i: nat :: i < j && ReportedPeer(log, peers, peers[j], i)
                                  && Undisturbed(log, KeyOf(peers[j].ip, peers[j].port), i, j)
                   ==> log[j].at - log[i].at > DEDUP_TTL
  {
    AnswerMeaning(log, start, j);
    forall i: nat | i < j
      ensures Reported(log, log[j].key, i) <==> ReportedPeer(log, peers, peers[j], i)
    {
      if log[i].Asked? {
        Addresses.CompactKeyInjective(peers[i].ip, peers[i].port, peers[j].ip, peers[j].port);
      }
    }
  }

  // Lazy TTL pruning is invisible: if pruneHalf discarded nothing, the answers are
  // those of a map that never deletes.
  function NeverDeleted(log: seq<Event>): map<Key, int> {
    if log == [] then map[]
    else
      var before := NeverDeleted(log[..|log| - 1]);
      match log[|log| - 1]
      case Asked(key, at, isNew, _, _) => if isNew then before[key := at] else before
      case Cleared => map[]
  }

  lemma {:induction false} PruningInvisible(log: seq<Event>, j: nat)
    requires Faithful(log) && j < |log| && log[j].Asked?
    requires forall i :: 0 <= i < j && log[i].Asked? ==> log[i].dropped == {}
    ensures log[j].isNew == Fresh(NeverDeleted(log[..j]), log[j].key, log[j].at)
  {
    SameMaps(log[..j]);
  }

  lemma {:induction false} SameMaps(log: seq<Event>)
    requires forall i :: 0 <= i < |log| && log[i].Asked? ==> log[i].dropped == {}
    ensures Reference(log) == NeverDeleted(log)
  {
    if log != [] {
      var n := |log| - 1;
      assert forall i :: 0 <= i < n ==> log[..n][i] == log[i];
      SameMaps(log[..n]);
    }
  }
}
