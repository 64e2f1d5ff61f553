// internal/angels/memory/memory.go: rssWindow, a ring of RSS samples, and the growth
// figures read off its two ends.
module RssWindow {
  import opened Digits

  // ts in nanoseconds, rssKB a uint64.
  datatype Sample = Sample(ts: int, rssKB: nat)

  const ZERO_SAMPLE := Sample(0, 0)

  // The last cap samples of a history.
  function LastOf(hist: seq<Sample>, cap: nat): (s: seq<Sample>)
    ensures |s| == if |hist| < cap then |hist| else cap
  {
    if |hist| < cap then hist else hist[|hist| - cap..]
  }

  class RssWindow {
    var samples: array<Sample>
    var head: nat
    var size: nat
    ghost var hist: seq<Sample>   // every sample ever added

    ghost predicate Valid()
      reads this, samples
    {
      && samples.Length >= 1
      && head == |hist|
      && size == (if head < samples.Length then head else samples.Length)
      && (forall j :: head - size <= j < head ==> samples[j % samples.Length] == hist[j])
      && (forall j :: head <= j < samples.Length ==> samples[j] == ZERO_SAMPLE)
    }

    // The window as a bounded list, oldest sample first.
    ghost function Contents(): seq<Sample>
      reads this, samples
    {
      LastOf(hist, samples.Length)
    }

    constructor (cap: nat)
      requires cap >= 1
      ensures Valid() && fresh(samples) && samples.Length == cap && hist == [] && Contents() == []
    {
      samples := new Sample[cap](_ => ZERO_SAMPLE);
      head, size, hist := 0, 0, [];
    }

    method Add(s: Sample)
      requires Valid()
      modifies this, samples
      ensures Valid() && samples == old(samples)
      ensures hist == old(hist) + [s]
      ensures Contents() == LastOf(old(Contents()) + [s], samples.Length)
    {
      var cap := samples.Length;
      OtherSlots(head, cap);
      FirstLap(cap);
      samples[head % cap] := s;
      hist := hist + [s];
      head := head + 1;
      if size < cap {
        size := size + 1;
      }
    }

    predicate Full()
      reads this, samples
    {
      size == samples.Length
    }

    function Oldest(): (s: Sample)
      reads this, samples
      requires Valid()
      ensures s == if Contents() == [] then ZERO_SAMPLE else Contents()[0]
    {
      if size < samples.Length then
        assert size > 0 ==> 0 % samples.Length == 0;
        samples[0]
      else
        SlotsWrap(head, samples.Length);
        samples[head % samples.Length]
    }

    function Newest(): (s: Sample)
      reads this, samples
      requires Valid()
      ensures s == if Contents() == [] then ZERO_SAMPLE else Contents()[|Contents()| - 1]
    {
      if size == 0 then ZERO_SAMPLE
      else
        SlotsWrap(head - 1 + samples.Length, samples.Length);
        samples[(head - 1 + samples.Length) % samples.Length]
    }

    // Percentages and rates are real numbers here; Go uses float64.
    function GrowthPct(): (g: real)
      reads this, samples
      requires Valid()
      ensures g == Pct(Contents(), samples.Length)
    {
      if !Full() then 0.0
      else
        var oldest, newest := Oldest().rssKB, Newest().rssKB;
        if oldest == 0 then 0.0
        else Sub64(newest, oldest) as real / oldest as real * 100.0
    }

    function GrowthRateKBps(): (g: real)
      reads this, samples
      requires Valid()
      ensures g == Rate(Contents(), samples.Length)
    {
      if !Full() then 0.0
      else
        var oldest, newest := Oldest(), Newest();
        if newest.rssKB <= oldest.rssKB then 0.0
        else if newest.ts - oldest.ts <= 0 then 0.0
        else (newest.rssKB - oldest.rssKB) as real / Seconds(newest.ts - oldest.ts)
    }
  }

  // Slots of one lap of the ring are distinct ...
  lemma SlotsDiffer(j: nat, k: nat, cap: nat)
    requires cap >= 1 && k - cap < j < k
    ensures j % cap != k % cap
  {
    var q, a, r := j / cap, j % cap, k - j;
    assert j == q * cap + a;
    if a + r < cap {
      DivModUnique(k, q, a + r, cap);
    } else {
      assert (q + 1) * cap == q * cap + cap;
      DivModUnique(k, q + 1, a + r - cap, cap);
    }
  }

  lemma OtherSlots(head: nat, cap: nat)
    requires cap >= 1
    ensures forall j: nat :: head - cap < j < head ==> j % cap != head % cap
  {
    forall j: nat | head - cap < j < head
      ensures j % cap != head % cap
    {
      SlotsDiffer(j, head, cap);
    }
  }

  lemma FirstLap(cap: nat)
    requires cap >= 1
    ensures forall j: nat :: j < cap ==> j % cap == j
  {
    forall j: nat | j < cap
      ensures j % cap == j
    {
      DivModUnique(j, 0, j, cap);
    }
  }

  // ... and a full lap comes back to the same slot.
  lemma SlotsWrap(k: nat, cap: nat)
    requires 1 <= cap <= k
    ensures (k - cap) % cap == k % cap
  {
    ModPlusOne(k - cap, cap);
  }

  // uint64 subtraction.
  function Sub64(a: nat, b: nat): nat {
    (a - b) % (MAX_UINT64 + 1)
  }

  function Seconds(d: int): real { d as real / 1000000000.0 }

  // --------------------------------------------------------------------------
  // The growth figures of a bounded list
  // --------------------------------------------------------------------------

  function Pct(s: seq<Sample>, cap: nat): real {
    if |s| < cap || s == [] || s[0].rssKB == 0 then 0.0
    else Sub64(s[|s| - 1].rssKB, s[0].rssKB) as real / s[0].rssKB as real * 100.0
  }

  function Rate(s: seq<Sample>, cap: nat): real {
    if |s| < cap || s == [] then 0.0
    else
      var oldest, newest := s[0], s[|s| - 1];
      if newest.rssKB <= oldest.rssKB || newest.ts <= oldest.ts then 0.0
      else (newest.rssKB - oldest.rssKB) as real / Seconds(newest.ts - oldest.ts)
  }

  // The rate is positive exactly when a full window grew while time advanced.
  lemma RatePositive(s: seq<Sample>, cap: nat)
    requires 1 <= cap && |s| <= cap
    ensures Rate(s, cap) > 0.0
            <==> |s| == cap && s[|s| - 1].rssKB > s[0].rssKB && s[|s| - 1].ts > s[0].ts
  {
  }

  // Kilobytes per second, from nanoseconds.
  lemma RateMeans(s: seq<Sample>, cap: nat)
    requires 1 <= cap == |s| && s[cap - 1].rssKB > s[0].rssKB && s[cap - 1].ts > s[0].ts
    ensures Rate(s, cap) * (s[cap - 1].ts - s[0].ts) as real
            == (s[cap - 1].rssKB - s[0].rssKB) as real * 1000000000.0
  {
    var kb, ns := (s[cap - 1].rssKB - s[0].rssKB) as real, (s[cap - 1].ts - s[0].ts) as real;
    var seconds := ns / 1000000000.0;
    assert Rate(s, cap) == kb / seconds;
    Quotient(kb, seconds);
    assert ns == seconds * 1000000000.0;
    Regroup(kb / seconds, seconds, 1000000000.0);
  }

  lemma Quotient(a: real, b: real)
    requires b > 0.0
    ensures a / b * b == a
  {
  }

  lemma Regroup(a: real, b: real, c: real)
    ensures a * (b * c) == a * b * c
  {
  }

  // Growth from nothing has no percentage.
  lemma EmptyOldest(s: seq<Sample>, cap: nat)
    requires 1 <= cap == |s| && s[0].rssKB == 0
    ensures Pct(s, cap) == 0.0
  {
  }

  // The percentage is the true growth exactly when the window did not shrink; the
  // comment beside its use takes a shrinking window for one without growth.
  lemma PctIsGrowth(s: seq<Sample>, cap: nat)
    requires 1 <= cap == |s| && 0 < s[0].rssKB <= MAX_UINT64 && s[cap - 1].rssKB <= MAX_UINT64
    ensures var oldest: int, newest: int := s[0].rssKB, s[cap - 1].rssKB;
            && (Pct(s, cap) == (newest - oldest) as real / oldest as real * 100.0 <==> newest >= oldest)
            && (Pct(s, cap) <= 0.0 <==> newest == oldest)
  {
    var oldest: int, newest: int := s[0].rssKB, s[cap - 1].rssKB;
    if newest >= oldest {
      DivModUnique(newest - oldest, 0, newest - oldest, MAX_UINT64 + 1);
    } else {
      WrapsUp(newest, oldest);
      assert Sub64(newest, oldest) as real > (newest - oldest) as real;
      Quotients(Sub64(newest, oldest) as real, (newest - oldest) as real, oldest as real);
    }
  }

  lemma WrapsUp(a: nat, b: nat)
    requires a < b <= MAX_UINT64
    ensures Sub64(a, b) == MAX_UINT64 + 1 + a - b > 0
  {
    var m := MAX_UINT64 + 1;
    DivModUnique(m + a - b, 0, m + a - b, m);
    assert (a - b) % m == (m + a - b) % m by {
      var q, r := (a - b) / m, (a - b) % m;
      assert a - b == q * m + r;
      assert q == -1;
    }
  }

  lemma Quotients(x: real, y: real, d: real)
    requires x > y && d > 0.0
    ensures x / d > y / d
  {
    assert (x - y) / d > 0.0;
    assert x / d - y / d == (x - y) / d;
  }

  // A full window that shrank by any amount, from at most 2^62 KB, shows a growth of
  // at least 200 percent.
  lemma ShrinkingLooksLikeGrowth(s: seq<Sample>, cap: nat)
    requires 1 <= cap == |s| && s[cap - 1].rssKB < s[0].rssKB <= 0x4000_0000_0000_0000
    ensures Pct(s, cap) >= 200.0
  {
    var oldest, newest := s[0].rssKB, s[cap - 1].rssKB;
    WrapsUp(newest, oldest);
    var g := Sub64(newest, oldest);
    assert g >= 2 * oldest;
    var d := oldest as real;
    assert g as real >= 2.0 * d;
    assert g as real / d >= 2.0 by {
      assert g as real / d * d == g as real;
    }
  }
}
