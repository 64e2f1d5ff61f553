// internal/angels/sentinel/persist.go at record level: a frozen baseline printed as
// dotted quads and read back.  The JSON file itself is the record.
module Persist {
  import opened Option
  import opened Digits
  import opened Addresses
  import B = Baseline

  const BASELINE_SCHEMA_VERSION := 1

  datatype Record = Record(version: int, angelID: string, createdAt: int,
                           ips: seq<string>, ports: seq<nat>, maxConcurrent: nat, samples: nat)

  // --------------------------------------------------------------------------
  // Dotted quads
  // --------------------------------------------------------------------------

  // net.IP.String for four bytes.
  function Dotted(ip: IPKey): string {
    Decimal(ip[0]) + "." + (Decimal(ip[1]) + "." + (Decimal(ip[2]) + "." + Decimal(ip[3])))
  }

  // One field of net.ParseIP: decimal, no leading zero, at most 255.
  function ParseOctet(s: string): Option<Byte> {
    if s == [] || !AllDigits(s, 10) || (|s| > 1 && s[0] == '0') || Value(s, 10) > 255 then None
    else Some(Value(s, 10))
  }

  // s up to its first dot, and what follows it.
  function DotAt(s: string): (i: nat)
    ensures i <= |s| && '.' !in s[..i] && (i < |s| ==> s[i] == '.')
  {
    if s == [] || s[0] == '.' then 0 else 1 + DotAt(s[1..])
  }

  // n dot-separated octets and nothing else.
  function ParseOctets(s: string, n: nat): Option<seq<Byte>>
    requires n >= 1
    decreases n
  {
    var i := DotAt(s);
    var first := ParseOctet(s[..i]);
    if first.None? then None
    else if n == 1 then (if i == |s| then Some([first.value]) else None)
    else if i == |s| then None
    else
      var rest := ParseOctets(s[i + 1..], n - 1);
      if rest.None? then None else Some([first.value] + rest.value)
  }

  // net.ParseIP on dotted text; the result has the sixteen-byte form.
  function ParseIP(s: string): (r: Option<IP>)
    ensures r.Some? ==> |r.value| == 16
  {
    var v4 := ParseOctets(s, 4);
    if v4.Some? && |v4.value| == 4 then Some(To16(v4.value)) else None
  }

  lemma {:induction false} DotAfter(s: string, rest: string)
    requires '.' !in s && (rest == [] || rest[0] == '.')
    ensures DotAt(s + rest) == |s|
  {
    if s == [] {
      assert s + rest == rest;
    } else {
      assert (s + rest)[1..] == s[1..] + rest;
      DotAfter(s[1..], rest);
    }
  }

  // The bytes are printed first to last.
  lemma DottedOrder()
    ensures Dotted([192, 168, 0, 1]) == "192.168.0.1"
  {
    PrintedOctets();
    assert "192" + "." + ("168" + "." + ("0" + "." + "1")) == "192.168.0.1";
  }

  lemma PrintedOctets()
    ensures Decimal(192) == "192" && Decimal(168) == "168" && Decimal(0) == "0" && Decimal(1) == "1"
  {
    assert Decimal(19) == "19" && Decimal(16) == "16";
  }

  lemma OctetRoundTrip(b: Byte)
    ensures ParseOctet(Decimal(b)) == Some(b) && '.' !in Decimal(b)
  {
    DecimalValue(b);
    DecimalCanonical(b);
  }

  lemma LastOctet(b: Byte)
    ensures ParseOctets(Decimal(b), 1) == Some([b])
  {
    OctetRoundTrip(b);
    assert Decimal(b) + [] == Decimal(b);
    DotAfter(Decimal(b), []);
    assert Decimal(b)[..|Decimal(b)|] == Decimal(b);
  }

  lemma NextOctet(b: Byte, rest: string, n: nat, more: seq<Byte>)
    requires n >= 2 && ParseOctets(rest, n - 1) == Some(more)
    ensures ParseOctets(Decimal(b) + "." + rest, n) == Some([b] + more)
  {
    var d := Decimal(b);
    var s := d + "." + rest;
    OctetRoundTrip(b);
    assert s == d + ("." + rest);
    DotAfter(d, "." + rest);
    assert s[..|d|] == d && s[|d| + 1..] == rest;
  }

  lemma DottedOctets(a: Byte, b: Byte, c: Byte, d: Byte)
    ensures ParseOctets(Dotted([a, b, c, d]), 4) == Some([a] + ([b] + ([c] + [d])))
  {
    var s3 := Decimal(d);
    var s2 := Decimal(c) + "." + s3;
    var s1 := Decimal(b) + "." + s2;
    LastOctet(d);
    NextOctet(c, s3, 2, [d]);
    NextOctet(b, s2, 3, [c] + [d]);
    NextOctet(a, s1, 4, [b] + ([c] + [d]));
    DottedShape(a, b, c, d);
  }

  lemma DottedShape(a: Byte, b: Byte, c: Byte, d: Byte)
    ensures Dotted([a, b, c, d])
            == Decimal(a) + "." + (Decimal(b) + "." + (Decimal(c) + "." + Decimal(d)))
  {
  }

  lemma FourOctets(ip: IPKey)
    ensures ip == [ip[0], ip[1], ip[2], ip[3]] == [ip[0]] + ([ip[1]] + ([ip[2]] + [ip[3]]))
  {
  }

  lemma DottedParses(ip: IPKey)
    ensures ParseIP(Dotted(ip)) == Some(To16(ip))
  {
    FourOctets(ip);
    DottedOctets(ip[0], ip[1], ip[2], ip[3]);
  }

  // Every four-byte key survives being printed, parsed and keyed again.
  lemma DottedRoundTrip(ip: IPKey)
    ensures ParseIP(Dotted(ip)).Some? && Key4(ParseIP(Dotted(ip)).value) == ip
  {
    DottedParses(ip);
    To16To4(ip);
  }

  // --------------------------------------------------------------------------
  // Save and load
  // --------------------------------------------------------------------------

  // The record lists each element of the model once, in any order.
  ghost predicate Shows(rec: Record, m: B.Model) {
    && rec.version == BASELINE_SCHEMA_VERSION
    && rec.maxConcurrent == m.maxConcurrent && rec.samples == m.samples
    && |rec.ips| == |m.ips| && |rec.ports| == |m.ports|
    && (forall s :: s in rec.ips <==> exists k :: k in m.ips && s == Dotted(k))
    && (forall p :: p in rec.ports <==> p in m.ports)
  }

  method SaveBaseline(angelID: string, b: B.Baseline) returns (rec: Record)
    ensures Shows(rec, b.View()) && rec.version == 1 && rec.angelID == angelID && rec.createdAt == b.frozenAt
  {
    var ips: seq<string> := [];
    var left := b.knownIPs;
    while left != {}
      invariant left <= b.knownIPs && |ips| + |left| == |b.knownIPs|
      invariant forall s :: s in ips <==> exists k :: k in b.knownIPs && k !in left && s == Dotted(k)
      decreases left
    {
      var k :| k in left;
      ips := ips + [Dotted(k)];
      left := left - {k};
    }
    var ports: seq<nat> := [];
    var portsLeft := b.knownPorts;
    while portsLeft != {}
      invariant portsLeft <= b.knownPorts && |ports| + |portsLeft| == |b.knownPorts|
      invariant forall p :: p in ports <==> p in b.knownPorts && p !in portsLeft
      decreases portsLeft
    {
      var p :| p in portsLeft;
      ports := ports + [p];
      portsLeft := portsLeft - {p};
    }
    rec := Record(BASELINE_SCHEMA_VERSION, angelID, b.frozenAt, ips, ports, b.maxConcurrent, b.samples);
  }

  // The model a record of the current schema loads as.
  function Loaded(rec: Record): B.Model {
    B.Model((set s | s in rec.ips && ParseIP(s).Some? :: Key4(ParseIP(s).value)),
            (set p | p in rec.ports), rec.maxConcurrent, rec.samples)
  }

  // file is None when there is no saved baseline; failed reports an incompatible one.
  method LoadBaseline(file: Option<Record>) returns (b: B.Baseline?, failed: bool)
    ensures failed <==> file.Some? && file.value.version != 1
    ensures b != null <==> file.Some? && !failed
    ensures b != null ==> fresh(b) && b.frozen && b.frozenAt == file.value.createdAt
    ensures b != null ==> b.Valid() && b.View() == b.origin == Loaded(file.value) && b.batches == []
  {
    if file.None? {
      return null, false;
    }
    var rec := file.value;
    if rec.version != BASELINE_SCHEMA_VERSION {
      return null, true;
    }
    var base := new B.Baseline();
    base.maxConcurrent := rec.maxConcurrent;
    base.samples := rec.samples;
    base.frozenAt := rec.createdAt;
    for i := 0 to |rec.ips|
      invariant base.knownIPs == set s | s in rec.ips[..i] && ParseIP(s).Some? :: Key4(ParseIP(s).value)
      invariant base.maxConcurrent == rec.maxConcurrent && base.samples == rec.samples
      invariant base.frozenAt == rec.createdAt && base.knownPorts == {}
    {
      assert rec.ips[..i + 1] == rec.ips[..i] + [rec.ips[i]];
      var ip := ParseIP(rec.ips[i]);
      if ip.Some? {
        base.knownIPs := base.knownIPs + {Key4(ip.value)};
      }
    }
    assert rec.ips[..|rec.ips|] == rec.ips;
    for i := 0 to |rec.ports|
      invariant base.knownIPs == Loaded(rec).ips
      invariant base.knownPorts == set p | p in rec.ports[..i]
      invariant base.maxConcurrent == rec.maxConcurrent && base.samples == rec.samples
      invariant base.frozenAt == rec.createdAt
    {
      assert rec.ports[..i + 1] == rec.ports[..i] + [rec.ports[i]];
      base.knownPorts := base.knownPorts + {rec.ports[i]};
    }
    assert rec.ports[..|rec.ports|] == rec.ports;
    base.frozen := true;
    base.origin, base.batches := base.View(), [];
    return base, false;
  }

  lemma Kept(rec: Record, m: B.Model, k: IPKey)
    requires Shows(rec, m) && k in m.ips
    ensures k in Loaded(rec).ips
  {
    DottedRoundTrip(k);
    assert Dotted(k) in rec.ips;
  }

  lemma NothingAdded(rec: Record, m: B.Model, s: string)
    requires Shows(rec, m) && s in rec.ips && ParseIP(s).Some?
    ensures Key4(ParseIP(s).value) in m.ips
  {
    var k :| k in m.ips && s == Dotted(k);
    DottedRoundTrip(k);
  }

  // Whatever order the maps were written in, loading restores the model exactly.
  lemma SaveLoad(rec: Record, m: B.Model)
    requires Shows(rec, m)
    ensures Loaded(rec) == m
  {
    var loaded := Loaded(rec);
    forall k | k in m.ips
      ensures k in loaded.ips
    {
      Kept(rec, m, k);
    }
    forall s | s in rec.ips && ParseIP(s).Some?
      ensures Key4(ParseIP(s).value) in m.ips
    {
      NothingAdded(rec, m, s);
    }
    assert loaded.ips <= m.ips;
    SameModel(loaded, m);
  }

  lemma SameModel(a: B.Model, b: B.Model)
    requires a.ips <= b.ips <= a.ips && (forall p :: p in a.ports <==> p in b.ports)
    requires a.maxConcurrent == b.maxConcurrent && a.samples == b.samples
    ensures a == b
  {
    assert a.ports == b.ports;
  }
}
