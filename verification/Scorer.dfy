// internal/angels/sentinel/scorer.go: additive scoring of one connection.
module Scorer {
  import opened Option
  import opened Digits
  import opened Addresses
  import B = Baseline
  import R = RateTracker
  import P = Persist

  const WARN_THRESHOLD := 3
  const CRIT_THRESHOLD := 6
  const BURST_THRESHOLD := 20
  const SPIKE_MULTIPLIER := 2

  datatype Level = Ok | Warn | Crit

  function LevelOf(total: int): Level {
    if total >= CRIT_THRESHOLD then Crit else if total >= WARN_THRESHOLD then Warn else Ok
  }

  // --------------------------------------------------------------------------
  // Address classes
  // --------------------------------------------------------------------------

  predicate IsLoopback(ip: IP) {
    match To4(ip)
    case Some(v4) => v4[0] == 127
    case None => |ip| == 16 && (forall i :: 0 <= i < 15 ==> ip[i] == 0) && ip[15] == 1
  }

  function Number(v4: seq<Byte>): nat
    requires |v4| == 4
  {
    var a: int, b: int, c: int, d: int := v4[0], v4[1], v4[2], v4[3];
    ((a * 256 + b) * 256 + c) * 256 + d
  }

  // net.IPNet.Contains for an IPv4 network whose mask leaves hosts = 2^(32-bits)
  // addresses.
  predicate InNetwork(ip: IP, net: seq<Byte>, hosts: nat)
    requires |net| == 4 && hosts >= 1
  {
    To4(ip).Some? && Number(To4(ip).value) / hosts == Number(net) / hosts
  }

  // 10/8, 172.16/12, 192.168/16, 169.254/16 and 100.64/10
  predicate IsRFC1918(ip: IP) {
    || InNetwork(ip, [10, 0, 0, 0], 0x100_0000)
    || InNetwork(ip, [172, 16, 0, 0], 0x10_0000)
    || InNetwork(ip, [192, 168, 0, 0], 0x1_0000)
    || InNetwork(ip, [169, 254, 0, 0], 0x1_0000)
    || InNetwork(ip, [100, 64, 0, 0], 0x40_0000)
  }

  lemma Prefixes(v4: seq<Byte>)
    requires |v4| == 4
    ensures Number(v4) / 0x100_0000 == v4[0]
    ensures Number(v4) / 0x1_0000 == 256 * (v4[0] as int) + v4[1]
    ensures Number(v4) / 0x10_0000 == 16 * (v4[0] as int) + v4[1] / 16
    ensures Number(v4) / 0x40_0000 == 4 * (v4[0] as int) + v4[1] / 64
  {
    var a: int, b: int, c: int, d: int := v4[0], v4[1], v4[2], v4[3];
    var n := Number(v4);
    DivModUnique(n, a, (b * 256 + c) * 256 + d, 0x100_0000);
    DivModUnique(n, 256 * a + b, c * 256 + d, 0x1_0000);
    DivModUnique(n, 16 * a + b / 16, (b % 16 * 256 + c) * 256 + d, 0x10_0000);
    DivModUnique(n, 4 * a + b / 64, (b % 64 * 256 + c) * 256 + d, 0x40_0000);
  }

  // The five networks by their leading octets.
  lemma PrivateOctets(ip: IP)
    ensures IsRFC1918(ip) <==>
              To4(ip).Some? && var v := To4(ip).value;
                || v[0] == 10 || (v[0] == 172 && 16 <= v[1] < 32) || (v[0] == 192 && v[1] == 168)
                || (v[0] == 169 && v[1] == 254) || (v[0] == 100 && 64 <= v[1] < 128)
  {
    if To4(ip).Some? {
      Prefixes(To4(ip).value);
      Prefixes([10, 0, 0, 0]);
      Prefixes([172, 16, 0, 0]);
      Prefixes([192, 168, 0, 0]);
      Prefixes([169, 254, 0, 0]);
      Prefixes([100, 64, 0, 0]);
    }
  }

  // 127.0.0.0/8 in either of its forms, and ::1.
  lemma LoopbackOctets(ip: IP)
    ensures IsLoopback(ip)
            <==> || (|ip| == 4 && ip[0] == 127)
                 || (|ip| == 16 && ip[..12] == [0, 0, 0, 0, 0, 0, 0, 0, 0, 0, 255, 255] && ip[12] == 127)
                 || ip == [0, 0, 0, 0, 0, 0, 0, 0, 0, 0, 0, 0, 0, 0, 0, 1]
  {
    if |ip| == 16 {
      assert Mapped(ip) <==> ip[..12] == [0, 0, 0, 0, 0, 0, 0, 0, 0, 0, 255, 255] by {
        MappedPrefix(ip);
      }
    }
  }

  lemma MappedPrefix(ip: IP)
    requires |ip| == 16
    ensures Mapped(ip) <==> ip[..12] == [0, 0, 0, 0, 0, 0, 0, 0, 0, 0, 255, 255]
  {
    assert forall i :: 0 <= i < 12 ==> ip[..12][i] == ip[i];
    if ip[..12] == [0, 0, 0, 0, 0, 0, 0, 0, 0, 0, 255, 255] {
      assert forall i :: 0 <= i < 10 ==> ip[i] == ip[..12][i] == 0;
    }
  }

  // --------------------------------------------------------------------------
  // The score
  // --------------------------------------------------------------------------

  // The rules an emitted event names; the private-address discount has no reason.
  datatype Reason = NewIP | NewPort | HighPort | VeryHighPort | Burst | Spike

  function Weight(r: Reason): nat {
    match r
    case NewIP => 3
    case NewPort => 2
    case HighPort => 1
    case VeryHighPort => 1
    case Burst => 4
    case Spike => 3
  }

  predicate Applies(r: Reason, m: B.Model, c: B.OutboundConn, isNew: bool, currentTotal: int, burst: nat) {
    match r
    case NewIP => isNew && Key4(c.remoteIP) !in m.ips
    case NewPort => isNew && c.remotePort !in m.ports
    case HighPort => isNew && c.remotePort > 49152
    case VeryHighPort => isNew && c.remotePort > 60000
    case Burst => isNew && burst > BURST_THRESHOLD
    case Spike => 0 < m.maxConcurrent * SPIKE_MULTIPLIER < currentTotal
  }

  function Points(r: Reason, m: B.Model, c: B.OutboundConn, isNew: bool, currentTotal: int, burst: nat): nat {
    if Applies(r, m, c, isNew, currentTotal, burst) then Weight(r) else 0
  }

  function RulePoints(m: B.Model, c: B.OutboundConn, isNew: bool, currentTotal: int, burst: nat): nat {
    Points(NewIP, m, c, isNew, currentTotal, burst) + Points(NewPort, m, c, isNew, currentTotal, burst)
    + Points(HighPort, m, c, isNew, currentTotal, burst) + Points(VeryHighPort, m, c, isNew, currentTotal, burst)
    + Points(Burst, m, c, isNew, currentTotal, burst) + Points(Spike, m, c, isNew, currentTotal, burst)
  }

  // The total, rule by rule.
  function Total(m: B.Model, c: B.OutboundConn, isNew: bool, currentTotal: int, burst: nat): int {
    if IsLoopback(c.remoteIP) then -5
    else RulePoints(m, c, isNew, currentTotal, burst) - if IsRFC1918(c.remoteIP) then 1 else 0
  }

  function Sum(reasons: seq<Reason>): nat {
    if reasons == [] then 0 else Sum(reasons[..|reasons| - 1]) + Weight(reasons[|reasons| - 1])
  }

  lemma SumAppend(reasons: seq<Reason>, r: Reason)
    ensures Sum(reasons + [r]) == Sum(reasons) + Weight(r)
  {
    assert (reasons + [r])[..|reasons|] == reasons;
  }

  // The count the tracker returns to Score, which consults it for new connections only.
  ghost function BurstSeen(rate: R.RateTracker, log: seq<R.Op>, now: int): nat {
    R.Answer(log + [R.Add(now)], rate.window)
  }

  class Scorer {
    const baseline: B.Baseline
    const rate: R.RateTracker

    constructor (baseline: B.Baseline, rate: R.RateTracker)
      ensures this.baseline == baseline && this.rate == rate
    {
      this.baseline := baseline;
      this.rate := rate;
    }

    // An alert's reasons account for its score point by point.
    method Score(conn: B.OutboundConn, isNew: bool, currentTotal: int, now: int)
      returns (total: int, reasons: seq<Reason>)
      requires rate.Valid()
      modifies rate, rate.data
      ensures rate.Valid()
      ensures total == Total(baseline.View(), conn, isNew, currentTotal, BurstSeen(rate, old(rate.log), now))
      ensures rate.log == if isNew && !IsLoopback(conn.remoteIP) then old(rate.log) + [R.Add(now)] else old(rate.log)
      ensures |conn.remoteIP| == 4 && conn.remoteIP[0] == 127 ==>
                total == -5 && reasons == [] && rate.log == old(rate.log)
      ensures total < 3 ==> reasons == []
      ensures total >= 3 ==>
                total == Sum(reasons) - if IsRFC1918(conn.remoteIP) then 1 else 0
      ensures total >= 3 ==>
                forall r :: r in reasons
                  <==> Applies(r, baseline.View(), conn, isNew, currentTotal, BurstSeen(rate, old(rate.log), now))
    {
      LoopbackOctets(conn.remoteIP);
      if IsLoopback(conn.remoteIP) {
        return -5, [];
      }
      ghost var seen := BurstSeen(rate, rate.log, now);
      var burst := 0;
      if isNew {
        burst := rate.Add(now);
      }
      total, reasons := ApplyRules(conn, isNew, currentTotal, burst);
      ghost var m := baseline.View();
      assert forall r ::
          Applies(r, m, conn, isNew, currentTotal, burst) == Applies(r, m, conn, isNew, currentTotal, seen);
      assert RulePoints(m, conn, isNew, currentTotal, burst) == RulePoints(m, conn, isNew, currentTotal, seen);
      if IsRFC1918(conn.remoteIP) {
        total := total - 1;
      }
      if total < WARN_THRESHOLD {
        reasons := [];
      }
    }

    // The numeric pass and the reasons it leads to.
    method ApplyRules(conn: B.OutboundConn, isNew: bool, currentTotal: int, burst: nat)
      returns (total: int, reasons: seq<Reason>)
      ensures total == RulePoints(baseline.View(), conn, isNew, currentTotal, burst) == Sum(reasons)
      ensures forall r :: r in reasons <==> Applies(r, baseline.View(), conn, isNew, currentTotal, burst)
    {
      total := 0;
      var newIP, newPort, highPort, vHighPort, manyNew, spike := false, false, false, false, false, false;
      if isNew {
        newIP := !baseline.KnowsIP(conn.remoteIP);
        if newIP {
          total := total + 3;
        }
        newPort := !baseline.KnowsPort(conn.remotePort);
        if newPort {
          total := total + 2;
        }
        highPort := conn.remotePort > 49152;
        if highPort {
          total := total + 1;
        }
        vHighPort := conn.remotePort > 60000;
        if vHighPort {
          total := total + 1;
        }
        manyNew := burst > BURST_THRESHOLD;
        if manyNew {
          total := total + 4;
        }
      }
      var spikeThreshold := baseline.maxConcurrent * SPIKE_MULTIPLIER;
      if spikeThreshold > 0 && currentTotal > spikeThreshold {
        total := total + 3;
        spike := true;
      }
      reasons := Reasons(newIP, newPort, highPort, vHighPort, manyNew, spike);
    }
  }

  // The reasons building pass.
  method Reasons(newIP: bool, newPort: bool, highPort: bool, vHighPort: bool, burst: bool, spike: bool)
    returns (reasons: seq<Reason>)
    ensures Sum(reasons) == (if newIP then 3 else 0) + (if newPort then 2 else 0) + (if highPort then 1 else 0)
                            + (if vHighPort then 1 else 0) + (if burst then 4 else 0) + (if spike then 3 else 0)
    ensures forall r :: r in reasons
              <==> (match r case NewIP => newIP case NewPort => newPort case HighPort => highPort
                            case VeryHighPort => vHighPort case Burst => burst case Spike => spike)
  {
    reasons := [];
    reasons := AddIf(reasons, newIP, NewIP);
    reasons := AddIf(reasons, newPort, NewPort);
    reasons := AddIf(reasons, highPort, HighPort);
    reasons := AddIf(reasons, vHighPort, VeryHighPort);
    reasons := AddIf(reasons, burst, Burst);
    reasons := AddIf(reasons, spike, Spike);
  }

  method AddIf(reasons: seq<Reason>, cond: bool, r: Reason) returns (reasons': seq<Reason>)
    ensures Sum(reasons') == Sum(reasons) + if cond then Weight(r) else 0
    ensures forall x :: x in reasons' <==> x in reasons || (cond && x == r)
  {
    SumAppend(reasons, r);
    reasons' := if cond then reasons + [r] else reasons;
  }

  // --------------------------------------------------------------------------
  // What the score means
  // --------------------------------------------------------------------------

  // The rule table of the package comment, in its own numbers, for any peer but a
  // loopback one, which scores -5 whatever else holds.
  lemma RuleTable(m: B.Model, c: B.OutboundConn, isNew: bool, currentTotal: int, burst: nat)
    ensures Total(m, c, isNew, currentTotal, burst)
            == if IsLoopback(c.remoteIP) then -5
               else (if isNew && Key4(c.remoteIP) !in m.ips then 3 else 0)
                    + (if isNew && c.remotePort !in m.ports then 2 else 0)
                    + (if isNew && c.remotePort > 60000 then 2
                       else if isNew && c.remotePort > 49152 then 1 else 0)
                    + (if isNew && burst > 20 then 4 else 0)
                    + (if m.maxConcurrent > 0 && currentTotal > 2 * m.maxConcurrent then 3 else 0)
                    - (if IsRFC1918(c.remoteIP) then 1 else 0)
  {
  }

  // 3 to 5 points warn and 6 are critical; the most a connection can get is 14.
  lemma Levels(m: B.Model, c: B.OutboundConn, isNew: bool, currentTotal: int, burst: nat)
    ensures var total := Total(m, c, isNew, currentTotal, burst);
            && -5 <= total <= 14
            && (LevelOf(total) == Crit <==> total >= 6)
            && (LevelOf(total) == Warn <==> 3 <= total < 6)
  {
  }

  // Loopback traffic never alerts; it is decided before any rule, whatever the state.
  // A new connection to an unknown address otherwise alerts, except to a private
  // address on a known port up to 49152 with neither burst nor spike.
  lemma NovelAlerts(m: B.Model, c: B.OutboundConn, currentTotal: int, burst: nat)
    requires Key4(c.remoteIP) !in m.ips
    ensures LevelOf(Total(m, c, true, currentTotal, burst)) == Ok
            <==> || IsLoopback(c.remoteIP)
                 || (&& IsRFC1918(c.remoteIP) && c.remotePort in m.ports && c.remotePort <= 49152
                     && burst <= BURST_THRESHOLD && !(0 < m.maxConcurrent * 2 < currentTotal))
  {
  }

  // A connection that is not new alerts exactly when a spike hits a public address,
  // and never critically.
  lemma RepeatAlerts(m: B.Model, c: B.OutboundConn, currentTotal: int, burst: nat)
    ensures LevelOf(Total(m, c, false, currentTotal, burst)) == Warn
            <==> && !IsLoopback(c.remoteIP) && !IsRFC1918(c.remoteIP)
                 && 0 < m.maxConcurrent * 2 < currentTotal
    ensures LevelOf(Total(m, c, false, currentTotal, burst)) != Crit
  {
  }

  // A model that knows more and has a higher peak scores no connection higher, unless
  // its peak is the first: a peak of 0 switches the spike rule off.
  ghost predicate NeverHigher(m: B.Model, m': B.Model) {
    forall c: B.OutboundConn, isNew: bool, currentTotal: int, burst: nat ::
      Total(m', c, isNew, currentTotal, burst) <= Total(m, c, isNew, currentTotal, burst)
  }

  lemma TrainingLowers(m: B.Model, m': B.Model)
    requires m.ips <= m'.ips && m.ports <= m'.ports && m.maxConcurrent <= m'.maxConcurrent
    ensures NeverHigher(m, m') <==> m.maxConcurrent > 0 || m'.maxConcurrent == 0
  {
    if m.maxConcurrent == 0 < m'.maxConcurrent {
      FirstPeakRaises(m, m');
    }
  }

  // Training that first sees a connection at all lets a later spike to a known public
  // peer alert.
  lemma FirstPeakRaises(m: B.Model, m': B.Model)
    requires m.maxConcurrent == 0 < m'.maxConcurrent
    ensures var c := B.OutboundConn([8, 8, 8, 8], 443);
            var currentTotal := 2 * m'.maxConcurrent + 1;
            && Total(m, c, false, currentTotal, 0) == 0
            && Total(m', c, false, currentTotal, 0) == 3
  {
    var ip: seq<Byte> := [8, 8, 8, 8];
    assert To4(ip) == Some(ip);
  }

  // A baseline that went through save and load scores every connection alike.
  lemma ReloadedScores(rec: P.Record, m: B.Model, c: B.OutboundConn, isNew: bool, currentTotal: int, burst: nat)
    requires P.Shows(rec, m)
    ensures Total(P.Loaded(rec), c, isNew, currentTotal, burst) == Total(m, c, isNew, currentTotal, burst)
  {
    P.SaveLoad(rec, m);
  }
}
