// internal/angels/sentinel/baseline.go: what the sentinel learns while training.
module Baseline {
  import opened Addresses

  datatype OutboundConn = OutboundConn(remoteIP: IP, remotePort: nat)

  // The learned model as a value.
  datatype Model = Model(ips: set<IPKey>, ports: set<nat>, maxConcurrent: nat, samples: nat)

  const NOTHING := Model({}, {}, 0, 0)

  // One poll batch added to the model.
  function Learn(m: Model, batch: seq<OutboundConn>): Model {
    Model(m.ips + (set c | c in batch :: Key4(c.remoteIP)),
          m.ports + (set c | c in batch :: c.remotePort),
          if |batch| > m.maxConcurrent then |batch| else m.maxConcurrent,
          m.samples + 1)
  }

  // The model after a run of batches, starting from a given one.
  function Learned(origin: Model, batches: seq<seq<OutboundConn>>): Model {
    if batches == [] then origin else Learn(Learned(origin, batches[..|batches| - 1]), batches[|batches| - 1])
  }

  class Baseline {
    var knownIPs: set<IPKey>
    var knownPorts: set<nat>
    var maxConcurrent: nat
    var samples: nat
    var frozen: bool
    var frozenAt: int

    // What it started with, and the batches that counted since.
    ghost var origin: Model
    ghost var batches: seq<seq<OutboundConn>>

    function View(): Model
      reads this
    {
      Model(knownIPs, knownPorts, maxConcurrent, samples)
    }

    ghost predicate Valid()
      reads this
    {
      View() == Learned(origin, batches)
    }

    constructor ()
      ensures Valid() && origin == NOTHING && batches == [] && !frozen && View() == NOTHING
    {
      knownIPs, knownPorts, maxConcurrent, samples := {}, {}, 0, 0;
      frozen, frozenAt := false, 0;
      origin, batches := NOTHING, [];
    }

    // A no-op once frozen.
    method Observe(conns: seq<OutboundConn>)
      requires Valid()
      modifies this
      ensures Valid() && origin == old(origin) && frozen == old(frozen) && frozenAt == old(frozenAt)
      ensures batches == if frozen then old(batches) else old(batches) + [conns]
      ensures View() == if frozen then old(View()) else Learn(old(View()), conns)
    {
      if frozen {
        return;
      }
      samples := samples + 1;
      if |conns| > maxConcurrent {
        maxConcurrent := |conns|;
      }
      AddAll(conns);
      batches := batches + [conns];
      assert batches[..|batches| - 1] == old(batches);
    }

    // The loop of Observe.
    method AddAll(conns: seq<OutboundConn>)
      modifies `knownIPs, `knownPorts
      ensures knownIPs == old(knownIPs) + set c | c in conns :: Key4(c.remoteIP)
      ensures knownPorts == old(knownPorts) + set c | c in conns :: c.remotePort
    {
      for i := 0 to |conns|
        invariant knownIPs == old(knownIPs) + set c | c in conns[..i] :: Key4(c.remoteIP)
        invariant knownPorts == old(knownPorts) + set c | c in conns[..i] :: c.remotePort
      {
        assert conns[..i + 1] == conns[..i] + [conns[i]];
        knownIPs := knownIPs + {Key4(conns[i].remoteIP)};
        knownPorts := knownPorts + {conns[i].remotePort};
      }
      assert conns[..|conns|] == conns;
    }

    method Freeze(now: int)
      requires Valid()
      modifies `frozen, `frozenAt
      ensures Valid() && frozen && frozenAt == now && View() == old(View())
    {
      frozen := true;
      frozenAt := now;
    }

    predicate KnowsIP(ip: IP)
      reads this
    {
      Key4(ip) in knownIPs
    }

    predicate KnowsPort(port: nat)
      reads this
    {
      port in knownPorts
    }
  }

  // --------------------------------------------------------------------------
  // What a learned model says, independent of the order of training
  // --------------------------------------------------------------------------

  // Known IPs and ports are exactly those of some observed connection, and the peak
  // is the largest batch.
  lemma {:induction false} LearnedMeans(batches: seq<seq<OutboundConn>>)
    ensures forall k :: k in Learned(NOTHING, batches).ips
              <==> exists b, c :: b in batches && c in b && Key4(c.remoteIP) == k
    ensures forall p :: p in Learned(NOTHING, batches).ports
              <==> exists b, c :: b in batches && c in b && c.remotePort == p
    ensures forall b :: b in batches ==> |b| <= Learned(NOTHING, batches).maxConcurrent
    ensures Learned(NOTHING, batches).maxConcurrent == 0
            || exists b :: b in batches && |b| == Learned(NOTHING, batches).maxConcurrent
    ensures Learned(NOTHING, batches).samples == |batches|
  {
    if batches != [] {
      var n := |batches| - 1;
      LearnedMeans(batches[..n]);
      assert batches == batches[..n] + [batches[n]];
    }
  }

  // Training on the same batches in another order learns the same model.
  lemma OrderIrrelevant(batches: seq<seq<OutboundConn>>, batches': seq<seq<OutboundConn>>)
    requires multiset(batches) == multiset(batches')
    ensures Learned(NOTHING, batches) == Learned(NOTHING, batches')
  {
    LearnedMeans(batches);
    LearnedMeans(batches');
    assert forall b :: b in batches <==> b in multiset(batches);
    assert forall b :: b in batches' <==> b in multiset(batches');
    var m, m' := Learned(NOTHING, batches), Learned(NOTHING, batches');
    assert m.ips == m'.ips;
    assert m.ports == m'.ports;
    assert |multiset(batches)| == |batches| && |multiset(batches')| == |batches'|;
    PeakBound(batches, batches');
    PeakBound(batches', batches);
  }

  lemma PeakBound(batches: seq<seq<OutboundConn>>, batches': seq<seq<OutboundConn>>)
    requires forall b :: b in batches ==> b in batches'
    ensures Learned(NOTHING, batches).maxConcurrent <= Learned(NOTHING, batches').maxConcurrent
  {
    LearnedMeans(batches);
    LearnedMeans(batches');
  }
}
