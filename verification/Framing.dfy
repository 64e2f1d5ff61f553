// pkg/ipc/transport.go: length-prefixed frames on a byte stream.  A message is the
// opaque byte string msgpack produced for it.
module Framing {
  import opened Digits

  const FRAME_HEADER_SIZE := 4
  const MAX_FRAME_SIZE := 16_777_216

  // --------------------------------------------------------------------------
  // The wire format
  // --------------------------------------------------------------------------

  // binary.BigEndian.PutUint32 and Uint32
  function BigEndian(n: nat): (h: seq<Byte>)
    requires n <= 0xFFFF_FFFF
    ensures |h| == FRAME_HEADER_SIZE
  {
    [n / 16777216, n / 65536 % 256, n / 256 % 256, n % 256]
  }

  function FromBigEndian(h: seq<Byte>): nat
    requires |h| == FRAME_HEADER_SIZE
  {
    var a: int, b: int, c: int, d: int := h[0], h[1], h[2], h[3];
    ((a * 256 + b) * 256 + c) * 256 + d
  }

  lemma BigEndianRoundTrip(n: nat)
    requires n <= 0xFFFF_FFFF
    ensures FromBigEndian(BigEndian(n)) == n
  {
    DivModUnique(n / 256, n / 65536, n / 256 % 256, 256);
    DivModUnique(n / 65536, n / 16777216, n / 65536 % 256, 256);
  }

  lemma FromBigEndianRoundTrip(h: seq<Byte>)
    requires |h| == FRAME_HEADER_SIZE
    ensures FromBigEndian(h) <= 0xFFFF_FFFF && BigEndian(FromBigEndian(h)) == h
  {
    var a: int, b: int, c: int, d: int := h[0], h[1], h[2], h[3];
    var x: int := a * 256 + b;
    var y: int := x * 256 + c;
    var n: int := y * 256 + d;
    DivModUnique(n, y, d, 256);
    DivModUnique(n, x, c * 256 + d, 65536);
    DivModUnique(n, a, (b * 256 + c) * 256 + d, 16777216);
    DivModUnique(y, x, c, 256);
    DivModUnique(x, a, b, 256);
    assert h == [h[0], h[1], h[2], h[3]];
  }

  predicate Sendable(p: seq<Byte>) { 1 <= |p| <= MAX_FRAME_SIZE }

  function Frame(p: seq<Byte>): seq<Byte>
    requires |p| <= MAX_FRAME_SIZE
  {
    BigEndian(|p|) + p
  }

  // Four bytes of length, the most significant first, and the payload.
  lemma FrameBytes(p: seq<Byte>)
    requires Sendable(p)
    ensures 1 <= |p| <= 16_777_216
    ensures |Frame(p)| == 4 + |p| && Frame(p)[4..] == p
    ensures var a: int, b: int, c: int, d: int := Frame(p)[0], Frame(p)[1], Frame(p)[2], Frame(p)[3];
            |p| == a * 16777216 + b * 65536 + c * 256 + d
  {
    BigEndianRoundTrip(|p|);
    assert Frame(p)[..4] == BigEndian(|p|);
    assert Frame(p)[0] == BigEndian(|p|)[0] && Frame(p)[1] == BigEndian(|p|)[1];
    assert Frame(p)[2] == BigEndian(|p|)[2] && Frame(p)[3] == BigEndian(|p|)[3];
  }

  // What a sequence of Sends puts on the wire.
  function Wire(ps: seq<seq<Byte>>): seq<Byte>
    requires forall i :: 0 <= i < |ps| ==> Sendable(ps[i])
  {
    if ps == [] then []
    else
      assert Sendable(ps[0]);
      Frame(ps[0]) + Wire(ps[1..])
  }

  datatype Received = Message(payload: seq<Byte>) | Failed

  // --------------------------------------------------------------------------
  // The connection
  // --------------------------------------------------------------------------

  class Conn {
    var sent: seq<Byte>       // bytes written so far
    var incoming: seq<Byte>   // bytes that will still arrive before the stream ends

    constructor (incoming: seq<Byte>)
      ensures sent == [] && this.incoming == incoming
    {
      sent := [];
      this.incoming := incoming;
    }

    // Send refuses an oversized payload and otherwise writes one frame.
    method Send(payload: seq<Byte>) returns (ok: bool)
      modifies this`sent
      ensures ok <==> |payload| <= 16_777_216
      ensures sent == if ok then old(sent) + Frame(payload) else old(sent)
    {
      if |payload| > MAX_FRAME_SIZE {
        return false;
      }
      sent := sent + BigEndian(|payload|);
      sent := sent + payload;
      assert sent == old(sent) + (BigEndian(|payload|) + payload);
      return true;
    }

    // io.ReadFull: n bytes, or whatever there is and an error.
    method ReadFull(n: nat) returns (buf: seq<Byte>, ok: bool)
      modifies this`incoming
      ensures ok <==> |old(incoming)| >= n
      ensures ok ==> buf == old(incoming)[..n] && incoming == old(incoming)[n..]
      ensures !ok ==> incoming == []
    {
      if |incoming| >= n {
        buf, ok := incoming[..n], true;
        incoming := incoming[n..];
      } else {
        buf, ok := incoming, false;
        incoming := [];
      }
    }

    method Recv() returns (r: Received)
      modifies this`incoming
      ensures r == Next(old(incoming))
      ensures r.Message? ==> incoming == old(incoming)[FRAME_HEADER_SIZE + |r.payload|..]
    {
      var header, ok := ReadFull(FRAME_HEADER_SIZE);
      if !ok {
        return Failed;
      }
      var size := FromBigEndian(header);
      if size == 0 {
        return Failed;
      }
      if size > MAX_FRAME_SIZE {
        return Failed;
      }
      ghost var body := incoming;
      var buf, ok2 := ReadFull(size);
      if !ok2 {
        return Failed;
      }
      assert body == old(incoming)[FRAME_HEADER_SIZE..];
      assert body[size..] == old(incoming)[FRAME_HEADER_SIZE + size..];
      return Message(buf);
    }
  }

  // What one Recv makes of the bytes s.
  function Next(s: seq<Byte>): (r: Received)
    ensures r.Message? ==> Sendable(r.payload) && |s| >= FRAME_HEADER_SIZE + |r.payload|
  {
    if |s| < FRAME_HEADER_SIZE then Failed
    else
      var size := FromBigEndian(s[..FRAME_HEADER_SIZE]);
      if size == 0 || size > MAX_FRAME_SIZE || |s| - FRAME_HEADER_SIZE < size then Failed
      else Message(s[FRAME_HEADER_SIZE..][..size])
  }

  // What a receiver that stops at the first error gets out of s.
  function Payloads(s: seq<Byte>): (ps: seq<seq<Byte>>)
    ensures forall i :: 0 <= i < |ps| ==> Sendable(ps[i])
    decreases |s|
  {
    match Next(s)
    case Failed => []
    case Message(p) => [p] + Payloads(s[FRAME_HEADER_SIZE + |p|..])
  }

  // --------------------------------------------------------------------------
  // Round trips
  // --------------------------------------------------------------------------

  // A stream opens with a message exactly when it opens with that message's frame.
  lemma NextIsFrame(s: seq<Byte>, p: seq<Byte>)
    requires Sendable(p)
    ensures Next(s) == Message(p) <==> Frame(p) <= s
  {
    var h := FRAME_HEADER_SIZE;
    BigEndianRoundTrip(|p|);
    if Next(s) == Message(p) {
      FromBigEndianRoundTrip(s[..h]);
      assert s[..h] + p == s[..h + |p|];
    }
    if Frame(p) <= s {
      assert s[..h] == Frame(p)[..h] == BigEndian(|p|);
      assert s[h..][..|p|] == Frame(p)[h..];
    }
  }

  // An incomplete frame, cut anywhere, is an error and never a shorter message.
  lemma CutFrameFails(p: seq<Byte>, n: nat)
    requires Sendable(p) && n < |Frame(p)|
    ensures Next(Frame(p)[..n]) == Failed
  {
    var s := Frame(p)[..n];
    if n >= FRAME_HEADER_SIZE {
      assert s[..FRAME_HEADER_SIZE] == BigEndian(|p|);
      BigEndianRoundTrip(|p|);
    }
  }

  lemma PayloadsStep(p: seq<Byte>, rest: seq<Byte>)
    requires Sendable(p)
    ensures Payloads(Frame(p) + rest) == [p] + Payloads(rest)
  {
    var s := Frame(p) + rest;
    NextIsFrame(s, p);
    assert s[FRAME_HEADER_SIZE + |p|..] == rest;
  }

  // Everything sent is received, in order; a partial further frame adds nothing.
  lemma {:induction false} WireRoundTrip(ps: seq<seq<Byte>>, q: seq<Byte>, n: nat)
    requires forall i :: 0 <= i < |ps| ==> Sendable(ps[i])
    requires Sendable(q) && n < |Frame(q)|
    ensures Payloads(Wire(ps) + Frame(q)[..n]) == ps
  {
    var tail := Frame(q)[..n];
    if ps == [] {
      assert Wire(ps) + tail == tail;
      CutFrameFails(q, n);
    } else {
      assert Wire(ps) + tail == Frame(ps[0]) + (Wire(ps[1..]) + tail);
      PayloadsStep(ps[0], Wire(ps[1..]) + tail);
      WireRoundTrip(ps[1..], q, n);
    }
  }

  // Conversely, whatever is received from arbitrary bytes was framed at their start.
  lemma {:induction false} NeverMisframed(s: seq<Byte>)
    ensures Wire(Payloads(s)) <= s
    ensures Next(s[|Wire(Payloads(s))|..]) == Failed
    decreases |s|
  {
    if Next(s).Message? {
      var p := Next(s).payload;
      var rest := s[FRAME_HEADER_SIZE + |p|..];
      NextIsFrame(s, p);
      assert s == Frame(p) + rest;
      NeverMisframed(rest);
      assert Payloads(s)[1..] == Payloads(rest);
      assert s[|Frame(p)| + |Wire(Payloads(rest))|..] == rest[|Wire(Payloads(rest))|..];
    } else {
      assert s[0..] == s;
    }
  }

  lemma WireHead(ps: seq<seq<Byte>>, k: nat)
    requires (forall i :: 0 <= i < |ps| ==> Sendable(ps[i])) && k < |ps|
    ensures |Wire(ps[..k + 1])| == |Frame(ps[0])| + |Wire(ps[1..][..k])|
  {
    assert ps[..k + 1][1..] == ps[1..][..k];
  }

  // got are the messages complete after n bytes of the wire.
  ghost predicate CompleteBy(ps: seq<seq<Byte>>, n: nat, got: seq<seq<Byte>>)
    requires forall i :: 0 <= i < |ps| ==> Sendable(ps[i])
  {
    && got <= ps
    && |Wire(ps[..|got|])| <= n && (|got| < |ps| ==> n < |Wire(ps[..|got| + 1])|)
  }

  lemma OneMoreComplete(ps: seq<seq<Byte>>, n: nat, got: seq<seq<Byte>>)
    requires (forall i :: 0 <= i < |ps| ==> Sendable(ps[i])) && ps != []
    requires Sendable(ps[0]) && CompleteBy(ps[1..], n, got)
    ensures CompleteBy(ps, n + |Frame(ps[0])|, [ps[0]] + got)
  {
    WireHead(ps, |got|);
    if |got| < |ps[1..]| {
      WireHead(ps, |got| + 1);
    }
    assert ps == [ps[0]] + ps[1..];
  }

  lemma NoneComplete(ps: seq<seq<Byte>>, n: nat)
    requires (forall i :: 0 <= i < |ps| ==> Sendable(ps[i])) && ps != []
    requires Sendable(ps[0]) && n < |Frame(ps[0])|
    ensures CompleteBy(ps, n, []) && Payloads(Wire(ps)[..n]) == []
  {
    assert Wire(ps)[..n] == Frame(ps[0])[..n];
    CutFrameFails(ps[0], n);
    assert ps[..1][1..] == [];
  }

  // A stream cut after n bytes yields the frames that were complete by then.
  lemma {:induction false} Truncation(ps: seq<seq<Byte>>, n: nat)
    requires forall i :: 0 <= i < |ps| ==> Sendable(ps[i])
    requires n <= |Wire(ps)|
    ensures CompleteBy(ps, n, Payloads(Wire(ps)[..n]))
  {
    if ps != [] {
      var p, rest := ps[0], Wire(ps[1..]);
      if n < |Frame(p)| {
        NoneComplete(ps, n);
      } else {
        var m := n - |Frame(p)|;
        assert Wire(ps)[..n] == Frame(p) + rest[..m];
        PayloadsStep(p, rest[..m]);
        Truncation(ps[1..], m);
        OneMoreComplete(ps, m, Payloads(rest[..m]));
      }
    }
  }

  // Two different message lists never look the same on the wire.
  lemma WireInjective(ps: seq<seq<Byte>>, qs: seq<seq<Byte>>)
    requires forall i :: 0 <= i < |ps| ==> Sendable(ps[i])
    requires forall i :: 0 <= i < |qs| ==> Sendable(qs[i])
    requires Wire(ps) == Wire(qs)
    ensures ps == qs
  {
    WireRoundTrip(ps, [0], 0);
    WireRoundTrip(qs, [0], 0);
  }
}
