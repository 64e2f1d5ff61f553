// The two parsers of pkg/linux/procnet.go in their own form: loops over the input,
// and for ParseTCPFile an address slab written in place and reallocated on demand.
module ProcNetParser {
  import opened Option
  import opened Digits
  import opened ProcNet

  // A four-byte window of a slab: what a net.IP header points at.
  datatype Window = Window(slab: array<Byte>, at: nat)

  // A NetConn whose addresses are windows, not copies.
  datatype NetConn = NetConn(local: Window, localPort: nat, remote: Window, remotePort: nat,
                             state: nat, inode: nat)

  ghost predicate InSlab(w: Window) { w.at + 4 <= w.slab.Length }

  // The record c shows the values of r when its windows are read now.
  ghost predicate Shows(c: NetConn, r: Conn)
    reads c.local.slab, c.remote.slab
  {
    && InSlab(c.local) && InSlab(c.remote)
    && r == Conn(c.local.slab[c.local.at..c.local.at + 4], c.localPort,
                 c.remote.slab[c.remote.at..c.remote.at + 4], c.remotePort, c.state, c.inode)
  }

  ghost predicate Disjoint(v: Window, w: Window) {
    v.slab != w.slab || v.at + 4 <= w.at || w.at + 4 <= v.at
  }

  // No byte is shared between two addresses of the result.
  ghost predicate Separated(cs: seq<NetConn>) {
    && (forall i :: 0 <= i < |cs| ==> Disjoint(cs[i].local, cs[i].remote))
    && (forall i, j :: 0 <= i < j < |cs| ==>
          && Disjoint(cs[i].local, cs[j].local) && Disjoint(cs[i].local, cs[j].remote)
          && Disjoint(cs[i].remote, cs[j].local) && Disjoint(cs[i].remote, cs[j].remote))
  }

  // Skip whitespace.
  method SkipBlanks(line: string, from: nat) returns (l: nat)
    requires from <= |line|
    ensures from <= l <= |line| && (l < |line| ==> !IsBlank(line[l]))
    ensures Tokens(line[l..], IsBlank) == Tokens(line[from..], IsBlank)
  {
    l := from;
    while l < |line| && IsBlank(line[l])
      invariant from <= l <= |line|
      invariant Tokens(line[l..], IsBlank) == Tokens(line[from..], IsBlank)
    {
      assert line[l..][1..] == line[l + 1..];
      l := l + 1;
    }
  }

  // Find end of field.
  method FieldEnd(line: string, start: nat) returns (l: nat)
    requires start < |line| && !IsBlank(line[start])
    ensures start < l <= |line|
    ensures Tokens(line[start..], IsBlank) == [line[start..l]] + Tokens(line[l..], IsBlank)
  {
    l := start;
    while l < |line| && !IsBlank(line[l])
      invariant start <= l <= |line|
      invariant forall i :: start <= i < l ==> !IsBlank(line[i])
    {
      l := l + 1;
    }
    ghost var rest := line[start..];
    SpanIs(rest, l - start);
    assert rest[..l - start] == line[start..l] && rest[l - start..] == line[l..];
  }

  // The hand-written field separator: the first eleven fields of the line.
  method SplitFields(line: string) returns (fields: seq<string>)
    ensures var all := Tokens(line, IsBlank);
            fields == if |all| <= 11 then all else all[..11]
  {
    ghost var all := Tokens(line, IsBlank);
    fields := [];
    var l := 0;
    assert line[0..] == line;
    ghost var left := all;
    while l < |line| && |fields| < 11
      invariant l <= |line| && |fields| <= 11
      invariant left == Tokens(line[l..], IsBlank) && fields + left == all
    {
      l := SkipBlanks(line, l);
      if l == |line| {
        break;
      }
      var start := l;
      l := FieldEnd(line, start);
      ghost var rest := Tokens(line[l..], IsBlank);
      Shift(fields, [line[start..l]], rest);
      fields := fields + [line[start..l]];
      left := rest;
    }
    if l == |line| {
      assert line[l..] == [];
    }
  }

  lemma {:induction false} SpanIs(s: string, k: nat)
    requires k <= |s|
    requires forall i :: 0 <= i < k ==> !IsBlank(s[i])
    requires k < |s| ==> IsBlank(s[k])
    ensures Span(s, IsBlank) == k
  {
    if k > 0 {
      SpanIs(s[1..], k - 1);
    }
  }

  // parseIPv4AddrInto: writes the window only when the whole field decodes.
  method ParseIPv4AddrInto(hexip: string, out: Window) returns (ok: bool)
    requires InSlab(out)
    modifies out.slab
    ensures ok <==> DecodeIPv4(hexip).Some?
    ensures ok ==> out.slab[out.at..out.at + 4] == DecodeIPv4(hexip).value
    ensures !ok ==> out.slab[..] == old(out.slab[..])
    ensures forall i :: 0 <= i < out.slab.Length && !(out.at <= i < out.at + 4) ==>
                          out.slab[i] == old(out.slab[i])
  {
    if |hexip| != 8 || !AllDigits(hexip, 16) {
      return false;
    }
    var raw := [HexByte(hexip, 0), HexByte(hexip, 1), HexByte(hexip, 2), HexByte(hexip, 3)];
    out.slab[out.at] := raw[3];
    out.slab[out.at + 1] := raw[2];
    out.slab[out.at + 2] := raw[1];
    out.slab[out.at + 3] := raw[0];
    return true;
  }

  // The records found so far: each shows its values, has both windows side by
  // side, and lies on an abandoned slab or below the write position of the current one.
  ghost predicate Settled(cs: seq<NetConn>, found: seq<Conn>, slab: array<Byte>, pos: nat)
    reads set c | c in cs :: c.local.slab, set c | c in cs :: c.remote.slab
  {
    && |cs| == |found|
    && (forall i :: 0 <= i < |cs| ==>
          && cs[i].local.slab == cs[i].remote.slab
          && cs[i].remote.at == cs[i].local.at + 4
          && (cs[i].local.slab == slab ==> cs[i].local.at + 8 <= pos)
          && Shows(cs[i], found[i]))
    && Separated(cs)
  }

  // One line of ParseTCPFile from the slab check on, writing at pos.
  method ParseInto(f: seq<string>, slab: array<Byte>, pos: nat) returns (r: Option<NetConn>)
    requires |f| >= 10 && pos + 8 <= slab.Length
    modifies slab
    ensures r.Some? <==> FastRecord(f).Some?
    ensures r.Some? ==> r.value.local == Window(slab, pos) && r.value.remote == Window(slab, pos + 4)
                        && Shows(r.value, FastRecord(f).value)
    ensures forall i :: 0 <= i < slab.Length && !(pos <= i < pos + 8) ==> slab[i] == old(slab[i])
  {
    if ':' !in f[1] || ':' !in f[2] {
      return None;
    }
    var localPort, okL, ok1 := ParseAddrInto(f[1], Window(slab, pos));
    if !okL {
      return None;
    }
    ghost var localIP := slab[pos..pos + 4];
    var remotePort, okR, ok2 := ParseAddrInto(f[2], Window(slab, pos + 4));
    if !okR {
      return None;
    }
    assert slab[pos..pos + 4] == localIP;
    if !ok1 || !ok2 {
      return None;
    }
    var state, inode, ok := ParseTail(f);
    if !ok {
      return None;
    }
    WholeRecord(f);
    return Some(NetConn(Window(slab, pos), localPort, Window(slab, pos + 4), remotePort, state, inode));
  }

  // The parts a good line's record is made of.
  lemma WholeRecord(f: seq<string>)
    requires |f| >= 10 && ':' in f[1] && ':' in f[2]
    requires DecodeIPv4(HostPart(f[1])).Some? && DecodeIPv4(HostPart(f[2])).Some?
    requires HexField(PortPart(f[1]), 4).Some? && HexField(PortPart(f[2]), 4).Some?
    requires HexField(f[3], 2).Some? && DecField(f[9]).Some?
    ensures FastRecord(f) == Some(Conn(DecodeIPv4(HostPart(f[1])).value, HexField(PortPart(f[1]), 4).value,
                                       DecodeIPv4(HostPart(f[2])).value, HexField(PortPart(f[2]), 4).value,
                                       HexField(f[3], 2).value, DecField(f[9]).value))
  {
  }

  // One address field: the IP into its window, then the port.
  method ParseAddrInto(field: string, out: Window) returns (port: nat, okIP: bool, okPort: bool)
    requires ':' in field && InSlab(out)
    modifies out.slab
    ensures okIP <==> DecodeIPv4(HostPart(field)).Some?
    ensures okIP ==> out.slab[out.at..out.at + 4] == DecodeIPv4(HostPart(field)).value
    ensures okIP ==> (okPort <==> HexField(PortPart(field), 4).Some?)
    ensures okIP && okPort ==> port == HexField(PortPart(field), 4).value
    ensures forall i :: 0 <= i < out.slab.Length && !(out.at <= i < out.at + 4) ==>
                          out.slab[i] == old(out.slab[i])
  {
    var colon := IndexOf(field, ':');
    okIP := ParseIPv4AddrInto(field[..colon], out);
    if !okIP {
      return 0, false, false;
    }
    port, okPort := ParseHex(field[colon + 1..], 4);
  }

  // The state and inode fields.
  method ParseTail(f: seq<string>) returns (state: nat, inode: nat, ok: bool)
    requires |f| >= 10
    ensures ok <==> HexField(f[3], 2).Some? && DecField(f[9]).Some?
    ensures ok ==> state == HexField(f[3], 2).value && inode == DecField(f[9]).value
  {
    var ok3, ok4;
    state, ok3 := ParseHex(f[3], 2);
    inode, ok4 := ParseDec(f[9]);
    ok := ok3 && ok4;
  }

  // Doubles a slab that is full; the old one is left to its records.
  method Grown(slab: array<Byte>) returns (newSlab: array<Byte>)
    ensures fresh(newSlab) && newSlab.Length == slab.Length * 2 + 8
    ensures newSlab[..slab.Length] == slab[..]
  {
    newSlab := new Byte[slab.Length * 2 + 8];
    for i := 0 to slab.Length
      invariant newSlab[..i] == slab[..i]
    {
      newSlab[i] := slab[i];
    }
  }

  // One nonempty line: split, make room, parse, and append the record if there is one.
  method ParseLine(line: string, slab: array<Byte>, pos: nat, conns: seq<NetConn>, ghost found: seq<Conn>)
    returns (slab': array<Byte>, pos': nat, conns': seq<NetConn>)
    requires pos <= slab.Length && Settled(conns, found, slab, pos)
    modifies slab
    ensures slab' == slab || fresh(slab')
    ensures pos' <= slab'.Length
    ensures Settled(conns', found + Listed(FastLine(line)), slab', pos')
    ensures forall c :: c in conns' ==> c in conns || c.local.slab == slab'
  {
    slab', pos', conns' := slab, pos, conns;
    var fields := SplitFields(line);
    FirstElevenSuffice(Tokens(line, IsBlank), fields);
    if |fields| < 10 {
      return;
    }
    if pos + 8 > slab.Length {
      slab' := Grown(slab);
    }
    pos', conns' := ParseFields(fields, slab', pos, conns, found);
  }

  // Parse addresses directly into the slab and keep the record if the line is good.
  method ParseFields(f: seq<string>, slab: array<Byte>, pos: nat, conns: seq<NetConn>, ghost found: seq<Conn>)
    returns (pos': nat, conns': seq<NetConn>)
    requires |f| >= 10 && pos + 8 <= slab.Length && Settled(conns, found, slab, pos)
    modifies slab
    ensures pos' <= slab.Length
    ensures Settled(conns', found + Listed(FastRecord(f)), slab, pos')
    ensures forall c :: c in conns' ==> c in conns || c.local.slab == slab
  {
    var r := ParseBeside(f, slab, pos, conns, found);
    if r.None? {
      assert found + Listed(FastRecord(f)) == found;
      return pos, conns;
    }
    assert Listed(FastRecord(f)) == [FastRecord(f).value];
    AppendSettled(conns, found, slab, pos, r.value, FastRecord(f).value);
    return pos + 8, conns + [r.value];
  }

  // Parsing a line at pos leaves the records found so far as they are.
  method ParseBeside(f: seq<string>, slab: array<Byte>, pos: nat, conns: seq<NetConn>, ghost found: seq<Conn>)
    returns (r: Option<NetConn>)
    requires |f| >= 10 && pos + 8 <= slab.Length && Settled(conns, found, slab, pos)
    modifies slab
    ensures Settled(conns, found, slab, pos)
    ensures r.Some? <==> FastRecord(f).Some?
    ensures r.Some? ==> r.value.local == Window(slab, pos) && r.value.remote == Window(slab, pos + 4)
                        && Shows(r.value, FastRecord(f).value)
  {
    r := ParseInto(f, slab, pos);
    forall i | 0 <= i < |conns|
      ensures Shows(conns[i], found[i])
    {
      var s, a, b := conns[i].local.slab, conns[i].local.at, conns[i].remote.at;
      assert old(Shows(conns[i], found[i]));
      assert forall k :: a <= k < a + 8 ==> s[k] == old(s[k]);
      assert s[a..a + 4] == old(s[a..a + 4]);
      assert s[b..b + 4] == old(s[b..b + 4]);
    }
  }

  method ParseTCPFile(data: string) returns (conns: seq<NetConn>)
    ensures |conns| == |FastFile(data)|
    ensures forall i :: 0 <= i < |conns| ==> fresh(conns[i].local.slab) && fresh(conns[i].remote.slab)
    ensures forall i :: 0 <= i < |conns| ==> Shows(conns[i], FastFile(data)[i])
    ensures Separated(conns)
  {
    var nl := IndexOf(data, '\n');
    if nl < 0 {
      return [];
    }
    assert DataLines(data) == SplitLines(data[nl + 1..]);
    var slab, slabPos;
    conns, slab, slabPos := ParseLines(data[nl + 1..]);
  }

  // Everything after the header: allocate the slab and go through the lines.
  method ParseLines(data: string) returns (conns: seq<NetConn>, slab: array<Byte>, slabPos: nat)
    ensures Settled(conns, Remaining(data), slab, slabPos)
    ensures forall c :: c in conns ==> fresh(c.local.slab)
  {
    var estimated := |data| / 128 + 1;
    conns, slabPos := [], 0;
    slab := new Byte[estimated * 8];
    var rest := data;
    ghost var found: seq<Conn> := [];
    while |rest| > 0
      invariant slabPos <= slab.Length && fresh(slab)
      invariant forall c :: c in conns ==> fresh(c.local.slab)
      invariant Settled(conns, found, slab, slabPos)
      invariant found + Remaining(rest) == Remaining(data)
      decreases |rest|
    {
      var nl := IndexOf(rest, '\n');
      var line := if nl < 0 then rest else rest[..nl];
      NextLine(found, rest, nl);
      rest := if nl < 0 then [] else rest[nl + 1..];
      if |line| > 0 {
        slab, slabPos, conns := ParseLine(line, slab, slabPos, conns, found);
        found := found + Listed(FastLine(line));
      }
    }
    RemainingNone();
    assert found == Remaining(data);
  }

  lemma Shift<T>(done: seq<T>, step: seq<T>, left: seq<T>)
    ensures (done + step) + left == done + (step + left)
    ensures step == [] ==> done + step == done
  {
  }

  ghost function Remaining(rest: string): seq<Conn> {
    Collect(SplitLines(rest), FastLine)
  }

  lemma RemainingStep(before: string, nl: int)
    requires before != [] && nl == IndexOf(before, '\n')
    ensures var line := if nl < 0 then before else before[..nl];
            var rest := if nl < 0 then [] else before[nl + 1..];
            && Remaining(before) == Listed(FastLine(line)) + Remaining(rest)
            && (line == [] ==> FastLine(line) == None)
  {
    assert FastLine([]) == None;
    if nl < 0 {
      assert SplitLines(before)[1..] == [];
      RemainingNone();
    } else {
      assert SplitLines(before)[1..] == SplitLines(before[nl + 1..]);
    }
  }

  // The first line moves from what is left to what is found; an empty one adds nothing.
  lemma NextLine(found: seq<Conn>, before: string, nl: int)
    requires before != [] && nl == IndexOf(before, '\n')
    ensures var line := if nl < 0 then before else before[..nl];
            var rest := if nl < 0 then [] else before[nl + 1..];
            && found + Remaining(before) == found + Listed(FastLine(line)) + Remaining(rest)
            && (line == [] ==> found + Listed(FastLine(line)) == found)
  {
    RemainingStep(before, nl);
    var line := if nl < 0 then before else before[..nl];
    Shift(found, Listed(FastLine(line)), Remaining(if nl < 0 then [] else before[nl + 1..]));
  }

  lemma RemainingNone()
    ensures Remaining([]) == []
  {
    assert SplitLines([]) == [[]] && SplitLines([])[1..] == [];
    assert FastLine([]) == None;
  }

  lemma AppendSettled(cs: seq<NetConn>, found: seq<Conn>, slab: array<Byte>, pos: nat, c: NetConn, r: Conn)
    requires Settled(cs, found, slab, pos)
    requires c.local == Window(slab, pos) && c.remote == Window(slab, pos + 4) && Shows(c, r)
    ensures Settled(cs + [c], found + [r], slab, pos + 8)
  {
  }

  // Only fields 1, 2, 3 and 9 are read, so the cut at eleven is harmless.
  lemma FirstElevenSuffice(all: seq<string>, fields: seq<string>)
    requires fields == if |all| <= 11 then all else all[..11]
    ensures FastRecord(fields) == FastRecord(all)
  {
  }

  // readProcNetFile, with the file content and the address decoder as parameters.
  method ReadProcNetFile(data: string, decode: string -> Option<seq<Byte>>) returns (conns: seq<Conn>)
    ensures conns == SlowFile(data, decode)
  {
    var lines := SplitLines(data);
    if |lines| < 2 {
      return [];
    }
    conns := [];
    ghost var read := SlowReader(decode);
    ghost var all := SlowFile(data, decode);
    ghost var left := all;
    for k := 1 to |lines|
      invariant left == Collect(lines[k..], read)
      invariant conns + left == all
    {
      var line := lines[k];
      CollectAt(lines, k, read);
      ghost var step := Listed(SlowLine(line, decode));
      ghost var next := Collect(lines[k + 1..], read);
      Shift(conns, step, next);
      left := next;
      if |line| > 0 {
        conns := AppendRecord(conns, Fields(line), decode);
      }
    }
    assert lines[|lines|..] == [];
  }

  lemma CollectAt(lines: seq<string>, k: nat, read: string -> Option<Conn>)
    requires k < |lines|
    ensures Collect(lines[k..], read) == Listed(read(lines[k])) + Collect(lines[k + 1..], read)
  {
    assert lines[k..][1..] == lines[k + 1..];
  }

  // The body of readProcNetFile's loop from the field count on.
  method AppendRecord(conns: seq<Conn>, parts: seq<string>, decode: string -> Option<seq<Byte>>)
    returns (conns': seq<Conn>)
    ensures conns' == conns + Listed(SlowRecord(parts, decode))
  {
    if |parts| < 10 {
      return conns;
    }
    var local, remote := SlowAddr(parts[1], decode), SlowAddr(parts[2], decode);
    if local.None? || remote.None? {
      return conns;
    }
    var state := ParseUint(parts[3], 16, 0xFF);
    if !state.ok {
      return conns;
    }
    var inode := ParseUint(parts[9], 10, MAX_UINT64).value;
    return conns + [Conn(local.value.ip, local.value.port, remote.value.ip, remote.value.port,
                         state.value, inode)];
  }
}
