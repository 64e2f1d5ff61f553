// pkg/linux/procnet.go as functions: lines, fields, the record each of the two
// parsers reads from one line, and the record sequence each reads from a file.
module ProcNet {
  import opened Option
  import opened Digits

  // One row of /proc/net/tcp with its addresses as values.
  datatype Conn = Conn(localIP: seq<Byte>, localPort: nat, remoteIP: seq<Byte>, remotePort: nat,
                       state: nat, inode: nat)

  // --------------------------------------------------------------------------
  // Library vocabulary: bytes.IndexByte, bytes.Split, field splitting
  // --------------------------------------------------------------------------

  function IndexOf(s: string, c: char): (i: int)
    ensures -1 <= i < |s|
    ensures i >= 0 ==> s[i] == c && c !in s[..i]
    ensures i < 0 ==> c !in s
  {
    if s == [] then -1
    else if s[0] == c then 0
    else
      var i := IndexOf(s[1..], c);
      if i < 0 then -1 else i + 1
  }

  lemma {:induction false} FirstAt(s: string, c: char, k: nat)
    requires k < |s| && s[k] == c && c !in s[..k]
    ensures IndexOf(s, c) == k
  {
    if k > 0 {
      assert s[0] == s[..k][0];
      assert s[1..][..k - 1] == s[..k][1..];
      FirstAt(s[1..], c, k - 1);
    }
  }

  // bytes.Split(data, "\n"): always at least one line, the last one unterminated.
  function SplitLines(data: string): (lines: seq<string>)
    ensures |lines| >= 1
    decreases |data|
  {
    var nl := IndexOf(data, '\n');
    if nl < 0 then [data]
    else
      var rest := SplitLines(data[nl + 1..]);
      [data[..nl]] + rest
  }

  // Length of the longest prefix of s without a separator.
  function Span(s: string, sep: char -> bool): (k: nat)
    ensures k <= |s|
    ensures forall i :: 0 <= i < k ==> !sep(s[i])
    ensures k < |s| ==> sep(s[k])
  {
    if s == [] || sep(s[0]) then 0 else 1 + Span(s[1..], sep)
  }

  // The maximal separator-free pieces of s, in order.
  function Tokens(s: string, sep: char -> bool): (fields: seq<string>)
    ensures forall i :: 0 <= i < |fields| ==> fields[i] != []
    decreases |s|
  {
    if s == [] then []
    else if sep(s[0]) then Tokens(s[1..], sep)
    else
      var k := Span(s, sep);
      [s[..k]] + Tokens(s[k..], sep)
  }

  // What ParseTCPFile separates fields by ...
  function IsBlank(c: char): bool { c == ' ' || c == '\t' }

  // ... while bytes.Fields also knows line breaks and, in UTF-8, U+0085 and U+00A0 in
  // two bytes and U+1680, U+2000 to U+200A, U+2028, U+2029, U+202F, U+205F and U+3000 in
  // three.
  function IsBreak(c: char): bool { 10 <= c as int <= 13 }

  predicate IsSpace2(a: char, b: char) {
    a as int == 0xC2 && (b as int == 0x85 || b as int == 0xA0)
  }

  predicate IsSpace3(a: char, b: char, c: char) {
    || (a as int == 0xE1 && b as int == 0x9A && c as int == 0x80)
    || (a as int == 0xE2 && b as int == 0x80
        && (0x80 <= c as int <= 0x8A || c as int == 0xA8 || c as int == 0xA9 || c as int == 0xAF))
    || (a as int == 0xE2 && b as int == 0x81 && c as int == 0x9F)
    || (a as int == 0xE3 && b as int == 0x80 && c as int == 0x80)
  }

  // How many bytes of white space other than blank and tab s begins with.  A lead byte
  // never occurs inside another rune, so looking at every position is decoding.
  function OddSpace(s: string): (k: nat)
    ensures k <= |s|
    ensures k > 0 ==> !IsBlank(s[0])
  {
    if |s| >= 1 && IsBreak(s[0]) then 1
    else if |s| >= 2 && IsSpace2(s[0], s[1]) then 2
    else if |s| >= 3 && IsSpace3(s[0], s[1], s[2]) then 3
    else 0
  }

  // s with such white space overwritten by blanks.
  function Blanked(s: string): (t: string)
    ensures |t| == |s|
    ensures forall i :: 0 <= i < |s| ==> t[i] == s[i] || t[i] == ' '
  {
    if s == [] then []
    else
      var k := OddSpace(s);
      if k == 0 then [s[0]] + Blanked(s[1..]) else seq(k, _ => ' ') + Blanked(s[k..])
  }

  // bytes.Fields; a field contains none of the overwritten bytes.
  function Fields(line: string): seq<string> { Tokens(Blanked(line), IsBlank) }

  // A line whose only white space is blanks and tabs.
  predicate Plain(line: string) { Blanked(line) == line }

  // ASCII text is plain if it has no line breaks.
  lemma {:induction false} AsciiPlain(line: string)
    requires forall i :: 0 <= i < |line| ==> line[i] as int < 128 && !IsBreak(line[i])
    ensures Plain(line)
  {
    if line != [] {
      AsciiPlain(line[1..]);
    }
  }

  // The fields of a line have as many bytes as the line has non-separators ...
  function Solids(s: string, sep: char -> bool): nat {
    if s == [] then 0 else (if sep(s[0]) then 0 else 1) + Solids(s[1..], sep)
  }

  function TotalLength(fields: seq<string>): nat {
    if fields == [] then 0 else |fields[0]| + TotalLength(fields[1..])
  }

  lemma {:induction false} SolidsSpan(s: string, sep: char -> bool)
    ensures Solids(s, sep) == Span(s, sep) + Solids(s[Span(s, sep)..], sep)
  {
    if s != [] && !sep(s[0]) {
      SolidsSpan(s[1..], sep);
      assert s[1..][Span(s[1..], sep)..] == s[Span(s, sep)..];
    }
  }

  lemma {:induction false} TokensLength(s: string, sep: char -> bool)
    ensures TotalLength(Tokens(s, sep)) == Solids(s, sep)
    decreases |s|
  {
    if s != [] {
      if sep(s[0]) {
        TokensLength(s[1..], sep);
      } else {
        var k := Span(s, sep);
        SolidsSpan(s, sep);
        TokensLength(s[k..], sep);
        assert ([s[..k]] + Tokens(s[k..], sep))[1..] == Tokens(s[k..], sep);
      }
    }
  }

  // ... and overwriting solid bytes by blanks leaves fewer of them.
  lemma {:induction false} FewerSolids(s: string)
    ensures Solids(Blanked(s), IsBlank) <= Solids(s, IsBlank)
    ensures Solids(Blanked(s), IsBlank) == Solids(s, IsBlank) ==> Plain(s)
    decreases |s|
  {
    if s != [] {
      var k := OddSpace(s);
      if k == 0 {
        FewerSolids(s[1..]);
      } else {
        FewerSolids(s[k..]);
        LeadingBlanks(k, Blanked(s[k..]));
        LeadingSolid(s, k);
      }
    }
  }

  lemma {:induction false} LeadingBlanks(k: nat, rest: string)
    ensures Solids(seq(k, _ => ' ') + rest, IsBlank) == Solids(rest, IsBlank)
  {
    if k == 0 {
      assert seq(0, _ => ' ') + rest == rest;
    } else {
      assert (seq(k, _ => ' ') + rest)[1..] == seq(k - 1, _ => ' ') + rest;
      LeadingBlanks(k - 1, rest);
    }
  }

  lemma {:induction false} SolidsDrop(s: string, k: nat)
    requires k <= |s|
    ensures Solids(s, IsBlank) >= Solids(s[k..], IsBlank)
  {
    if k > 0 {
      SolidsDrop(s[1..], k - 1);
      assert s[1..][k - 1..] == s[k..];
    }
  }

  lemma LeadingSolid(s: string, k: nat)
    requires 1 <= k <= |s| && !IsBlank(s[0])
    ensures Solids(s, IsBlank) > Solids(s[k..], IsBlank)
  {
    SolidsDrop(s[1..], k - 1);
    assert s[1..][k - 1..] == s[k..];
  }

  // A tab separates like a blank ...
  lemma {:induction false} TabIsBlank(a: string, b: string)
    ensures Tokens(a + "\t" + b, IsBlank) == Tokens(a + " " + b, IsBlank)
    decreases |a|
  {
    var s, t := a + "\t" + b, a + " " + b;
    if a == [] {
      assert s[1..] == b == t[1..];
    } else if IsBlank(a[0]) {
      assert s[1..] == a[1..] + "\t" + b && t[1..] == a[1..] + " " + b;
      TabIsBlank(a[1..], b);
    } else {
      var k := Span(a, IsBlank);
      SpanStops(a, "\t" + b);
      SpanStops(a, " " + b);
      assert s == a + ("\t" + b) && t == a + (" " + b);
      assert s[..k] == t[..k] && s[k..] == a[k..] + "\t" + b && t[k..] == a[k..] + " " + b;
      TabIsBlank(a[k..], b);
    }
  }

  lemma {:induction false} SpanStops(a: string, rest: string)
    requires rest != [] && IsBlank(rest[0])
    ensures Span(a + rest, IsBlank) == Span(a, IsBlank)
  {
    if a == [] {
      assert a + rest == rest;
    } else if !IsBlank(a[0]) {
      assert (a + rest)[1..] == a[1..] + rest;
      SpanStops(a[1..], rest);
    }
  }

  // ... and every other white space does so for bytes.Fields: it is overwritten by
  // blanks wherever it stands.
  predicate IsOddSpace(w: string) {
    w in {"\n", [11 as char], [12 as char], "\r", [0xC2 as char, 0x85 as char], [0xC2 as char, 0xA0 as char],
          [0xE1 as char, 0x9A as char, 0x80 as char], [0xE2 as char, 0x80 as char, 0x80 as char],
          [0xE2 as char, 0x80 as char, 0x8A as char], [0xE2 as char, 0x80 as char, 0xA8 as char],
          [0xE2 as char, 0x80 as char, 0xA9 as char], [0xE2 as char, 0x80 as char, 0xAF as char],
          [0xE2 as char, 0x81 as char, 0x9F as char], [0xE3 as char, 0x80 as char, 0x80 as char]}
  }

  lemma OddHead(w: string)
    requires IsOddSpace(w)
    ensures w != [] && OddSpace(w) == |w|
    ensures 10 <= w[0] as int <= 13 || w[0] as int == 0xC2 || 0xE1 <= w[0] as int <= 0xE3
  {
  }

  // Only what stands at the front decides, and no space ends in the first byte of another.
  lemma OddSpaceAt(a: string, w: string, b: string)
    requires OddSpace(w) == |w| > 0
    requires 10 <= w[0] as int <= 13 || w[0] as int == 0xC2 || 0xE1 <= w[0] as int <= 0xE3
    ensures OddSpace(w + b) == |w|
    ensures a != [] ==> OddSpace(a + (w + b)) == OddSpace(a)
  {
    if a != [] {
      var s := a + (w + b);
      assert s[0] == a[0];
      if |a| == 1 {
        assert s[1] == w[0];
      } else {
        assert s[1] == a[1];
        if |a| == 2 {
          assert s[2] == w[0];
        } else {
          assert s[2] == a[2];
        }
      }
    }
  }

  // What the first position contributes, and how long it is.
  function HeadLength(s: string): (k: nat)
    requires s != []
    ensures 1 <= k <= |s|
  {
    if OddSpace(s) == 0 then 1 else OddSpace(s)
  }

  function HeadBlanked(s: string): string
    requires s != []
  {
    if OddSpace(s) == 0 then [s[0]] else seq(OddSpace(s), _ => ' ')
  }

  lemma BlankedStep(s: string)
    requires s != []
    ensures Blanked(s) == HeadBlanked(s) + Blanked(s[HeadLength(s)..])
  {
  }

  lemma OverwrittenFirst(w: string, b: string)
    requires OddSpace(w + b) == |w| > 0
    ensures Blanked(w + b) == seq(|w|, _ => ' ') + Blanked(b)
  {
    BlankedStep(w + b);
    assert (w + b)[|w|..] == b;
  }

  lemma SameHead(a: string, more: string)
    requires a != [] && OddSpace(a + more) == OddSpace(a)
    ensures HeadBlanked(a + more) == HeadBlanked(a) && HeadLength(a + more) == HeadLength(a)
    ensures (a + more)[HeadLength(a)..] == a[HeadLength(a)..] + more
  {
  }

  lemma OverwrittenStep(a: string, more: string, rest: string, head: string, tail: string, t: string)
    requires a != [] && t == Blanked(tail + more) == Blanked(tail) + rest
    requires Blanked(a) == head + Blanked(tail) && Blanked(a + more) == head + t
    ensures Blanked(a + more) == Blanked(a) + rest
  {
    Associate(head, Blanked(tail), rest);
  }

  lemma Associate(a: string, b: string, c: string)
    ensures a + (b + c) == (a + b) + c
  {
  }

  lemma {:induction false} OverwrittenAt(a: string, w: string, b: string)
    requires OddSpace(w) == |w| > 0
    requires 10 <= w[0] as int <= 13 || w[0] as int == 0xC2 || 0xE1 <= w[0] as int <= 0xE3
    ensures Blanked(a + (w + b)) == Blanked(a) + (seq(|w|, _ => ' ') + Blanked(b))
    decreases |a|
  {
    OddSpaceAt(a, w, b);
    if a == [] {
      OverwrittenFirst(w, b);
      assert a + (w + b) == w + b;
    } else {
      var tail := a[HeadLength(a)..];
      OverwrittenAt(tail, w, b);
      SameHead(a, w + b);
      BlankedStep(a);
      BlankedStep(a + (w + b));
      OverwrittenStep(a, w + b, seq(|w|, _ => ' ') + Blanked(b), HeadBlanked(a), tail, Blanked(tail + (w + b)));
    }
  }

  lemma OddSpaceSeparates(a: string, w: string, b: string)
    requires IsOddSpace(w)
    ensures Blanked(a + (w + b)) == Blanked(a) + (seq(|w|, _ => ' ') + Blanked(b))
  {
    OddHead(w);
    OverwrittenAt(a, w, b);
  }

  // So the two splitters find the same fields on exactly the plain lines.
  lemma SplittersAgree(line: string)
    ensures Fields(line) == Tokens(line, IsBlank) <==> Plain(line)
  {
    TokensLength(Blanked(line), IsBlank);
    TokensLength(line, IsBlank);
    FewerSolids(line);
  }

  // --------------------------------------------------------------------------
  // Addresses
  // --------------------------------------------------------------------------

  // Byte i of a hex string, as encoding/hex decodes it.
  function HexByte(h: string, i: nat): Byte
    requires 2 * i + 1 < |h| && AllDigits(h, 16)
  {
    DigitValue(h[2 * i]) * 16 + DigitValue(h[2 * i + 1])
  }

  // Eight hex digits in host order, reversed to network order.
  function DecodeIPv4(h: string): Option<seq<Byte>> {
    if |h| == 8 && AllDigits(h, 16)
    then Some([HexByte(h, 3), HexByte(h, 2), HexByte(h, 1), HexByte(h, 0)])
    else None
  }

  // binary.LittleEndian.PutUint32
  function LittleEndian32(v: nat): seq<Byte> {
    [v % 256, v / 256 % 256, v / 65536 % 256, v / 16777216 % 256]
  }

  // parseIPv6Addr: four words, each read as a number and stored little-endian.
  function DecodeIPv6(h: string): Option<seq<Byte>> {
    if |h| != 32 then None
    else
      var w := seq(4, i requires 0 <= i < 4 => ParseUint(h[8 * i..8 * i + 8], 16, 0xFFFF_FFFF));
      if exists i :: 0 <= i < 4 && !w[i].ok then None
      else Some(LittleEndian32(w[0].value) + LittleEndian32(w[1].value)
                + LittleEndian32(w[2].value) + LittleEndian32(w[3].value))
  }

  // --------------------------------------------------------------------------
  // The record of one line
  // --------------------------------------------------------------------------

  function HexField(b: string, width: nat): Option<nat> {
    if 0 < |b| <= width && AllDigits(b, 16) then Some(Value(b, 16)) else None
  }

  function DecField(b: string): Option<nat> {
    if b != [] && AllDigits(b, 10) then Some(Value(b, 10) % (MAX_UINT64 + 1)) else None
  }

  // The two halves of an "IP:PORT" field.
  function HostPart(field: string): string
    requires ':' in field
  {
    field[..IndexOf(field, ':')]
  }

  function PortPart(field: string): string
    requires ':' in field
  {
    field[IndexOf(field, ':') + 1..]
  }

  // ParseTCPFile on the fields of a line.
  function FastRecord(f: seq<string>): Option<Conn> {
    if |f| < 10 || ':' !in f[1] || ':' !in f[2] then None
    else
      var lip, rip := DecodeIPv4(HostPart(f[1])), DecodeIPv4(HostPart(f[2]));
      var lport, rport := HexField(PortPart(f[1]), 4), HexField(PortPart(f[2]), 4);
      var state, inode := HexField(f[3], 2), DecField(f[9]);
      if lip.None? || rip.None? || lport.None? || rport.None? || state.None? || inode.None? then None
      else Some(Conn(lip.value, lport.value, rip.value, rport.value, state.value, inode.value))
  }

  datatype Addr = Addr(ip: seq<Byte>, port: nat)

  // parseAddr with the given address decoder.
  function SlowAddr(field: string, decode: string -> Option<seq<Byte>>): Option<Addr> {
    if ':' !in field || PortPart(field) == [] then None
    else
      var ip := decode(HostPart(field));
      var port := ParseUint(PortPart(field), 16, 0xFFFF);
      if ip.None? || !port.ok then None else Some(Addr(ip.value, port.value))
  }

  // readProcNetFile on the fields of a line; an inode that does not parse is kept
  // with whatever value ParseUint returned.
  function SlowRecord(f: seq<string>, decode: string -> Option<seq<Byte>>): Option<Conn> {
    if |f| < 10 then None
    else
      var local, remote := SlowAddr(f[1], decode), SlowAddr(f[2], decode);
      var state := ParseUint(f[3], 16, 0xFF);
      if local.None? || remote.None? || !state.ok then None
      else Some(Conn(local.value.ip, local.value.port, remote.value.ip, remote.value.port,
                     state.value, ParseUint(f[9], 10, MAX_UINT64).value))
  }

  function FastLine(line: string): Option<Conn> { FastRecord(Tokens(line, IsBlank)) }

  function SlowLine(line: string, decode: string -> Option<seq<Byte>>): Option<Conn> {
    SlowRecord(Fields(line), decode)
  }

  function SlowReader(decode: string -> Option<seq<Byte>>): string -> Option<Conn> {
    line => SlowLine(line, decode)
  }

  // --------------------------------------------------------------------------
  // Files
  // --------------------------------------------------------------------------

  // Zero or one records.
  function Listed(r: Option<Conn>): seq<Conn> {
    if r.Some? then [r.value] else []
  }

  function Collect(lines: seq<string>, read: string -> Option<Conn>): seq<Conn> {
    if lines == [] then [] else Listed(read(lines[0])) + Collect(lines[1..], read)
  }

  // Everything after the header line.
  function DataLines(data: string): seq<string> { SplitLines(data)[1..] }

  function FastFile(data: string): seq<Conn> { Collect(DataLines(data), FastLine) }

  function SlowFile(data: string, decode: string -> Option<seq<Byte>>): seq<Conn> {
    Collect(DataLines(data), SlowReader(decode))
  }
}
