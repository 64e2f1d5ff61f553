// Printing connections as /proc/net/tcp lines and reading them back.
module ProcNetRoundTrip {
  import opened Option
  import opened Digits
  import opened ProcNet
  import opened ProcNetEquivalence

  predicate Representable(c: Conn) {
    && |c.localIP| == 4 && |c.remoteIP| == 4
    && c.localPort < 0x1_0000 && c.remotePort < 0x1_0000
    && c.state < 0x100 && c.inode <= MAX_UINT64
  }

  // --------------------------------------------------------------------------
  // The printer
  // --------------------------------------------------------------------------

  // An address in host byte order: the bytes reversed, two digits each.
  function PrintIP(ip: seq<Byte>, lower: bool): string
    requires |ip| == 4
  {
    Fixed(ip[3], 16, 2, lower) + Fixed(ip[2], 16, 2, lower) + Fixed(ip[1], 16, 2, lower) + Fixed(ip[0], 16, 2, lower)
  }

  function PrintAddr(ip: seq<Byte>, port: nat, lower: bool): string
    requires |ip| == 4
  {
    PrintIP(ip, lower) + ":" + Fixed(port, 16, 4, false)
  }

  function Spaces(n: nat): (s: string)
    ensures |s| == n && forall i :: 0 <= i < n ==> s[i] == ' '
  {
    seq(n, _ => ' ')
  }

  // A field preceded by its padding.
  datatype Cell = Cell(pad: nat, text: string)

  function Layout(cells: seq<Cell>): string {
    if cells == [] then [] else Spaces(cells[0].pad) + cells[0].text + Layout(cells[1..])
  }

  // The columns the parser skips.
  const ZEROS := Fixed(0, 16, 8, false)
  const QUEUES :=
    [Cell(1, ZEROS + ":" + ZEROS), Cell(1, "00" + ":" + ZEROS), Cell(1, ZEROS), Cell(5, "0"), Cell(8, "0")]
  const TRAILER :=
    [Cell(1, "1"), Cell(1, Fixed(0, 16, 16, false)), Cell(1, "100"),
     Cell(1, "0"), Cell(1, "0"), Cell(1, "10"), Cell(1, "0")]

  // The first four columns of "%4d: %s %s:%s %s ... %d ..."
  function Front(slot: nat, c: Conn, lower: bool): seq<Cell>
    requires Representable(c)
  {
    var n := Decimal(slot);
    [Cell(if |n| < 4 then 4 - |n| else 0, n + ":"),
     Cell(1, PrintAddr(c.localIP, c.localPort, lower)),
     Cell(1, PrintAddr(c.remoteIP, c.remotePort, lower)),
     Cell(1, Fixed(c.state, 16, 2, false))]
  }

  function Cells(slot: nat, c: Conn, lower: bool): seq<Cell>
    requires Representable(c)
  {
    Front(slot, c, lower) + QUEUES + [Cell(1, Decimal(c.inode))] + TRAILER
  }

  function PrintLine(slot: nat, c: Conn, lower: bool): string
    requires Representable(c)
  {
    Layout(Cells(slot, c, lower))
  }

  // Each line ended by a line feed.
  function Joined(lines: seq<string>): string {
    if lines == [] then [] else lines[0] + "\n" + Joined(lines[1..])
  }

  // One line a connection, numbered from 0, under a header.
  function PrintLines(conns: seq<Conn>, lower: bool): seq<string>
    requires forall i :: 0 <= i < |conns| ==> Representable(conns[i])
  {
    seq(|conns|, i requires 0 <= i < |conns| => PrintLine(i, conns[i], lower))
  }

  function PrintFile(header: string, conns: seq<Conn>, lower: bool): string
    requires forall i :: 0 <= i < |conns| ==> Representable(conns[i])
  {
    Joined([header] + PrintLines(conns, lower))
  }

  // --------------------------------------------------------------------------
  // Fields come back
  // --------------------------------------------------------------------------

  // Text without a separator of the fast parser ...
  predicate Dense(s: string) {
    s != [] && forall i :: 0 <= i < |s| ==> !IsBlank(s[i])
  }

  // ... and, being ASCII without line breaks, of the slow one either.
  predicate Ascii(s: string) {
    forall i :: 0 <= i < |s| ==> s[i] as int < 128 && !IsBreak(s[i])
  }

  predicate Solid(s: string) { Dense(s) && Ascii(s) }

  predicate Spaced(cells: seq<Cell>) {
    && (forall i :: 0 <= i < |cells| ==> Dense(cells[i].text))
    && (forall i :: 1 <= i < |cells| ==> cells[i].pad > 0)
  }

  predicate WellSpaced(cells: seq<Cell>) {
    && (forall i :: 0 <= i < |cells| ==> Solid(cells[i].text))
    && (forall i :: 1 <= i < |cells| ==> cells[i].pad > 0)
  }

  lemma {:induction false} SkipSpaces(n: nat, rest: string)
    ensures Tokens(Spaces(n) + rest, IsBlank) == Tokens(rest, IsBlank)
  {
    if n == 0 {
      assert Spaces(0) + rest == rest;
    } else {
      assert (Spaces(n) + rest)[1..] == Spaces(n - 1) + rest;
      SkipSpaces(n - 1, rest);
    }
  }

  lemma {:induction false} SpanOfSolid(text: string, rest: string)
    requires forall i :: 0 <= i < |text| ==> !IsBlank(text[i])
    requires rest == [] || IsBlank(rest[0])
    ensures Span(text + rest, IsBlank) == |text|
  {
    if text == [] {
      assert text + rest == rest;
    } else {
      assert (text + rest)[1..] == text[1..] + rest;
      SpanOfSolid(text[1..], rest);
    }
  }

  function Texts(cells: seq<Cell>): seq<string> {
    if cells == [] then [] else [cells[0].text] + Texts(cells[1..])
  }

  lemma LayoutStep(pad: nat, text: string, rest: string)
    requires Dense(text) && (rest == [] || rest[0] == ' ')
    ensures Tokens(Spaces(pad) + text + rest, IsBlank) == [text] + Tokens(rest, IsBlank)
  {
    assert Spaces(pad) + text + rest == Spaces(pad) + (text + rest);
    SkipSpaces(pad, text + rest);
    SpanOfSolid(text, rest);
    assert (text + rest)[..|text|] == text && (text + rest)[|text|..] == rest;
  }

  lemma {:induction false} LayoutTokens(cells: seq<Cell>)
    requires Spaced(cells)
    ensures Tokens(Layout(cells), IsBlank) == Texts(cells)
    ensures cells != [] && cells[0].pad > 0 ==> Layout(cells) != [] && Layout(cells)[0] == ' '
  {
    if cells != [] {
      var pad, text, rest := cells[0].pad, cells[0].text, Layout(cells[1..]);
      assert Spaced(cells[1..]);
      LayoutTokens(cells[1..]);
      assert rest == [] || rest[0] == ' ';
      LayoutStep(pad, text, rest);
    }
  }

  lemma {:induction false} LayoutAscii(cells: seq<Cell>)
    requires forall i :: 0 <= i < |cells| ==> Ascii(cells[i].text)
    ensures Ascii(Layout(cells))
  {
    if cells != [] {
      var pad, text, rest := cells[0].pad, cells[0].text, Layout(cells[1..]);
      LayoutAscii(cells[1..]);
      AsciiConcat(Spaces(pad), text);
      AsciiConcat(Spaces(pad) + text, rest);
    }
  }

  lemma AsciiConcat(a: string, b: string)
    requires Ascii(a) && Ascii(b)
    ensures Ascii(a + b)
  {
  }

  // --------------------------------------------------------------------------
  // Values come back
  // --------------------------------------------------------------------------

  lemma DigitsAreSolid(s: string, base: int)
    requires AllDigits(s, base) && base <= 16
    ensures Ascii(s) && forall i :: 0 <= i < |s| ==> !IsBlank(s[i]) && s[i] != ':'
  {
  }

  lemma FixedByte(b: Byte, lower: bool)
    ensures var s := Fixed(b, 16, 2, lower);
            DigitValue(s[0]) * 16 + DigitValue(s[1]) == b
  {
    var hi := Fixed(b / 16, 16, 1, lower);
    assert hi == Fixed(b / 16 / 16, 16, 0, lower) + [DigitChar(b / 16 % 16, lower)];
  }

  lemma PrintedIP(ip: seq<Byte>, lower: bool)
    requires |ip| == 4
    ensures |PrintIP(ip, lower)| == 8 && AllDigits(PrintIP(ip, lower), 16)
    ensures DecodeIPv4(PrintIP(ip, lower)) == Some(ip)
  {
    var h := PrintIP(ip, lower);
    var a, b := Fixed(ip[0], 16, 2, lower), Fixed(ip[1], 16, 2, lower);
    var c, d := Fixed(ip[2], 16, 2, lower), Fixed(ip[3], 16, 2, lower);
    assert ip == [ip[0], ip[1], ip[2], ip[3]];
    assert h == [d[0], d[1], c[0], c[1], b[0], b[1], a[0], a[1]];
    FixedByte(ip[0], lower);
    FixedByte(ip[1], lower);
    FixedByte(ip[2], lower);
    FixedByte(ip[3], lower);
  }

  // "IP:PORT" has the parts it was made of.
  lemma Parts(host: string, port: string)
    requires AllDigits(host, 16) && AllDigits(port, 16)
    ensures var field := host + ":" + port;
            Solid(field) && ':' in field && HostPart(field) == host && PortPart(field) == port
  {
    var field := host + ":" + port;
    DigitsAreSolid(host, 16);
    DigitsAreSolid(port, 16);
    assert field[|host|] == ':' && field[..|host|] == host && field[|host| + 1..] == port;
    FirstAt(field, ':', |host|);
  }

  lemma PrintedAddr(ip: seq<Byte>, port: nat, lower: bool)
    requires |ip| == 4 && port < 0x1_0000
    ensures var field := PrintAddr(ip, port, lower);
            && Solid(field) && ':' in field
            && HostPart(field) == PrintIP(ip, lower) && DecodeIPv4(HostPart(field)) == Some(ip)
            && PortPart(field) == Fixed(port, 16, 4, false) && HexField(PortPart(field), 4) == Some(port)
  {
    PrintedIP(ip, lower);
    Parts(PrintIP(ip, lower), Fixed(port, 16, 4, false));
    PowerValues();
    FixedValue(port, 16, 4, false);
  }

  lemma PowerValues()
    ensures Pow(16, 2) == 0x100 && Pow(16, 4) == 0x1_0000
  {
    assert Pow(16, 4) == 16 * (16 * Pow(16, 2));
  }

  lemma AddrSolid(ip: seq<Byte>, port: nat, lower: bool)
    requires |ip| == 4 && port < 0x1_0000
    ensures Solid(PrintAddr(ip, port, lower))
  {
    PrintedAddr(ip, port, lower);
  }

  lemma FrontSpaced(slot: nat, c: Conn, lower: bool)
    requires Representable(c)
    ensures WellSpaced(Front(slot, c, lower))
  {
    LabelSolid(slot);
    AddrSolid(c.localIP, c.localPort, lower);
    AddrSolid(c.remoteIP, c.remotePort, lower);
    NumberSolid(Fixed(c.state, 16, 2, false), 16);
    FourSpaced(Front(slot, c, lower));
  }

  lemma FourSpaced(f: seq<Cell>)
    requires |f| == 4 && Solid(f[0].text) && Solid(f[1].text) && Solid(f[2].text) && Solid(f[3].text)
    requires f[1].pad > 0 && f[2].pad > 0 && f[3].pad > 0
    ensures WellSpaced(f)
  {
  }

  lemma LabelSolid(slot: nat)
    ensures Solid(Decimal(slot) + ":")
  {
    DigitsAreSolid(Decimal(slot), 10);
  }

  lemma NumberSolid(s: string, base: int)
    requires s != [] && AllDigits(s, base) && base <= 16
    ensures Solid(s)
  {
    DigitsAreSolid(s, base);
  }

  lemma SpacedConcat(a: seq<Cell>, b: seq<Cell>)
    requires WellSpaced(a) && WellSpaced(b) && (b != [] ==> b[0].pad > 0)
    ensures WellSpaced(a + b)
  {
  }

  lemma CellsSpaced(slot: nat, c: Conn, lower: bool)
    requires Representable(c)
    ensures WellSpaced(Cells(slot, c, lower))
  {
    var front, inode := Front(slot, c, lower), [Cell(1, Decimal(c.inode))];
    FrontSpaced(slot, c, lower);
    SkippedColumns();
    DigitsAreSolid(Decimal(c.inode), 10);
    SpacedConcat(front, QUEUES);
    SpacedConcat(front + QUEUES, inode);
    SpacedConcat(front + QUEUES + inode, TRAILER);
  }

  lemma SkippedColumns()
    ensures WellSpaced(QUEUES) && WellSpaced(TRAILER) && QUEUES[0].pad > 0 && TRAILER[0].pad > 0
  {
    QueuesSpaced();
    TrailerSpaced();
  }

  lemma QueuesSpaced()
    ensures WellSpaced(QUEUES) && QUEUES[0].pad > 0
  {
    Parts(ZEROS, ZEROS);
    Parts("00", ZEROS);
    NumberSolid(ZEROS, 16);
    NumberSolid("0", 10);
  }

  lemma TrailerSpaced()
    ensures WellSpaced(TRAILER) && TRAILER[0].pad > 0
  {
    NumberSolid("1", 10);
    NumberSolid(Fixed(0, 16, 16, false), 16);
    NumberSolid("100", 10);
    NumberSolid("0", 10);
    NumberSolid("10", 10);
  }

  lemma {:induction false} TextsAt(cells: seq<Cell>)
    ensures |Texts(cells)| == |cells| && forall i :: 0 <= i < |cells| ==> Texts(cells)[i] == cells[i].text
  {
    if cells != [] {
      TextsAt(cells[1..]);
    }
  }

  lemma ColumnsAt(front: seq<Cell>, inode: Cell)
    requires |front| == 4
    ensures var cells := front + QUEUES + [inode] + TRAILER;
            |cells| == 17 && cells[..4] == front && cells[9] == inode
  {
    assert |QUEUES| == 5 && |TRAILER| == 7;
  }

  // f has the parsed columns of c where the parser looks for them.
  predicate HasColumns(f: seq<string>, c: Conn, lower: bool)
    requires Representable(c)
  {
    && |f| >= 10
    && f[1] == PrintAddr(c.localIP, c.localPort, lower)
    && f[2] == PrintAddr(c.remoteIP, c.remotePort, lower)
    && f[3] == Fixed(c.state, 16, 2, false)
    && f[9] == Decimal(c.inode)
  }

  lemma StateBack(state: nat)
    requires state < 0x100
    ensures HexField(Fixed(state, 16, 2, false), 2) == Some(state)
  {
    PowerValues();
    FixedValue(state, 16, 2, false);
  }

  lemma InodeBack(inode: nat)
    requires inode <= MAX_UINT64
    ensures DecField(Decimal(inode)) == Some(inode) && Value(Decimal(inode), 10) <= MAX_UINT64
  {
    DecimalValue(inode);
    DivModUnique(inode, 0, inode, MAX_UINT64 + 1);
  }

  lemma AddrBack(ip: seq<Byte>, port: nat, lower: bool)
    requires |ip| == 4 && port < 0x1_0000
    ensures var field := PrintAddr(ip, port, lower);
            && WellFormedAddr(field)
            && DecodeIPv4(HostPart(field)) == Some(ip) && HexField(PortPart(field), 4) == Some(port)
  {
    PrintedAddr(ip, port, lower);
    PrintedIP(ip, lower);
  }

  lemma FieldsRoundTrip(f: seq<string>, c: Conn, lower: bool)
    requires Representable(c) && HasColumns(f, c, lower)
    ensures FastRecord(f) == Some(c)
    ensures WellFormedAddr(f[1]) && WellFormedAddr(f[2]) && Value(f[9], 10) <= MAX_UINT64
  {
    AddrBack(c.localIP, c.localPort, lower);
    AddrBack(c.remoteIP, c.remotePort, lower);
    StateBack(c.state);
    InodeBack(c.inode);
  }

  lemma FrontColumns(front: seq<Cell>, slot: nat, c: Conn, lower: bool, f: seq<string>)
    requires Representable(c) && front == Front(slot, c, lower)
    requires |f| >= 10 && (forall i :: 0 <= i < 4 ==> f[i] == front[i].text) && f[9] == Decimal(c.inode)
    ensures HasColumns(f, c, lower)
  {
  }

  lemma LineColumns(slot: nat, c: Conn, lower: bool)
    requires Representable(c)
    ensures HasColumns(Tokens(PrintLine(slot, c, lower), IsBlank), c, lower)
    ensures Ascii(PrintLine(slot, c, lower))
  {
    var front, inode := Front(slot, c, lower), Cell(1, Decimal(c.inode));
    var cells := front + QUEUES + [inode] + TRAILER;
    CellsSpaced(slot, c, lower);
    LayoutTokens(cells);
    LayoutAscii(cells);
    TextsAt(cells);
    ColumnsAt(front, inode);
    assert forall i :: 0 <= i < 4 ==> cells[i] == cells[..4][i];
    FrontColumns(front, slot, c, lower, Texts(cells));
  }

  // One printed line is well formed and reads back as the connection it shows.
  lemma LineRoundTrip(slot: nat, c: Conn, lower: bool)
    requires Representable(c)
    ensures var line := PrintLine(slot, c, lower);
            FastLine(line) == Some(c) && WellFormed(line) && '\n' !in line
  {
    var line := PrintLine(slot, c, lower);
    LineColumns(slot, c, lower);
    AsciiPlain(line);
    FieldsRoundTrip(Tokens(line, IsBlank), c, lower);
  }

  lemma LineSplits(line: string, rest: string)
    requires '\n' !in line
    ensures SplitLines(line + "\n" + rest) == [line] + SplitLines(rest)
  {
    var data := line + "\n" + rest;
    assert data[|line|] == '\n' && data[..|line|] == line && data[|line| + 1..] == rest;
    FirstAt(data, '\n', |line|);
  }

  predicate NoBreaks(lines: seq<string>) {
    forall i :: 0 <= i < |lines| ==> '\n' !in lines[i]
  }

  lemma HeadFirst(lines: seq<string>, more: seq<string>)
    requires lines != []
    ensures lines + more == [lines[0]] + (lines[1..] + more)
  {
  }

  lemma {:induction false} JoinedSplits(lines: seq<string>)
    requires NoBreaks(lines)
    ensures SplitLines(Joined(lines)) == lines + [[]]
  {
    if lines != [] {
      var line, rest := lines[0], Joined(lines[1..]);
      JoinedSplits(lines[1..]);
      LineSplits(line, rest);
      HeadFirst(lines, [[]]);
    }
  }

  // The fast parser reads the lines as the connections.
  predicate ReadAs(lines: seq<string>, conns: seq<Conn>) {
    |lines| == |conns| && forall i :: 0 <= i < |conns| ==> FastLine(lines[i]) == Some(conns[i])
  }

  lemma {:induction false} CollectAll(lines: seq<string>, conns: seq<Conn>)
    requires ReadAs(lines, conns)
    ensures Collect(lines + [[]], FastLine) == conns
  {
    if conns == [] {
      assert FastLine([]) == None;
      assert Collect([[]][1..], FastLine) == [];
    } else {
      assert (lines + [[]])[1..] == lines[1..] + [[]];
      CollectAll(lines[1..], conns[1..]);
    }
  }

  lemma DataOf(header: string, lines: seq<string>)
    requires '\n' !in header && NoBreaks(lines)
    ensures DataLines(Joined([header] + lines)) == lines + [[]]
  {
    JoinedSplits([header] + lines);
  }

  // The unterminated last line a file ends with is empty, and well formed.
  lemma EndWellFormed(lines: seq<string>)
    requires AllWellFormed(lines)
    ensures AllWellFormed(lines + [[]])
  {
    assert Plain([]);
    assert WellFormed([]);
  }

  lemma LinesRoundTrip(header: string, lines: seq<string>, conns: seq<Conn>)
    requires '\n' !in header && NoBreaks(lines) && AllWellFormed(lines) && ReadAs(lines, conns)
    ensures FastFile(Joined([header] + lines)) == conns
    ensures SlowFile(Joined([header] + lines), DecodeIPv4) == conns
  {
    DataOf(header, lines);
    CollectAll(lines, conns);
    EndWellFormed(lines);
    WellFormedFilesAgree(Joined([header] + lines));
  }

  // Print, then parse: both parsers give back the list that was printed.
  lemma FileRoundTrip(header: string, conns: seq<Conn>, lower: bool)
    requires '\n' !in header
    requires forall i :: 0 <= i < |conns| ==> Representable(conns[i])
    ensures FastFile(PrintFile(header, conns, lower)) == conns
    ensures SlowFile(PrintFile(header, conns, lower), DecodeIPv4) == conns
  {
    var lines := PrintLines(conns, lower);
    forall i | 0 <= i < |lines|
      ensures FastLine(lines[i]) == Some(conns[i]) && WellFormed(lines[i]) && '\n' !in lines[i]
    {
      LineRoundTrip(i, conns[i], lower);
    }
    LinesRoundTrip(header, lines, conns);
  }

  // --------------------------------------------------------------------------
  // IPv6: each of the four words is read like an IPv4 address
  // --------------------------------------------------------------------------

  lemma WordIsIPv4(h: string)
    requires |h| == 8
    ensures DecodeIPv4(h).Some? <==> ParseUint(h, 16, 0xFFFF_FFFF).ok
    ensures DecodeIPv4(h).Some? ==> LittleEndian32(ParseUint(h, 16, 0xFFFF_FFFF).value) == DecodeIPv4(h).value
  {
    ParseUintMeaning(h, 16, 0xFFFF_FFFF);
    if AllDigits(h, 16) {
      WordValue(h);
      FourBytes(HexByte(h, 0), HexByte(h, 1), HexByte(h, 2), HexByte(h, 3));
    }
  }

  lemma WordValue(h: string)
    requires |h| == 8 && AllDigits(h, 16)
    ensures Value(h, 16) == ((HexByte(h, 0) * 256 + HexByte(h, 1)) * 256 + HexByte(h, 2)) * 256 + HexByte(h, 3)
  {
    PairValue(h, 8);
    PairValue(h, 6);
    PairValue(h, 4);
    PairValue(h, 2);
    assert h[..8] == h && h[..0] == [];
  }

  lemma PairValue(h: string, k: nat)
    requires 2 <= k <= |h| && k % 2 == 0 && AllDigits(h, 16)
    ensures Value(h[..k], 16) == Value(h[..k - 2], 16) * 256 + HexByte(h, k / 2 - 1)
  {
    assert h[..k][..k - 1] == h[..k - 1] && h[..k - 1][..k - 2] == h[..k - 2];
    assert 2 * (k / 2 - 1) == k - 2;
  }

  lemma FourBytes(a: Byte, b: Byte, c: Byte, d: Byte)
    ensures var v := ((a * 256 + b) * 256 + c) * 256 + d;
            v <= 0xFFFF_FFFF && LittleEndian32(v) == [d, c, b, a]
  {
    var x := a * 256 + b;
    var y := x * 256 + c;
    var v := y * 256 + d;
    DivModUnique(v, y, d, 256);
    DivModUnique(v, x, c * 256 + d, 65536);
    DivModUnique(v, a, (b * 256 + c) * 256 + d, 16777216);
    DivModUnique(y, x, c, 256);
    DivModUnique(x, a, b, 256);
  }

  lemma IPv6IsFourWords(h: string)
    requires |h| == 32
    ensures DecodeIPv6(h).Some? <==>
              DecodeIPv4(h[0..8]).Some? && DecodeIPv4(h[8..16]).Some?
              && DecodeIPv4(h[16..24]).Some? && DecodeIPv4(h[24..32]).Some?
    ensures DecodeIPv6(h).Some? ==>
              DecodeIPv6(h).value == DecodeIPv4(h[0..8]).value + DecodeIPv4(h[8..16]).value
                                     + DecodeIPv4(h[16..24]).value + DecodeIPv4(h[24..32]).value
  {
    WordIsIPv4(h[0..8]);
    WordIsIPv4(h[8..16]);
    WordIsIPv4(h[16..24]);
    WordIsIPv4(h[24..32]);
    FourWords(h);
  }

  function Word(h: string): Parsed { ParseUint(h, 16, 0xFFFF_FFFF) }

  lemma FourWords(h: string)
    requires |h| == 32
    ensures var a, b, c, d := Word(h[0..8]), Word(h[8..16]), Word(h[16..24]), Word(h[24..32]);
            DecodeIPv6(h)
            == if a.ok && b.ok && c.ok && d.ok
               then Some(LittleEndian32(a.value) + LittleEndian32(b.value)
                         + LittleEndian32(c.value) + LittleEndian32(d.value))
               else None
  {
    var w := seq(4, i requires 0 <= i < 4 => ParseUint(h[8 * i..8 * i + 8], 16, 0xFFFF_FFFF));
    assert w[0] == Word(h[0..8]) && w[1] == Word(h[8..16]) && w[2] == Word(h[16..24]) && w[3] == Word(h[24..32]);
  }
}
