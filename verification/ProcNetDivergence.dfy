// Lines on which ParseTCPFile and readProcNetFile differ: one for each way a line can
// fail to be narrow, and two whose white space only one of them sees.
module ProcNetDivergence {
  import opened Option
  import opened Digits
  import opened ProcNet
  import opened ProcNetRoundTrip

  const LOOPBACK := "0100007F"

  // A listening loopback socket with the given slot, local port and inode texts.
  function RowCells(slot: string, port: string, inode: string): seq<Cell> { [Cell(0, slot)] + RowTail(port, inode) }

  function RowTail(port: string, inode: string): seq<Cell> {
    [Cell(1, LOOPBACK + ":" + port), Cell(1, LOOPBACK + ":" + "0050"), Cell(1, "0A")] + QUEUES + [Cell(1, inode)]
  }

  function Line(slot: string, port: string, inode: string): string { Layout(RowCells(slot, port, inode)) }

  // What a parser sees that finds these fields.
  ghost predicate Shows(f: seq<string>, port: string, inode: string) {
    && |f| == 10 && f[1] == LOOPBACK + ":" + port && f[2] == LOOPBACK + ":" + "0050"
    && f[3] == "0A" && f[9] == inode
  }

  lemma HexText(s: string)
    requires s == "0100007F" || s == "00050" || s == "0050" || s == "0A"
    ensures AllDigits(s, 16)
  {
  }

  lemma FixedFieldsSolid(port: string)
    requires port == "0050" || port == "00050"
    ensures Solid(LOOPBACK + ":" + port) && Solid(LOOPBACK + ":" + "0050") && Solid("0A")
  {
    HexText(LOOPBACK);
    HexText(port);
    HexText("0050");
    HexText("0A");
    Parts(LOOPBACK, port);
    Parts(LOOPBACK, "0050");
    NumberSolid("0A", 16);
  }

  lemma RowSpaced(slot: string, port: string, inode: string)
    requires (port == "0050" || port == "00050") && Dense(slot) && Dense(inode)
    ensures Spaced(RowCells(slot, port, inode))
  {
    FixedFieldsSolid(port);
    QueuesSpaced();
  }

  lemma RowAt(slot: string, port: string, inode: string)
    ensures var cells := RowCells(slot, port, inode);
            && |cells| == 10 && cells[1].text == LOOPBACK + ":" + port
            && cells[2].text == LOOPBACK + ":" + "0050" && cells[3].text == "0A" && cells[9].text == inode
  {
    assert |QUEUES| == 5;
  }

  lemma LineFields(slot: string, port: string, inode: string)
    requires (port == "0050" || port == "00050") && Dense(slot) && Dense(inode)
    ensures Shows(Tokens(Line(slot, port, inode), IsBlank), port, inode)
  {
    RowSpaced(slot, port, inode);
    RowAt(slot, port, inode);
    LayoutTokens(RowCells(slot, port, inode));
    TextsAt(RowCells(slot, port, inode));
  }

  lemma LineAscii(slot: string, port: string, inode: string)
    requires (port == "0050" || port == "00050") && Ascii(slot) && Ascii(inode)
    ensures Ascii(Line(slot, port, inode)) && Plain(Line(slot, port, inode))
  {
    FixedFieldsSolid(port);
    QueuesSpaced();
    LayoutAscii(RowCells(slot, port, inode));
    AsciiPlain(Line(slot, port, inode));
  }

  // --------------------------------------------------------------------------
  // What the two parsers make of such fields
  // --------------------------------------------------------------------------

  function Socket(inode: nat): Conn {
    Conn([127, 0, 0, 1], 80, [127, 0, 0, 1], 80, 10, inode)
  }

  lemma PortReads()
    ensures AllDigits("0050", 16) && AllDigits("00050", 16)
    ensures Value("0050", 16) == 80 && Value("00050", 16) == 80
  {
    assert "00050"[..4] == "0005" && "0005"[..3] == "000" && "000"[..2] == "00" && "00"[..1] == "0" && "0"[..0] == "";
    assert "0050"[..3] == "005" && "005"[..2] == "00";
  }

  lemma StateReads()
    ensures AllDigits("0A", 16) && Value("0A", 16) == 10
  {
    assert "0A"[..1] == "0" && "0"[..0] == "";
  }

  lemma LoopbackReads()
    ensures DecodeIPv4(LOOPBACK) == Some([127, 0, 0, 1])
  {
  }

  lemma AddrReads(port: string)
    requires port == "0050" || port == "00050"
    ensures SlowAddr(LOOPBACK + ":" + port, DecodeIPv4) == Some(Addr([127, 0, 0, 1], 80))
    ensures ':' in LOOPBACK + ":" + port && HostPart(LOOPBACK + ":" + port) == LOOPBACK
    ensures PortPart(LOOPBACK + ":" + port) == port
  {
    HexText(LOOPBACK);
    HexText(port);
    Parts(LOOPBACK, port);
    LoopbackReads();
    PortReads();
    ParseUintMeaning(port, 16, 0xFFFF);
  }

  lemma SlowReads(f: seq<string>, port: string, inode: string)
    requires Shows(f, port, inode) && (port == "0050" || port == "00050")
    ensures SlowRecord(f, DecodeIPv4) == Some(Socket(ParseUint(inode, 10, MAX_UINT64).value))
  {
    AddrReads(port);
    AddrReads("0050");
    StateReads();
    ParseUintMeaning("0A", 16, 0xFF);
  }

  lemma FastReads(f: seq<string>, inode: string)
    requires Shows(f, "0050", inode)
    ensures FastRecord(f) == if DecField(inode).Some? then Some(Socket(DecField(inode).value)) else None
  {
    AddrReads("0050");
    PortReads();
    StateReads();
    LoopbackReads();
  }

  lemma NineReads()
    ensures Solid("9") && DecField("9") == Some(9) && ParseUint("9", 10, MAX_UINT64).value == 9
  {
    assert "9"[..0] == "";
    assert Value("9", 10) == 9;
    DivModUnique(9, 0, 9, MAX_UINT64 + 1);
    ParseUintMeaning("9", 10, MAX_UINT64);
  }

  lemma ReadsLine(slot: string, port: string, inode: string)
    requires (port == "0050" || port == "00050") && Solid(slot) && Solid(inode)
    ensures var line := Line(slot, port, inode);
            && Plain(line)
            && SlowLine(line, DecodeIPv4) == Some(Socket(ParseUint(inode, 10, MAX_UINT64).value))
            && (port == "00050" ==> FastLine(line) == None)
            && (port == "0050" ==>
                  FastLine(line) == if DecField(inode).Some? then Some(Socket(DecField(inode).value)) else None)
  {
    var line := Line(slot, port, inode);
    LineFields(slot, port, inode);
    LineAscii(slot, port, inode);
    SlowReads(Tokens(line, IsBlank), port, inode);
    if port == "0050" {
      FastReads(Tokens(line, IsBlank), inode);
    } else {
      AddrReads(port);
    }
  }

  lemma SlotSolid()
    ensures Solid("0:")
  {
  }

  // --------------------------------------------------------------------------
  // The lines
  // --------------------------------------------------------------------------

  // A port padded to five digits: kept by the slow parser only.
  lemma PaddedPortDiffers()
    ensures var line := Line("0:", "00050", "9");
            Plain(line) && FastLine(line) == None && SlowLine(line, DecodeIPv4) == Some(Socket(9))
  {
    SlotSolid();
    NineReads();
    ReadsLine("0:", "00050", "9");
  }

  // An inode with a stray character: inode 0 to the slow parser, no line to the fast one.
  lemma BadInodeDiffers()
    ensures var line := Line("0:", "0050", "12x");
            Plain(line) && FastLine(line) == None && SlowLine(line, DecodeIPv4) == Some(Socket(0))
  {
    SlotSolid();
    StraySolid();
    BadInodeReads();
    ReadsLine("0:", "0050", "12x");
  }

  lemma StraySolid()
    ensures Solid("12x")
  {
  }

  lemma BadInodeReads()
    ensures DecField("12x") == None && ParseUint("12x", 10, MAX_UINT64).value == 0
  {
    assert DigitValue("12x"[2]) == 16;
    assert "12x"[1..] == "2x";
    assert Scan("2x", 10, MAX_UINT64, 1) == Parsed(0, false);
  }

  // The inode 2^64: it saturates in the slow parser and wraps to 0 in the fast one.
  lemma LongInodeDiffers()
    ensures var line := Line("0:", "0050", Decimal(MAX_UINT64 + 1));
            Plain(line) && FastLine(line) == Some(Socket(0)) && SlowLine(line, DecodeIPv4) == Some(Socket(MAX_UINT64))
  {
    var inode := Decimal(MAX_UINT64 + 1);
    SlotSolid();
    LongInodeReads();
    NumberSolid(inode, 10);
    ReadsLine("0:", "0050", inode);
  }

  lemma LongInodeReads()
    ensures var inode := Decimal(MAX_UINT64 + 1);
            DecField(inode) == Some(0) && ParseUint(inode, 10, MAX_UINT64).value == MAX_UINT64
  {
    DecimalValue(MAX_UINT64 + 1);
    DivModUnique(MAX_UINT64 + 1, 1, 0, MAX_UINT64 + 1);
    ParseUintMeaning(Decimal(MAX_UINT64 + 1), 10, MAX_UINT64);
  }

  // A no-break space in the slot: one field to the fast parser, two to the slow one,
  // which then takes ":" for the local address and drops the line.
  const NO_BREAK: string := [0xC2 as char, 0xA0 as char]

  lemma WideSpaceDiffers()
    ensures var line := Line("0" + NO_BREAK + ":", "0050", "9");
            !Plain(line) && FastLine(line) == Some(Socket(9)) && SlowLine(line, DecodeIPv4) == None
  {
    var line := Line("0" + NO_BREAK + ":", "0050", "9");
    NineReads();
    LineFields("0" + NO_BREAK + ":", "0050", "9");
    FastReads(Tokens(line, IsBlank), "9");
    WideFields();
    SplittersAgree(line);
  }

  lemma LineParts(slot: string, tail: seq<Cell>)
    ensures Layout([Cell(0, slot)] + tail) == slot + Layout(tail)
  {
    var cells := [Cell(0, slot)] + tail;
    assert cells[1..] == tail;
    assert Spaces(0) + slot == slot;
  }

  lemma TailAscii()
    ensures Ascii(Layout(RowTail("0050", "9")))
  {
    NineReads();
    FixedFieldsSolid("0050");
    QueuesSpaced();
    LayoutAscii(RowTail("0050", "9"));
  }

  lemma SplitSpaced()
    ensures Spaced([Cell(0, "0"), Cell(2, ":")] + RowTail("0050", "9"))
  {
    NineReads();
    RowSpaced(":", "0050", "9");
    assert RowCells(":", "0050", "9")[1..] == RowTail("0050", "9");
  }

  lemma WideFields()
    ensures var f := Fields(Line("0" + NO_BREAK + ":", "0050", "9"));
            |f| == 11 && f[1] == ":" && SlowRecord(f, DecodeIPv4) == None
  {
    var cells := [Cell(0, "0"), Cell(2, ":")] + RowTail("0050", "9");
    WideBlanked();
    SplitSpaced();
    LayoutTokens(cells);
    TextsAt(cells);
    assert cells[1].text == ":" && |cells| == 11;
    NoPort();
  }

  lemma NoPort()
    ensures SlowAddr(":", DecodeIPv4) == None
  {
    FirstAt(":", ':', 0);
    assert ":"[1..] == "";
  }

  lemma WideBlanked()
    ensures Blanked(Line("0" + NO_BREAK + ":", "0050", "9"))
            == Layout([Cell(0, "0"), Cell(2, ":")] + RowTail("0050", "9"))
  {
    var tail := RowTail("0050", "9");
    LineParts("0" + NO_BREAK + ":", tail);
    TailAscii();
    WidePrefix(Layout(tail));
    SplitLayout(tail);
  }

  lemma WidePrefix(rest: string)
    requires Ascii(rest)
    ensures Blanked("0" + NO_BREAK + ":" + rest) == "0" + ("  " + (":" + rest))
  {
    var s := "0" + NO_BREAK + ":" + rest;
    assert s[1..] == NO_BREAK + (":" + rest) && s[1..][2..] == ":" + rest;
    AsciiPlain(":" + rest);
    assert OddSpace(s) == 0 && OddSpace(s[1..]) == 2;
    assert seq(2, _ => ' ') == "  ";
  }

  lemma SplitLayout(tail: seq<Cell>)
    ensures Layout([Cell(0, "0"), Cell(2, ":")] + tail) == "0" + ("  " + (":" + Layout(tail)))
  {
    var cells := [Cell(2, ":")] + tail;
    assert cells[1..] == tail;
    assert Spaces(2) == "  " && Spaces(0) == "";
    assert Layout(cells) == "  " + (":" + Layout(tail));
    assert ([Cell(0, "0"), Cell(2, ":")] + tail)[1..] == cells;
  }

  // A carriage return at the end: part of the inode to the fast parser only.
  lemma CarriageReturnDiffers()
    ensures var line := Line("0:", "0050", "9") + "\r";
            !Plain(line) && FastLine(line) == None && SlowLine(line, DecodeIPv4) == Some(Socket(9))
  {
    SlotSolid();
    NineReads();
    ReadsLine("0:", "0050", "9");
    LineAscii("0:", "0050", "9");
    ReturnDropped(Line("0:", "0050", "9"));
    ReturnRejected();
  }

  // The slow parser does not see it ...
  lemma ReturnDropped(text: string)
    requires Ascii(text)
    ensures !Plain(text + "\r") && Fields(text + "\r") == Fields(text)
  {
    BlankedReturn(text);
    TrailingBlank(text);
    AsciiPlain(text);
    assert (text + "\r")[|text|] != (text + " ")[|text|];
  }

  // ... and the fast one finds it in the inode.
  lemma ReturnRejected()
    ensures FastLine(Line("0:", "0050", "9") + "\r") == None
  {
    ReturnInField();
    SlotSolid();
    ReturnDense();
    LineFields("0:", "0050", "9" + "\r");
    FastReads(Tokens(Line("0:", "0050", "9" + "\r"), IsBlank), "9" + "\r");
  }

  lemma ReturnDense()
    ensures Dense("9" + "\r") && DecField("9" + "\r") == None
  {
    assert DigitValue(("9" + "\r")[1]) == 16;
  }

  lemma ReturnInField()
    ensures Line("0:", "0050", "9") + "\r" == Line("0:", "0050", "9" + "\r")
  {
    var cells := RowCells("0:", "0050", "9");
    LastExtended(cells, "\r");
    RowAt("0:", "0050", "9");
    assert RowCells("0:", "0050", "9" + "\r") == cells[..9] + [Cell(1, "9" + "\r")];
  }

  lemma {:induction false} BlankedReturn(s: string)
    requires Ascii(s)
    ensures Blanked(s + "\r") == s + " "
  {
    if s == [] {
      assert s + "\r" == "\r" && "\r"[1..] == [];
      assert Blanked("\r") == seq(1, _ => ' ') + Blanked([]);
    } else {
      assert (s + "\r")[1..] == s[1..] + "\r";
      BlankedReturn(s[1..]);
    }
  }

  lemma {:induction false} TrailingBlank(s: string)
    ensures Tokens(s + " ", IsBlank) == Tokens(s, IsBlank)
    decreases |s|
  {
    if s == [] {
      assert s + " " == " " && " "[1..] == [];
    } else if IsBlank(s[0]) {
      assert (s + " ")[1..] == s[1..] + " ";
      TrailingBlank(s[1..]);
    } else {
      var k := Span(s, IsBlank);
      TrailingSpan(s);
      TrailingBlank(s[k..]);
      assert (s + " ")[..k] == s[..k] && (s + " ")[k..] == s[k..] + " ";
    }
  }

  lemma {:induction false} TrailingSpan(s: string)
    ensures Span(s + " ", IsBlank) == Span(s, IsBlank)
  {
    if s == [] {
      assert s + " " == " ";
    } else if !IsBlank(s[0]) {
      assert (s + " ")[1..] == s[1..] + " ";
      TrailingSpan(s[1..]);
    }
  }

  lemma {:induction false} LastExtended(cells: seq<Cell>, more: string)
    requires cells != []
    ensures var n := |cells| - 1;
            Layout(cells) + more == Layout(cells[..n] + [cells[n].(text := cells[n].text + more)])
  {
    var n := |cells| - 1;
    var cells' := cells[..n] + [cells[n].(text := cells[n].text + more)];
    if n == 0 {
      assert cells'[1..] == [] && cells[1..] == [];
    } else {
      LastExtended(cells[1..], more);
      assert cells'[1..] == cells[1..][..n - 1] + [cells[n].(text := cells[n].text + more)];
    }
  }
}
