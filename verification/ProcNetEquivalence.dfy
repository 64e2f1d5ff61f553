// When ParseTCPFile and readProcNetFile read the same records: exactly when every
// line the slow parser keeps is narrow.
module ProcNetEquivalence {
  import opened Digits
  import opened ProcNet

  // Field widths as the kernel prints them, and a decimal inode that either fits
  // 64 bits or wraps onto the value strconv saturates at.
  predicate Narrow(f: seq<string>)
    requires |f| >= 10 && ':' in f[1] && ':' in f[2]
  {
    && |PortPart(f[1])| <= 4
    && |PortPart(f[2])| <= 4
    && |f[3]| <= 2
    && AllDigits(f[9], 10)
    && (Value(f[9], 10) > MAX_UINT64 ==> Value(f[9], 10) % (MAX_UINT64 + 1) == MAX_UINT64)
  }

  // A short hex string cannot overflow, so both number readers agree on it.
  lemma HexAgrees(b: string, width: nat)
    requires width == 2 || width == 4
    ensures HexField(b, width).Some? <==> ParseUint(b, 16, Pow(16, width) - 1).ok && |b| <= width
    ensures HexField(b, width).Some? ==> HexField(b, width).value == ParseUint(b, 16, Pow(16, width) - 1).value
    ensures Pow(16, 2) == 0x100 && Pow(16, 4) == 0x1_0000
  {
    assert Pow(16, 4) == 16 * (16 * Pow(16, 2));
    ParseUintMeaning(b, 16, Pow(16, width) - 1);
    if |b| <= width && AllDigits(b, 16) {
      ValueBound(b, 16);
      PowMonotone(16, |b|, width);
    }
  }

  lemma InodeAgrees(b: string)
    requires b != [] && AllDigits(b, 10)
    ensures DecField(b).value == ParseUint(b, 10, MAX_UINT64).value
            <==> (Value(b, 10) > MAX_UINT64 ==> Value(b, 10) % (MAX_UINT64 + 1) == MAX_UINT64)
  {
    ParseUintMeaning(b, 10, MAX_UINT64);
    if Value(b, 10) <= MAX_UINT64 {
      DivModUnique(Value(b, 10), 0, Value(b, 10), MAX_UINT64 + 1);
    }
  }

  // The fast parser keeps a subset of the lines the slow one keeps, and the two
  // agree on a line exactly when the slow one rejects it or it is narrow.
  lemma RecordsAgree(f: seq<string>)
    requires forall i :: 0 <= i < |f| ==> f[i] != []
    ensures FastRecord(f).Some? ==> SlowRecord(f, DecodeIPv4).Some?
    ensures FastRecord(f) == SlowRecord(f, DecodeIPv4)
            <==> (SlowRecord(f, DecodeIPv4).Some? ==> Narrow(f))
  {
    if |f| >= 10 && ':' in f[1] && ':' in f[2] {
      HexAgrees(PortPart(f[1]), 4);
      HexAgrees(PortPart(f[2]), 4);
      HexAgrees(f[3], 2);
      if AllDigits(f[9], 10) {
        InodeAgrees(f[9]);
      }
    }
  }

  predicate NarrowIfKept(line: string) {
    SlowLine(line, DecodeIPv4).Some? ==> Narrow(Fields(line))
  }

  lemma LinesAgree(line: string)
    requires Plain(line)
    ensures FastLine(line).Some? ==> SlowLine(line, DecodeIPv4).Some?
    ensures FastLine(line) == SlowLine(line, DecodeIPv4) <==> NarrowIfKept(line)
  {
    SplittersAgree(line);
    RecordsAgree(Tokens(line, IsBlank));
  }

  // What the fast parser keeps the slow one keeps too, in its own way; so plain lines do.
  predicate KeptByBoth(line: string) {
    FastLine(line).Some? ==> SlowLine(line, DecodeIPv4).Some?
  }

  predicate SameReading(line: string) { FastLine(line) == SlowLine(line, DecodeIPv4) }

  // On such lines the fast parser never returns more records, and equal counts leave no
  // room for two lines whose differences cancel out.
  lemma {:induction false} CollectsAgree(lines: seq<string>)
    requires forall i :: 0 <= i < |lines| ==> KeptByBoth(lines[i])
    ensures var fast, slow := Collect(lines, FastLine), Collect(lines, SlowReader(DecodeIPv4));
            && |fast| <= |slow|
            && (fast == slow <==> forall i :: 0 <= i < |lines| ==> SameReading(lines[i]))
  {
    if lines != [] {
      var rest := lines[1..];
      CollectsAgree(rest);
      HeadsAgree(Listed(FastLine(lines[0])), Listed(SlowLine(lines[0], DecodeIPv4)),
                 Collect(rest, FastLine), Collect(rest, SlowReader(DecodeIPv4)));
      AllSame(lines);
    }
  }

  lemma AllSame(lines: seq<string>)
    requires lines != []
    ensures (forall i :: 0 <= i < |lines| ==> SameReading(lines[i]))
            <==> SameReading(lines[0]) && forall i :: 0 <= i < |lines[1..]| ==> SameReading(lines[1..][i])
  {
    var rest := lines[1..];
    if forall i :: 0 <= i < |lines| ==> SameReading(lines[i]) {
      forall i | 0 <= i < |rest|
        ensures SameReading(rest[i])
      {
        assert rest[i] == lines[i + 1];
      }
    }
    if SameReading(lines[0]) && forall i :: 0 <= i < |rest| ==> SameReading(rest[i]) {
      forall i | 0 <= i < |lines|
        ensures SameReading(lines[i])
      {
        assert i > 0 ==> lines[i] == rest[i - 1];
      }
    }
  }

  lemma HeadsAgree(f0: seq<Conn>, s0: seq<Conn>, f: seq<Conn>, s: seq<Conn>)
    requires |f0| <= |s0| && |f| <= |s|
    ensures f0 + f == s0 + s <==> f0 == s0 && f == s
  {
    if f0 + f == s0 + s {
      assert |f0| == |s0|;
      assert f0 == (f0 + f)[..|f0|] && s0 == (s0 + s)[..|s0|];
      assert f == (f0 + f)[|f0|..] && s == (s0 + s)[|s0|..];
    }
  }

  // On every file on which the fast parser keeps no line the slow one drops, the parsers
  // agree exactly when they read every line alike, which for a plain line means that it
  // is narrow if kept.  All plain lines, and all lines the fast parser drops, are such.
  lemma ParsersAgree(data: string)
    requires forall i :: 0 <= i < |DataLines(data)| ==> Plain(DataLines(data)[i]) || KeptByBoth(DataLines(data)[i])
    ensures FastFile(data) == SlowFile(data, DecodeIPv4)
            <==> forall i :: 0 <= i < |DataLines(data)| ==>
                   var line := DataLines(data)[i];
                   if Plain(line) then NarrowIfKept(line) else SameReading(line)
  {
    var lines := DataLines(data);
    forall i | 0 <= i < |lines|
      ensures KeptByBoth(lines[i])
      ensures Plain(lines[i]) ==> (SameReading(lines[i]) <==> NarrowIfKept(lines[i]))
    {
      if Plain(lines[i]) {
        LinesAgree(lines[i]);
      }
    }
    CollectsAgree(lines);
  }

  // The lines the kernel writes: no data, or ten and more fields of the documented
  // shape.
  predicate WellFormed(line: string) {
    var f := Tokens(line, IsBlank);
    && Plain(line)
    && (|f| < 10
        || (&& WellFormedAddr(f[1]) && WellFormedAddr(f[2])
            && |f[3]| <= 2 && AllDigits(f[3], 16)
            && AllDigits(f[9], 10) && Value(f[9], 10) <= MAX_UINT64))
  }

  predicate WellFormedAddr(field: string) {
    && ':' in field
    && |HostPart(field)| == 8 && AllDigits(HostPart(field), 16)
    && 1 <= |PortPart(field)| <= 4 && AllDigits(PortPart(field), 16)
  }

  predicate AllWellFormed(lines: seq<string>) {
    forall i :: 0 <= i < |lines| ==> WellFormed(lines[i])
  }

  // On a well-formed file the fast parser is the slow one, and drops no data line.
  lemma WellFormedFilesAgree(data: string)
    requires AllWellFormed(DataLines(data))
    ensures FastFile(data) == SlowFile(data, DecodeIPv4)
    ensures forall i :: 0 <= i < |DataLines(data)| ==>
              (FastLine(DataLines(data)[i]).Some? <==> |Tokens(DataLines(data)[i], IsBlank)| >= 10)
  {
    forall i | 0 <= i < |DataLines(data)|
      ensures NarrowIfKept(DataLines(data)[i])
    {
      SplittersAgree(DataLines(data)[i]);
    }
    ParsersAgree(data);
  }
}
