// Positional notation: the digit classes, the value of a digit string, the
// hand-written decoders of pkg/linux/procnet.go and strconv.ParseUint, and the
// printers they invert.  Text is a string in which every char stands for one byte.
module Digits {
  type Byte = b: int | 0 <= b < 256

  const MAX_UINT64 := 0xFFFF_FFFF_FFFF_FFFF

  // The value of c as a digit; 16 when c is no hexadecimal digit.
  function DigitValue(c: char): (d: int)
    ensures 0 <= d <= 16
  {
    if '0' <= c <= '9' then c as int - '0' as int
    else if 'A' <= c <= 'F' then c as int - 'A' as int + 10
    else if 'a' <= c <= 'f' then c as int - 'a' as int + 10
    else 16
  }

  predicate AllDigits(s: string, base: int) {
    forall i :: 0 <= i < |s| ==> DigitValue(s[i]) < base
  }

  // The number s spells in the given base, most significant digit first.
  function Value(s: string, base: nat): nat {
    if s == [] then 0 else Value(s[..|s| - 1], base) * base + DigitValue(s[|s| - 1])
  }

  function Pow(base: nat, n: nat): nat {
    if n == 0 then 1 else base * Pow(base, n - 1)
  }

  lemma MulLe(a: int, b: int, c: int)
    requires a <= b && 0 <= c
    ensures a * c <= b * c
  {
  }

  lemma {:induction false} ValueBound(s: string, base: nat)
    requires AllDigits(s, base) && base >= 1
    ensures Value(s, base) < Pow(base, |s|)
  {
    if s != [] {
      var init := s[..|s| - 1];
      ValueBound(init, base);
      var v, p, d := Value(init, base), Pow(base, |init|), DigitValue(s[|s| - 1]);
      MulLe(v + 1, p, base);
      assert (v + 1) * base == v * base + base;
      assert v * base + d < p * base;
      assert p * base == base * p;
    }
  }

  // Reading on never makes the number smaller.
  lemma {:induction false} ValuePrefix(s: string, k: nat, base: nat)
    requires k <= |s| && base >= 1
    ensures Value(s[..k], base) <= Value(s, base)
  {
    if k == |s| {
      assert s[..k] == s;
    } else {
      var init := s[..|s| - 1];
      assert init[..k] == s[..k];
      ValuePrefix(init, k, base);
      var v := Value(init, base);
      MulLe(1, base, v);
      assert v <= v * base;
    }
  }

  // --------------------------------------------------------------------------
  // strconv.ParseUint for an explicit base 10 or 16, as far as procnet.go uses it
  // --------------------------------------------------------------------------

  datatype Parsed = Parsed(value: nat, ok: bool)

  // A bad digit stops the scan with value 0, an overflow stops it with the
  // largest value of the width; whichever comes first decides.
  function ParseUint(s: string, base: nat, max: nat): Parsed {
    if s == [] then Parsed(0, false) else Scan(s, base, max, 0)
  }

  function Scan(s: string, base: nat, max: nat, acc: nat): Parsed {
    if s == [] then Parsed(acc, true)
    else if DigitValue(s[0]) >= base then Parsed(0, false)
    else if acc * base + DigitValue(s[0]) > max then Parsed(max, false)
    else Scan(s[1..], base, max, acc * base + DigitValue(s[0]))
  }

  // ParseUint succeeds exactly on nonempty digit strings whose value fits; on an
  // overlong number it saturates.
  lemma ParseUintMeaning(s: string, base: nat, max: nat)
    requires 1 <= base <= 16
    ensures ParseUint(s, base, max).ok <==> s != [] && AllDigits(s, base) && Value(s, base) <= max
    ensures s != [] && AllDigits(s, base) ==>
              ParseUint(s, base, max).value == if Value(s, base) <= max then Value(s, base) else max
  {
    if s != [] {
      assert s[..0] == [] && s[0..] == s;
      ScanMeaning(s, 0, base, max);
    }
  }

  lemma {:induction false} ScanMeaning(s: string, k: nat, base: nat, max: nat)
    requires k <= |s| && 1 <= base <= 16 && AllDigits(s[..k], base) && Value(s[..k], base) <= max
    ensures var p := Scan(s[k..], base, max, Value(s[..k], base));
            && (p.ok <==> AllDigits(s, base) && Value(s, base) <= max)
            && (AllDigits(s, base) ==> p.value == if Value(s, base) <= max then Value(s, base) else max)
    decreases |s| - k
  {
    if k == |s| {
      assert s[..k] == s;
    } else {
      var rest := s[k..];
      assert rest[0] == s[k] && rest[1..] == s[k + 1..];
      assert s[..k + 1][..k] == s[..k];
      assert Value(s[..k + 1], base) == Value(s[..k], base) * base + DigitValue(s[k]);
      if DigitValue(s[k]) < base {
        if Value(s[..k + 1], base) > max {
          ValuePrefix(s, k + 1, base);
        } else {
          ScanMeaning(s, k + 1, base, max);
        }
      }
    }
  }

  // --------------------------------------------------------------------------
  // The allocation-free decoders of procnet.go
  // --------------------------------------------------------------------------

  // parseHexUint16 and parseHexUint8 share this loop; width is 4 or 2.
  method ParseHex(b: string, width: nat) returns (res: nat, ok: bool)
    requires width <= 4
    ensures ok <==> 0 < |b| <= width && AllDigits(b, 16)
    ensures ok ==> res == Value(b, 16) < Pow(16, width)
    ensures !ok ==> res == 0
  {
    if |b| == 0 || |b| > width {
      return 0, false;
    }
    res := 0;
    for i := 0 to |b|
      invariant AllDigits(b[..i], 16) && res == Value(b[..i], 16)
    {
      if DigitValue(b[i]) >= 16 {
        return 0, false;
      }
      assert b[..i + 1][..i] == b[..i];
      res := res * 16 + DigitValue(b[i]);
    }
    assert b[..|b|] == b;
    ValueBound(b, 16);
    PowMonotone(16, |b|, width);
    return res, true;
  }

  lemma {:induction false} PowMonotone(base: nat, m: nat, n: nat)
    requires m <= n && base >= 1
    ensures 1 <= Pow(base, m) <= Pow(base, n)
    decreases n
  {
    if n > 0 {
      PowMonotone(base, if m == n then m - 1 else m, n - 1);
      if m < n {
        assert Pow(base, n - 1) <= base * Pow(base, n - 1);
      }
    }
  }

  // parseDecUint64 accumulates in a uint64, so it wraps.
  method ParseDec(b: string) returns (res: nat, ok: bool)
    ensures ok <==> b != [] && AllDigits(b, 10)
    ensures ok ==> res == Value(b, 10) % (MAX_UINT64 + 1)
    ensures !ok ==> res == 0
  {
    if |b| == 0 {
      return 0, false;
    }
    res := 0;
    for i := 0 to |b|
      invariant AllDigits(b[..i], 10) && res == Value(b[..i], 10) % (MAX_UINT64 + 1)
    {
      if DigitValue(b[i]) >= 10 {
        return 0, false;
      }
      assert b[..i + 1][..i] == b[..i];
      WrapStep(Value(b[..i], 10), DigitValue(b[i]), MAX_UINT64 + 1);
      res := (res * 10 + DigitValue(b[i])) % (MAX_UINT64 + 1);
    }
    assert b[..|b|] == b;
    return res, true;
  }

  lemma WrapStep(v: nat, d: nat, m: nat)
    requires m >= 1
    ensures ((v % m) * 10 + d) % m == (v * 10 + d) % m
  {
    var q := v / m;
    assert v == q * m + v % m;
    assert v * 10 + d == ((v % m) * 10 + d) + (q * 10) * m;
    ModPlusMultiple((v % m) * 10 + d, q * 10, m);
  }

  lemma {:induction false} ModPlusMultiple(x: nat, k: nat, m: nat)
    requires m >= 1
    ensures (x + k * m) % m == x % m
    decreases k
  {
    if k > 0 {
      ModPlusMultiple(x, k - 1, m);
      assert x + k * m == (x + (k - 1) * m) + m;
      ModPlusOne(x + (k - 1) * m, m);
    }
  }

  lemma ModPlusOne(y: nat, m: nat)
    requires m >= 1
    ensures (y + m) % m == y % m
  {
    var q, r := y / m, y % m;
    assert y + m == (q + 1) * m + r;
    DivModUnique(y + m, q + 1, r, m);
  }

  lemma DivModUnique(x: nat, q: nat, r: nat, m: nat)
    requires m >= 1 && r < m && x == q * m + r
    ensures x / m == q && x % m == r
  {
    var q', r' := x / m, x % m;
    assert (q' - q) * m == r - r' by {
      assert (q' - q) * m == q' * m - q * m;
    }
    if q' > q {
      MulLe(1, q' - q, m);
    } else if q' < q {
      MulLe(q' - q, -1, m);
    }
  }

  // --------------------------------------------------------------------------
  // Printers
  // --------------------------------------------------------------------------

  function DigitChar(d: int, lower: bool): (c: char)
    requires 0 <= d < 16
    ensures DigitValue(c) == d
    ensures d < 10 ==> '0' <= c <= '9'
  {
    if d < 10 then ('0' as int + d) as char
    else if lower then ('a' as int + d - 10) as char
    else ('A' as int + d - 10) as char
  }

  // n in the given base, zero-padded to exactly width digits (its low digits).
  function Fixed(n: nat, base: nat, width: nat, lower: bool): (s: string)
    requires 2 <= base <= 16
    ensures |s| == width && AllDigits(s, base)
    decreases width
  {
    if width == 0 then [] else Fixed(n / base, base, width - 1, lower) + [DigitChar(n % base, lower)]
  }

  lemma DivBelow(n: nat, base: nat, p: nat)
    requires base >= 1 && n < base * p
    ensures n / base < p
    ensures n == (n / base) * base + n % base
  {
    var q := n / base;
    assert n == q * base + n % base;
    if q >= p {
      MulLe(p, q, base);
    }
  }

  lemma {:induction false} FixedValue(n: nat, base: nat, width: nat, lower: bool)
    requires 2 <= base <= 16 && n < Pow(base, width)
    ensures Value(Fixed(n, base, width, lower), base) == n
    decreases width
  {
    if width > 0 {
      var q, d := n / base, n % base;
      DivBelow(n, base, Pow(base, width - 1));
      FixedValue(q, base, width - 1, lower);
      FixedStep(q, d, base, width, lower);
      FixedLast(n, base, width, lower);
    }
  }

  lemma FixedLast(n: nat, base: nat, width: nat, lower: bool)
    requires 2 <= base <= 16 && width > 0
    ensures Fixed(n, base, width, lower) == Fixed(n / base, base, width - 1, lower) + [DigitChar(n % base, lower)]
  {
  }

  lemma FixedStep(q: nat, d: nat, base: nat, width: nat, lower: bool)
    requires 2 <= base <= 16 && d < base && width > 0
    ensures var s := Fixed(q, base, width - 1, lower) + [DigitChar(d, lower)];
            Value(s, base) == Value(Fixed(q, base, width - 1, lower), base) * base + d
  {
    var s := Fixed(q, base, width - 1, lower) + [DigitChar(d, lower)];
    assert s[..|s| - 1] == Fixed(q, base, width - 1, lower);
  }

  // The shortest decimal spelling, as %d prints it.
  function Decimal(n: nat): (s: string)
    ensures s != [] && AllDigits(s, 10)
    ensures forall i :: 0 <= i < |s| ==> '0' <= s[i] <= '9'
  {
    if n < 10 then [DigitChar(n, false)] else Decimal(n / 10) + [DigitChar(n % 10, false)]
  }

  lemma {:induction false} DecimalValue(n: nat)
    ensures Value(Decimal(n), 10) == n
  {
    var s := Decimal(n);
    if n < 10 {
      assert s[..|s| - 1] == [];
    } else {
      DecimalValue(n / 10);
      assert s[..|s| - 1] == Decimal(n / 10);
    }
  }

  // No printed number starts with a superfluous zero.
  lemma {:induction false} DecimalCanonical(n: nat)
    ensures |Decimal(n)| > 1 ==> Decimal(n)[0] != '0'
    ensures n > 0 ==> Decimal(n)[0] != '0'
    ensures '.' !in Decimal(n)
  {
    if n >= 10 {
      DecimalCanonical(n / 10);
    }
  }

  // The sixteen digits, in both cases, and no others.
  lemma HexDigits(d: nat, c: char)
    ensures d < 16 ==> DigitChar(d, false) == "0123456789ABCDEF"[d] && DigitChar(d, true) == "0123456789abcdef"[d]
    ensures d < 16 ==> (DigitValue(c) == d <==> c == "0123456789ABCDEF"[d] || c == "0123456789abcdef"[d])
    ensures DigitValue(c) < 16 <==> '0' <= c <= '9' || 'A' <= c <= 'F' || 'a' <= c <= 'f'
  {
    if d < 16 {
      SpelledDigits(d);
      assert DigitValue(c) == d ==> c == DigitChar(d, false) || c == DigitChar(d, true);
    }
  }

  lemma SpelledDigits(d: nat)
    requires d < 16
    ensures DigitChar(d, false) == "0123456789ABCDEF"[d] && DigitChar(d, true) == "0123456789abcdef"[d]
  {
  }
}
