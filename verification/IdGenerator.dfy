// internal/lab/supervisor.go: generateID, the next free A-NN identifier.
module IdGenerator {
  import opened Digits

  // fmt.Sprintf("A-%02d", n)
  function Name(n: nat): string {
    "A-" + (if n < 10 then "0" + Decimal(n) else Decimal(n))
  }

  lemma NameValue(n: nat)
    ensures |Name(n)| >= 2 && Value(Name(n)[2..], 10) == n
  {
    DecimalValue(n);
    if n < 10 {
      var s := "0" + Decimal(n);
      assert Name(n)[2..] == s;
      assert s[..1] == "0" && s[..1][..0] == [];
      assert s[1] == DigitChar(n, false);
    } else {
      assert Name(n)[2..] == Decimal(n);
    }
  }

  // "A-" and at least two digits, padded with one zero at most.
  lemma NameShape(n: nat)
    ensures Name(n)[..2] == "A-" && |Name(n)| >= 4
    ensures forall i :: 2 <= i < |Name(n)| ==> '0' <= Name(n)[i] <= '9'
    ensures n < 100 ==> |Name(n)| == 4
    ensures n >= 100 ==> Name(n)[2] != '0'
  {
    var d := Decimal(n);
    DecimalCanonical(n);
    if 10 <= n < 100 {
      assert d == [DigitChar(n / 10, false)] + [DigitChar(n % 10, false)];
    }
    if n >= 100 {
      assert Name(n) == "A-" + d;
    }
  }

  lemma NameInjective(m: nat, n: nat)
    requires Name(m) == Name(n)
    ensures m == n
  {
    NameValue(m);
    NameValue(n);
  }

  // k distinct names cannot all be taken by fewer than k entries.
  lemma {:induction false} Pigeonhole(table: set<string>, first: nat, k: nat)
    requires forall i :: first <= i < first + k ==> Name(i) in table
    ensures k <= |table|
    decreases k
  {
    if k > 0 {
      var last := first + k - 1;
      forall i | first <= i < last
        ensures Name(i) in table - {Name(last)}
      {
        if Name(i) == Name(last) {
          NameInjective(i, last);
        }
      }
      Pigeonhole(table - {Name(last)}, first, k - 1);
    }
  }

  // The first free name from |table|+1 on; probes counts the names tried.
  method GenerateID(table: set<string>) returns (id: string, probes: nat)
    ensures id !in table
    ensures 1 <= probes <= |table| + 1 && id == Name(|table| + probes)
    ensures forall i :: |table| < i < |table| + probes ==> Name(i) in table
  {
    var n := |table| + 1;
    probes := 1;
    while Name(n) in table
      invariant n == |table| + probes && 1 <= probes <= |table| + 1
      invariant forall i :: |table| < i < n ==> Name(i) in table
      decreases |table| + 1 - probes
    {
      Pigeonhole(table, |table| + 1, probes);
      n := n + 1;
      probes := probes + 1;
    }
    id := Name(n);
  }
}
