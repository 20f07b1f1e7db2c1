/** Block labels: a base name followed by a number, unique within a function. */
module Labels {
  import opened Words

  predicate IsDigit(c: char) { '0' <= c <= '9' }

  /** The decimal digits of n. */
  function Decimal(n: nat): (s: string)
    ensures |s| > 0
  {
    if n < 10 then ["0123456789"[n]] else Decimal(n / 10) + ["0123456789"[n % 10]]
  }

  lemma {:induction false} DecimalDigits(n: nat, i: nat)
    requires i < |Decimal(n)|
    ensures IsDigit(Decimal(n)[i])
  {
    if n >= 10 && i < |Decimal(n / 10)| {
      DecimalDigits(n / 10, i);
    }
  }

  lemma {:induction false} DecimalInjective(m: nat, n: nat)
    requires Decimal(m) == Decimal(n)
    ensures m == n
  {
    var s := Decimal(m);
    assert m % 10 == n % 10 by {
      assert s[|s| - 1] == "0123456789"[m % 10] == "0123456789"[n % 10];
    }
    if m >= 10 && n >= 10 {
      assert Decimal(m / 10) == s[..|s| - 1] == Decimal(n / 10);
      DecimalInjective(m / 10, n / 10);
    }
  }

  predicate EndsInDigit(s: string) {
    s != [] && IsDigit(s[|s| - 1])
  }

  /** The base name and the number can be read back from a label. */
  lemma NameInjective(a: string, m: nat, b: string, n: nat)
    requires !EndsInDigit(a) && !EndsInDigit(b) && a + Decimal(m) == b + Decimal(n)
    ensures a == b && m == n
  {
    var s := a + Decimal(m);
    if |a| < |b| {
      assert b[|b| - 1] == s[|b| - 1] == Decimal(m)[|b| - 1 - |a|];
      DecimalDigits(m, |b| - 1 - |a|);
    } else if |b| < |a| {
      assert a[|a| - 1] == s[|a| - 1] == Decimal(n)[|a| - 1 - |b|];
      DecimalDigits(n, |a| - 1 - |b|);
    } else {
      assert a == s[..|a|] == b;
      assert Decimal(m) == s[|a|..] == Decimal(n);
      DecimalInjective(m, n);
    }
  }

  /** How often base occurs among the first bases inserted. */
  function Uses(bases: seq<string>, base: string): nat {
    multiset(bases)[base]
  }

  /** The label of the i-th inserted block. */
  function LabelAt(bases: seq<string>, i: nat): string
    requires i < |bases|
  {
    bases[i] + Decimal(Uses(bases[..i], bases[i]))
  }

  lemma UsesGrow(bases: seq<string>, i: nat, j: nat)
    requires i < j <= |bases|
    ensures Uses(bases[..i], bases[i]) < Uses(bases[..j], bases[i])
  {
    assert bases[..j] == bases[..i] + [bases[i]] + bases[i + 1..j];
  }

  /** Whatever blocks are inserted, no two get the same label. */
  lemma LabelsDiffer(bases: seq<string>, i: nat, j: nat)
    requires i < j < |bases| && forall k :: 0 <= k < |bases| ==> !EndsInDigit(bases[k])
    ensures LabelAt(bases, i) != LabelAt(bases, j)
  {
    if LabelAt(bases, i) == LabelAt(bases, j) {
      NameInjective(bases[i], Uses(bases[..i], bases[i]), bases[j], Uses(bases[..j], bases[j]));
      UsesGrow(bases, i, j);
    }
  }

  /** The condition is needed: with base names "a" and "a1", the twelfth "a"
      and the second "a1" are both called "a11". */
  lemma DigitsCollide()
    ensures "a" + Decimal(11) == "a1" + Decimal(1)
    ensures exists bases: seq<string>, i, j :: 0 <= i < j < |bases| && LabelAt(bases, i) == LabelAt(bases, j)
  {
    var bases := seq(12, i => "a") + ["a1", "a1"];
    assert Decimal(1) == "1" && Decimal(11) == Decimal(1) + "1";
    assert bases[..11] == seq(11, i => "a");
    AllSame(11);
    assert bases[..13] == seq(12, i => "a") + ["a1"];
    AllOther(12);
    assert LabelAt(bases, 11) == "a" + Decimal(11);
    assert LabelAt(bases, 13) == "a1" + Decimal(1);
  }

  lemma {:induction false} AllSame(n: nat)
    ensures Uses(seq(n, i => "a"), "a") == n
  {
    if n > 0 {
      assert seq(n, i => "a") == seq(n - 1, i => "a") + ["a"];
      AllSame(n - 1);
    }
  }

  lemma {:induction false} AllOther(n: nat)
    ensures Uses(seq(n, i => "a"), "a1") == 0
  {
    if n > 0 {
      assert seq(n, i => "a") == seq(n - 1, i => "a") + ["a"];
      AllOther(n - 1);
    }
  }
}
