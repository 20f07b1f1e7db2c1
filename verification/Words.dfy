/** Fixed-width arithmetic shared by the whole model: 32-bit two's complement
    values, C's truncating division, and bitwise `&` on binary digits. */
module Words {

  const TWO_TO_THE_31 := 0x8000_0000
  const TWO_TO_THE_32 := 0x1_0000_0000

  datatype Option<+T> = None | Some(value: T)

  /** The signed 32-bit value congruent to x. */
  function Wrap(x: int): (r: int)
    ensures -TWO_TO_THE_31 <= r < TWO_TO_THE_31
    ensures (r - x) % TWO_TO_THE_32 == 0
  {
    (x + TWO_TO_THE_31) % TWO_TO_THE_32 - TWO_TO_THE_31
  }

  /** The same bits read as an unsigned number. */
  function Unsigned(x: int): (r: int)
    ensures 0 <= r < TWO_TO_THE_32
  {
    x % TWO_TO_THE_32
  }

  /** C's `/`: the quotient is truncated toward zero. */
  function TruncDiv(a: int, b: int): int
    requires b != 0
  {
    if a >= 0 then a / b else -((-a) / b)
  }

  /** Bitwise `&` of two naturals, digit by digit. */
  function BitAnd(x: nat, y: nat): nat
    decreases x
  {
    if x == 0 || y == 0 then 0
    else 2 * BitAnd(x / 2, y / 2) + (x % 2) * (y % 2)
  }

  function Pow2(n: nat): (r: nat)
    ensures r > 0
  {
    if n == 0 then 1 else 2 * Pow2(n - 1)
  }

  lemma {:induction false} BitAndCommutes(x: nat, y: nat)
    ensures BitAnd(x, y) == BitAnd(y, x)
    decreases x
  {
    if x != 0 && y != 0 {
      BitAndCommutes(x / 2, y / 2);
    }
  }

  /** The low bits of x, read as a number without and with sign. */
  function LowUnsigned(x: int, width: nat): int { x % Pow2(width) }

  function LowSigned(x: int, width: nat): int {
    var u := LowUnsigned(x, width);
    if 2 * u < Pow2(width) then u else u - Pow2(width)
  }

  /** Registers and memory cells that were never written hold zero. */
  function Get<K>(m: map<K, int>, k: K): int {
    if k in m then m[k] else 0
  }

  // ---------------------------------------------------------------------
  // Remainders
  // ---------------------------------------------------------------------

  lemma {:induction false} ModShift(x: int, k: int, m: int)
    requires m > 0
    ensures (x + k * m) % m == x % m
    decreases if k < 0 then -k else k
  {
    if k > 0 {
      ModShift(x, k - 1, m);
      assert (x + k * m) == (x + (k - 1) * m) + m;
      ModOnce(x + (k - 1) * m, m);
    } else if k < 0 {
      ModShift(x, k + 1, m);
      assert (x + (k + 1) * m) == (x + k * m) + m;
      ModOnce(x + k * m, m);
    }
  }

  lemma ModOnce(x: int, m: int)
    requires m > 0
    ensures (x + m) % m == x % m
  {
    var q, r := x / m, x % m;
    var q', r' := (x + m) / m, (x + m) % m;
    assert q' * m + r' == (q + 1) * m + r;
    Multiple(q + 1 - q', m, r' - r);
  }

  /** The only multiple of m closer to zero than m is zero. */
  lemma Multiple(k: int, m: int, x: int)
    requires m > 0 && k * m == x && -m < x < m
    ensures k == 0
  {
    if k > 0 {
      AtLeast(k, m);
    } else if k < 0 {
      AtLeast(-k, m);
    }
  }

  lemma {:induction false} AtLeast(k: int, m: int)
    requires k > 0 && m > 0
    ensures k * m >= m
    decreases k
  {
    if k > 1 {
      AtLeast(k - 1, m);
      assert k * m == (k - 1) * m + m;
    }
  }

  /** Unsigned arithmetic may be reduced at any time. */
  lemma UnsignedSum(a: int, b: int)
    ensures Unsigned(a + Unsigned(b)) == Unsigned(a + b)
  {
    ModShift(a + Unsigned(b), b / TWO_TO_THE_32, TWO_TO_THE_32);
    assert a + b == a + Unsigned(b) + (b / TWO_TO_THE_32) * TWO_TO_THE_32;
  }

  lemma UnsignedProduct(a: int, b: int)
    ensures Unsigned(Unsigned(a) * b) == Unsigned(a * b)
  {
    var q := a / TWO_TO_THE_32;
    ModShift(Unsigned(a) * b, q * b, TWO_TO_THE_32);
    assert a * b == (Unsigned(a) + q * TWO_TO_THE_32) * b;
    assert (q * TWO_TO_THE_32) * b == (q * b) * TWO_TO_THE_32;
    assert a * b == Unsigned(a) * b + (q * b) * TWO_TO_THE_32;
  }

  lemma ModSmall(u: int, m: int)
    requires 0 <= u < m
    ensures u % m == u
  {
  }

  lemma ThirtyTwoBits(n: int)
    requires 0 <= n < TWO_TO_THE_32
    ensures LowUnsigned(n, 32) == n
  {
    assert Pow2(8) == 256;
    assert Pow2(16) == 65536;
    assert Pow2(24) == 16777216;
    ModSmall(n, TWO_TO_THE_32);
  }

  /** Quotient and remainder are unique. */
  lemma RemainderIsUnique(x: int, m: int, q: int, r: int)
    requires m > 0 && x == q * m + r && 0 <= r < m
    ensures x % m == r && x / m == q
  {
    var q', r' := x / m, x % m;
    assert (q - q') * m == r' - r;
    Multiple(q - q', m, r' - r);
  }

  // ---------------------------------------------------------------------
  // Sequences
  // ---------------------------------------------------------------------

  lemma Regroup<T>(a: seq<T>, b: seq<T>, c: seq<T>)
    ensures (a + b) + c == a + (b + c)
  {
  }
}
