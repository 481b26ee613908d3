/** Words as natural numbers: powers of two, bitwise operations, and the
    multiplicative hash the framework uses. */
module Bits {

  function Pow2(n: nat): (r: nat)
    ensures r > 0
  {
    if n == 0 then 1 else 2 * Pow2(n - 1)
  }

  lemma {:induction false} Pow2Add(a: nat, b: nat)
    ensures Pow2(a + b) == Pow2(a) * Pow2(b)
  {
    if a > 0 {
      Pow2Add(a - 1, b);
    }
  }

  function BitAnd(x: nat, y: nat): nat
    decreases x
  {
    if x == 0 || y == 0 then 0
    else 2 * BitAnd(x / 2, y / 2) + if x % 2 == 1 && y % 2 == 1 then 1 else 0
  }

  function BitXor(x: nat, y: nat): nat
    decreases x + y
  {
    if x == 0 && y == 0 then 0
    else 2 * BitXor(x / 2, y / 2) + if x % 2 != y % 2 then 1 else 0
  }

  /** 2^64 over the golden ratio. */
  const PHI: nat := 0x9E37_79B9_7F4A_7C15

  lemma QuotientBound(x: nat, d: nat, m: nat)
    requires d > 0 && x < m * d
    ensures x / d < m
  {
  }

  lemma TopPartBound(x: nat, w: nat, m: nat, d: nat)
    requires d > 0 && w > 0 && w == m * d
    ensures TopPart(x, w, d) < m
  {
    QuotientBound(x % w, d, m);
  }

  lemma Pow2Split(word: nat, bits: nat)
    requires bits <= word
    ensures Pow2(word) == Pow2(bits) * Pow2(word - bits)
  {
    Pow2Add(bits, word - bits);
  }

  /** The top `bits` bits of a word. */
  function TopBits(x: nat, word: nat, bits: nat): (r: nat)
    requires bits <= word
    ensures r < Pow2(bits)
  {
    Pow2Split(word, bits);
    TopPartBound(x, Pow2(word), Pow2(bits), Pow2(word - bits));
    TopPart(x, Pow2(word), Pow2(word - bits))
  }

  function TopPart(x: nat, w: nat, d: nat): nat
    requires w > 0 && d > 0
  {
    x % w / d
  }

  /** The top `bits` bits of the 64-bit product. */
  function HashBits(key: nat, bits: nat): (r: nat)
    requires bits <= 64
    ensures r < Pow2(bits)
  {
    TopBits(key * PHI, 64, bits)
  }

  /** Masking with 2^k - 1 takes the remainder. */
  lemma {:induction false} AndMask(x: nat, k: nat)
    ensures BitAnd(x, Pow2(k) - 1) == Rem(x, Pow2(k))
    decreases k
  {
    hide BitAnd, Rem;
    if k == 0 {
      AndZero(x);
      RemSmall(x, x + 1);
    } else {
      var d := Pow2(k - 1);
      AndMask(x / 2, k - 1);
      assert Pow2(k) == 2 * d;
      hide Pow2;
      RemHalf(x, d);
      AndOdd(x, d - 1);
    }
  }

  lemma AndOdd(x: nat, y: nat)
    ensures BitAnd(x, 2 * y + 1) == 2 * BitAnd(x / 2, y) + x % 2
  {
    var z := 2 * y + 1;
    assert z / 2 == y && z % 2 == 1;
    if x == 0 {
      assert BitAnd(x / 2, y) == 0;
    } else {
      assert BitAnd(x, z) == 2 * BitAnd(x / 2, z / 2) + if x % 2 == 1 && z % 2 == 1 then 1 else 0;
    }
  }

  lemma AndZero(x: nat)
    ensures BitAnd(x, 0) == 0
  {
  }

  lemma HalfRemainder(x: nat, d: nat)
    requires d > 0
    ensures x % (2 * d) == 2 * ((x / 2) % d) + x % 2
  {
    var q := x / 2 / d;
    assert x / 2 == q * d + (x / 2) % d;
    assert x == q * (2 * d) + (2 * ((x / 2) % d) + x % 2);
    RemainderUnique(x / (2 * d), x % (2 * d), q, 2 * ((x / 2) % d) + x % 2, 2 * d);
  }

  lemma RemainderUnique(q: int, r: int, q': int, r': int, m: nat)
    requires 0 <= r < m && 0 <= r' < m && q * m + r == q' * m + r'
    ensures q == q' && r == r'
  {
    var d := q - q';
    assert d * m == r' - r;
    if d >= 1 {
      NotSmall(d, m);
    } else if d <= -1 {
      assert (-d) * m == -(d * m);
      NotSmall(-d, m);
    }
  }

  lemma {:induction false} NotSmall(d: nat, m: nat)
    requires d >= 1
    ensures d * m >= m
  {
  }

  lemma AndEven(x: nat, y: nat)
    ensures BitAnd(x, 2 * y) == 2 * BitAnd(x / 2, y)
  {
    assert (2 * y) / 2 == y && (2 * y) % 2 == 0;
    if y == 0 {
      AndZero(x / 2);
    }
  }

  lemma Pow2Grows(k: nat, n: nat)
    requires k <= n
    ensures Pow2(k) <= Pow2(n)
  {
  }

  /** Masking with all bits from the `k`th up rounds down to a multiple of 2^k. */
  lemma {:induction false} AndHigh(x: nat, k: nat, n: nat)
    requires k <= n && x < Pow2(n)
    ensures Pow2(k) <= Pow2(n) && BitAnd(x, Pow2(n) - Pow2(k)) == x - Rem(x, Pow2(k))
    decreases k
  {
    Pow2Grows(k, n);
    hide BitAnd, Rem;
    if k == 0 {
      AndMask(x, n);
      RemSmall(x, Pow2(n));
    } else {
      var d, m := Pow2(k - 1), Pow2(n - 1);
      assert Pow2(k) == 2 * d && Pow2(n) == 2 * m;
      hide Pow2;
      assert x / 2 < m;
      AndHigh(x / 2, k - 1, n - 1);
      AndEven(x, m - d);
      RemHalf(x, d);
      assert Pow2(n) - Pow2(k) == 2 * (m - d);
    }
  }

  function Rem(x: nat, d: nat): nat
    requires d > 0
  {
    x % d
  }

  lemma RemSmall(x: nat, d: nat)
    requires x < d
    ensures Rem(x, d) == x && Rem(x, 1) == 0
  {
  }

  lemma RemHalf(x: nat, d: nat)
    requires d > 0
    ensures Rem(x, 2 * d) == 2 * Rem(x / 2, d) + x % 2
  {
    HalfRemainder(x, d);
  }

  ghost predicate IsPow2(a: nat) {
    exists k: nat :: a == Pow2(k)
  }

  lemma {:induction false} AndSelf(x: nat)
    ensures BitAnd(x, x) == x
  {
    if x > 0 {
      AndSelf(x / 2);
    }
  }

  lemma OddPower(a: nat)
    requires a > 1 && a % 2 == 1
    ensures !IsPow2(a)
  {
  }

  /** The test for a power of two. */
  lemma {:induction false} PowerTest(a: nat)
    requires a > 0
    ensures BitAnd(a, a - 1) == 0 <==> IsPow2(a)
  {
    if a == 1 {
      assert a == Pow2(0);
    } else if a % 2 == 0 {
      PowerTest(a / 2);
      AndOdd(a, a / 2 - 1);
      assert 2 * (a / 2 - 1) + 1 == a - 1;
      if k: nat :| a == Pow2(k) {
        assert a / 2 == Pow2(k - 1);
      }
      if k: nat :| a / 2 == Pow2(k) {
        assert a == Pow2(k + 1);
      }
    } else {
      AndEven(a, a / 2);
      AndSelf(a / 2);
      OddPower(a);
    }
  }
}
