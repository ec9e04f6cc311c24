/**
  The block sizes of a message pool: the bit-mask rounding of align_up and the sizing of
  Shared::new.
 */
module PoolSizing {

  /** A message type's layout: its size and the log2 of its alignment. */
  datatype Layout = Layout(size: nat, alignBits: nat)

  const CacheLineBits := 6
  const WordBits := 64

  function Max(a: nat, b: nat): nat { if a >= b then a else b }

  // ----- sizing

  /** Bitwise and of two natural numbers. */
  function And(x: nat, y: nat): nat {
    if x == 0 || y == 0 then 0 else 2 * And(x / 2, y / 2) + (x % 2) * (y % 2)
  }

  function Pow2(k: nat): (r: nat)
    ensures r > 0
  {
    if k == 0 then 1 else 2 * Pow2(k - 1)
  }

  /** Complement in a machine word of `w` bits. */
  function Not(w: nat, x: nat): nat
    requires x < Pow2(w)
  {
    Pow2(w) - 1 - x
  }

  /** align_up on words of `w` bits. */
  function AlignUp(w: nat, n: nat, align: nat): nat
    requires 0 < align <= Pow2(w)
  {
    And(n + align - 1, Not(w, align - 1))
  }

  lemma {:induction false} AndOnes(w: nat, x: nat)
    requires x < Pow2(w)
    ensures And(x, Pow2(w) - 1) == x
  {
    if w > 0 {
      AndOnes(w - 1, x / 2);
      AndNext(x, Pow2(w) - 1);
      assert (Pow2(w) - 1) / 2 == Pow2(w - 1) - 1 && (Pow2(w) - 1) % 2 == 1;
    }
  }

  lemma HalfMod(x: nat, m: nat)
    requires m > 0
    ensures x % (2 * m) == 2 * (x / 2 % m) + x % 2
  {
    var h := x / 2;
    var q, r := h / m, h % m;
    assert x == (2 * m) * q + (2 * r + x % 2);
    ModUnique(x, 2 * m, q, 2 * r + x % 2);
  }

  lemma ModUnique(x: nat, m: nat, q: nat, r: nat)
    requires 0 <= r < m && x == m * q + r
    ensures x % m == r
  {
    var d := x / m;
    assert x == m * d + x % m;
    assert d > q ==> m * d >= m * (q + 1) == m * q + m;
    assert d < q ==> m * q >= m * (d + 1) == m * d + m;
  }

  /** The complement mask of a power of two clears the low bits. */
  lemma {:induction false} AndMask(w: nat, k: nat, x: nat)
    requires k <= w && x < Pow2(w)
    ensures Pow2(k) <= Pow2(w)
    ensures And(x, Pow2(w) - Pow2(k)) == x - x % Pow2(k)
    decreases k
  {
    if k == 0 {
      AndOnes(w, x);
    } else {
      AndMask(w - 1, k - 1, x / 2);
      AndDouble(x, Pow2(w - 1), Pow2(k - 1));
    }
  }

  lemma AndDouble(x: nat, p: nat, h: nat)
    requires 0 < h <= p && And(x / 2, p - h) == x / 2 - x / 2 % h
    ensures And(x, 2 * p - 2 * h) == x - x % (2 * h)
  {
    hide And;
    HalfMod(x, h);
    AndEven(x, p - h);
    Doubled(x, And(x / 2, p - h), x / 2 % h, x % (2 * h));
  }

  lemma AndEven(x: nat, y: nat)
    ensures And(x, 2 * y) == 2 * And(x / 2, y)
  {
    hide And;
    AndNext(x, 2 * y);
    Even(y);
  }

  lemma Doubled(x: nat, a: nat, r: nat, m: nat)
    requires a == x / 2 - r && m == 2 * r + x % 2
    ensures 2 * a == x - m
  {}

  lemma AndNext(x: nat, y: nat)
    ensures And(x, y) == 2 * And(x / 2, y / 2) + (x % 2) * (y % 2)
  {}

  lemma Even(n: nat)
    ensures 2 * n / 2 == n && 2 * n % 2 == 0
  {}

  lemma {:induction false} PowMono(k: nat, w: nat)
    requires k <= w
    ensures Pow2(k) <= Pow2(w)
    decreases w
  {
    if k < w { PowMono(k, w - 1); }
  }

  /** align_up gives the least multiple of a power of two that is at least n. */
  lemma AlignUpIsLeastMultiple(w: nat, k: nat, n: nat)
    requires k <= w && n + Pow2(k) - 1 < Pow2(w)
    ensures Pow2(k) <= Pow2(w)
    ensures var r := AlignUp(w, n, Pow2(k));
            && r % Pow2(k) == 0 && n <= r < n + Pow2(k)
            && forall m: nat :: m >= n && m % Pow2(k) == 0 ==> r <= m
  {
    hide Pow2, And;
    PowMono(k, w);
    AndMask(w, k, n + Pow2(k) - 1);
    LeastMultiple(n, Pow2(k));
  }

  lemma MulMono(a: nat, x: nat, y: nat)
    requires x <= y
    ensures a * x <= a * y
  {}

  /** A multiple of `a` above the one before a*d is at least a*d. */
  lemma NextMultiple(a: nat, d: nat, q: nat)
    requires a > 0 && a * d - a < a * q
    ensures a * d <= a * q
  {
    assert a * (q + 1) == a * q + a;
    if q + 1 <= d { MulMono(a, q + 1, d); } else { MulMono(a, d, q); }
  }

  lemma Quotient(x: nat, a: nat)
    requires a > 0
    ensures x == a * (x / a) + x % a && 0 <= x % a < a
  {}

  lemma LeastMultiple(n: nat, a: nat)
    requires a > 0
    ensures var x := n + a - 1; var r := x - x % a;
            r % a == 0 && n <= r < n + a && forall m: nat :: m >= n && m % a == 0 ==> r <= m
  {
    var x := n + a - 1;
    var d := x / a;
    Quotient(x, a);
    var r := a * d;
    ModUnique(r, a, d, 0);
    forall m: nat | m >= n && m % a == 0 ensures r <= m {
      Quotient(m, a);
      NextMultiple(a, d, m / a);
    }
  }

  // ----- Shared::new

  /** What every layout keeps: a power-of-two alignment, and a size below half the address space. */
  predicate LayoutOk(l: Layout) { l.alignBits < WordBits && 2 * l.size < Pow2(WordBits) }

  lemma HalfWord(k: nat, w: nat)
    requires k < w
    ensures 2 * Pow2(k) <= Pow2(w)
  {
    PowMono(k + 1, w);
  }

  /** The alignment and block size of the pool: a whole number of alignment units, large enough
      for the message and no larger than needed. */
  function SharedNew(l: Layout): (r: (nat, nat))
    requires LayoutOk(l)
    ensures r.1 == Pow2(Max(l.alignBits, CacheLineBits)) && r.0 % r.1 == 0
    ensures 0 < r.0 && l.size <= r.0 < Max(l.size, 1) + r.1
  {
    hide Pow2, And;
    var k := Max(l.alignBits, CacheLineBits);
    HalfWord(k, WordBits);
    AlignUpIsLeastMultiple(WordBits, k, Max(l.size, 1));
    (AlignUp(WordBits, Max(l.size, 1), Pow2(k)), Pow2(k))
  }
}
