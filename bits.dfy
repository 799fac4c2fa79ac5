/** Python's integer bit operations (`|`, `&`, `^`, `~`, `<<`, bit tests) on unbounded ints,
    which behave as two's complement sign-extended without end. */
module Bits {

  function AbsInt(n: int): nat {
    if n < 0 then -n else n
  }

  /** 2^n, Python's `1 << n` and `2**n`. */
  function Pow2(n: nat): (r: nat)
    ensures r >= 1
  {
    if n == 0 then 1 else 2 * Pow2(n - 1)
  }

  lemma {:induction false} Pow2Monotonic(m: nat, n: nat)
    requires m <= n
    ensures Pow2(m) <= Pow2(n)
  {
    if m < n {
      Pow2Monotonic(m, n - 1);
    }
  }

  lemma {:induction false} Pow2Add(m: nat, n: nat)
    ensures Pow2(m + n) == Pow2(m) * Pow2(n)
  {
    if n > 0 {
      Pow2Add(m, n - 1);
    }
  }

  /** The powers of two the driver's constants use. */
  lemma Pow2Values()
    ensures Pow2(0) == 1 && Pow2(1) == 2 && Pow2(2) == 4 && Pow2(3) == 8 && Pow2(4) == 16
    ensures Pow2(5) == 32 && Pow2(6) == 64 && Pow2(7) == 128 && Pow2(8) == 256
    ensures Pow2(11) == 2048 && Pow2(12) == 4096 && Pow2(13) == 8192 && Pow2(15) == 32768
    ensures Pow2(16) == 65536
  {
    assert Pow2(4) == 16;
    assert Pow2(8) == 16 * 16 by { Pow2Add(4, 4); }
    assert Pow2(12) == 256 * 16 by { Pow2Add(8, 4); }
    assert Pow2(16) == 4096 * 16 by { Pow2Add(12, 4); }
  }

  /** Euclidean division is unique. */
  lemma DivUnique(a: int, d: int, q: int, r: int)
    requires d > 0 && a == d * q + r && 0 <= r < d
    ensures a / d == q && a % d == r
  {
    var q0, r0 := a / d, a % d;
    assert a == d * q0 + r0 && 0 <= r0 < d;
    var k := q - q0;
    assert d * k == r0 - r by {
      assert d * q == d * (q0 + k) == d * q0 + d * k;
    }
    if k > 0 {
      MulAtLeast(d, k);
    } else if k < 0 {
      MulAtMost(d, k);
    }
  }

  lemma MulAtLeast(d: int, k: int)
    requires d > 0 && k >= 1
    ensures d * k >= d
  {
    assert d * k == d * (k - 1) + d;
    assert d * (k - 1) >= 0;
  }

  lemma MulAtMost(d: int, k: int)
    requires d > 0 && k <= -1
    ensures d * k <= -d
  {
    assert d * k == d * (k + 1) - d;
    assert d * (k + 1) <= 0;
  }

  /** Every int is its quotient times the divisor plus its remainder. */
  lemma DivMod(a: int, d: int)
    requires d > 0
    ensures a == d * (a / d) + a % d && 0 <= a % d < d
  {
  }

  /** Dividing by 2p is halving, then dividing by p; the remainder splits the same way. */
  lemma DivDouble(a: int, p: int)
    requires p > 0
    ensures a / (2 * p) == (a / 2) / p
    ensures a % (2 * p) == 2 * ((a / 2) % p) + a % 2
  {
    var q, r := (a / 2) / p, (a / 2) % p;
    assert a / 2 == p * q + r;
    assert a == 2 * (a / 2) + a % 2;
    assert a == (2 * p) * q + (2 * r + a % 2);
    DivUnique(a, 2 * p, q, 2 * r + a % 2);
  }

  /** Bit i of x: Python's `x & (1 << i) != 0` (MaskTest shows the two agree). Dafny's
      `/` and `%` by 2 floor, as the bit test of a negative int needs. */
  predicate BitSet(x: int, i: nat)
    decreases i
  {
    if i == 0 then x % 2 == 1 else BitSet(x / 2, i - 1)
  }

  /** Bit i is the parity of x divided by 2^i. */
  lemma {:induction false} BitSetDiv(x: int, i: nat)
    ensures BitSet(x, i) <==> (x / Pow2(i)) % 2 == 1
    decreases i
  {
    if i > 0 {
      BitSetDiv(x / 2, i - 1);
      DivDouble(x, Pow2(i - 1));
    }
  }

  /** 0 and -1, all zeros and all ones, are the two ints that halving leaves alone. */
  predicate Fixed(a: int) {
    a == 0 || a == -1
  }

  /** Halving moves every other int towards them. */
  lemma HalfSmaller(a: int)
    ensures AbsInt(a / 2) <= AbsInt(a)
    ensures !Fixed(a) ==> AbsInt(a / 2) < AbsInt(a)
  {
  }

  function Bit(p: bool): int {
    if p then 1 else 0
  }

  /** The bitwise combination of a and b by `op`, one bit at a time from the lowest: for two
      ints with no bits left to differ (0 or -1 each) it is op of their sign bits. */
  function Bitwise(op: (bool, bool) -> bool, a: int, b: int): int
    decreases AbsInt(a) + AbsInt(b)
  {
    if Fixed(a) && Fixed(b) then
      (if op(a == -1, b == -1) then -1 else 0)
    else
      HalfSmaller(a);
      HalfSmaller(b);
      2 * Bitwise(op, a / 2, b / 2) + Bit(op(a % 2 == 1, b % 2 == 1))
  }

  function OrOp(p: bool, q: bool): bool { p || q }
  function AndOp(p: bool, q: bool): bool { p && q }
  function XorOp(p: bool, q: bool): bool { p != q }

  /** Python's `a | b`. */
  function BitOr(a: int, b: int): int {
    Bitwise(OrOp, a, b)
  }

  /** Python's `a & b`. */
  function BitAnd(a: int, b: int): int {
    Bitwise(AndOp, a, b)
  }

  /** Python's `a ^ b`. */
  function BitXor(a: int, b: int): int {
    Bitwise(XorOp, a, b)
  }

  /** Python's `~a`. */
  function BitNot(a: int): int {
    -a - 1
  }

  /** Every bitwise result is its halves' result shifted up, plus op of the two low bits. */
  lemma Halves(op: (bool, bool) -> bool, a: int, b: int)
    ensures Bitwise(op, a, b) == 2 * Bitwise(op, a / 2, b / 2) + Bit(op(a % 2 == 1, b % 2 == 1))
  {
  }

  lemma HalvesDiv(op: (bool, bool) -> bool, a: int, b: int)
    ensures Bitwise(op, a, b) / 2 == Bitwise(op, a / 2, b / 2)
    ensures Bitwise(op, a, b) % 2 == Bit(op(a % 2 == 1, b % 2 == 1))
  {
    Halves(op, a, b);
    DivUnique(Bitwise(op, a, b), 2, Bitwise(op, a / 2, b / 2), Bit(op(a % 2 == 1, b % 2 == 1)));
  }

  /** A bitwise operation that maps two zero bits to zero works on the bits above 2^k and the
      bits below 2^k separately. */
  lemma {:induction false} Split(op: (bool, bool) -> bool, a: int, b: int, k: nat)
    requires !op(false, false)
    ensures Bitwise(op, a, b) / Pow2(k) == Bitwise(op, a / Pow2(k), b / Pow2(k))
    ensures Bitwise(op, a, b) % Pow2(k) == Bitwise(op, a % Pow2(k), b % Pow2(k))
    decreases k
  {
    if k == 0 {
      assert Bitwise(op, 0, 0) == 0;
    } else {
      var p := Pow2(k - 1);
      assert Pow2(k) == 2 * p;
      var r := Bitwise(op, a, b);
      Split(op, a / 2, b / 2, k - 1);
      HalvesDiv(op, a, b);
      DivDouble(r, p);
      DivDouble(a, p);
      DivDouble(b, p);
      var am, bm := a % (2 * p), b % (2 * p);
      DivUnique(am, 2, (a / 2) % p, a % 2);
      DivUnique(bm, 2, (b / 2) % p, b % 2);
      Halves(op, am, bm);
    }
  }

  /** Or-ing in zero, and-ing with all ones, changes nothing; and-ing with zero clears. */
  lemma {:induction false} Identities(a: int)
    ensures BitOr(a, 0) == a && BitOr(0, a) == a
    ensures BitAnd(a, -1) == a && BitAnd(-1, a) == a
    ensures BitAnd(a, 0) == 0 && BitAnd(0, a) == 0
    ensures BitXor(a, 0) == a && BitXor(0, a) == a
    decreases AbsInt(a)
  {
    if !Fixed(a) {
      HalfSmaller(a);
      Identities(a / 2);
      Halves(OrOp, a, 0);
      Halves(OrOp, 0, a);
      Halves(AndOp, a, -1);
      Halves(AndOp, -1, a);
      Halves(AndOp, a, 0);
      Halves(AndOp, 0, a);
      Halves(XorOp, a, 0);
      Halves(XorOp, 0, a);
    }
  }

  /** `|`, `&` and `^` are symmetric. */
  lemma {:induction false} Commutes(a: int, b: int)
    ensures BitOr(a, b) == BitOr(b, a)
    ensures BitAnd(a, b) == BitAnd(b, a)
    ensures BitXor(a, b) == BitXor(b, a)
    decreases AbsInt(a) + AbsInt(b)
  {
    if !(Fixed(a) && Fixed(b)) {
      HalfSmaller(a);
      HalfSmaller(b);
      Commutes(a / 2, b / 2);
    }
  }

  /** Or-ing a value below 2^k into a multiple of 2^k adds it. */
  lemma OrDisjoint(high: int, low: int, k: nat)
    requires high % Pow2(k) == 0 && 0 <= low < Pow2(k)
    ensures BitOr(high, low) == high + low
  {
    var p := Pow2(k);
    var r := BitOr(high, low);
    OrDisjointParts(high, low, k);
    var q := high / p;
    DivMod(r, p);
    DivMod(high, p);
    assert r == p * q + low;
  }

  lemma OrDisjointParts(high: int, low: int, k: nat)
    requires high % Pow2(k) == 0 && 0 <= low < Pow2(k)
    ensures BitOr(high, low) / Pow2(k) == high / Pow2(k)
    ensures BitOr(high, low) % Pow2(k) == low
  {
    var p := Pow2(k);
    Split(OrOp, high, low, k);
    DivUnique(low, p, 0, low);
    Identities(high / p);
    Identities(low);
  }

  /** `x & (2^k - 1)` keeps the low k bits: it is x modulo 2^k, for negative x too. */
  lemma {:induction false} AndLowMask(x: int, k: nat)
    ensures BitAnd(x, Pow2(k) - 1) == x % Pow2(k)
    decreases k
  {
    if k == 0 {
      Identities(x);
    } else {
      var p := Pow2(k - 1);
      assert Pow2(k) == 2 * p;
      Halves(AndOp, x, 2 * p - 1);
      assert (2 * p - 1) / 2 == p - 1 && (2 * p - 1) % 2 == 1;
      assert Bit(AndOp(x % 2 == 1, true)) == x % 2;
      AndLowMask(x / 2, k - 1);
      DivDouble(x, p);
    }
  }

  /** `x & (1 << i)` is nonzero exactly when bit i of x is set, for every int x. */
  lemma {:induction false} MaskTest(x: int, i: nat)
    ensures BitAnd(x, Pow2(i)) != 0 <==> BitSet(x, i)
    decreases i
  {
    Halves(AndOp, x, Pow2(i));
    if i == 0 {
      Identities(x / 2);
    } else {
      assert Pow2(i) / 2 == Pow2(i - 1) && Pow2(i) % 2 == 0;
      MaskTest(x / 2, i - 1);
    }
  }
}
