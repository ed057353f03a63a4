/**
 * Ruby's arbitrary-precision Integer, restricted to non-negative values, and
 * the two operators the bitset uses on it: `<<` and `&`.
 *
 * `TestBit` is the arithmetic reference meaning of "bit i of n is 1"; the
 * lemmas below tie the operational `And` and `ShiftLeft` to it.
 */
module IntegerBits {

  /** 2 to the power k. */
  function Pow2(k: nat): (p: nat)
    ensures p >= 1
    ensures k >= 1 ==> p >= 2 && p % 2 == 0
  {
    if k == 0 then 1 else 2 * Pow2(k - 1)
  }

  /** Bit i of n (value 2^i) is set. */
  predicate TestBit(n: nat, i: nat) {
    (n / Pow2(i)) % 2 == 1
  }

  /** Ruby's `x >> m` on a non-negative x: m halvings, each rounding down. */
  function ShiftRight(x: nat, m: nat): (r: nat)
    ensures r <= x
  {
    if m == 0 then x else ShiftRight(x / 2, m - 1)
  }

  /**
   * Ruby's `x << k` on a non-negative x: a multiplication by 2^k for k >= 0,
   * and for a negative k the right shift `x >> -k`.
   */
  function ShiftLeft(x: nat, k: int): (r: nat)
    ensures forall i: nat :: TestBit(r, i) == (i >= k && TestBit(x, i - k))
  {
    if k >= 0 then
      ShiftUpBits(x, k);
      x * Pow2(k)
    else
      ShiftDownBits(x, -k);
      ShiftRight(x, -k)
  }

  /** Ruby's `a & b` on non-negative integers, one low bit at a time. */
  function And(a: nat, b: nat): (r: nat)
    ensures r <= a && r <= b
  {
    if a == 0 || b == 0 then 0
    else 2 * And(a / 2, b / 2) + (if a % 2 == 1 && b % 2 == 1 then 1 else 0)
  }

  /** A positive multiple of d is at least d. */
  lemma {:induction false} MulAtLeast(d: nat, k: nat)
    requires k >= 1
    ensures d * k >= d
  {
    if k > 1 {
      MulAtLeast(d, k - 1);
      assert d * k == d * (k - 1) + d;
    }
  }

  /** Division by d is the unique quotient of a split a == d*q + r with 0 <= r < d. */
  lemma DivUnique(a: nat, d: nat, q: nat, r: nat)
    requires d >= 1 && a == d * q + r && r < d
    ensures a / d == q
  {
    var q', r' := a / d, a % d;
    assert a == d * q' + r' && r' < d;
    if q' < q {
      MulAtLeast(d, q - q');
    } else if q' > q {
      MulAtLeast(d, q' - q);
    }
  }

  /** Dividing by 2*p is dividing by 2 and then by p. */
  lemma DivTwice(a: nat, p: nat)
    requires p >= 1
    ensures a / (2 * p) == (a / 2) / p
  {
    var h := a / 2;
    var q, r := h / p, h % p;
    assert h == p * q + r;
    assert a == 2 * h + a % 2;
    calc {
      a;
      2 * (p * q + r) + a % 2;
      (2 * p) * q + (2 * r + a % 2);
    }
    DivUnique(a, 2 * p, q, 2 * r + a % 2);
  }

  /** Bit i+1 of n is bit i of n halved. */
  lemma TestBitHalf(n: nat, i: nat)
    ensures TestBit(n, i + 1) == TestBit(n / 2, i)
  {
    DivTwice(n, Pow2(i));
  }

  /** Multiplying by 2^k moves bit i - k to position i and clears the k lowest bits. */
  lemma {:induction false} ShiftUpBit(x: nat, k: nat, i: nat)
    ensures TestBit(x * Pow2(k), i) == (i >= k && TestBit(x, i - k))
  {
    if k > 0 {
      var y := x * Pow2(k - 1);
      assert x * Pow2(k) == 2 * y;
      if i > 0 {
        TestBitHalf(2 * y, i - 1);
        ShiftUpBit(x, k - 1, i - 1);
      }
    }
  }

  lemma ShiftUpBits(x: nat, k: nat)
    ensures forall i: nat :: TestBit(x * Pow2(k), i) == (i >= k && TestBit(x, i - k))
  {
    forall i: nat ensures TestBit(x * Pow2(k), i) == (i >= k && TestBit(x, i - k)) {
      ShiftUpBit(x, k, i);
    }
  }

  /** Shifting right by m moves bit i + m to position i. */
  lemma {:induction false} ShiftDownBit(x: nat, m: nat, i: nat)
    ensures TestBit(ShiftRight(x, m), i) == TestBit(x, i + m)
  {
    if m > 0 {
      ShiftDownBit(x / 2, m - 1, i);
      TestBitHalf(x, i + m - 1);
    }
  }

  lemma ShiftDownBits(x: nat, m: nat)
    ensures forall i: nat :: TestBit(ShiftRight(x, m), i) == TestBit(x, i + m)
  {
    forall i: nat ensures TestBit(ShiftRight(x, m), i) == TestBit(x, i + m) {
      ShiftDownBit(x, m, i);
    }
  }

  /** Bit 0 of n is its parity. */
  lemma TestBitZero(n: nat)
    ensures TestBit(n, 0) == (n % 2 == 1)
  {
  }

  /** No bit of a number below 2^k is set at position k or above. */
  lemma {:induction false} BitsAboveWidthClear(n: nat, k: nat, i: nat)
    requires n < Pow2(k) && k <= i
    ensures !TestBit(n, i)
  {
    if i == 0 {
      assert n == 0;
    } else {
      TestBitHalf(n, i - 1);
      if k == 0 {
        assert n == 0;
        BitsAboveWidthClear(n / 2, 0, i - 1);
      } else {
        BitsAboveWidthClear(n / 2, k - 1, i - 1);
      }
    }
  }

  /** Two numbers are equal exactly when they agree on every bit position. */
  lemma {:induction false} Extensional(a: nat, b: nat)
    ensures a == b <==> forall i: nat :: TestBit(a, i) == TestBit(b, i)
    decreases a + b
  {
    if forall i: nat :: TestBit(a, i) == TestBit(b, i) {
      if a + b > 0 {
        forall i: nat ensures TestBit(a / 2, i) == TestBit(b / 2, i) {
          TestBitHalf(a, i);
          TestBitHalf(b, i);
        }
        Extensional(a / 2, b / 2);
        TestBitZero(a);
        TestBitZero(b);
      }
    }
  }

  /** `&` keeps exactly the bits set in both operands. */
  lemma {:induction false} AndBit(a: nat, b: nat, i: nat)
    ensures TestBit(And(a, b), i) == (TestBit(a, i) && TestBit(b, i))
    decreases i
  {
    if a == 0 || b == 0 {
      BitsAboveWidthClear(0, 0, i);
    } else if i == 0 {
      TestBitZero(And(a, b));
      TestBitZero(a);
      TestBitZero(b);
    } else {
      var c := if a % 2 == 1 && b % 2 == 1 then 1 else 0;
      assert And(a, b) / 2 == And(a / 2, b / 2);
      TestBitHalf(And(a, b), i - 1);
      TestBitHalf(a, i - 1);
      TestBitHalf(b, i - 1);
      AndBit(a / 2, b / 2, i - 1);
    }
  }

  /** Masking with a single power of two isolates that one bit. */
  lemma {:induction false} AndPow2(n: nat, i: nat)
    ensures And(n, Pow2(i)) == if TestBit(n, i) then Pow2(i) else 0
  {
    if n == 0 {
      BitsAboveWidthClear(0, 0, i);
    } else if i == 0 {
      TestBitZero(n);
    } else {
      TestBitHalf(n, i - 1);
      assert Pow2(i) / 2 == Pow2(i - 1);
      AndPow2(n / 2, i - 1);
    }
  }

  /** `1 << k` is 2^k for k >= 0 and 0 for a negative k. */
  lemma ShiftOne(k: int)
    ensures ShiftLeft(1, k) == if k >= 0 then Pow2(k) else 0
  {
  }

  /**
   * The test `(n & (1 << k)).positive?`: true exactly when k is a valid bit
   * position and bit k of n is set; a negative k makes the mask 0.
   */
  lemma MaskIsolatesBit(n: nat, k: int)
    ensures (And(n, ShiftLeft(1, k)) > 0) == (k >= 0 && TestBit(n, k))
  {
    ShiftOne(k);
    if k >= 0 {
      AndPow2(n, k);
    }
  }
}
