/** Go's uint64 arithmetic, as the operand expression evaluator uses it: every operation
    wraps modulo 2^64, shifts by 64 or more give 0, and the bitwise operators work on the
    64 binary digits. Values are integers in [0, 2^64). */
module Uint64 {
  import opened Link

  type U64 = x: int | 0 <= x < 0x1_0000_0000_0000_0000

  const MaxU64: U64 := 0xFFFF_FFFF_FFFF_FFFF

  /** The sum, less 2^64 when it wraps. */
  function Add(a: U64, b: U64): (r: U64)
    ensures r == a + b || r == a + b - TwoTo64
  {
    (a + b) % TwoTo64
  }

  /** The difference, plus 2^64 when it wraps below zero. */
  function Sub(a: U64, b: U64): (r: U64)
    ensures r == a - b || r == a - b + TwoTo64
    ensures Add(r, b) == a
  {
    (a - b) % TwoTo64
  }

  /** The product modulo 2^64: the true product when that fits. */
  function Mul(a: U64, b: U64): (r: U64)
    ensures a * b < TwoTo64 ==> r == a * b
    ensures (a * b - r) % TwoTo64 == 0
  {
    (a * b) % TwoTo64
  }

  /** Unsigned division and remainder, for a non-zero divisor. */
  function Div(a: U64, b: U64): (r: U64)
    requires b != 0
    ensures r <= a
    ensures r * b <= a < r * b + b
  {
    QuotientBound(a, b);
    a / b
  }

  lemma QuotientBound(a: nat, b: nat)
    requires b > 0
    ensures a / b <= a
  {
    var q := a / b;
    assert q * b + a % b == a;
    ProductBound(q, b);
  }

  lemma {:induction false} ProductBound(q: nat, b: nat)
    requires b > 0
    ensures q <= q * b
    decreases b
  {
    if b > 1 {
      ProductBound(q, b - 1);
      assert q * b == q * (b - 1) + q;
    }
  }

  function Mod(a: U64, b: U64): (r: U64)
    requires b != 0
    ensures r < b && r == a - Div(a, b) * b
  {
    a % b
  }

  /** Does the sum of a and b wrap around? */
  predicate AddOverflows(a: U64, b: U64) {
    a + b >= TwoTo64
  }

  /** A sum wraps exactly when the wrapped result is smaller than an operand. */
  lemma OverflowIsWrap(a: U64, b: U64)
    ensures AddOverflows(a, b) <==> Add(a, b) < a
    ensures AddOverflows(a, b) <==> Add(a, b) < b
  {
  }

  /** Negation is subtraction from zero; a value plus its negation wraps to zero. */
  function Neg(a: U64): (r: U64)
    ensures Add(a, r) == 0
    ensures a != 0 ==> r == TwoTo64 - a
  {
    Sub(0, a)
  }

  function Pow2(n: nat): (r: nat)
    ensures r > 0
  {
    if n == 0 then 1 else 2 * Pow2(n - 1)
  }

  lemma {:induction false} Pow2Add(m: nat, n: nat)
    ensures Pow2(m + n) == Pow2(m) * Pow2(n)
    decreases n
  {
    if n > 0 {
      Pow2Add(m, n - 1);
      assert Pow2(m + n) == 2 * Pow2(m + n - 1);
    }
  }

  lemma Pow2Of32()
    ensures Pow2(32) == 0x1_0000_0000
  {
    assert Pow2(4) == 16;
    Pow2Add(4, 4);
    assert Pow2(8) == 256;
    Pow2Add(8, 8);
    assert Pow2(16) == 0x1_0000;
    Pow2Add(16, 16);
  }

  lemma Pow2Of64()
    ensures Pow2(64) == TwoTo64
  {
    Pow2Of32();
    Pow2Add(32, 32);
  }

  /** a shifted left by n bits, keeping the low 64; 0 for n of 64 or more. */
  function Shl(a: U64, n: U64): (r: U64)
    ensures n >= 64 ==> r == 0
    ensures n < 64 ==> (a * Pow2(n) - r) % TwoTo64 == 0
  {
    if n >= 64 then 0 else (a * Pow2(n)) % TwoTo64
  }

  /** a shifted right by n bits; 0 for n of 64 or more. */
  function Shr(a: U64, n: U64): (r: U64)
    ensures n >= 64 ==> r == 0
    ensures n < 64 ==> r == a / Pow2(n)
  {
    if n >= 64 then 0 else Halve(a, n)
  }

  /** a halved n times, rounding down: a divided by 2^n. */
  function Halve(a: nat, n: nat): (r: nat)
    ensures r <= a
    ensures r == a / Pow2(n)
  {
    if n == 0 then a
    else
      var r := Halve(a / 2, n - 1);
      HalveDivides(a, Pow2(n - 1));
      r
  }

  /** Halving and then dividing by p is dividing by 2p. */
  lemma HalveDivides(a: nat, p: nat)
    requires p > 0
    ensures a / 2 / p == a / (2 * p)
  {
    var s, t := a / 2 / p, a / 2 % p;
    assert a / 2 == p * s + t;
    assert a == (2 * p) * s + (2 * t + a % 2);
    DivUnique(a, 2 * p, s, 2 * t + a % 2);
  }

  /** A division is determined by any quotient and remainder that fit. */
  lemma DivUnique(a: nat, d: nat, q: nat, m: nat)
    requires d > 0 && m < d && a == d * q + m
    ensures a / d == q
  {
    var q', m' := a / d, a % d;
    assert a == d * q' + m';
    if q' < q {
      MulGap(d, q', q);
      assert false;
    } else if q' > q {
      MulGap(d, q, q');
      assert false;
    }
  }

  /** Multiples of d at least one step apart differ by at least d. */
  lemma MulGap(d: nat, x: nat, y: nat)
    requires x < y
    ensures d * y >= d * x + d
  {
    ProductBound(d, y - x);
    assert d * y == d * x + d * (y - x);
  }

  /** The complement of every bit. */
  function Not(a: U64): (r: U64)
    ensures forall i | 0 <= i < 64 :: BitAt(r, i) == !BitAt(a, i)
  {
    Pow2Of64();
    forall i | 0 <= i < 64
      ensures BitAt(MaxU64 - a, i) == !BitAt(a, i)
    {
      NotBits(a, 64, i);
    }
    MaxU64 - a
  }

  /** Binary digit i of a. */
  predicate BitAt(a: nat, i: nat) {
    Halve(a, i) % 2 == 1
  }

  /** Subtracting from the all-ones number of n digits flips each of them. */
  lemma {:induction false} NotBits(a: nat, n: nat, i: nat)
    requires a < Pow2(n) && i < n
    ensures BitAt(Pow2(n) - 1 - a, i) == !BitAt(a, i)
  {
    var m, h := Pow2(n) - 1 - a, Pow2(n - 1);
    var m2 := h - 1 - a / 2;
    assert Pow2(n) == 2 * h;
    assert m == 2 * m2 + (1 - a % 2);
    assert m / 2 == m2 && m % 2 == 1 - a % 2;
    if i > 0 {
      NotBits(a / 2, n - 1, i - 1);
      assert Halve(m, i) == Halve(m2, i - 1);
      assert Halve(a, i) == Halve(a / 2, i - 1);
    }
  }

  datatype BitOp = And | Or | Xor

  function Bit(op: BitOp, x: bool, y: bool): bool {
    match op
    case And => x && y
    case Or => x || y
    case Xor => x != y
  }

  /** The low n binary digits of a and b combined digit by digit. */
  function Bitwise(op: BitOp, a: nat, b: nat, n: nat): (r: nat)
    ensures r < Pow2(n)
  {
    if n == 0 then 0
    else 2 * Bitwise(op, a / 2, b / 2, n - 1) + (if Bit(op, a % 2 == 1, b % 2 == 1) then 1 else 0)
  }

  /** The operator on 64 digits: each digit of the result is the operator applied to
      the digits of the operands in that place. */
  function Apply64(op: BitOp, a: U64, b: U64): (r: U64)
    ensures forall i | 0 <= i < 64 :: BitAt(r, i) == Bit(op, BitAt(a, i), BitAt(b, i))
  {
    Pow2Of64();
    forall i | 0 <= i < 64
      ensures BitAt(Bitwise(op, a, b, 64), i) == Bit(op, BitAt(a, i), BitAt(b, i))
    {
      BitwiseBits(op, a, b, 64, i);
    }
    Bitwise(op, a, b, 64)
  }

  /** Digit i of a bitwise combination of n digits, for i below n. */
  lemma {:induction false} BitwiseBits(op: BitOp, a: nat, b: nat, n: nat, i: nat)
    requires i < n
    ensures BitAt(Bitwise(op, a, b, n), i) == Bit(op, BitAt(a, i), BitAt(b, i))
  {
    var low := Bitwise(op, a / 2, b / 2, n - 1);
    var x := Bitwise(op, a, b, n);
    assert x / 2 == low;
    if i > 0 {
      BitwiseBits(op, a / 2, b / 2, n - 1, i - 1);
      assert Halve(x, i) == Halve(low, i - 1);
      assert Halve(a, i) == Halve(a / 2, i - 1);
      assert Halve(b, i) == Halve(b / 2, i - 1);
    }
  }

  function BitAnd(a: U64, b: U64): (r: U64)
    ensures forall i | 0 <= i < 64 :: BitAt(r, i) == (BitAt(a, i) && BitAt(b, i))
  {
    Apply64(And, a, b)
  }

  function BitOr(a: U64, b: U64): (r: U64)
    ensures forall i | 0 <= i < 64 :: BitAt(r, i) == (BitAt(a, i) || BitAt(b, i))
  {
    Apply64(Or, a, b)
  }

  function BitXor(a: U64, b: U64): (r: U64)
    ensures forall i | 0 <= i < 64 :: BitAt(r, i) == (BitAt(a, i) != BitAt(b, i))
  {
    Apply64(Xor, a, b)
  }

  /** Or with zero and xor with zero keep the value; and with zero clears it. */
  lemma {:induction false} BitwiseZero(a: nat, n: nat)
    requires a < Pow2(n)
    ensures Bitwise(Or, a, 0, n) == a
    ensures Bitwise(Xor, a, 0, n) == a
    ensures Bitwise(And, a, 0, n) == 0
  {
    if n > 0 {
      BitwiseZero(a / 2, n - 1);
    }
  }

  /** Or-ing a multiple of 2^k with a number below 2^k adds them: no bit is set in both. */
  lemma {:induction false} OrDisjoint(m: nat, y: nat, k: nat, n: nat)
    requires y < Pow2(k) && k <= n && m * Pow2(k) < Pow2(n)
    ensures Bitwise(Or, m * Pow2(k), y, n) == m * Pow2(k) + y
    decreases k
  {
    if k == 0 {
      BitwiseZero(m, n);
    } else {
      var x := m * Pow2(k);
      assert x == 2 * (m * Pow2(k - 1));
      assert x / 2 == m * Pow2(k - 1) && x % 2 == 0;
      OrDisjoint(m, y / 2, k - 1, n - 1);
    }
  }
}
