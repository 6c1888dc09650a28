/** 256-bit machine words as bounded integers, with the arithmetic facts the optimiser relies on. */
module Words {

  const MODULUS: int := 0x1_0000000000000000_0000000000000000_0000000000000000_0000000000000000
  const SIGN_BIT: int := 0x8000000000000000_0000000000000000_0000000000000000_0000000000000000

  type Word = x: int | 0 <= x < MODULUS

  /** Distance of at least 32 in both directions, so that two words in memory do not overlap. */
  predicate Apart(x: Word, y: Word) { x + 32 <= y || y + 32 <= x }

  // ----- powers of two -----

  function Pow2(n: nat): (r: nat)
    ensures r > 0
  {
    if n == 0 then 1 else 2 * Pow2(n - 1)
  }

  lemma {:induction false} Pow2Sum(m: nat, n: nat)
    ensures Pow2(m + n) == Pow2(m) * Pow2(n)
  {
    if m != 0 {
      Pow2Sum(m - 1, n);
      assert Pow2(m + n) == 2 * Pow2(m + n - 1);
      assert 2 * (Pow2(m - 1) * Pow2(n)) == (2 * Pow2(m - 1)) * Pow2(n);
    }
  }

  lemma {:induction false} Pow2Increasing(m: nat, n: nat)
    requires m < n
    ensures Pow2(m) < Pow2(n)
  {
    if m + 1 < n {
      Pow2Increasing(m, n - 1);
    }
  }

  lemma {:induction false} Pow2Double(n: nat, p: nat)
    requires Pow2(n) == p
    ensures Pow2(2 * n) == p * p
  {
    Pow2Sum(n, n);
  }

  lemma Pow2Half(n: nat)
    ensures Pow2(n + 1) == 2 * Pow2(n)
  {
  }

  lemma Pow2Values()
    ensures Pow2(8) == 256
    ensures Pow2(255) == SIGN_BIT
    ensures Pow2(256) == MODULUS
  {
    Pow2Double(4, 0x10);
    Pow2Double(8, 0x100);
    Pow2Double(16, 0x1_0000);
    Pow2Double(32, 0x1_0000_0000);
    Pow2Double(64, 0x1_0000_0000_0000_0000);
    Pow2Double(128, 0x1_0000_0000_0000_0000_0000_0000_0000_0000);
    Pow2Half(255);
  }

  // ----- modular arithmetic -----

  function Add(a: Word, b: Word): Word { (a + b) % MODULUS }
  function Sub(a: Word, b: Word): Word { (a - b) % MODULUS }
  function Mul(a: Word, b: Word): Word { (a * b) % MODULUS }

  function Power(a: nat, n: nat): nat
  {
    if n == 0 then 1 else a * Power(a, n - 1)
  }

  /** Truncation to 256 bits is multiplicative in its first factor. */
  lemma ModMul(a: int, b: int)
    ensures ((a % MODULUS) * b) % MODULUS == (a * b) % MODULUS
  {
    var q, r := a / MODULUS, a % MODULUS;
    assert a * b == (q * b) * MODULUS + r * b by {
      assert a == q * MODULUS + r;
    }
    ModShift(r * b, q * b);
  }

  lemma ModShift(x: int, k: int)
    ensures (x + k * MODULUS) % MODULUS == x % MODULUS
  {
    var q, r := x / MODULUS, x % MODULUS;
    assert x + k * MODULUS == (q + k) * MODULUS + r;
    ModUnique(x + k * MODULUS, q + k, r);
  }

  lemma ModUnique(x: int, q: int, r: int)
    requires 0 <= r < MODULUS && x == q * MODULUS + r
    ensures x % MODULUS == r
  {
  }

  lemma AddAssociative(a: Word, b: Word, c: Word)
    ensures Add(Add(a, b), c) == Add(a, Add(b, c))
  {
    ModShift(a + b + c, -((a + b) / MODULUS));
    ModShift(a + b + c, -((b + c) / MODULUS));
  }

  lemma MulAssociative(a: Word, b: Word, c: Word)
    ensures Mul(Mul(a, b), c) == Mul(a, Mul(b, c))
  {
    ModMul(a * b, c);
    ModMul(b * c, a);
    assert (a * b) * c == (b * c) * a;
    assert Mul(a, Mul(b, c)) == (Mul(b, c) * a) % MODULUS;
  }

  lemma MulCommutative(a: Word, b: Word)
    ensures Mul(a, b) == Mul(b, a)
  {
  }

  // ----- two's complement -----

  function ToSigned(u: Word): int { if u >= SIGN_BIT then u - MODULUS else u }

  function FromSigned(s: int): Word
    requires -MODULUS <= s < MODULUS
  {
    if s >= 0 then s else MODULUS + s
  }

  function Abs(x: int): nat { if x < 0 then -x else x }

  /** Division rounding towards zero, with the remainder taking the dividend's sign. */
  function TruncDiv(a: int, b: int): int
    requires b != 0
  {
    if (a < 0) == (b < 0) then Abs(a) / Abs(b) else -(Abs(a) / Abs(b))
  }

  function TruncMod(a: int, b: int): int
    requires b != 0
  {
    if a < 0 then -(Abs(a) % Abs(b)) else Abs(a) % Abs(b)
  }

  lemma TruncBounds(a: int, b: int)
    requires b != 0
    ensures Abs(TruncDiv(a, b)) <= Abs(a)
    ensures Abs(TruncMod(a, b)) < Abs(b)
  {
    DivShrinks(Abs(a), Abs(b));
  }

  lemma DivShrinks(a: nat, b: nat)
    requires b > 0
    ensures 0 <= a / b <= a
  {
    var q, r := a / b, a % b;
    assert a == b * q + r;
    ProductGrows(b, q, a - r);
  }

  lemma ProductGrows(b: int, q: int, p: int)
    requires b >= 1 && p >= 0 && b * q == p
    ensures 0 <= q <= p
  {
    assert q <= -1 ==> b * q <= -1;
    assert (b - 1) * q >= 0;
  }

  // ----- bitwise operations -----

  datatype BitOp = Conjunction | Disjunction | Exclusive

  function Bit(op: BitOp, p: nat, q: nat): nat
    requires p < 2 && q < 2
  {
    match op
    case Conjunction => if p == 1 && q == 1 then 1 else 0
    case Disjunction => if p == 1 || q == 1 then 1 else 0
    case Exclusive => if p != q then 1 else 0
  }

  /** Combines the lowest n bits of a and b, bit by bit. */
  function Bitwise(op: BitOp, a: nat, b: nat, n: nat): nat
  {
    if n == 0 then 0 else Bit(op, a % 2, b % 2) + 2 * Bitwise(op, a / 2, b / 2, n - 1)
  }

  lemma {:induction false} BitwiseBound(op: BitOp, a: nat, b: nat, n: nat)
    ensures Bitwise(op, a, b, n) < Pow2(n)
  {
    if n != 0 {
      BitwiseBound(op, a / 2, b / 2, n - 1);
    }
  }

  lemma {:induction false} BitwiseCommutative(op: BitOp, a: nat, b: nat, n: nat)
    ensures Bitwise(op, a, b, n) == Bitwise(op, b, a, n)
  {
    if n != 0 {
      BitwiseCommutative(op, a / 2, b / 2, n - 1);
    }
  }

  lemma {:induction false} BitwiseAssociative(op: BitOp, a: nat, b: nat, c: nat, n: nat)
    ensures Bitwise(op, Bitwise(op, a, b, n), c, n) == Bitwise(op, a, Bitwise(op, b, c, n), n)
  {
    if n != 0 {
      BitwiseAssociative(op, a / 2, b / 2, c / 2, n - 1);
      var ab, bc := Bitwise(op, a, b, n), Bitwise(op, b, c, n);
      assert ab % 2 == Bit(op, a % 2, b % 2) && ab / 2 == Bitwise(op, a / 2, b / 2, n - 1);
      assert bc % 2 == Bit(op, b % 2, c % 2) && bc / 2 == Bitwise(op, b / 2, c / 2, n - 1);
    }
  }

  lemma {:induction false} BitwiseIdempotent(a: nat, n: nat)
    requires a < Pow2(n)
    ensures Bitwise(Conjunction, a, a, n) == a
    ensures Bitwise(Disjunction, a, a, n) == a
  {
    if n != 0 {
      BitwiseIdempotent(a / 2, n - 1);
    }
  }

  lemma {:induction false} BitwiseZero(a: nat, n: nat)
    requires a < Pow2(n)
    ensures Bitwise(Conjunction, a, 0, n) == 0
    ensures Bitwise(Disjunction, a, 0, n) == a
    ensures Bitwise(Exclusive, a, 0, n) == a
  {
    if n != 0 {
      BitwiseZero(a / 2, n - 1);
    }
  }

  /** Conjunction with 2^k - 1 keeps the low k bits. */
  lemma {:induction false} AndLowMask(a: nat, k: nat, n: nat)
    requires k <= n
    ensures Bitwise(Conjunction, a, Pow2(k) - 1, n) == a % Pow2(k)
  {
    if k == 0 {
      AndNothing(a, n);
    } else {
      AndLowMask(a / 2, k - 1, n - 1);
      assert (Pow2(k) - 1) / 2 == Pow2(k - 1) - 1;
      ModHalves(a, Pow2(k - 1));
    }
  }

  lemma {:induction false} AndNothing(a: nat, n: nat)
    ensures Bitwise(Conjunction, a, 0, n) == 0
  {
    if n != 0 {
      AndNothing(a / 2, n - 1);
    }
  }

  lemma ModHalves(a: nat, p: nat)
    requires p > 0
    ensures a % (2 * p) == a % 2 + 2 * ((a / 2) % p)
  {
    var h := a / 2;
    var q, r := h / p, h % p;
    assert a == (2 * p) * q + (a % 2 + 2 * r) by {
      assert h == p * q + r;
      assert a == 2 * h + a % 2;
      assert 2 * (p * q) == (2 * p) * q;
    }
    ModOf(a, 2 * p, q, a % 2 + 2 * r);
  }

  lemma SmallMultiple(m: int, d: int)
    requires m > 0 && -m < m * d < m
    ensures d == 0
  {
    assert d >= 1 ==> m * d >= m;
    assert d <= -1 ==> m * d <= -m;
  }

  lemma ModOf(x: nat, m: nat, q: nat, r: nat)
    requires r < m && x == m * q + r
    ensures x % m == r && x / m == q
  {
    var q', r' := x / m, x % m;
    assert x == m * q' + r';
    assert m * (q - q') == r' - r;
    SmallMultiple(m, q - q');
  }

  /** Disjunction with the complement of 2^k - 1 sets every bit from k upwards. */
  lemma {:induction false} OrHighMask(a: nat, k: nat, n: nat)
    requires k <= n
    requires Pow2(k) <= Pow2(n)
    ensures Bitwise(Disjunction, a, Pow2(n) - Pow2(k), n) == Pow2(n) - Pow2(k) + a % Pow2(k)
  {
    if k == 0 {
      OrEverything(a, n);
    } else {
      if k < n { Pow2Increasing(k, n); Pow2Increasing(k - 1, n - 1); }
      OrHighMask(a / 2, k - 1, n - 1);
      var high := Pow2(n) - Pow2(k);
      assert high == 2 * (Pow2(n - 1) - Pow2(k - 1));
      assert high / 2 == Pow2(n - 1) - Pow2(k - 1) && high % 2 == 0;
      ModHalves(a, Pow2(k - 1));
    }
  }

  lemma {:induction false} OrEverything(a: nat, n: nat)
    ensures Bitwise(Disjunction, a, Pow2(n) - 1, n) == Pow2(n) - 1
  {
    if n != 0 {
      OrEverything(a / 2, n - 1);
      assert (Pow2(n) - 1) / 2 == Pow2(n - 1) - 1;
    }
  }

  function And(a: Word, b: Word): Word
  {
    BitwiseBound(Conjunction, a, b, 256); Pow2Values();
    Bitwise(Conjunction, a, b, 256)
  }

  function Or(a: Word, b: Word): Word
  {
    BitwiseBound(Disjunction, a, b, 256); Pow2Values();
    Bitwise(Disjunction, a, b, 256)
  }

  function Xor(a: Word, b: Word): Word
  {
    BitwiseBound(Exclusive, a, b, 256); Pow2Values();
    Bitwise(Exclusive, a, b, 256)
  }

  function Not(a: Word): Word { MODULUS - 1 - a }

  lemma AndLaws(x: Word, y: Word, z: Word)
    ensures And(And(x, y), z) == And(x, And(y, z)) && And(x, y) == And(y, x)
  {
    var n := 256;
    BitwiseAssociative(Conjunction, x, y, z, n);
    BitwiseCommutative(Conjunction, x, y, n);
  }

  lemma OrLaws(x: Word, y: Word, z: Word)
    ensures Or(Or(x, y), z) == Or(x, Or(y, z)) && Or(x, y) == Or(y, x)
  {
    var n := 256;
    BitwiseAssociative(Disjunction, x, y, z, n);
    BitwiseCommutative(Disjunction, x, y, n);
  }

  lemma XorLaws(x: Word, y: Word, z: Word)
    ensures Xor(Xor(x, y), z) == Xor(x, Xor(y, z)) && Xor(x, y) == Xor(y, x)
  {
    var n := 256;
    BitwiseAssociative(Exclusive, x, y, z, n);
    BitwiseCommutative(Exclusive, x, y, n);
  }

  lemma AndUnits(x: Word)
    ensures And(x, 0) == 0 && And(x, MODULUS - 1) == x && And(x, x) == x
  {
    Pow2Values();
    BitwiseZero(x, 256);
    BitwiseIdempotent(x, 256);
    AndLowMask(x, 256, 256);
  }

  lemma OrUnits(x: Word)
    ensures Or(x, 0) == x && Or(x, MODULUS - 1) == MODULUS - 1 && Or(x, x) == x
  {
    Pow2Values();
    BitwiseZero(x, 256);
    BitwiseIdempotent(x, 256);
    OrEverything(x, 256);
  }

  /** Keeping the bits below position t. */
  lemma {:induction false} LowMask(b: Word, t: nat)
    requires t < 256 && Pow2(t) < MODULUS
    ensures And(b, Pow2(t) - 1) == b % Pow2(t)
  {
    AndLowMask(b, t, 256);
  }

  /** Setting the bits from position t upwards. */
  lemma {:induction false} HighMask(b: Word, t: nat)
    requires t < 256 && Pow2(t) < MODULUS
    ensures Or(b, MODULUS - Pow2(t)) == MODULUS - Pow2(t) + b % Pow2(t)
  {
    Pow2Values();
    OrHighMask(b, t, 256);
  }

  lemma XorUnits(x: Word)
    ensures Xor(x, 0) == x
  {
    Pow2Values();
    BitwiseZero(x, 256);
  }

  // ----- subtraction -----

  lemma SubIsAddNegated(x: Word, a: Word)
    ensures Sub(x, a) == Add(x, Sub(0, a))
  {
  }

  lemma AddThenSub(x: Word, a: Word, y: Word)
    ensures Sub(Add(x, a), y) == Add(Sub(x, y), a)
  {
    ModShift(x + a - y, -((x + a) / MODULUS));
    ModShift(x + a - y, -((x - y) / MODULUS));
  }

  lemma SubSum(x: Word, y: Word, a: Word)
    ensures Sub(x, Add(y, a)) == Add(Sub(x, y), Sub(0, a))
  {
    ModShift(x - (y + a), (y + a) / MODULUS);
    ModShift(x - y - a, -((x - y) / MODULUS) - ((0 - a) / MODULUS));
  }
}
