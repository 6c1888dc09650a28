/**
 * Constants that are computed instead of pushed: the routine that is found for a value, the number this routine
 * computes, and when the two are the same.
 */
module Decomposition {
  import opened Results
  import opened Words
  import opened Evm

  function BytesRequired(x: nat): nat { if x == 0 then 0 else 1 + BytesRequired(x / 256) }

  lemma {:induction false} BytesGrow(x: nat, y: nat)
    requires x <= y
    ensures BytesRequired(x) <= BytesRequired(y)
  {
    if x > 0 {
      BytesGrow(x / 256, y / 256);
    }
  }

  /** The complement is shorter. */
  predicate Negated(v: Word) { BytesRequired(Not(v)) < BytesRequired(v) }

  lemma NegatedIsLarge(v: Word)
    requires Negated(v)
    ensures Not(v) < v && v >= SIGN_BIT
  {
    if v <= Not(v) {
      BytesGrow(v, Not(v));
    }
  }

  // ----- value == a * 2**bits + b with a small b -----

  function Upper(v: Word, bits: nat): (r: nat)
  {
    Division(v, Pow2(bits));
    v / Pow2(bits)
  }

  /** The remainder, or a negative number if that is closer to zero. */
  function Lower(v: Word, bits: nat): int
  {
    var p, rest := Pow2(bits), v % Pow2(bits);
    if p - rest < rest then rest - p else rest
  }

  /** The 8 bits below the given one are its complement, and the remainder is small. */
  predicate IsSplit(v: Word, bits: nat)
  {
    8 < bits < 256 && (v / Pow2(bits - 8)) % 512 in {0xff, 0x100} && Abs(Lower(v, bits)) < Pow2(bits - 8)
  }

  lemma AtLeast(k: int, d: int)
    requires k >= 1 && d >= 0
    ensures k * d >= d && (d > 0 ==> k * d >= k)
  {
  }

  lemma Minus(k: int, l: int, d: int)
    ensures (k - l) * d == k * d - l * d
  {
  }

  lemma Division(x: nat, d: nat)
    requires d > 0
    ensures x == x / d * d + x % d && 0 <= x % d < d && x / d >= 0
  {
  }

  lemma QuotientUnique(d: int, s: int, r: int, s': int, r': int)
    requires s * d + r == s' * d + r' && 0 <= r < d && 0 <= r' < d
    ensures s == s' && r == r'
  {
    Minus(s, s', d);
    Minus(s', s, d);
    if s > s' {
      AtLeast(s - s', d);
    } else if s < s' {
      AtLeast(s' - s, d);
    }
  }

  lemma DivisionUnique(x: nat, d: nat, s: int, r: int)
    requires x == s * d + r && 0 <= r < d
    ensures x / d == s && x % d == r
  {
    Division(x, d);
    QuotientUnique(d, s, r, x / d, x % d);
  }

  /** The window of nine bits consists of the lowest bit of a, and of the 8 highest bits of the remainder. */
  lemma Window(v: nat, q: nat, p: nat)
    requires q > 0 && p == 256 * q
    ensures v / p * 256 + v % p / q == v / q && 0 <= v % p / q < 256
  {
    Division(v, p);
    var a, rest := v / p, v % p;
    Division(rest, q);
    var b, r := rest / q, rest % q;
    Minus(b, 256, q);
    if b > 256 {
      AtLeast(b - 256, q);
    }
    assert a * p == (a * 256) * q;
    assert (a * 256 + b) * q == (a * 256) * q + b * q;
    DivisionUnique(v, q, a * 256 + b, r);
  }

  lemma WindowCases(a: nat, b: nat)
    requires b < 256 && (a * 256 + b) % 512 in {0xff, 0x100}
    ensures (a % 2 == 1 && b == 0) || (a % 2 == 0 && b == 255)
  {
  }

  /** Either b is not negative and a odd, or b is negative, a even, and a + 1 would have been right. */
  lemma SplitCases(v: Word, bits: nat)
    requires IsSplit(v, bits)
    ensures Lower(v, bits) >= 0 ==>
      Upper(v, bits) % 2 == 1 && v == Upper(v, bits) * Pow2(bits) + Lower(v, bits)
    ensures Lower(v, bits) < 0 ==>
      Upper(v, bits) % 2 == 0 && v == Upper(v, bits) * Pow2(bits) + Pow2(bits) + Lower(v, bits)
    ensures Pow2(bits) == 256 * Pow2(bits - 8)
  {
    var q, p := Pow2(bits - 8), Pow2(bits);
    Pow2Values();
    Pow2Sum(8, bits - 8);
    Window(v, q, p);
    Division(v, p);
    var a, rest := v / p, v % p;
    var b := rest / q;
    Division(rest, q);
    assert a * 256 + b == v / q;
    WindowCases(a, b);
    Remainder(rest, q, b, rest % q);
  }

  lemma Remainder(rest: nat, q: nat, b: nat, r: nat)
    requires rest == b * q + r && r < q
    ensures b == 0 ==> rest < q
    ensures b == 255 ==> rest >= 255 * q
  {
  }

  lemma Smaller(v: Word, bits: nat)
    requires IsSplit(v, bits) && v > 0
    ensures Abs(Lower(v, bits)) < v && Upper(v, bits) < v && Upper(v, bits) >= 0
  {
    SplitCases(v, bits);
    var q, p, a := Pow2(bits - 8), Pow2(bits), Upper(v, bits);
    SmallerNumbers(v, p, q, a, Lower(v, bits));
  }

  lemma SmallerNumbers(v: int, p: int, q: int, a: int, b: int)
    requires q > 0 && p == 256 * q && -q < b < q && a >= 0
    requires b >= 0 ==> a >= 1 && v == a * p + b
    requires b < 0 ==> v == a * p + p + b
    ensures a < v && -v < b < v
  {
    if a >= 1 {
      AtLeast(a, p);
      AtLeast(p, a);
      Minus(p, 1, a);
      AtLeast(p - 1, a);
    }
  }

  // ----- the routine -----

  type Items = seq<AssemblyItem>
  type Gas = Items -> int

  /** The routine for a value; the cheapest decomposition is chosen, the one with the most bits among equals. */
  ghost function Representation(gas: Gas, v: Word): (r: Items)
    decreases v, 2, 0
  {
    if v < 0x10000 then [Push(v)]
    else if Negated(v) then
      NegatedIsLarge(v);
      Representation(gas, Not(v)) + [Operation(NOT)]
    else RoutineFor(gas, v, Choice(gas, v, 9))
  }

  /** The best of the bits considered when the given ones have been: 0 stands for the literal. */
  ghost function Choice(gas: Gas, v: Word, bits: nat): (r: nat)
    requires v >= 0x10000
    ensures r == 0 || (bits <= r && IsSplit(v, r))
    decreases v, 1, 256 - bits
  {
    if bits >= 256 then 0
    else
      var before := Choice(gas, v, bits + 1);
      if IsSplit(v, bits) && gas(RoutineFor(gas, v, bits)) < gas(RoutineFor(gas, v, before)) then bits else before
  }

  ghost function RoutineFor(gas: Gas, v: Word, bits: nat): Items
    requires v >= 0x10000 && (bits == 0 || IsSplit(v, bits))
    decreases v, 0, 0
  {
    if bits == 0 then [Push(v)]
    else
      Smaller(v, bits);
      var a, b := Upper(v, bits), Lower(v, bits);
      if b == 0 then HighPart(gas, bits, a)
      else Representation(gas, Abs(b)) + HighPart(gas, bits, a) + [Operation(if b > 0 then ADD else SUB)]
  }

  ghost function HighPart(gas: Gas, bits: nat, a: Word): Items
    requires bits < 256
    decreases a, 3, 0
  {
    var power: Items := [Push(bits), Push(2), Operation(EXP)];
    if a > 1 then power + Representation(gas, a) + [Operation(MUL)] else power
  }

  /** The routine takes a negative remainder off a multiple of the power that should have been one higher. */
  ghost predicate LosesCarry(gas: Gas, v: Word)
    decreases v
  {
    if v < 0x10000 then false
    else if Negated(v) then
      NegatedIsLarge(v);
      LosesCarry(gas, Not(v))
    else
      var bits := Choice(gas, v, 9);
      bits != 0 &&
      (Smaller(v, bits);
       var a, b := Upper(v, bits), Lower(v, bits);
       (b < 0 && a != 0) || (b != 0 && LosesCarry(gas, Abs(b))) || (a > 1 && LosesCarry(gas, a)))
  }

  // ----- what the routine computes -----

  function HighNumber(a: nat, a': int, p: nat): int { if a > 1 then a' * p else p }

  /** The sum or difference that the routine forms out of its parts. */
  function Combined(a: nat, a': int, p: nat, b: int, b': int): int
  {
    var high := HighNumber(a, a', p);
    if b > 0 then high + b' else if b < 0 then high - b' else high
  }

  ghost function Computed(gas: Gas, v: Word): int
    decreases v
  {
    if v < 0x10000 then v
    else if Negated(v) then
      NegatedIsLarge(v);
      MODULUS - 1 - Computed(gas, Not(v))
    else
      var bits := Choice(gas, v, 9);
      if bits == 0 then v
      else
        Smaller(v, bits);
        var a, b := Upper(v, bits), Lower(v, bits);
        Combined(a, Computed(gas, a), Pow2(bits), b, Computed(gas, Abs(b)))
  }

  /** Values that differ by a multiple of 512: no sum of lost carries cancels out. */
  ghost predicate Congruent(x: int, y: int) { exists k: int :: x - y == 512 * k }

  lemma CombinedCongruent(a: nat, a': int, p: nat, b: int, b': int, v: int, k: nat)
    requires p == 512 * k && (a > 1 ==> Congruent(a', a)) && (b != 0 ==> Congruent(b', Abs(b)))
    requires b >= 0 ==> a >= 1 && v == a * p + b
    requires b < 0 ==> v == a * p + p + b
    ensures Congruent(Combined(a, a', p, b, b'), v)
  {
    var high := HighNumber(a, a', p);
    var m: int := if a > 1 then a' - a else if a == 1 then 0 else 1;
    assert high - a * p == m * p by {
      Minus(a', a, p);
    }
    var n: int := if b < 0 then m - 1 else m;
    Minus(m, 1, p);
    assert n * p == 512 * (n * k);
    var l: int := 0;
    if b != 0 {
      l :| b' - Abs(b) == 512 * l;
    }
    var e := if b > 0 then n * k + l else if b < 0 then n * k - l else n * k;
    assert Combined(a, a', p, b, b') - v == 512 * e;
  }

  /** The parts of a split, and the numbers computed for them. */
  ghost predicate Parts(v: int, a: nat, a': int, p: int, q: int, b: int, b': int)
  {
    && q > 0 && p == 256 * q && -q < b < q
    && (b >= 0 ==> a % 2 == 1 && v == a * p + b)
    && (b < 0 ==> a % 2 == 0 && v == a * p + p + b)
    && (a > 1 ==> a' >= 1 && Congruent(a', a))
    && (b != 0 ==> 1 <= b' < q)
  }

  lemma CombinedExact(v: int, a: nat, a': int, p: int, q: int, b: int, b': int)
    requires Parts(v, a, a', p, q, b, b')
    ensures Combined(a, a', p, b, b') == v <==>
      !(b < 0 && a != 0) && (b != 0 ==> b' == Abs(b)) && (a > 1 ==> a' == a)
  {
    var c := Combined(a, a', p, b, b');
    var x, y := if a > 1 then a' else 1, if b != 0 then b' else 0;
    if b >= 0 {
      assert c == x * p + y;
      if c == v {
        QuotientUnique(p, x, y, a, b);
      }
    } else {
      Minus(x, 1, p);
      assert c == (x - 1) * p + (p - y);
      if c == v {
        QuotientUnique(p, x - 1, p - y, a, p + b);
        assert x == a + 1;
        assert a > 1 ==> Congruent(a', a);
      }
    }
  }

  lemma CombinedBounds(v: int, a: nat, a': int, p: int, q: int, b: int, b': int, t: int)
    requires Parts(v, a, a', p, q, b, b')
    requires t >= 1 && (a > 1 ==> a' < t) && (a == 1 ==> t > 1)
    ensures 1 <= Combined(a, a', p, b, b') < t * p
  {
    var x := if a > 1 then a' else 1;
    AtLeast(x, p);
    if a >= 1 {
      Minus(t, x, p);
      AtLeast(t - x, p);
    } else {
      AtLeast(t, p);
    }
  }

  lemma BoundOfUpper(v: int, a: nat, p: int, q: int, b: int, bits: nat, n: nat)
    requires p == Pow2(bits) == 256 * q && q > 0 && -q < b < q && v < Pow2(n)
    requires (b >= 0 && a >= 1 && v == a * p + b) || (b < 0 && v == a * p + p + b)
    ensures bits <= n && a < Pow2(n - bits) && Pow2(n) == Pow2(n - bits) * p
  {
    AtLeast(p, a);
    if a >= 1 {
      AtLeast(a, p);
    }
    if n < bits {
      Pow2Half(bits - 1);
      if n < bits - 1 {
        Pow2Increasing(n, bits - 1);
      }
    }
    Pow2Sum(n - bits, bits);
    var t := Pow2(n - bits);
    Minus(a, t, p);
    if a > t {
      AtLeast(a - t, p);
    }
  }

  /** What is computed is the value exactly if no split that is chosen loses a carry. */
  lemma {:induction false} ExactUnlessCarryLost(gas: Gas, v: Word, n: nat)
    requires v < Pow2(n) && n <= 256
    ensures 0 <= Computed(gas, v) < Pow2(n) && (v >= 1 ==> Computed(gas, v) >= 1)
    ensures Congruent(Computed(gas, v), v)
    ensures Computed(gas, v) == v <==> !LosesCarry(gas, v)
    decreases v
  {
    if v < 0x10000 {
      assert v - v == 512 * 0;
    } else if Negated(v) {
      ExactWhenNegated(gas, v, n);
    } else if Choice(gas, v, 9) == 0 {
      assert v - v == 512 * 0;
    } else {
      ExactWhenSplit(gas, v, n);
    }
  }

  lemma {:induction false} NegatedNeedsAllBits(v: Word, n: nat)
    requires v < Pow2(n) && n <= 256 && Negated(v)
    ensures n == 256 && Pow2(n) == MODULUS && Not(v) < Pow2(255) == SIGN_BIT && Not(v) < v
  {
    NegatedIsLarge(v);
    Pow2Values();
    if n < 255 {
      Pow2Increasing(n, 255);
    }
  }

  lemma {:induction false} ComputedOfNegated(gas: Gas, v: Word, w: Word)
    requires v >= 0x10000 && Negated(v) && w == Not(v) < v
    ensures Computed(gas, v) == MODULUS - 1 - Computed(gas, w) && LosesCarry(gas, v) == LosesCarry(gas, w)
  {
  }

  lemma {:induction false} ExactWhenNegated(gas: Gas, v: Word, n: nat)
    requires v < Pow2(n) && n <= 256 && v >= 0x10000 && Negated(v)
    ensures 1 <= Computed(gas, v) < Pow2(n) && Congruent(Computed(gas, v), v)
    ensures Computed(gas, v) == v <==> !LosesCarry(gas, v)
    decreases v, 0
  {
    NegatedNeedsAllBits(v, n);
    var w := Not(v);
    ExactUnlessCarryLost(gas, w, 255);
    ComplementCongruent(Computed(gas, w), w);
    ComputedOfNegated(gas, v, w);
  }

  lemma ComplementCongruent(x: int, y: int)
    requires Congruent(x, y)
    ensures Congruent(MODULUS - 1 - x, MODULUS - 1 - y)
  {
    var k: int :| x - y == 512 * k;
    assert (MODULUS - 1 - x) - (MODULUS - 1 - y) == 512 * (-k);
  }

  lemma {:induction false} ExactWhenSplit(gas: Gas, v: Word, n: nat)
    requires v < Pow2(n) && n <= 256 && v >= 0x10000 && !Negated(v) && Choice(gas, v, 9) != 0
    ensures 1 <= Computed(gas, v) < Pow2(n) && Congruent(Computed(gas, v), v)
    ensures Computed(gas, v) == v <==> !LosesCarry(gas, v)
    decreases v, 0
  {
    var bits := Choice(gas, v, 9);
    Smaller(v, bits);
    SplitCases(v, bits);
    var a, b, p, q := Upper(v, bits), Lower(v, bits), Pow2(bits), Pow2(bits - 8);
    BoundOfUpper(v, a, p, q, b, bits, n);
    ExactUnlessCarryLost(gas, a, n - bits);
    ExactUnlessCarryLost(gas, Abs(b), bits - 8);
    var a', b' := Computed(gas, a), Computed(gas, Abs(b));
    Pow2Sum(9, bits - 9);
    Pow2Values();
    Pow2Half(8);
    CombinedCongruent(a, a', p, b, b', v, Pow2(bits - 9));
    CombinedExact(v, a, a', p, q, b, b');
    CombinedBounds(v, a, a', p, q, b, b', Pow2(n - bits));
  }

  lemma {:induction false} ComputedIsWord(gas: Gas, v: Word)
    ensures 0 <= Computed(gas, v) < MODULUS
  {
    Pow2Values();
    ExactUnlessCarryLost(gas, v, 256);
  }

  lemma {:induction false} HighNumberIsWord(gas: Gas, v: Word, bits: nat)
    requires v > 0 && IsSplit(v, bits)
    ensures Upper(v, bits) < v && Pow2(bits) < MODULUS
    ensures 0 <= HighNumber(Upper(v, bits), Computed(gas, Upper(v, bits)), Pow2(bits)) < MODULUS
  {
    Smaller(v, bits);
    SplitCases(v, bits);
    Pow2Values();
    Pow2Increasing(bits, 256);
    var a, p := Upper(v, bits), Pow2(bits);
    if a > 1 {
      BoundOfUpper(v, a, p, Pow2(bits - 8), Lower(v, bits), bits, 256);
      ExactUnlessCarryLost(gas, a, 256 - bits);
      ProductBelow(Computed(gas, a), Pow2(256 - bits), p);
    }
  }

  /** Nothing that a routine computes on the way overflows. */
  lemma {:induction false} NothingOverflows(gas: Gas, v: Word, bits: nat)
    requires v >= 0x10000 && !Negated(v) && bits == Choice(gas, v, 9) != 0
    ensures Upper(v, bits) < v && Abs(Lower(v, bits)) < v && Pow2(bits) < MODULUS
    ensures var a, b := Upper(v, bits), Lower(v, bits);
      var high, low := HighNumber(a, Computed(gas, a), Pow2(bits)), Computed(gas, Abs(b));
      && 0 <= high < MODULUS && 0 <= low < MODULUS
      && (b == 0 ==> Computed(gas, v) == high)
      && (b > 0 ==> Computed(gas, v) == Add(high, low))
      && (b < 0 ==> Computed(gas, v) == Sub(high, low))
  {
    Smaller(v, bits);
    HighNumberIsWord(gas, v, bits);
    ComputedIsWord(gas, v);
    ComputedIsWord(gas, Abs(Lower(v, bits)));
    var a, b := Upper(v, bits), Lower(v, bits);
    ComputedOfSplit(gas, v, bits, a, b);
    var high, low := HighNumber(a, Computed(gas, a), Pow2(bits)), Computed(gas, Abs(b));
    InRange(high, low);
  }

  lemma {:induction false} ComputedOfSplit(gas: Gas, v: Word, bits: nat, a: Word, b: int)
    requires v >= 0x10000 && !Negated(v) && bits == Choice(gas, v, 9) != 0
    requires a == Upper(v, bits) && b == Lower(v, bits) && Abs(b) < v
    ensures Computed(gas, v) == Combined(a, Computed(gas, a), Pow2(bits), b, Computed(gas, Abs(b)))
  {
  }

  lemma InRange(x: Word, y: Word)
    ensures x + y < MODULUS ==> x + y == Add(x, y)
    ensures x - y >= 0 ==> x - y == Sub(x, y)
  {
  }

  lemma ProductBelow(x: int, t: int, p: int)
    requires 0 <= x < t && p > 0
    ensures 0 <= x * p < t * p
  {
    Minus(t, x, p);
    AtLeast(t - x, p);
    if x > 0 {
      AtLeast(x, p);
    }
  }

  /** The routine that decomposes the value at the given bits, unless its remainder is not small enough there. */
  method Decompose(gas: Gas, value: Word, bits: nat) returns (r: Option<Items>)
    requires value >= 0x10000 && 8 < bits < 256
    ensures r.Some? <==> IsSplit(value, bits)
    ensures r.Some? ==> r.value == RoutineFor(gas, value, bits)
    decreases value, 0
  {
    var gapDetector := (value / Pow2(bits - 8)) % 512;
    if gapDetector != 0xff && gapDetector != 0x100 {
      return None;
    }
    var powerOfTwo := Pow2(bits);
    var upperPart: nat, lowerPart: int := Upper(value, bits), value % powerOfTwo;
    if powerOfTwo - lowerPart < lowerPart {
      lowerPart := lowerPart - powerOfTwo;
    }
    if Abs(lowerPart) >= Pow2(bits - 8) {
      return None;
    }
    assert lowerPart == Lower(value, bits);
    Smaller(value, bits);
    var routine: Items := [];
    if lowerPart != 0 {
      routine := FindRepresentation(gas, Abs(lowerPart));
    }
    ghost var low, power := routine, [Push(bits), Push(2), Operation(EXP)];
    routine := routine + [Push(bits), Push(2), Operation(EXP)];
    if upperPart != 1 && upperPart != 0 {
      var upper := FindRepresentation(gas, upperPart);
      routine := routine + (upper + [Operation(MUL)]);
      assert low + power + (upper + [Operation(MUL)]) == low + (power + upper + [Operation(MUL)]);
    }
    assert routine == low + HighPart(gas, bits, upperPart);
    if lowerPart > 0 {
      routine := routine + [Operation(ADD)];
    } else if lowerPart < 0 {
      routine := routine + [Operation(SUB)];
    }
    return Some(routine);
  }

  /** Searches for a routine: the negated value, a decomposition for each number of bits, or the literal. */
  method FindRepresentation(gas: Gas, value: Word) returns (routine: Items)
    ensures routine == Representation(gas, value)
    decreases value, 1
  {
    if value < 0x10000 {
      return [Push(value)];
    }
    if BytesRequired(Not(value)) < BytesRequired(value) {
      NegatedIsLarge(value);
      var negated := FindRepresentation(gas, Not(value));
      return negated + [Operation(NOT)];
    }
    routine := [Push(value)];
    var bestGas := gas(routine);
    var bits := 255;
    while bits > 8
      invariant 8 <= bits <= 255
      invariant routine == RoutineFor(gas, value, Choice(gas, value, bits + 1)) && bestGas == gas(routine)
    {
      var newRoutine := Decompose(gas, value, bits);
      if newRoutine.Some? {
        var newGas := gas(newRoutine.value);
        if newGas < bestGas {
          bestGas := newGas;
          routine := newRoutine.value;
        }
      }
      bits := bits - 1;
    }
  }

  // ----- a carry that is lost -----

  function Size(item: AssemblyItem): nat
  {
    if item.Push? then 1 + (if item.value == 0 then 1 else BytesRequired(item.value)) else 1
  }

  /** The number of bytes, which is all that counts for code that is never run. */
  function TotalSize(items: Items): nat
  {
    if items == [] then 0 else TotalSize(items[..|items| - 1]) + Size(items[|items| - 1])
  }

  /** Shorter routines are cheaper. */
  ghost predicate BySize(gas: Gas)
  {
    forall a: Items, b: Items :: TotalSize(a) < TotalSize(b) ==> gas(a) < gas(b)
  }

  /** 0x2fff...f with 60 digits f. */
  const LOST: Word := 3 * 0x1_000000000000000000000000000000_000000000000000000000000000000 - 1

  lemma {:induction false} BytesOf(x: nat, n: nat)
    requires n >= 1 && Pow2(8 * (n - 1)) <= x < Pow2(8 * n)
    ensures BytesRequired(x) == n
  {
    Pow2Sum(8, 8 * (n - 1));
    Pow2Values();
    if n > 1 {
      Pow2Sum(8, 8 * (n - 2));
      BytesOf(x / 256, n - 1);
    }
  }

  lemma PowersForLost()
    ensures LOST == 3 * Pow2(240) - 1 && Pow2(240) == 128 * Pow2(233) && Pow2(240) == 256 * Pow2(232)
    ensures Pow2(248) == 256 * Pow2(240)
  {
    Pow2Values();
    Pow2Double(8, 0x100);
    Pow2Sum(240, 16);
    Pow2Sum(8, 240);
    Pow2Sum(8, 232);
    Pow2Half(232);
  }

  lemma {:induction false} LostIsShort(v: Word)
    requires v == LOST
    ensures !Negated(v) && BytesRequired(v) == 31
  {
    PowersForLost();
    Pow2Values();
    BytesOf(v, 31);
    BytesOf(Not(v), 32);
  }

  lemma NoSplitAbove(bits: nat)
    requires 240 < bits < 256
    ensures !IsSplit(LOST, bits)
  {
    PowersForLost();
    var p, d := Pow2(233), Pow2(bits - 8);
    Division(LOST, d);
    if bits == 241 {
      DivisionUnique(LOST, p, 383, p - 1);
    } else {
      Pow2Half(233);
      if bits > 242 {
        Pow2Increasing(234, bits - 8);
      }
      SmallQuotient(LOST, d, 192);
    }
  }

  lemma SmallQuotient(x: nat, d: nat, k: nat)
    requires d > 0 && x < k * d
    ensures x / d < k
  {
    Division(x, d);
    if k <= x / d {
      AtMost(k, x / d, d);
    }
  }

  lemma AtMost(k: nat, l: nat, d: nat)
    requires k <= l
    ensures k * d <= l * d
  {
  }

  /** All nine bits of the window are set. */
  lemma WindowOfOnes(p: nat, d: nat, e: nat, n: nat)
    requires d > 0 && n > 0 && p == d * e && e == 512 * n
    ensures p > 0 && (3 * p - 1) / d % 512 == 511
  {
    AtLeast(e, d);
    assert 3 * p == (3 * e) * d;
    Minus(3 * e, 1, d);
    DivisionUnique(3 * p - 1, d, 3 * e - 1, d - 1);
    assert (512 * (3 * n) - 1) % 512 == 511;
  }

  lemma NoSplitBelow(bits: nat)
    requires 8 < bits < 240
    ensures !IsSplit(LOST, bits)
  {
    PowersForLost();
    Pow2Sum(bits - 8, 248 - bits);
    Pow2Sum(9, 239 - bits);
    Pow2Values();
    Pow2Half(8);
    WindowOfOnes(Pow2(240), Pow2(bits - 8), Pow2(248 - bits), Pow2(239 - bits));
  }

  lemma {:induction false} SplitOfLost(gas: Gas, v: Word, bits: nat)
    requires v == LOST && bits == 240
    ensures IsSplit(v, bits) && Upper(v, bits) == 2 && Lower(v, bits) == -1
    ensures RoutineFor(gas, v, bits) ==
      [Push(1), Push(240), Push(2), Operation(EXP), Push(2), Operation(MUL), Operation(SUB)]
  {
    PowersForLost();
    var p, q := Pow2(bits), Pow2(bits - 8);
    DivisionUnique(v, p, 2, p - 1);
    DivisionUnique(v, q, 767, q - 1);
  }

  lemma {:induction false} SizeAtMost(items: Items, n: nat)
    requires forall i :: 0 <= i < |items| ==> Size(items[i]) <= n
    ensures TotalSize(items) <= n * |items|
  {
    if items != [] {
      SizeAtMost(items[..|items| - 1], n);
      assert n * |items| == n * (|items| - 1) + n;
    }
  }

  lemma SizeOfLiteral(v: Word)
    requires v == LOST
    ensures TotalSize([Push(v)]) == 32
  {
    LostIsShort(v);
    var item := Push(v);
    assert [item][..0] == [];
  }

  lemma {:induction false} SizeOfSplit(routine: Items)
    requires routine == [Push(1), Push(240), Push(2), Operation(EXP), Push(2), Operation(MUL), Operation(SUB)]
    ensures TotalSize(routine) <= 14
  {
    assert BytesRequired(1) == 1 && BytesRequired(2) == 1 && BytesRequired(240) == 1;
    SizeAtMost(routine, 2);
  }

  lemma ChoiceSkips(gas: Gas, v: Word, bits: nat)
    requires v >= 0x10000 && bits < 256 && !IsSplit(v, bits)
    ensures Choice(gas, v, bits) == Choice(gas, v, bits + 1)
  {
  }

  lemma ChoiceTakes(gas: Gas, v: Word, bits: nat)
    requires v >= 0x10000 && bits < 256 && IsSplit(v, bits)
    requires gas(RoutineFor(gas, v, bits)) < gas(RoutineFor(gas, v, Choice(gas, v, bits + 1)))
    ensures Choice(gas, v, bits) == bits
  {
  }

  lemma SplitIsCheaper(gas: Gas, routine: Items, v: Word)
    requires BySize(gas) && v == LOST
    requires routine == [Push(1), Push(240), Push(2), Operation(EXP), Push(2), Operation(MUL), Operation(SUB)]
    ensures gas(routine) < gas([Push(v)])
  {
    SizeOfSplit(routine);
    SizeOfLiteral(v);
    assert TotalSize(routine) < TotalSize([Push(v)]);
  }

  lemma ChoiceAt240(gas: Gas, v: Word, bits: nat)
    requires BySize(gas) && v == LOST && bits == 240 && Choice(gas, v, bits + 1) == 0
    ensures Choice(gas, v, bits) == bits
  {
    SplitOfLost(gas, v, bits);
    SplitIsCheaper(gas, RoutineFor(gas, v, bits), v);
    ChoiceTakes(gas, v, bits);
  }

  lemma {:induction false} ChoiceForLost(gas: Gas, bits: nat)
    requires BySize(gas) && 8 < bits <= 256
    ensures Choice(gas, LOST, bits) == if bits > 240 then 0 else 240
    decreases 256 - bits
  {
    if bits == 256 {
      return;
    }
    ChoiceForLost(gas, bits + 1);
    if bits == 240 {
      ChoiceAt240(gas, LOST, bits);
    } else {
      if bits > 240 {
        NoSplitAbove(bits);
      } else {
        NoSplitBelow(bits);
      }
      ChoiceSkips(gas, LOST, bits);
    }
  }

  /** The routine for 3 * 2**240 - 1 is chosen for its size, and computes 2 * 2**240 - 1. */
  lemma CarryIsLost(gas: Gas)
    requires BySize(gas)
    ensures LosesCarry(gas, LOST) && Computed(gas, LOST) == LOST - Pow2(240)
  {
    var v: Word, bits := LOST, Choice(gas, LOST, 9);
    ChoiceForLost(gas, 9);
    LostIsShort(v);
    SplitOfLost(gas, v, bits);
    PowersForLost();
  }
}
