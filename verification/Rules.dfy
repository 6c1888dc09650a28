/** The table of simplification rules, what a rule means, and why each of them is an identity. */
module Rules {
  import opened Words
  import opened Evm

  /** Equal group numbers inside one rule stand for the same equivalence class. */
  datatype Pattern =
    | Any(group: nat)
    | Constant(group: nat)
    | Literal(value: Word)
    | Apply(instruction: Instruction, arguments: seq<Pattern>)

  /** A constant computed from the constants a pattern has matched. */
  datatype Amount =
    | Known(value: Word)
    | Folded(instruction: Instruction, a: nat, b: nat, c: nat)
    | Negated(a: nat)

  datatype Template =
    | Same(group: nat)
    | Fresh(amount: Amount)
    | Build(instruction: Instruction, arguments: seq<Template>)

  datatype Rule = Rule(pattern: Pattern, action: Template)

  // ----- constant folding as the table computes it -----

  function ShiftRight(x: Word, n: nat): Word
  {
    DivShrinks(x, Pow2(n));
    x / Pow2(n)
  }

  function FoldByte(a: Word, b: Word): Word
  {
    if a >= 32 then 0 else And(ShiftRight(b, 8 * (31 - a)), 0xff)
  }

  function FoldSignExtend(a: Word, b: Word): Word
  {
    if a >= 31 then b
    else
      var testBit := a * 8 + 7;
      Pow2Values(); Pow2Increasing(testBit, 256);
      var mask: Word := Pow2(testBit) - 1;
      if (b / Pow2(testBit)) % 2 == 1 then Or(b, Not(mask)) else And(b, mask)
  }

  function Fold(i: Instruction, a: Word, b: Word, c: Word): Word
  {
    match i
    case ADD => (a + b) % MODULUS
    case MUL => (a * b) % MODULUS
    case SUB => (a - b) % MODULUS
    case DIV => if b == 0 then 0 else (DivShrinks(a, b); a / b)
    case SDIV => SignedDiv(a, b)
    case MOD => if b == 0 then 0 else a % b
    case SMOD => SignedMod(a, b)
    case EXP => Power(a, b) % MODULUS
    case NOT => Not(a)
    case LT => if a < b then 1 else 0
    case GT => if a > b then 1 else 0
    case SLT => if ToSigned(a) < ToSigned(b) then 1 else 0
    case SGT => if ToSigned(a) > ToSigned(b) then 1 else 0
    case EQ => if a == b then 1 else 0
    case ISZERO => if a == 0 then 1 else 0
    case AND => And(a, b)
    case OR => Or(a, b)
    case XOR => Xor(a, b)
    case BYTE => FoldByte(a, b)
    case ADDMOD => if c == 0 then 0 else (a + b) % c
    case MULMOD => if c == 0 then 0 else (a * b) % c
    case SIGNEXTEND => FoldSignExtend(a, b)
    case _ => 0
  }

  // ----- the table -----

  const A := Constant(1)
  const B := Constant(2)
  const C := Constant(3)
  const X := Any(4)
  const Y := Any(5)
  const ALL_ONES: Word := MODULUS - 1

  predicate IsConstantGroup(g: nat) { g < 4 }

  function Folding1(i: Instruction): Rule { Rule(Apply(i, [A]), Fresh(Folded(i, 1, 1, 1))) }
  function Folding2(i: Instruction): Rule { Rule(Apply(i, [A, B]), Fresh(Folded(i, 1, 2, 1))) }
  function Folding3(i: Instruction): Rule { Rule(Apply(i, [A, B, C]), Fresh(Folded(i, 1, 2, 3))) }
  function Law(i: Instruction, p: Pattern, q: Pattern, t: Template): Rule { Rule(Apply(i, [p, q]), t) }

  function ConstantRules(): seq<Rule>
  {
    [Folding2(ADD), Folding2(MUL), Folding2(SUB), Folding2(DIV), Folding2(SDIV), Folding2(MOD), Folding2(SMOD),
     Folding2(EXP), Folding1(NOT), Folding2(LT), Folding2(GT), Folding2(SLT), Folding2(SGT), Folding2(EQ),
     Folding1(ISZERO), Folding2(AND), Folding2(OR), Folding2(XOR), Folding2(BYTE), Folding3(ADDMOD),
     Folding3(MULMOD), Folding2(SIGNEXTEND)]
  }

  function UnitRules(): seq<Rule>
  {
    var zero, ones := Fresh(Known(0)), Fresh(Known(ALL_ONES));
    [Law(ADD, X, Literal(0), Same(4)), Law(MUL, X, Literal(1), Same(4)), Law(DIV, X, Literal(1), Same(4)),
     Law(SDIV, X, Literal(1), Same(4)), Law(OR, X, Literal(0), Same(4)), Law(XOR, X, Literal(0), Same(4)),
     Law(AND, X, Literal(ALL_ONES), Same(4)), Law(MUL, X, Literal(0), zero), Law(DIV, X, Literal(0), zero),
     Law(MOD, X, Literal(0), zero), Law(MOD, Literal(0), X, zero), Law(AND, X, Literal(0), zero),
     Law(OR, X, Literal(ALL_ONES), ones)]
  }

  function SelfRules(): seq<Rule>
  {
    var zero, one := Fresh(Known(0)), Fresh(Known(1));
    [Law(AND, X, X, Same(4)), Law(OR, X, X, Same(4)), Law(SUB, X, X, zero), Law(EQ, X, X, one),
     Law(LT, X, X, zero), Law(SLT, X, X, zero), Law(GT, X, X, zero), Law(SGT, X, X, zero), Law(MOD, X, X, zero)]
  }

  function DoubleNegation(i: Instruction): Rule
  {
    Rule(Apply(ISZERO, [Apply(ISZERO, [Apply(i, [X, Y])])]), Build(i, [Same(4), Same(5)]))
  }

  function NegationRules(): seq<Rule>
  {
    [Rule(Apply(NOT, [Apply(NOT, [X])]), Same(4)),
     DoubleNegation(EQ), DoubleNegation(LT), DoubleNegation(SLT), DoubleNegation(GT), DoubleNegation(SGT),
     Rule(Apply(ISZERO, [Apply(ISZERO, [Apply(ISZERO, [X])])]), Build(ISZERO, [Same(4)]))]
  }

  /** Moving constants to the outside; within one operation, order matters. */
  function MergeConstants(i: Instruction, inner: seq<Pattern>): Rule
  {
    Rule(Apply(i, [Apply(i, inner), B]), Build(i, [Same(4), Fresh(Folded(i, 1, 2, 1))]))
  }

  function MoveConstantOut(i: Instruction, inner: seq<Pattern>): Rule
  {
    Rule(Apply(i, [Apply(i, inner), Y]), Build(i, [Build(i, [Same(4), Same(5)]), Same(1)]))
  }

  function AssociativeRules(i: Instruction): seq<Rule>
  {
    [MergeConstants(i, [X, A]), MoveConstantOut(i, [X, A]), MergeConstants(i, [A, X]), MoveConstantOut(i, [A, X])]
  }

  function SubtractionRules(): seq<Rule>
  {
    var difference := Build(SUB, [Same(4), Same(5)]);
    [Law(SUB, X, A, Build(ADD, [Same(4), Fresh(Negated(1))])),
     Law(SUB, Apply(ADD, [X, A]), Y, Build(ADD, [difference, Same(1)])),
     Law(SUB, Apply(ADD, [A, X]), Y, Build(ADD, [difference, Same(1)])),
     Law(SUB, X, Apply(ADD, [Y, A]), Build(ADD, [difference, Fresh(Negated(1))])),
     Law(SUB, X, Apply(ADD, [A, Y]), Build(ADD, [difference, Fresh(Negated(1))]))]
  }

  /** Tried from the front; the first rule that matches is the one that is used. */
  function Table(): seq<Rule>
  {
    ConstantRules() + UnitRules() + SelfRules() + NegationRules() + AssociativeRules(ADD) + AssociativeRules(MUL)
    + AssociativeRules(AND) + AssociativeRules(OR) + AssociativeRules(XOR) + SubtractionRules()
  }

  // ----- what a rule means -----

  /** The word each group stands for. */
  type Meaning = nat -> Word

  function PatternValue(p: Pattern, env: Env, val: Meaning): Word
  {
    match p
    case Any(g) => val(g)
    case Constant(g) => val(g)
    case Literal(w) => w
    case Apply(i, ps) => Eval(env, i, seq(|ps|, k requires 0 <= k < |ps| => PatternValue(ps[k], env, val)))
  }

  function AmountValue(a: Amount, val: Meaning): Word
  {
    match a
    case Known(w) => w
    case Folded(i, a, b, c) => Fold(i, val(a), val(b), val(c))
    case Negated(a) => Sub(0, val(a))
  }

  function TemplateValue(t: Template, env: Env, val: Meaning): Word
  {
    match t
    case Same(g) => val(g)
    case Fresh(a) => AmountValue(a, val)
    case Build(i, ts) => Eval(env, i, seq(|ts|, k requires 0 <= k < |ts| => TemplateValue(ts[k], env, val)))
  }

  ghost predicate Sound(r: Rule)
  {
    forall env: Env, val: Meaning :: PatternValue(r.pattern, env, val) == TemplateValue(r.action, env, val)
  }

  // ----- every rule is an identity on 256-bit words -----

  lemma FoldByteSound(a: Word, b: Word)
    ensures Binary(BYTE, a, b) == FoldByte(a, b)
  {
    if a < 32 {
      Pow2Values();
      AndLowMask(ShiftRight(b, 8 * (31 - a)), 8, 256);
    }
  }

  lemma FoldSignExtendSound(a: Word, b: Word)
    ensures SignExtend(a, b) == FoldSignExtend(a, b)
  {
    if a < 31 {
      var t := 8 * a + 7;
      Pow2Values(); Pow2Increasing(t, 256); Pow2Increasing(t + 1, 256);
      LowMask(b, t);
      HighMask(b, t);
      TopBit(b, Pow2(t));
    }
  }

  lemma TopBit(b: nat, p: nat)
    requires p > 0
    ensures b % (2 * p) == if (b / p) % 2 == 1 then p + b % p else b % p
  {
    var q, r := b / p, b % p;
    assert b == p * q + r;
    var h := q / 2;
    if q % 2 == 1 {
      assert b == (2 * p) * h + (p + r) by { assert p * q == p * (2 * h) + p; assert p * (2 * h) == (2 * p) * h; }
      ModOf(b, 2 * p, h, p + r);
    } else {
      assert b == (2 * p) * h + r by { assert p * q == p * (2 * h); assert p * (2 * h) == (2 * p) * h; }
      ModOf(b, 2 * p, h, r);
    }
  }

  /** The table's own formulas for binary operations agree with the machine. */
  lemma FoldBinary(i: Instruction, a: Word, b: Word, c: Word)
    requires IsBinary(i)
    ensures Binary(i, a, b) == Fold(i, a, b, c)
  {
    FoldByteSound(a, b);
    FoldSignExtendSound(a, b);
  }

  lemma {:induction false} Apply1(i: Instruction, p: Pattern, env: Env, val: Meaning)
    ensures PatternValue(Apply(i, [p]), env, val) == Eval(env, i, [PatternValue(p, env, val)])
  {
    var ps := [p];
    assert seq(|ps|, k requires 0 <= k < |ps| => PatternValue(ps[k], env, val)) == [PatternValue(p, env, val)];
  }

  lemma {:induction false} Apply2(i: Instruction, p: Pattern, q: Pattern, env: Env, val: Meaning)
    ensures PatternValue(Apply(i, [p, q]), env, val) ==
            Eval(env, i, [PatternValue(p, env, val), PatternValue(q, env, val)])
  {
    var ps := [p, q];
    assert seq(|ps|, k requires 0 <= k < |ps| => PatternValue(ps[k], env, val))
        == [PatternValue(p, env, val), PatternValue(q, env, val)];
  }

  lemma {:induction false} Apply3(i: Instruction, p: Pattern, q: Pattern, r: Pattern, env: Env, val: Meaning)
    ensures PatternValue(Apply(i, [p, q, r]), env, val) ==
            Eval(env, i, [PatternValue(p, env, val), PatternValue(q, env, val), PatternValue(r, env, val)])
  {
    var ps := [p, q, r];
    assert seq(|ps|, k requires 0 <= k < |ps| => PatternValue(ps[k], env, val))
        == [PatternValue(p, env, val), PatternValue(q, env, val), PatternValue(r, env, val)];
  }

  lemma {:induction false} Build1(i: Instruction, t: Template, env: Env, val: Meaning)
    ensures TemplateValue(Build(i, [t]), env, val) == Eval(env, i, [TemplateValue(t, env, val)])
  {
    var ts := [t];
    assert seq(|ts|, k requires 0 <= k < |ts| => TemplateValue(ts[k], env, val)) == [TemplateValue(t, env, val)];
  }

  lemma {:induction false} Build2(i: Instruction, t: Template, u: Template, env: Env, val: Meaning)
    ensures TemplateValue(Build(i, [t, u]), env, val) ==
            Eval(env, i, [TemplateValue(t, env, val), TemplateValue(u, env, val)])
  {
    var ts := [t, u];
    assert seq(|ts|, k requires 0 <= k < |ts| => TemplateValue(ts[k], env, val))
        == [TemplateValue(t, env, val), TemplateValue(u, env, val)];
  }

  ghost predicate AllSound(rules: seq<Rule>)
  {
    forall k :: 0 <= k < |rules| ==> Sound(rules[k])
  }

  lemma Folding2Sound(i: Instruction)
    requires IsBinary(i)
    ensures Sound(Folding2(i))
  {
    forall env: Env, val: Meaning
      ensures PatternValue(Folding2(i).pattern, env, val) == TemplateValue(Folding2(i).action, env, val)
    {
      Apply2(i, A, B, env, val);
      FoldBinary(i, val(1), val(2), val(1));
    }
  }

  lemma Folding1Sound(i: Instruction)
    requires i == NOT || i == ISZERO
    ensures Sound(Folding1(i))
  {
    forall env: Env, val: Meaning
      ensures PatternValue(Folding1(i).pattern, env, val) == TemplateValue(Folding1(i).action, env, val)
    {
      Apply1(i, A, env, val);
    }
  }

  lemma FoldTernary(env: Env, i: Instruction, a: Word, b: Word, c: Word)
    requires i == ADDMOD || i == MULMOD
    ensures Eval(env, i, [a, b, c]) == Fold(i, a, b, c)
  {
  }

  lemma Folding3Sound(i: Instruction)
    requires i == ADDMOD || i == MULMOD
    ensures Sound(Folding3(i))
  {
    forall env: Env, val: Meaning
      ensures PatternValue(Folding3(i).pattern, env, val) == TemplateValue(Folding3(i).action, env, val)
    {
      Apply3(i, A, B, C, env, val);
      FoldTernary(env, i, val(1), val(2), val(3));
    }
  }

  lemma ConstantRulesSound()
    ensures AllSound(ConstantRules())
  {
    forall k | 0 <= k < |ConstantRules()|
      ensures Sound(ConstantRules()[k])
    {
      var i := ConstantRules()[k].pattern.instruction;
      if i == NOT || i == ISZERO {
        Folding1Sound(i);
      } else if i == ADDMOD || i == MULMOD {
        Folding3Sound(i);
      } else {
        Folding2Sound(i);
      }
    }
  }

  lemma ZeroAndOnes(x: Word)
    ensures And(x, 0) == 0 && Or(x, 0) == x && Xor(x, 0) == x
    ensures And(x, ALL_ONES) == x && Or(x, ALL_ONES) == ALL_ONES
    ensures And(x, x) == x && Or(x, x) == x
  {
    AndUnits(x);
    OrUnits(x);
    XorUnits(x);
  }

  lemma DivByOne(x: Word)
    ensures x / 1 == x && SignedDiv(x, 1) == x
  {
  }

  lemma LeavesArgument(i: Instruction, c: Word)
    requires IsBinary(i) && forall x: Word :: Binary(i, x, c) == x
    ensures Sound(Law(i, X, Literal(c), Same(4)))
  {
    forall env: Env, val: Meaning
      ensures PatternValue(Apply(i, [X, Literal(c)]), env, val) == val(4)
    {
      Apply2(i, X, Literal(c), env, val);
    }
  }

  lemma {:induction false} LeavesConstant(i: Instruction, p: Pattern, q: Pattern, w: Word)
    requires IsBinary(i) && !p.Apply? && !q.Apply?
    requires forall env: Env, val: Meaning ::
      Binary(i, PatternValue(p, env, val), PatternValue(q, env, val)) == w
    ensures Sound(Law(i, p, q, Fresh(Known(w))))
  {
    forall env: Env, val: Meaning
      ensures PatternValue(Apply(i, [p, q]), env, val) == w
    {
      Apply2(i, p, q, env, val);
      assert Binary(i, PatternValue(p, env, val), PatternValue(q, env, val)) == w;
    }
  }

  lemma LeavingRulesSound()
    ensures forall k :: 0 <= k < 7 ==> Sound(UnitRules()[k])
  {
    forall x: Word
      ensures Or(x, 0) == x && Xor(x, 0) == x && And(x, ALL_ONES) == x
    {
      ZeroAndOnes(x);
    }
    forall x: Word
      ensures x / 1 == x && SignedDiv(x, 1) == x
    {
      DivByOne(x);
    }
    LeavesArgument(ADD, 0); LeavesArgument(MUL, 1); LeavesArgument(DIV, 1); LeavesArgument(SDIV, 1);
    LeavesArgument(OR, 0); LeavesArgument(XOR, 0); LeavesArgument(AND, ALL_ONES);
  }

  lemma AbsorbingRulesSound()
    ensures forall k :: 7 <= k < |UnitRules()| ==> Sound(UnitRules()[k])
  {
    forall x: Word
      ensures And(x, 0) == 0 && Or(x, ALL_ONES) == ALL_ONES
    {
      ZeroAndOnes(x);
    }
    LeavesConstant(MUL, X, Literal(0), 0); LeavesConstant(DIV, X, Literal(0), 0);
    LeavesConstant(MOD, X, Literal(0), 0); LeavesConstant(MOD, Literal(0), X, 0);
    LeavesConstant(AND, X, Literal(0), 0); LeavesConstant(OR, X, Literal(ALL_ONES), ALL_ONES);
  }

  lemma UnitRulesSound()
    ensures AllSound(UnitRules())
  {
    LeavingRulesSound();
    AbsorbingRulesSound();
  }

  lemma SelfRulesSound()
    ensures AllSound(SelfRules())
  {
    forall k | 0 <= k < |SelfRules()|
      ensures Sound(SelfRules()[k])
    {
      var r := SelfRules()[k];
      forall env: Env, val: Meaning
        ensures PatternValue(r.pattern, env, val) == TemplateValue(r.action, env, val)
      {
        Apply2(r.pattern.instruction, X, X, env, val);
        ZeroAndOnes(val(4));
      }
    }
  }

  predicate IsComparison(i: Instruction) { i in {EQ, LT, SLT, GT, SGT} }

  lemma {:induction false} DoubleNegationValue(i: Instruction, env: Env, val: Meaning)
    requires IsComparison(i)
    ensures PatternValue(DoubleNegation(i).pattern, env, val) == Eval(env, i, [val(4), val(5)])
  {
    Apply2(i, X, Y, env, val);
    Apply1(ISZERO, Apply(i, [X, Y]), env, val);
    Apply1(ISZERO, Apply(ISZERO, [Apply(i, [X, Y])]), env, val);
    assert Binary(i, val(4), val(5)) == 0 || Binary(i, val(4), val(5)) == 1;
  }

  lemma DoubleNegationSound(i: Instruction)
    requires IsComparison(i)
    ensures Sound(DoubleNegation(i))
  {
    forall env: Env, val: Meaning
      ensures PatternValue(DoubleNegation(i).pattern, env, val) == TemplateValue(DoubleNegation(i).action, env, val)
    {
      DoubleNegationValue(i, env, val);
      Build2(i, Same(4), Same(5), env, val);
    }
  }

  lemma {:induction false} RepeatedNegation(i: Instruction, env: Env, val: Meaning)
    ensures PatternValue(Apply(i, [Apply(i, [X])]), env, val) == Eval(env, i, [Eval(env, i, [val(4)])])
    ensures PatternValue(Apply(i, [Apply(i, [Apply(i, [X])])]), env, val)
         == Eval(env, i, [Eval(env, i, [Eval(env, i, [val(4)])])])
  {
    Apply1(i, X, env, val);
    Apply1(i, Apply(i, [X]), env, val);
    Apply1(i, Apply(i, [Apply(i, [X])]), env, val);
  }

  lemma NegationRulesSound()
    ensures AllSound(NegationRules())
  {
    forall env: Env, val: Meaning
      ensures PatternValue(NegationRules()[0].pattern, env, val) == val(4)
    {
      RepeatedNegation(NOT, env, val);
    }
    assert Sound(NegationRules()[0]);
    forall env: Env, val: Meaning
      ensures PatternValue(NegationRules()[6].pattern, env, val) == TemplateValue(Build(ISZERO, [Same(4)]), env, val)
    {
      RepeatedNegation(ISZERO, env, val);
      Build1(ISZERO, Same(4), env, val);
    }
    assert Sound(NegationRules()[6]);
    DoubleNegationSound(EQ); DoubleNegationSound(LT); DoubleNegationSound(SLT);
    DoubleNegationSound(GT); DoubleNegationSound(SGT);
  }

  predicate IsAssociative(i: Instruction) { i in {ADD, MUL, AND, OR, XOR} }

  function Both(i: Instruction, a: Word, b: Word): Word
    requires IsAssociative(i)
  {
    Binary(i, a, b)
  }

  lemma Regroup(i: Instruction, x: Word, y: Word, z: Word)
    requires IsAssociative(i)
    ensures Both(i, Both(i, x, y), z) == Both(i, x, Both(i, y, z))
    ensures Both(i, x, y) == Both(i, y, x)
  {
    match i
    case ADD => AddAssociative(x, y, z);
    case MUL => MulAssociative(x, y, z); MulCommutative(x, y);
    case AND => AndLaws(x, y, z);
    case OR => OrLaws(x, y, z);
    case XOR => XorLaws(x, y, z);
  }

  lemma MoveOut(i: Instruction, x: Word, a: Word, y: Word)
    requires IsAssociative(i)
    ensures Both(i, Both(i, x, a), y) == Both(i, Both(i, x, y), a)
  {
    Regroup(i, x, a, y);
    Regroup(i, a, y, x);
    Regroup(i, x, y, a);
  }

  lemma {:induction false} NestedValue(
    i: Instruction, j: Instruction, p: Pattern, q: Pattern, outer: Pattern, env: Env, val: Meaning)
    ensures PatternValue(Apply(i, [Apply(j, [p, q]), outer]), env, val)
         == Eval(
              env, i,
              [Eval(env, j, [PatternValue(p, env, val), PatternValue(q, env, val)]), PatternValue(outer, env, val)])
    ensures PatternValue(Apply(i, [outer, Apply(j, [p, q])]), env, val)
         == Eval(
              env, i,
              [PatternValue(outer, env, val), Eval(env, j, [PatternValue(p, env, val), PatternValue(q, env, val)])])
  {
    Apply2(j, p, q, env, val);
    Apply2(i, Apply(j, [p, q]), outer, env, val);
    Apply2(i, outer, Apply(j, [p, q]), env, val);
  }

  lemma MergeConstantsSound(i: Instruction, inner: seq<Pattern>)
    requires IsAssociative(i) && IsXAndA(inner)
    ensures Sound(MergeConstants(i, inner))
  {
    var r := MergeConstants(i, inner);
    forall env: Env, val: Meaning
      ensures PatternValue(r.pattern, env, val) == TemplateValue(r.action, env, val)
    {
      NestedValue(i, i, inner[0], inner[1], B, env, val);
      AssociativeLaws(i, env, val);
    }
  }

  lemma MoveConstantOutSound(i: Instruction, inner: seq<Pattern>)
    requires IsAssociative(i) && IsXAndA(inner)
    ensures Sound(MoveConstantOut(i, inner))
  {
    var r := MoveConstantOut(i, inner);
    forall env: Env, val: Meaning
      ensures PatternValue(r.pattern, env, val) == TemplateValue(r.action, env, val)
    {
      NestedValue(i, i, inner[0], inner[1], Y, env, val);
      AssociativeLaws(i, env, val);
    }
  }

  lemma AssociativeRulesSound(i: Instruction)
    requires IsAssociative(i)
    ensures AllSound(AssociativeRules(i))
  {
    MergeConstantsSound(i, [X, A]);
    MergeConstantsSound(i, [A, X]);
    MoveConstantOutSound(i, [X, A]);
    MoveConstantOutSound(i, [A, X]);
  }

  lemma {:induction false} AssociativeLaws(i: Instruction, env: Env, val: Meaning)
    requires IsAssociative(i)
    ensures TemplateValue(Build(i, [Same(4), Fresh(Folded(i, 1, 2, 1))]), env, val)
         == Both(i, Both(i, val(4), val(1)), val(2)) == Both(i, Both(i, val(1), val(4)), val(2))
    ensures TemplateValue(Build(i, [Build(i, [Same(4), Same(5)]), Same(1)]), env, val)
         == Both(i, Both(i, val(4), val(1)), val(5)) == Both(i, Both(i, val(1), val(4)), val(5))
  {
    Build2(i, Same(4), Fresh(Folded(i, 1, 2, 1)), env, val);
    Build2(i, Same(4), Same(5), env, val);
    Build2(i, Build(i, [Same(4), Same(5)]), Same(1), env, val);
    FoldBinary(i, val(1), val(2), val(1));
    Regroup(i, val(4), val(1), val(2));
    MoveOut(i, val(4), val(1), val(5));
  }

  lemma {:induction false} SubtractionTemplates(env: Env, val: Meaning)
    ensures TemplateValue(Build(ADD, [Same(4), Fresh(Negated(1))]), env, val) == Sub(val(4), val(1))
    ensures TemplateValue(Build(ADD, [Build(SUB, [Same(4), Same(5)]), Same(1)]), env, val)
         == Sub(Add(val(4), val(1)), val(5))
    ensures TemplateValue(Build(ADD, [Build(SUB, [Same(4), Same(5)]), Fresh(Negated(1))]), env, val)
         == Sub(val(4), Add(val(5), val(1)))
  {
    var difference := Build(SUB, [Same(4), Same(5)]);
    Build2(SUB, Same(4), Same(5), env, val);
    Build2(ADD, Same(4), Fresh(Negated(1)), env, val);
    Build2(ADD, difference, Same(1), env, val);
    Build2(ADD, difference, Fresh(Negated(1)), env, val);
    SubIsAddNegated(val(4), val(1));
    AddThenSub(val(4), val(1), val(5));
    SubSum(val(4), val(5), val(1));
  }

  lemma {:induction false} SumMinusValue(inner: seq<Pattern>, env: Env, val: Meaning)
    requires IsXAndA(inner)
    ensures PatternValue(Apply(SUB, [Apply(ADD, inner), Y]), env, val) == Sub(Add(val(4), val(1)), val(5))
  {
    NestedValue(SUB, ADD, inner[0], inner[1], Y, env, val);
    assert Add(val(4), val(1)) == Add(val(1), val(4));
  }

  lemma {:induction false} MinusSumValue(inner: seq<Pattern>, env: Env, val: Meaning)
    requires IsYAndA(inner)
    ensures PatternValue(Apply(SUB, [X, Apply(ADD, inner)]), env, val) == Sub(val(4), Add(val(5), val(1)))
  {
    NestedValue(SUB, ADD, inner[0], inner[1], X, env, val);
    assert Add(val(5), val(1)) == Add(val(1), val(5));
  }

  lemma SumMinusSound(inner: seq<Pattern>)
    requires IsXAndA(inner)
    ensures Sound(Law(SUB, Apply(ADD, inner), Y, Build(ADD, [Build(SUB, [Same(4), Same(5)]), Same(1)])))
  {
    forall env: Env, val: Meaning
      ensures PatternValue(Apply(SUB, [Apply(ADD, inner), Y]), env, val)
           == TemplateValue(Build(ADD, [Build(SUB, [Same(4), Same(5)]), Same(1)]), env, val)
    {
      SumMinusValue(inner, env, val);
      SubtractionTemplates(env, val);
    }
  }

  lemma MinusSumSound(inner: seq<Pattern>)
    requires IsYAndA(inner)
    ensures Sound(Law(SUB, X, Apply(ADD, inner), Build(ADD, [Build(SUB, [Same(4), Same(5)]), Fresh(Negated(1))])))
  {
    forall env: Env, val: Meaning
      ensures PatternValue(Apply(SUB, [X, Apply(ADD, inner)]), env, val)
           == TemplateValue(Build(ADD, [Build(SUB, [Same(4), Same(5)]), Fresh(Negated(1))]), env, val)
    {
      MinusSumValue(inner, env, val);
      SubtractionTemplates(env, val);
    }
  }

  lemma SubtractConstantSound()
    ensures Sound(Law(SUB, X, A, Build(ADD, [Same(4), Fresh(Negated(1))])))
  {
    forall env: Env, val: Meaning
      ensures PatternValue(Apply(SUB, [X, A]), env, val)
           == TemplateValue(Build(ADD, [Same(4), Fresh(Negated(1))]), env, val)
    {
      Apply2(SUB, X, A, env, val);
      SubtractionTemplates(env, val);
    }
  }

  lemma SubtractionRulesSound()
    ensures AllSound(SubtractionRules())
  {
    SubtractConstantSound();
    SumMinusSound([X, A]);
    SumMinusSound([A, X]);
    MinusSumSound([Y, A]);
    MinusSumSound([A, Y]);
  }

  /** Whatever the groups stand for, both sides of every rule of the table have the same value. */
  lemma TableSound()
    ensures AllSound(Table())
  {
    ConstantRulesSound();
    UnitRulesSound();
    SelfRulesSound();
    NegationRulesSound();
    AssociativeRulesSound(ADD);
    AssociativeRulesSound(MUL);
    AssociativeRulesSound(AND);
    AssociativeRulesSound(OR);
    AssociativeRulesSound(XOR);
    SubtractionRulesSound();
  }

  // ----- rules shrink expressions, or keep their size and lower their weight -----

  /** A group stands for a class whose expression tree has 1 + sizes(group) nodes. */
  type Sizes = nat -> nat

  function Sum(ns: seq<nat>): nat
  {
    if ns == [] then 0 else ns[0] + Sum(ns[1..])
  }

  lemma Sum1(a: nat)
    ensures Sum([a]) == a
  {
    assert [a][1..] == [];
  }

  lemma Sum2(a: nat, b: nat)
    ensures Sum([a, b]) == a + b
  {
    assert [a, b][1..] == [b];
    Sum1(b);
  }

  function PatternSize(p: Pattern, sizes: Sizes): nat
  {
    match p
    case Any(g) => 1 + sizes(g)
    case Constant(g) => 1 + sizes(g)
    case Literal(_) => 1
    case Apply(_, ps) => 1 + Sum(seq(|ps|, k requires 0 <= k < |ps| => PatternSize(ps[k], sizes)))
  }

  function TemplateSize(t: Template, sizes: Sizes): nat
  {
    match t
    case Same(g) => 1 + sizes(g)
    case Fresh(_) => 1
    case Build(_, ts) => 1 + Sum(seq(|ts|, k requires 0 <= k < |ts| => TemplateSize(ts[k], sizes)))
  }

  predicate IsConstantTemplate(t: Template) { t.Fresh? || (t.Same? && IsConstantGroup(t.group)) }

  /** Subtractions weigh most; an associative operation weighs nothing once a constant is its argument. */
  function TemplateWeight(t: Template): nat
  {
    if !t.Build? then 0
    else if t.instruction == SUB then 2
    else if IsAssociative(t.instruction) && forall k :: 0 <= k < |t.arguments| ==> !IsConstantTemplate(t.arguments[k])
      then 1
    else 0
  }

  function HeadWeight(i: Instruction): nat { if i == SUB then 2 else if IsAssociative(i) then 1 else 0 }

  ghost predicate Decreases(r: Rule)
  {
    && r.pattern.Apply?
    && forall sizes: Sizes ::
         || TemplateSize(r.action, sizes) < PatternSize(r.pattern, sizes)
         || (TemplateSize(r.action, sizes) == PatternSize(r.pattern, sizes)
             && TemplateWeight(r.action) < HeadWeight(r.pattern.instruction))
  }

  ghost predicate Shrinks(r: Rule)
  {
    forall sizes: Sizes :: TemplateSize(r.action, sizes) < PatternSize(r.pattern, sizes)
  }

  lemma {:induction false} Size1(i: Instruction, p: Pattern, sizes: Sizes)
    ensures PatternSize(Apply(i, [p]), sizes) == 1 + PatternSize(p, sizes)
  {
    var ps := [p];
    assert seq(|ps|, k requires 0 <= k < |ps| => PatternSize(ps[k], sizes)) == [PatternSize(p, sizes)];
    Sum1(PatternSize(p, sizes));
  }

  lemma {:induction false} Size2(i: Instruction, p: Pattern, q: Pattern, sizes: Sizes)
    ensures PatternSize(Apply(i, [p, q]), sizes) == 1 + PatternSize(p, sizes) + PatternSize(q, sizes)
  {
    var ps := [p, q];
    assert seq(|ps|, k requires 0 <= k < |ps| => PatternSize(ps[k], sizes))
        == [PatternSize(p, sizes), PatternSize(q, sizes)];
    Sum2(PatternSize(p, sizes), PatternSize(q, sizes));
  }

  lemma {:induction false} SizeAtLeast(i: Instruction, ps: seq<Pattern>, sizes: Sizes)
    requires ps != []
    ensures PatternSize(Apply(i, ps), sizes) > PatternSize(ps[0], sizes) >= 1
  {
    var ns := seq(|ps|, k requires 0 <= k < |ps| => PatternSize(ps[k], sizes));
    assert Sum(ns) == ns[0] + Sum(ns[1..]);
  }

  lemma {:induction false} TemplateSize1(i: Instruction, t: Template, sizes: Sizes)
    ensures TemplateSize(Build(i, [t]), sizes) == 1 + TemplateSize(t, sizes)
  {
    var ts := [t];
    assert seq(|ts|, k requires 0 <= k < |ts| => TemplateSize(ts[k], sizes)) == [TemplateSize(t, sizes)];
    Sum1(TemplateSize(t, sizes));
  }

  lemma {:induction false} TemplateSize2(i: Instruction, t: Template, u: Template, sizes: Sizes)
    ensures TemplateSize(Build(i, [t, u]), sizes) == 1 + TemplateSize(t, sizes) + TemplateSize(u, sizes)
  {
    var ts := [t, u];
    assert seq(|ts|, k requires 0 <= k < |ts| => TemplateSize(ts[k], sizes))
        == [TemplateSize(t, sizes), TemplateSize(u, sizes)];
    Sum2(TemplateSize(t, sizes), TemplateSize(u, sizes));
  }

  ghost predicate AllDecrease(rules: seq<Rule>)
  {
    forall k :: 0 <= k < |rules| ==> Decreases(rules[k])
  }

  lemma FoldingDecreases(rules: seq<Rule>)
    requires forall k :: 0 <= k < |rules| ==>
      && rules[k].pattern.Apply? && rules[k].pattern.arguments != []
      && (rules[k].action.Fresh? || rules[k].action == Same(4))
    requires forall k :: 0 <= k < |rules| ==>
      rules[k].action.Fresh? || rules[k].pattern.arguments[0] == X
    ensures AllDecrease(rules)
  {
    forall k, sizes: Sizes | 0 <= k < |rules|
      ensures TemplateSize(rules[k].action, sizes) < PatternSize(rules[k].pattern, sizes)
    {
      SizeAtLeast(rules[k].pattern.instruction, rules[k].pattern.arguments, sizes);
    }
  }

  lemma NegationRulesDecrease()
    ensures AllDecrease(NegationRules())
  {
    forall k, sizes: Sizes | 0 <= k < |NegationRules()|
      ensures TemplateSize(NegationRules()[k].action, sizes) < PatternSize(NegationRules()[k].pattern, sizes)
    {
      var r := NegationRules()[k];
      Size1(r.pattern.instruction, r.pattern.arguments[0], sizes);
      var inner := r.pattern.arguments[0];
      Size1(inner.instruction, inner.arguments[0], sizes);
      if 1 <= k <= 5 {
        Size2(inner.arguments[0].instruction, X, Y, sizes);
        TemplateSize2(r.action.instruction, Same(4), Same(5), sizes);
      } else if k == 6 {
        Size1(ISZERO, X, sizes);
        TemplateSize1(ISZERO, Same(4), sizes);
      }
    }
  }

  predicate IsXAndA(inner: seq<Pattern>) { inner == [X, A] || inner == [A, X] }

  lemma MergeConstantsShrinks(i: Instruction, inner: seq<Pattern>)
    requires IsAssociative(i) && IsXAndA(inner)
    ensures Shrinks(MergeConstants(i, inner))
  {
    forall sizes: Sizes
      ensures TemplateSize(MergeConstants(i, inner).action, sizes)
        < PatternSize(MergeConstants(i, inner).pattern, sizes)
    {
      Size2(i, Apply(i, inner), B, sizes);
      Size2(i, inner[0], inner[1], sizes);
      TemplateSize2(i, Same(4), Fresh(Folded(i, 1, 2, 1)), sizes);
    }
  }

  lemma MoveConstantOutDecreases(i: Instruction, inner: seq<Pattern>)
    requires IsAssociative(i) && IsXAndA(inner)
    ensures Decreases(MoveConstantOut(i, inner))
  {
    var r := MoveConstantOut(i, inner);
    assert IsConstantTemplate(r.action.arguments[1]);
    forall sizes: Sizes
      ensures TemplateSize(r.action, sizes) == PatternSize(r.pattern, sizes)
    {
      Size2(i, Apply(i, inner), Y, sizes);
      Size2(i, inner[0], inner[1], sizes);
      TemplateSize2(i, Build(i, [Same(4), Same(5)]), Same(1), sizes);
      TemplateSize2(i, Same(4), Same(5), sizes);
    }
  }

  lemma AssociativeRulesDecrease(i: Instruction)
    requires IsAssociative(i)
    ensures AllDecrease(AssociativeRules(i))
  {
    MergeConstantsShrinks(i, [X, A]);
    MergeConstantsShrinks(i, [A, X]);
    MoveConstantOutDecreases(i, [X, A]);
    MoveConstantOutDecreases(i, [A, X]);
  }

  lemma SubtractionSizes(p: Pattern, q: Pattern, t: Template, sizes: Sizes)
    requires t == Same(1) || t == Fresh(Negated(1))
    requires (p == X && q.Apply? && IsYAndA(q.arguments)) || (p.Apply? && IsXAndA(p.arguments) && q == Y)
    ensures TemplateSize(Build(ADD, [Build(SUB, [Same(4), Same(5)]), t]), sizes)
      <= PatternSize(Apply(SUB, [p, q]), sizes)
  {
    Size2(SUB, p, q, sizes);
    if p == X {
      Size2(q.instruction, q.arguments[0], q.arguments[1], sizes);
    } else {
      Size2(p.instruction, p.arguments[0], p.arguments[1], sizes);
    }
    TemplateSize2(ADD, Build(SUB, [Same(4), Same(5)]), t, sizes);
    TemplateSize2(SUB, Same(4), Same(5), sizes);
  }

  predicate IsYAndA(inner: seq<Pattern>) { inner == [Y, A] || inner == [A, Y] }

  lemma SubtractionDecreases(p: Pattern, q: Pattern, t: Template)
    requires t == Same(1) || t == Fresh(Negated(1))
    requires (p == X && q.Apply? && IsYAndA(q.arguments)) || (p.Apply? && IsXAndA(p.arguments) && q == Y)
    ensures Decreases(Law(SUB, p, q, Build(ADD, [Build(SUB, [Same(4), Same(5)]), t])))
  {
    var r := Law(SUB, p, q, Build(ADD, [Build(SUB, [Same(4), Same(5)]), t]));
    assert IsConstantTemplate(r.action.arguments[1]);
    forall sizes: Sizes
      ensures TemplateSize(r.action, sizes) <= PatternSize(r.pattern, sizes)
    {
      SubtractionSizes(p, q, t, sizes);
    }
  }

  lemma SubtractConstantDecreases()
    ensures Decreases(Law(SUB, X, A, Build(ADD, [Same(4), Fresh(Negated(1))])))
  {
    var r := Law(SUB, X, A, Build(ADD, [Same(4), Fresh(Negated(1))]));
    assert IsConstantTemplate(r.action.arguments[1]);
    forall sizes: Sizes
      ensures TemplateSize(r.action, sizes) <= PatternSize(r.pattern, sizes)
    {
      Size2(SUB, X, A, sizes);
      TemplateSize2(ADD, Same(4), Fresh(Negated(1)), sizes);
    }
  }

  lemma SubtractionRulesDecrease()
    ensures AllDecrease(SubtractionRules())
  {
    SubtractConstantDecreases();
    SubtractionDecreases(Apply(ADD, [X, A]), Y, Same(1));
    SubtractionDecreases(Apply(ADD, [A, X]), Y, Same(1));
    SubtractionDecreases(X, Apply(ADD, [Y, A]), Fresh(Negated(1)));
    SubtractionDecreases(X, Apply(ADD, [A, Y]), Fresh(Negated(1)));
  }

  /** No rule of the table makes an expression larger; one that keeps the size lowers the weight of its head. */
  lemma TableDecreases()
    ensures AllDecrease(Table())
  {
    FoldingDecreases(ConstantRules());
    FoldingDecreases(UnitRules());
    FoldingDecreases(SelfRules());
    NegationRulesDecrease();
    AssociativeRulesDecrease(ADD);
    AssociativeRulesDecrease(MUL);
    AssociativeRulesDecrease(AND);
    AssociativeRulesDecrease(OR);
    AssociativeRulesDecrease(XOR);
    SubtractionRulesDecrease();
  }

  // ----- every group an action uses has been matched -----

  predicate MentionsOne(p: Pattern, g: nat)
  {
    match p
    case Any(h) => g == h
    case Constant(h) => g == h
    case Literal(_) => false
    case Apply(_, ps) => exists k :: 0 <= k < |ps| && MentionsOne(ps[k], g)
  }

  predicate AmountClosed(a: Amount, p: Pattern)
  {
    match a
    case Known(_) => true
    case Folded(_, a, b, c) =>
      && MentionsOne(p, a) && MentionsOne(p, b) && MentionsOne(p, c)
      && IsConstantGroup(a) && IsConstantGroup(b) && IsConstantGroup(c)
    case Negated(a) => MentionsOne(p, a) && IsConstantGroup(a)
  }

  predicate Closed(t: Template, p: Pattern)
  {
    match t
    case Same(g) => MentionsOne(p, g)
    case Fresh(a) => AmountClosed(a, p)
    case Build(i, ts) =>
      Info(i).args == |ts| && IsRuleHead(i) && forall k :: 0 <= k < |ts| ==> Closed(ts[k], p)
  }

  predicate IsRuleHead(i: Instruction) { IsBinary(i) || i in {NOT, ISZERO, ADDMOD, MULMOD} }

  predicate Regular(p: Pattern)
  {
    match p
    case Any(g) => !IsConstantGroup(g)
    case Constant(g) => IsConstantGroup(g)
    case Literal(_) => true
    case Apply(i, ps) => Info(i).args == |ps| && IsRuleHead(i) && forall k :: 0 <= k < |ps| ==> Regular(ps[k])
  }

  predicate WellFormed(r: Rule) { r.pattern.Apply? && Regular(r.pattern) && Closed(r.action, r.pattern) }

  ghost predicate AllWellFormed(rules: seq<Rule>)
  {
    forall k :: 0 <= k < |rules| ==> WellFormed(rules[k])
  }

  lemma {:induction false} Mentions2(i: Instruction, p: Pattern, q: Pattern)
    ensures forall g :: MentionsOne(Apply(i, [p, q]), g) <==> MentionsOne(p, g) || MentionsOne(q, g)
  {
    assert [p, q][0] == p && [p, q][1] == q;
  }

  lemma {:induction false} Mentions1(i: Instruction, p: Pattern)
    ensures forall g :: MentionsOne(Apply(i, [p]), g) <==> MentionsOne(p, g)
  {
    assert [p][0] == p;
  }

  lemma {:induction false} Mentions3(i: Instruction, p: Pattern, q: Pattern, r: Pattern)
    ensures forall g :: MentionsOne(Apply(i, [p, q, r]), g) <==>
      MentionsOne(p, g) || MentionsOne(q, g) || MentionsOne(r, g)
  {
    assert [p, q, r][0] == p && [p, q, r][1] == q && [p, q, r][2] == r;
  }

  lemma Folding1WellFormed(i: Instruction)
    requires IsRuleHead(i) && Info(i).args == 1
    ensures WellFormed(Folding1(i))
  {
    Mentions1(i, A);
  }

  lemma Folding2WellFormed(i: Instruction)
    requires IsRuleHead(i) && Info(i).args == 2
    ensures WellFormed(Folding2(i))
  {
    Mentions2(i, A, B);
  }

  lemma Folding3WellFormed(i: Instruction)
    requires IsRuleHead(i) && Info(i).args == 3
    ensures WellFormed(Folding3(i))
  {
    Mentions3(i, A, B, C);
  }

  lemma ConstantRulesWellFormed()
    ensures AllWellFormed(ConstantRules())
  {
    forall k | 0 <= k < |ConstantRules()|
      ensures WellFormed(ConstantRules()[k])
    {
      var i := ConstantRules()[k].pattern.instruction;
      if Info(i).args == 1 {
        Folding1WellFormed(i);
      } else if Info(i).args == 2 {
        Folding2WellFormed(i);
      } else {
        Folding3WellFormed(i);
      }
    }
  }

  lemma LawsWellFormed()
    ensures AllWellFormed(UnitRules()) && AllWellFormed(SelfRules())
  {
    forall k | 0 <= k < |UnitRules()|
      ensures WellFormed(UnitRules()[k])
    {
      var ps := UnitRules()[k].pattern.arguments;
      Mentions2(UnitRules()[k].pattern.instruction, ps[0], ps[1]);
    }
    forall k | 0 <= k < |SelfRules()|
      ensures WellFormed(SelfRules()[k])
    {
      Mentions2(SelfRules()[k].pattern.instruction, X, X);
    }
  }

  lemma DoubleNegationWellFormed(i: Instruction)
    requires IsComparison(i)
    ensures WellFormed(DoubleNegation(i))
  {
    var inner := Apply(i, [X, Y]);
    Mentions2(i, X, Y);
    Mentions1(ISZERO, inner);
    Mentions1(ISZERO, Apply(ISZERO, [inner]));
    assert Regular(inner);
    assert Regular(Apply(ISZERO, [inner]));
  }

  lemma NegationRulesWellFormed()
    ensures AllWellFormed(NegationRules())
  {
    DoubleNegationWellFormed(EQ); DoubleNegationWellFormed(LT); DoubleNegationWellFormed(SLT);
    DoubleNegationWellFormed(GT); DoubleNegationWellFormed(SGT);
    Mentions1(NOT, X);
    Mentions1(NOT, Apply(NOT, [X]));
    assert WellFormed(NegationRules()[0]);
    Mentions1(ISZERO, X);
    Mentions1(ISZERO, Apply(ISZERO, [X]));
    Mentions1(ISZERO, Apply(ISZERO, [Apply(ISZERO, [X])]));
    assert Regular(Apply(ISZERO, [Apply(ISZERO, [X])]));
    assert WellFormed(NegationRules()[6]);
  }

  lemma AssociativeRulesWellFormed(i: Instruction)
    requires IsAssociative(i)
    ensures AllWellFormed(AssociativeRules(i))
  {
    forall k | 0 <= k < |AssociativeRules(i)|
      ensures WellFormed(AssociativeRules(i)[k])
    {
      var p := AssociativeRules(i)[k].pattern;
      Mentions2(i, p.arguments[0], p.arguments[1]);
      Mentions2(i, p.arguments[0].arguments[0], p.arguments[0].arguments[1]);
    }
  }

  lemma SubtractionRulesWellFormed()
    ensures AllWellFormed(SubtractionRules())
  {
    forall k | 0 <= k < |SubtractionRules()|
      ensures WellFormed(SubtractionRules()[k])
    {
      var p := SubtractionRules()[k].pattern;
      Mentions2(SUB, p.arguments[0], p.arguments[1]);
      Mentions2(ADD, X, A);
      Mentions2(ADD, A, X);
      Mentions2(ADD, Y, A);
      Mentions2(ADD, A, Y);
    }
  }

  lemma TableWellFormed()
    ensures AllWellFormed(Table())
  {
    ConstantRulesWellFormed();
    LawsWellFormed();
    NegationRulesWellFormed();
    AssociativeRulesWellFormed(ADD);
    AssociativeRulesWellFormed(MUL);
    AssociativeRulesWellFormed(AND);
    AssociativeRulesWellFormed(OR);
    AssociativeRulesWellFormed(XOR);
    SubtractionRulesWellFormed();
  }

  // ----- the order of the table matters -----

  /** The rule before the k-th differs only in asking for a constant as its second argument. */
  ghost predicate AfterConstantCase(rules: seq<Rule>, k: nat)
    requires k < |rules|
  {
    && 0 < k
    && rules[k].pattern.Apply? && |rules[k].pattern.arguments| == 2
    && rules[k].pattern.arguments[0].Apply? && !MentionsOne(rules[k].pattern.arguments[0], B.group)
    && rules[k].pattern.arguments[1] == Y
    && rules[k - 1].pattern == Apply(rules[k].pattern.instruction, [rules[k].pattern.arguments[0], B])
  }

  ghost predicate OrderedFor(rules: seq<Rule>, k: nat)
    requires k < |rules|
  {
    rules[k].pattern.Apply? && IsAssociative(rules[k].pattern.instruction) ==>
      Shrinks(rules[k]) || AfterConstantCase(rules, k)
  }

  ghost predicate Ordered(rules: seq<Rule>)
  {
    forall k :: 0 <= k < |rules| ==> OrderedFor(rules, k)
  }

  lemma OrderedAppend(rules: seq<Rule>, more: seq<Rule>)
    requires Ordered(rules) && Ordered(more)
    ensures Ordered(rules + more)
  {
    forall k | 0 <= k < |rules + more|
      ensures OrderedFor(rules + more, k)
    {
      if k < |rules| {
        assert OrderedFor(rules, k);
      } else {
        assert OrderedFor(more, k - |rules|);
      }
    }
  }

  lemma ShrinkingIsOrdered(rules: seq<Rule>)
    requires forall k :: 0 <= k < |rules| ==> rules[k].pattern.Apply?
    requires forall k :: 0 <= k < |rules| && IsAssociative(rules[k].pattern.instruction) ==>
      && rules[k].pattern.arguments != []
      && (rules[k].action.Fresh? || (rules[k].action == Same(4) && rules[k].pattern.arguments[0] == X))
    ensures Ordered(rules)
  {
    forall k | 0 <= k < |rules| && rules[k].pattern.Apply? && IsAssociative(rules[k].pattern.instruction)
      ensures Shrinks(rules[k])
    {
      forall sizes: Sizes
        ensures TemplateSize(rules[k].action, sizes) < PatternSize(rules[k].pattern, sizes)
      {
        SizeAtLeast(rules[k].pattern.instruction, rules[k].pattern.arguments, sizes);
      }
    }
  }

  lemma AssociativeRulesOrdered(i: Instruction)
    requires IsAssociative(i)
    ensures Ordered(AssociativeRules(i))
  {
    MergeConstantsShrinks(i, [X, A]);
    MergeConstantsShrinks(i, [A, X]);
    var rules := AssociativeRules(i);
    forall k | 0 <= k < 4
      ensures OrderedFor(rules, k)
    {
      if k % 2 == 1 {
        Mentions2(i, X, A);
        Mentions2(i, A, X);
        assert AfterConstantCase(rules, k);
      }
    }
  }

  /** A rule that only moves a constant is tried right after the rule that merges two constants. */
  lemma TableOrdered()
    ensures Ordered(Table())
  {
    ShrinkingIsOrdered(ConstantRules());
    ShrinkingIsOrdered(UnitRules());
    ShrinkingIsOrdered(SelfRules());
    ShrinkingIsOrdered(NegationRules());
    ShrinkingIsOrdered(SubtractionRules());
    AssociativeRulesOrdered(ADD);
    AssociativeRulesOrdered(MUL);
    AssociativeRulesOrdered(AND);
    AssociativeRulesOrdered(OR);
    AssociativeRulesOrdered(XOR);
    var t := ConstantRules() + UnitRules();
    OrderedAppend(ConstantRules(), UnitRules());
    OrderedAppend(t, SelfRules()); t := t + SelfRules();
    OrderedAppend(t, NegationRules()); t := t + NegationRules();
    OrderedAppend(t, AssociativeRules(ADD)); t := t + AssociativeRules(ADD);
    OrderedAppend(t, AssociativeRules(MUL)); t := t + AssociativeRules(MUL);
    OrderedAppend(t, AssociativeRules(AND)); t := t + AssociativeRules(AND);
    OrderedAppend(t, AssociativeRules(OR)); t := t + AssociativeRules(OR);
    OrderedAppend(t, AssociativeRules(XOR)); t := t + AssociativeRules(XOR);
    OrderedAppend(t, SubtractionRules());
  }

  /** Everything the optimiser needs to know about the k-th rule of the table. */
  lemma RuleFacts(k: nat)
    requires k < |Table()|
    ensures WellFormed(Table()[k]) && Sound(Table()[k]) && Decreases(Table()[k]) && OrderedFor(Table(), k)
  {
    TableSound();
    TableWellFormed();
    TableDecreases();
    TableOrdered();
  }
}
