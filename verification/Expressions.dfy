/**
 * Expressions over equivalence classes: the word a class stands for, the size of its expression tree,
 * and matching a class against a rule pattern. Everything here is about values; the tables that grow
 * are in module ExpressionClasses.
 */
module Expressions {
  import opened Results
  import opened Words
  import opened Evm
  import opened SemanticInformation
  import opened Rules
  import opened Classes

  /** sequenceNumber orders accesses to storage and memory; it is zero for everything else. */
  datatype Expression = Expression(item: AssemblyItem, arguments: seq<Id>, sequenceNumber: nat)

  /**
   * The unknowns: the environment, the initial stack, what the store holds at each sequence number, and what the
   * instructions have left on the stack that may leave something else each time, by class. Queries of classes from
   * the era on are answered by the environment; those before it have been answered by an earlier one.
   */
  datatype Valuation =
    Valuation(env: Env, leaf: int -> Word, history: nat -> Store, outcome: Id -> Word, era: nat)

  predicate ValidExpression(e: Expression, bound: nat)
  {
    && (forall k :: 0 <= k < |e.arguments| ==> e.arguments[k] < bound)
    && |e.arguments| == (if e.item.Operation? then Info(e.item.instruction).args else 0)
  }

  /** Representatives refer only to classes created before them. */
  predicate ValidClasses(reps: seq<Expression>)
  {
    forall c :: 0 <= c < |reps| ==> ValidExpression(reps[c], c)
  }

  predicate IsLoad(i: Instruction) { i == SLOAD || i == MLOAD }

  /** The result is no function of the arguments and the environment; each one has a class of its own. */
  predicate IsIndeterminate(item: AssemblyItem)
  {
    item.Operation? && (IsCall(item.instruction) || IsCounter(item.instruction))
  }

  predicate IsQueryItem(item: AssemblyItem) { item.Operation? && IsQuery(item.instruction) }

  /** The value of class c is one that was got before, and not computed from its arguments. */
  predicate IsRecorded(item: AssemblyItem, c: Id, era: nat) { IsIndeterminate(item) || (IsQueryItem(item) && c < era) }

  // ----- which items may have classes -----

  /** Whether counters are let in, and whether queries are. */
  datatype Admission = Admission(counters: bool, queries: bool)

  const NEITHER := Admission(false, false)

  /** What straight-line code can compute, the unknown elements of the stack, and calls, which are never repeated. */
  predicate IsOrdinary(item: AssemblyItem)
  {
    Runnable(item) || item.UndefinedItem? || (item.Operation? && IsCall(item.instruction))
  }

  predicate Admitted(item: AssemblyItem, a: Admission)
  {
    (a.counters || IsOrdinary(item)) && (a.queries || !IsQueryItem(item))
  }

  predicate AllAdmitted(reps: seq<Expression>, a: Admission)
  {
    forall c :: 0 <= c < |reps| ==> Admitted(reps[c].item, a)
  }

  lemma RuleHeadsDeterministic(i: Instruction)
    requires IsRuleHead(i)
    ensures IsDeterministic(Operation(i)) && IsPlain(i)
  {
  }

  lemma RuleHeadsAdmitted(i: Instruction, a: Admission)
    requires IsRuleHead(i)
    ensures Admitted(Operation(i), a)
  {
    RuleHeadsDeterministic(i);
  }

  ghost function ItemValue(item: AssemblyItem, n: nat, args: seq<Word>, v: Valuation): Word
  {
    match item
    case UndefinedItem(d) => v.leaf(d)
    case Push(w) => w
    case Operation(i) => if IsLoad(i) && |args| == 1 then Load(i, v.history(n), args[0]) else Eval(v.env, i, args)
    case _ => v.env.pushed(item)
  }

  ghost function ClassValue(reps: seq<Expression>, c: Id, v: Valuation): Word
    requires ValidClasses(reps) && c < |reps|
    decreases c
  {
    var e := reps[c];
    assert ValidExpression(e, c);
    if IsRecorded(e.item, c, v.era) then v.outcome(c)
    else
      ItemValue(e.item, e.sequenceNumber,
        seq(|e.arguments|, k requires 0 <= k < |e.arguments| => ClassValue(reps, e.arguments[k], v)), v)
  }

  ghost function ArgumentValues(reps: seq<Expression>, args: seq<Id>, v: Valuation): (r: seq<Word>)
    requires ValidClasses(reps) && forall k :: 0 <= k < |args| ==> args[k] < |reps|
    ensures |r| == |args|
  {
    seq(|args|, k requires 0 <= k < |args| => ClassValue(reps, args[k], v))
  }

  ghost function ExpressionValue(reps: seq<Expression>, e: Expression, v: Valuation): Word
    requires ValidClasses(reps) && ValidExpression(e, |reps|)
  {
    ItemValue(e.item, e.sequenceNumber, ArgumentValues(reps, e.arguments, v), v)
  }

  lemma {:induction false} ClassValueIs(reps: seq<Expression>, c: Id, v: Valuation)
    requires ValidClasses(reps) && c < |reps| && !IsRecorded(reps[c].item, c, v.era)
    ensures ValidExpression(reps[c], |reps|)
    ensures ClassValue(reps, c, v) == ExpressionValue(reps, reps[c], v)
  {
    var e := reps[c];
    assert ValidExpression(e, c);
    assert ArgumentValues(reps, e.arguments, v)
        == seq(|e.arguments|, k requires 0 <= k < |e.arguments| => ClassValue(reps, e.arguments[k], v));
  }

  // ----- size of the expression tree, and the latest access it depends on -----

  function ClassSize(reps: seq<Expression>, c: Id): (n: nat)
    requires ValidClasses(reps) && c < |reps|
    ensures n >= 1
    decreases c
  {
    var e := reps[c];
    assert ValidExpression(e, c);
    1 + Sum(seq(|e.arguments|, k requires 0 <= k < |e.arguments| => ClassSize(reps, e.arguments[k])))
  }

  function ArgumentSizes(reps: seq<Expression>, args: seq<Id>): (r: seq<nat>)
    requires ValidClasses(reps) && forall k :: 0 <= k < |args| ==> args[k] < |reps|
    ensures |r| == |args|
  {
    seq(|args|, k requires 0 <= k < |args| => ClassSize(reps, args[k]))
  }

  function ExpressionSize(reps: seq<Expression>, e: Expression): nat
    requires ValidClasses(reps) && ValidExpression(e, |reps|)
  {
    1 + Sum(ArgumentSizes(reps, e.arguments))
  }

  lemma {:induction false} ClassSizeIs(reps: seq<Expression>, c: Id)
    requires ValidClasses(reps) && c < |reps|
    ensures ValidExpression(reps[c], |reps|)
    ensures ClassSize(reps, c) == ExpressionSize(reps, reps[c])
  {
    var e := reps[c];
    assert ValidExpression(e, c);
    assert ArgumentSizes(reps, e.arguments)
        == seq(|e.arguments|, k requires 0 <= k < |e.arguments| => ClassSize(reps, e.arguments[k]));
  }

  /** Something that leaves one word on the stack; loads, and nothing else, have sequence numbers, and these are odd. */
  predicate IsValueAt(item: AssemblyItem, n: nat)
  {
    && !item.Tag? && (item.Operation? ==> Info(item.instruction).ret == 1)
    && (if item.Operation? && IsLoad(item.instruction) then n % 2 == 1 else n == 0)
  }

  predicate IsValue(e: Expression) { IsValueAt(e.item, e.sequenceNumber) }

  /** Class c is built from values, and none of its loads comes after n. */
  predicate SettledBy(reps: seq<Expression>, c: Id, n: nat)
    requires ValidClasses(reps) && c < |reps|
    decreases c
  {
    var e := reps[c];
    assert ValidExpression(e, c);
    IsValue(e) && e.sequenceNumber <= n && forall k :: 0 <= k < |e.arguments| ==> SettledBy(reps, e.arguments[k], n)
  }

  predicate ExpressionSettledBy(reps: seq<Expression>, e: Expression, n: nat)
    requires ValidClasses(reps) && ValidExpression(e, |reps|)
  {
    IsValue(e) && e.sequenceNumber <= n && forall k :: 0 <= k < |e.arguments| ==> SettledBy(reps, e.arguments[k], n)
  }

  lemma {:induction false} SettledByIs(reps: seq<Expression>, c: Id, n: nat)
    requires ValidClasses(reps) && c < |reps|
    ensures ValidExpression(reps[c], |reps|)
    ensures SettledBy(reps, c, n) == ExpressionSettledBy(reps, reps[c], n)
  {
    assert ValidExpression(reps[c], c);
  }

  lemma {:induction false} SettledLater(reps: seq<Expression>, c: Id, n: nat, m: nat)
    requires ValidClasses(reps) && c < |reps|
    requires SettledBy(reps, c, n) && n <= m
    ensures SettledBy(reps, c, m)
    decreases c
  {
    assert ValidExpression(reps[c], c);
    forall k | 0 <= k < |reps[c].arguments|
      ensures SettledBy(reps, reps[c].arguments[k], m)
    {
      SettledLater(reps, reps[c].arguments[k], n, m);
    }
  }

  ghost predicate SameUpTo(v: Valuation, v': Valuation, n: nat)
  {
    && v.env == v'.env && v.leaf == v'.leaf && v.outcome == v'.outcome && v.era == v'.era
    && forall m :: 0 <= m <= n ==> v.history(m) == v'.history(m)
  }

  lemma SameItemValue(item: AssemblyItem, m: nat, args: seq<Word>, v: Valuation, v': Valuation, n: nat)
    requires m <= n && SameUpTo(v, v', n)
    ensures ItemValue(item, m, args, v) == ItemValue(item, m, args, v')
  {
  }

  /** A settled class does not look at the store after its last access. */
  lemma {:induction false} SettledValue(reps: seq<Expression>, c: Id, n: nat, v: Valuation, v': Valuation)
    requires ValidClasses(reps) && c < |reps| && SettledBy(reps, c, n)
    requires SameUpTo(v, v', n)
    ensures ClassValue(reps, c, v) == ClassValue(reps, c, v')
    decreases c
  {
    var e := reps[c];
    assert ValidExpression(e, c);
    forall k | 0 <= k < |e.arguments|
      ensures ClassValue(reps, e.arguments[k], v) == ClassValue(reps, e.arguments[k], v')
    {
      SettledValue(reps, e.arguments[k], n, v, v');
    }
    if !IsRecorded(e.item, c, v.era) {
      ClassValueIs(reps, c, v);
      ClassValueIs(reps, c, v');
      var args := ArgumentValues(reps, e.arguments, v);
      assert args == ArgumentValues(reps, e.arguments, v');
      SameItemValue(e.item, e.sequenceNumber, args, v, v', n);
    }
  }

  /** A class does not depend on the outcome of instructions that come after it. */
  lemma {:induction false} EarlierValue(reps: seq<Expression>, c: Id, v: Valuation, v': Valuation)
    requires ValidClasses(reps) && c < |reps|
    requires v' == v.(outcome := v'.outcome) && forall d :: 0 <= d <= c ==> v.outcome(d) == v'.outcome(d)
    ensures ClassValue(reps, c, v) == ClassValue(reps, c, v')
    decreases c
  {
    var e := reps[c];
    assert ValidExpression(e, c);
    forall k | 0 <= k < |e.arguments|
      ensures ClassValue(reps, e.arguments[k], v) == ClassValue(reps, e.arguments[k], v')
    {
      EarlierValue(reps, e.arguments[k], v, v');
    }
    if !IsRecorded(e.item, c, v.era) {
      ClassValueIs(reps, c, v);
      ClassValueIs(reps, c, v');
      assert ArgumentValues(reps, e.arguments, v) == ArgumentValues(reps, e.arguments, v');
    }
  }

  // ----- growing the list of representatives changes nothing about the existing classes -----

  lemma {:induction false} PrefixClass(reps: seq<Expression>, reps': seq<Expression>, c: Id)
    requires ValidClasses(reps) && ValidClasses(reps') && reps <= reps' && c < |reps|
    ensures forall v: Valuation :: ClassValue(reps, c, v) == ClassValue(reps', c, v)
    ensures ClassSize(reps, c) == ClassSize(reps', c)
    ensures forall n: nat :: SettledBy(reps, c, n) == SettledBy(reps', c, n)
    decreases c
  {
    var e := reps[c];
    assert ValidExpression(e, c);
    assert reps'[c] == e;
    forall k | 0 <= k < |e.arguments|
      ensures forall v: Valuation :: ClassValue(reps, e.arguments[k], v) == ClassValue(reps', e.arguments[k], v)
      ensures ClassSize(reps, e.arguments[k]) == ClassSize(reps', e.arguments[k])
      ensures forall n: nat :: SettledBy(reps, e.arguments[k], n) == SettledBy(reps', e.arguments[k], n)
    {
      PrefixClass(reps, reps', e.arguments[k]);
    }
    PrefixParts(reps, reps', e);
    forall v: Valuation
      ensures ClassValue(reps, c, v) == ClassValue(reps', c, v)
    {
      if !IsRecorded(e.item, c, v.era) {
        ClassValueIs(reps, c, v);
        ClassValueIs(reps', c, v);
      }
    }
    ClassSizeIs(reps, c);
    ClassSizeIs(reps', c);
  }

  lemma {:induction false} PrefixParts(reps: seq<Expression>, reps': seq<Expression>, e: Expression)
    requires ValidClasses(reps) && ValidClasses(reps') && reps <= reps' && ValidExpression(e, |reps|)
    requires forall k :: 0 <= k < |e.arguments| ==>
      && (forall v: Valuation :: ClassValue(reps, e.arguments[k], v) == ClassValue(reps', e.arguments[k], v))
      && ClassSize(reps, e.arguments[k]) == ClassSize(reps', e.arguments[k])
    ensures forall v: Valuation :: ExpressionValue(reps, e, v) == ExpressionValue(reps', e, v)
    ensures ExpressionSize(reps, e) == ExpressionSize(reps', e)
  {
    forall v: Valuation
      ensures ExpressionValue(reps, e, v) == ExpressionValue(reps', e, v)
    {
      assert ArgumentValues(reps, e.arguments, v) == ArgumentValues(reps', e.arguments, v);
    }
    assert ArgumentSizes(reps, e.arguments) == ArgumentSizes(reps', e.arguments);
  }

  lemma PrefixExpression(reps: seq<Expression>, reps': seq<Expression>, e: Expression)
    requires ValidClasses(reps) && ValidClasses(reps') && reps <= reps' && ValidExpression(e, |reps|)
    ensures forall v: Valuation :: ExpressionValue(reps, e, v) == ExpressionValue(reps', e, v)
    ensures ExpressionSize(reps, e) == ExpressionSize(reps', e)
    ensures forall n: nat :: ExpressionSettledBy(reps, e, n) == ExpressionSettledBy(reps', e, n)
  {
    forall k | 0 <= k < |e.arguments|
      ensures forall v: Valuation :: ClassValue(reps, e.arguments[k], v) == ClassValue(reps', e.arguments[k], v)
      ensures ClassSize(reps, e.arguments[k]) == ClassSize(reps', e.arguments[k])
      ensures forall n: nat :: SettledBy(reps, e.arguments[k], n) == SettledBy(reps', e.arguments[k], n)
    {
      PrefixClass(reps, reps', e.arguments[k]);
    }
    PrefixParts(reps, reps', e);
  }

  // ----- what the tables of expressions promise -----

  predicate Simplifiable(item: AssemblyItem) { item.Operation? && IsRuleHead(item.instruction) }

  ghost predicate Agrees(reps: seq<Expression>, e: Expression, c: Id)
    requires ValidClasses(reps) && ValidExpression(e, |reps|) && c < |reps|
  {
    forall v: Valuation :: ExpressionValue(reps, e, v) == ClassValue(reps, c, v)
  }

  /**
   * Class c stands for e under every valuation (if e has a value that only depends on its arguments), and is no more
   * complicated than e.
   */
  ghost predicate Represents(reps: seq<Expression>, e: Expression, c: Id)
    requires ValidClasses(reps)
  {
    && ValidExpression(e, |reps|) && c < |reps|
    && (IsDeterministic(e.item) ==> Agrees(reps, e, c))
    && ClassSize(reps, c) <= ExpressionSize(reps, e)
    && (forall n: nat :: ExpressionSettledBy(reps, e, n) ==> SettledBy(reps, c, n))
    && (!Simplifiable(e.item) ==> reps[c] == e)
  }

  ghost predicate Consistent(reps: seq<Expression>, expressions: map<Expression, Id>)
  {
    && ValidClasses(reps)
    && forall e :: e in expressions ==> Represents(reps, e, expressions[e])
  }

  lemma RepresentsItself(reps: seq<Expression>, c: Id)
    requires ValidClasses(reps) && c < |reps|
    ensures Represents(reps, reps[c], c)
  {
    SettledByIs(reps, c, 0);
    ClassSizeIs(reps, c);
    forall v: Valuation | IsDeterministic(reps[c].item)
      ensures ExpressionValue(reps, reps[c], v) == ClassValue(reps, c, v)
    {
      ClassValueIs(reps, c, v);
    }
    forall n: nat
      ensures SettledBy(reps, c, n) == ExpressionSettledBy(reps, reps[c], n)
    {
      SettledByIs(reps, c, n);
    }
  }

  lemma StillRepresents(reps: seq<Expression>, reps': seq<Expression>, e: Expression, c: Id)
    requires ValidClasses(reps) && ValidClasses(reps') && reps <= reps' && Represents(reps, e, c)
    ensures Represents(reps', e, c)
  {
    PrefixClass(reps, reps', c);
    PrefixExpression(reps, reps', e);
    forall v: Valuation | IsDeterministic(e.item)
      ensures ExpressionValue(reps', e, v) == ClassValue(reps', c, v)
    {
      assert ExpressionValue(reps, e, v) == ClassValue(reps, c, v);
    }
  }

  lemma StillConsistent(reps: seq<Expression>, reps': seq<Expression>, expressions: map<Expression, Id>)
    requires Consistent(reps, expressions) && ValidClasses(reps') && reps <= reps'
    ensures Consistent(reps', expressions)
  {
    forall e | e in expressions
      ensures Represents(reps', e, expressions[e])
    {
      StillRepresents(reps, reps', e, expressions[e]);
    }
  }

  // ----- arguments of commutative operations are sorted -----

  function Swapped(args: seq<Id>): seq<Id>
    requires |args| == 2
  {
    [args[1], args[0]]
  }

  lemma CommutativeBinary(i: Instruction, a: Word, b: Word)
    requires IsCommutativeOperation(Operation(i))
    ensures Binary(i, a, b) == Binary(i, b, a)
  {
    if i != EQ {
      Regroup(i, a, b, a);
    }
  }

  lemma SwappedValue(reps: seq<Expression>, e: Expression, e': Expression, v: Valuation)
    requires ValidClasses(reps) && ValidExpression(e, |reps|)
    requires IsCommutativeOperation(e.item) && |e.arguments| == 2
    requires e' == e.(arguments := Swapped(e.arguments)) && ValidExpression(e', |reps|)
    ensures ExpressionValue(reps, e, v) == ExpressionValue(reps, e', v)
  {
    var x, y := ClassValue(reps, e.arguments[0], v), ClassValue(reps, e.arguments[1], v);
    HeadValue(reps, e, v);
    HeadValue(reps, e', v);
    assert ArgumentValues(reps, e.arguments, v) == [x, y];
    assert ArgumentValues(reps, e'.arguments, v) == [y, x];
    CommutativeBinary(e.item.instruction, x, y);
  }

  lemma {:induction false} BothSettled(reps: seq<Expression>, e: Expression, a: Id, b: Id, n: nat)
    requires ValidClasses(reps) && ValidExpression(e, |reps|) && e.arguments == [a, b]
    ensures a < |reps| && b < |reps|
    ensures ExpressionSettledBy(reps, e, n) <==>
      IsValueAt(e.item, e.sequenceNumber) && e.sequenceNumber <= n && SettledBy(reps, a, n) && SettledBy(reps, b, n)
  {
    assert e.arguments[0] == a && e.arguments[1] == b;
  }

  lemma {:induction false} SwappedSettled(reps: seq<Expression>, e: Expression, e': Expression, n: nat)
    requires ValidClasses(reps) && ValidExpression(e, |reps|) && |e.arguments| == 2
    requires e' == e.(arguments := Swapped(e.arguments)) && ValidExpression(e', |reps|)
    ensures ExpressionSettledBy(reps, e, n) == ExpressionSettledBy(reps, e', n)
  {
    var a, b := e.arguments[0], e.arguments[1];
    assert e.arguments == [a, b];
    BothSettled(reps, e, a, b, n);
    BothSettled(reps, e', b, a, n);
  }

  lemma SwappedSize(reps: seq<Expression>, e: Expression, e': Expression)
    requires ValidClasses(reps) && ValidExpression(e, |reps|) && |e.arguments| == 2
    requires e' == e.(arguments := Swapped(e.arguments)) && ValidExpression(e', |reps|)
    ensures ExpressionSize(reps, e) == ExpressionSize(reps, e')
  {
    var a, b := e.arguments[0], e.arguments[1];
    assert ArgumentSizes(reps, e.arguments) == [ClassSize(reps, a), ClassSize(reps, b)];
    assert ArgumentSizes(reps, e'.arguments) == [ClassSize(reps, b), ClassSize(reps, a)];
    Sum2(ClassSize(reps, a), ClassSize(reps, b));
    Sum2(ClassSize(reps, b), ClassSize(reps, a));
  }

  /** Exchanging the arguments of a commutative operation changes neither its value nor its size. */
  lemma SwappedSame(reps: seq<Expression>, e: Expression, e': Expression)
    requires ValidClasses(reps) && ValidExpression(e, |reps|)
    requires IsCommutativeOperation(e.item) && |e.arguments| == 2
    requires e' == e.(arguments := Swapped(e.arguments))
    ensures ValidExpression(e', |reps|)
    ensures forall v: Valuation :: ExpressionValue(reps, e, v) == ExpressionValue(reps, e', v)
    ensures ExpressionSize(reps, e) == ExpressionSize(reps, e')
    ensures forall n: nat :: ExpressionSettledBy(reps, e, n) == ExpressionSettledBy(reps, e', n)
  {
    forall v: Valuation
      ensures ExpressionValue(reps, e, v) == ExpressionValue(reps, e', v)
    {
      SwappedValue(reps, e, e', v);
    }
    SwappedSize(reps, e, e');
    forall n: nat
      ensures ExpressionSettledBy(reps, e, n) == ExpressionSettledBy(reps, e', n)
    {
      SwappedSettled(reps, e, e', n);
    }
  }

  // ----- matching a class against a pattern -----

  /** Which class each group has matched. */
  type Binding = map<nat, Id>

  predicate Extends(b: Binding, b': Binding) { forall g :: g in b ==> g in b' && b'[g] == b[g] }

  function Bind(g: nat, c: Id, b: Binding): Option<Binding>
  {
    if g !in b then Some(b[g := c]) else if b[g] == c then Some(b) else None
  }

  function Match(reps: seq<Expression>, p: Pattern, c: Id, b: Binding): Option<Binding>
    requires ValidClasses(reps) && c < |reps|
    decreases p
  {
    match p
    case Any(g) => Bind(g, c, b)
    case Constant(g) => if reps[c].item.Push? then Bind(g, c, b) else None
    case Literal(w) => if reps[c].item == Push(w) then Some(b) else None
    case Apply(i, ps) =>
      assert ValidExpression(reps[c], c);
      if reps[c].item == Operation(i) && |ps| == |reps[c].arguments| then MatchAll(reps, ps, reps[c].arguments, b)
      else None
  }

  function MatchAll(reps: seq<Expression>, ps: seq<Pattern>, cs: seq<Id>, b: Binding): Option<Binding>
    requires ValidClasses(reps) && |ps| == |cs| && forall k :: 0 <= k < |cs| ==> cs[k] < |reps|
    decreases ps
  {
    if ps == [] then Some(b)
    else
      var b' := Match(reps, ps[0], cs[0], b);
      if b'.None? then None else MatchAll(reps, ps[1..], cs[1..], b'.value)
  }

  function MatchExpression(reps: seq<Expression>, p: Pattern, e: Expression): Option<Binding>
    requires ValidClasses(reps) && ValidExpression(e, |reps|) && p.Apply?
  {
    if e.item == Operation(p.instruction) && |p.arguments| == |e.arguments|
    then MatchAll(reps, p.arguments, e.arguments, map[])
    else None
  }

  ghost predicate ValidBinding(reps: seq<Expression>, b: Binding)
  {
    forall g :: g in b ==> b[g] < |reps| && (IsConstantGroup(g) ==> reps[b[g]].item.Push?)
  }

  ghost predicate BindingSettledBy(reps: seq<Expression>, b: Binding, n: nat)
    requires ValidClasses(reps) && ValidBinding(reps, b)
  {
    forall g :: g in b ==> SettledBy(reps, b[g], n)
  }

  ghost function Meanings(reps: seq<Expression>, b: Binding, v: Valuation): Meaning
    requires ValidClasses(reps) && ValidBinding(reps, b)
  {
    g => if g in b then ClassValue(reps, b[g], v) else 0
  }

  function GroupSizes(reps: seq<Expression>, b: Binding): Sizes
    requires ValidClasses(reps) && forall g :: g in b ==> b[g] < |reps|
  {
    g => if g in b then ClassSize(reps, b[g]) - 1 else 0
  }

  lemma {:induction false} MatchGrows(reps: seq<Expression>, p: Pattern, c: Id, b: Binding)
    requires ValidClasses(reps) && c < |reps| && Match(reps, p, c, b).Some?
    requires Regular(p) && ValidBinding(reps, b)
    ensures Extends(b, Match(reps, p, c, b).value)
    ensures ValidBinding(reps, Match(reps, p, c, b).value)
    ensures forall g :: MentionsOne(p, g) ==> g in Match(reps, p, c, b).value
    ensures forall n: nat :: SettledBy(reps, c, n) && BindingSettledBy(reps, b, n) ==>
      BindingSettledBy(reps, Match(reps, p, c, b).value, n)
    decreases p
  {
    if p.Apply? {
      assert ValidExpression(reps[c], c);
      MatchAllGrows(reps, p.arguments, reps[c].arguments, b);
    }
  }

  lemma {:induction false} MatchAllGrows(reps: seq<Expression>, ps: seq<Pattern>, cs: seq<Id>, b: Binding)
    requires ValidClasses(reps) && |ps| == |cs| && forall k :: 0 <= k < |cs| ==> cs[k] < |reps|
    requires MatchAll(reps, ps, cs, b).Some?
    requires ValidBinding(reps, b) && forall k :: 0 <= k < |ps| ==> Regular(ps[k])
    ensures Extends(b, MatchAll(reps, ps, cs, b).value)
    ensures ValidBinding(reps, MatchAll(reps, ps, cs, b).value)
    ensures forall g, k :: 0 <= k < |ps| && MentionsOne(ps[k], g) ==> g in MatchAll(reps, ps, cs, b).value
    ensures forall n: nat ::
      (forall k :: 0 <= k < |cs| ==> SettledBy(reps, cs[k], n)) && BindingSettledBy(reps, b, n) ==>
      BindingSettledBy(reps, MatchAll(reps, ps, cs, b).value, n)
    decreases ps
  {
    if ps != [] {
      var b' := Match(reps, ps[0], cs[0], b).value;
      MatchGrows(reps, ps[0], cs[0], b);
      MatchAllGrows(reps, ps[1..], cs[1..], b');
      forall g, k | 0 <= k < |ps| && MentionsOne(ps[k], g)
        ensures g in MatchAll(reps, ps, cs, b).value
      {
        if k > 0 {
          assert ps[k] == ps[1..][k - 1];
        }
      }
    }
  }

  lemma {:induction false} MatchBindsMentioned(reps: seq<Expression>, p: Pattern, c: Id, b: Binding)
    requires ValidClasses(reps) && c < |reps| && Match(reps, p, c, b).Some?
    ensures forall g :: g in Match(reps, p, c, b).value ==> g in b || MentionsOne(p, g)
    decreases p
  {
    if p.Apply? {
      assert ValidExpression(reps[c], c);
      MatchAllBindsMentioned(reps, p.arguments, reps[c].arguments, b);
    }
  }

  lemma {:induction false} MatchAllBindsMentioned(reps: seq<Expression>, ps: seq<Pattern>, cs: seq<Id>, b: Binding)
    requires ValidClasses(reps) && |ps| == |cs| && forall k :: 0 <= k < |cs| ==> cs[k] < |reps|
    requires MatchAll(reps, ps, cs, b).Some?
    ensures forall g :: g in MatchAll(reps, ps, cs, b).value ==>
      g in b || exists k :: 0 <= k < |ps| && MentionsOne(ps[k], g)
    decreases ps
  {
    if ps != [] {
      var b' := Match(reps, ps[0], cs[0], b).value;
      MatchBindsMentioned(reps, ps[0], cs[0], b);
      MatchAllBindsMentioned(reps, ps[1..], cs[1..], b');
      forall g | g in MatchAll(reps, ps, cs, b).value && g !in b
        ensures exists k :: 0 <= k < |ps| && MentionsOne(ps[k], g)
      {
        if g !in b' {
          var k :| 0 <= k < |ps[1..]| && MentionsOne(ps[1..][k], g);
          assert ps[k + 1] == ps[1..][k];
        }
      }
    }
  }

  /** A matched pattern has the value of the class it matched. */
  lemma {:induction false} MatchValue(
    reps: seq<Expression>, p: Pattern, c: Id, b: Binding, final: Binding, v: Valuation)
    requires ValidClasses(reps) && c < |reps| && Match(reps, p, c, b).Some?
    requires Regular(p) && ValidBinding(reps, b)
    requires ValidBinding(reps, final) && Extends(Match(reps, p, c, b).value, final)
    ensures PatternValue(p, v.env, Meanings(reps, final, v)) == ClassValue(reps, c, v)
    decreases p
  {
    if p.Apply? {
      assert ValidExpression(reps[c], c);
      MatchAllValue(reps, p.arguments, reps[c].arguments, b, final, v);
      AppliedValue(reps, p, c, Meanings(reps, final, v), v);
    } else if !p.Any? {
      ClassValueIs(reps, c, v);
    }
  }

  lemma {:induction false} AppliedValue(reps: seq<Expression>, p: Pattern, c: Id, val: Meaning, v: Valuation)
    requires ValidClasses(reps) && c < |reps| && p.Apply? && IsRuleHead(p.instruction)
    requires reps[c].item == Operation(p.instruction) && |p.arguments| == |reps[c].arguments|
    requires ValidExpression(reps[c], c)
    requires forall k :: 0 <= k < |p.arguments| ==>
      PatternValue(p.arguments[k], v.env, val) == ClassValue(reps, reps[c].arguments[k], v)
    ensures PatternValue(p, v.env, val) == ClassValue(reps, c, v)
  {
    ClassValueIs(reps, c, v);
    HeadValue(reps, reps[c], v);
    SameValues(reps, p.arguments, reps[c].arguments, v.env, val, v);
  }

  lemma HeadValue(reps: seq<Expression>, e: Expression, v: Valuation)
    requires ValidClasses(reps) && ValidExpression(e, |reps|) && e.item.Operation? && !IsLoad(e.item.instruction)
    ensures ExpressionValue(reps, e, v) == Eval(v.env, e.item.instruction, ArgumentValues(reps, e.arguments, v))
  {
  }

  lemma {:induction false} LoadedValue(reps: seq<Expression>, i: Instruction, slot: Id, n: nat, v: Valuation)
    requires ValidClasses(reps) && slot < |reps| && IsLoad(i)
    ensures ValidExpression(Expression(Operation(i), [slot], n), |reps|)
    ensures ExpressionValue(reps, Expression(Operation(i), [slot], n), v)
         == Load(i, v.history(n), ClassValue(reps, slot, v))
  {
  }

  lemma {:induction false} BinaryValue(reps: seq<Expression>, i: Instruction, a: Id, b: Id, v: Valuation)
    requires ValidClasses(reps) && a < |reps| && b < |reps| && IsBinary(i)
    ensures ValidExpression(Expression(Operation(i), [a, b], 0), |reps|)
    ensures ExpressionValue(reps, Expression(Operation(i), [a, b], 0), v)
         == Binary(i, ClassValue(reps, a, v), ClassValue(reps, b, v))
  {
    var args := [ClassValue(reps, a, v), ClassValue(reps, b, v)];
    HeadValue(reps, Expression(Operation(i), [a, b], 0), v);
    assert ArgumentValues(reps, [a, b], v) == args;
    EvalBinary(v.env, i, args);
  }

  lemma EvalBinary(env: Env, i: Instruction, args: seq<Word>)
    requires IsBinary(i) && |args| == 2
    ensures Eval(env, i, args) == Binary(i, args[0], args[1])
  {
  }

  lemma SameValues(reps: seq<Expression>, ps: seq<Pattern>, cs: seq<Id>, env: Env, val: Meaning, v: Valuation)
    requires ValidClasses(reps) && |ps| == |cs| && forall k :: 0 <= k < |cs| ==> cs[k] < |reps|
    requires forall k :: 0 <= k < |ps| ==> PatternValue(ps[k], env, val) == ClassValue(reps, cs[k], v)
    ensures seq(|ps|, k requires 0 <= k < |ps| => PatternValue(ps[k], env, val)) == ArgumentValues(reps, cs, v)
  {
  }

  lemma {:induction false} MatchAllValue(
    reps: seq<Expression>, ps: seq<Pattern>, cs: seq<Id>, b: Binding, final: Binding, v: Valuation)
    requires ValidClasses(reps) && |ps| == |cs| && forall k :: 0 <= k < |cs| ==> cs[k] < |reps|
    requires MatchAll(reps, ps, cs, b).Some?
    requires ValidBinding(reps, b) && forall k :: 0 <= k < |ps| ==> Regular(ps[k])
    requires ValidBinding(reps, final) && Extends(MatchAll(reps, ps, cs, b).value, final)
    ensures forall k :: 0 <= k < |ps| ==>
      PatternValue(ps[k], v.env, Meanings(reps, final, v)) == ClassValue(reps, cs[k], v)
    decreases ps
  {
    if ps != [] {
      var b' := Match(reps, ps[0], cs[0], b).value;
      MatchGrows(reps, ps[0], cs[0], b);
      MatchAllGrows(reps, ps[1..], cs[1..], b');
      MatchValue(reps, ps[0], cs[0], b, final, v);
      MatchAllValue(reps, ps[1..], cs[1..], b', final, v);
      forall k | 0 <= k < |ps|
        ensures PatternValue(ps[k], v.env, Meanings(reps, final, v)) == ClassValue(reps, cs[k], v)
      {
        if k > 0 {
          assert ps[k] == ps[1..][k - 1] && cs[k] == cs[1..][k - 1];
        }
      }
    }
  }

  lemma {:induction false} SumMonotone(ms: seq<nat>, ns: seq<nat>)
    requires |ms| == |ns| && forall k :: 0 <= k < |ms| ==> ms[k] <= ns[k]
    ensures Sum(ms) <= Sum(ns)
  {
    if ms != [] {
      SumMonotone(ms[1..], ns[1..]);
    }
  }

  /** A pattern is no larger than the class it matched. */
  lemma {:induction false} MatchSize(reps: seq<Expression>, p: Pattern, c: Id, b: Binding, final: Binding)
    requires ValidClasses(reps) && c < |reps| && Match(reps, p, c, b).Some?
    requires Regular(p) && ValidBinding(reps, b)
    requires ValidBinding(reps, final) && Extends(Match(reps, p, c, b).value, final)
    ensures PatternSize(p, GroupSizes(reps, final)) <= ClassSize(reps, c)
    decreases p
  {
    ClassSizeIs(reps, c);
    if p.Apply? {
      var ps, cs := p.arguments, reps[c].arguments;
      assert ValidExpression(reps[c], c);
      MatchAllSize(reps, ps, cs, b, final);
      var sizes := GroupSizes(reps, final);
      SumMonotone(seq(|ps|, k requires 0 <= k < |ps| => PatternSize(ps[k], sizes)), ArgumentSizes(reps, cs));
    }
  }

  lemma {:induction false} MatchAllSize(
    reps: seq<Expression>, ps: seq<Pattern>, cs: seq<Id>, b: Binding, final: Binding)
    requires ValidClasses(reps) && |ps| == |cs| && forall k :: 0 <= k < |cs| ==> cs[k] < |reps|
    requires MatchAll(reps, ps, cs, b).Some?
    requires ValidBinding(reps, b) && forall k :: 0 <= k < |ps| ==> Regular(ps[k])
    requires ValidBinding(reps, final) && Extends(MatchAll(reps, ps, cs, b).value, final)
    ensures forall k :: 0 <= k < |ps| ==> PatternSize(ps[k], GroupSizes(reps, final)) <= ClassSize(reps, cs[k])
    decreases ps
  {
    if ps != [] {
      var b', sizes := Match(reps, ps[0], cs[0], b).value, GroupSizes(reps, final);
      MatchGrows(reps, ps[0], cs[0], b);
      MatchAllGrows(reps, ps[1..], cs[1..], b');
      MatchSize(reps, ps[0], cs[0], b, final);
      MatchAllSize(reps, ps[1..], cs[1..], b', final);
      forall k | 0 <= k < |ps|
        ensures PatternSize(ps[k], sizes) <= ClassSize(reps, cs[k])
      {
        if k > 0 {
          assert ps[k] == ps[1..][k - 1] && cs[k] == cs[1..][k - 1];
        }
      }
    }
  }

  // ----- matching a whole expression, and what the rule's action then stands for -----

  ghost predicate TemplateFits(t: Template, reps: seq<Expression>, b: Binding)
  {
    match t
    case Same(g) => g in b
    case Fresh(a) => AmountFits(a, b)
    case Build(i, ts) =>
      Info(i).args == |ts| && IsRuleHead(i) && forall k :: 0 <= k < |ts| ==> TemplateFits(ts[k], reps, b)
  }

  ghost predicate AmountFits(a: Amount, b: Binding)
  {
    match a
    case Known(_) => true
    case Folded(_, x, y, z) =>
      x in b && y in b && z in b && IsConstantGroup(x) && IsConstantGroup(y) && IsConstantGroup(z)
    case Negated(x) => x in b && IsConstantGroup(x)
  }

  lemma {:induction false} ClosedFits(t: Template, p: Pattern, reps: seq<Expression>, b: Binding)
    requires Closed(t, p) && forall g :: MentionsOne(p, g) ==> g in b
    ensures TemplateFits(t, reps, b)
    decreases t
  {
    if t.Build? {
      forall k | 0 <= k < |t.arguments|
        ensures TemplateFits(t.arguments[k], reps, b)
      {
        ClosedFits(t.arguments[k], p, reps, b);
      }
    }
  }

  /** What a successful match of a well-formed rule binds, and that the pattern is no larger than what it matched. */
  lemma {:induction false} RuleMatched(reps: seq<Expression>, r: Rule, e: Expression)
    requires ValidClasses(reps) && ValidExpression(e, |reps|)
    requires WellFormed(r)
    requires MatchExpression(reps, r.pattern, e).Some?
    ensures var b := MatchExpression(reps, r.pattern, e).value;
      && ValidBinding(reps, b)
      && TemplateFits(r.action, reps, b)
      && PatternSize(r.pattern, GroupSizes(reps, b)) <= ExpressionSize(reps, e)
      && (forall n: nat :: ExpressionSettledBy(reps, e, n) ==> BindingSettledBy(reps, b, n))
  {
    var b := MatchExpression(reps, r.pattern, e).value;
    MatchedBinding(reps, r.pattern, e);
    ClosedFits(r.action, r.pattern, reps, b);
    MatchedSize(reps, r.pattern, e);
  }

  lemma {:induction false} MatchedBinding(reps: seq<Expression>, p: Pattern, e: Expression)
    requires ValidClasses(reps) && ValidExpression(e, |reps|)
    requires p.Apply? && Regular(p) && MatchExpression(reps, p, e).Some?
    ensures ValidBinding(reps, MatchExpression(reps, p, e).value)
    ensures forall g :: MentionsOne(p, g) ==> g in MatchExpression(reps, p, e).value
    ensures forall n: nat :: ExpressionSettledBy(reps, e, n) ==>
      BindingSettledBy(reps, MatchExpression(reps, p, e).value, n)
  {
    MatchAllGrows(reps, p.arguments, e.arguments, map[]);
  }

  /** A sound rule's action stands for the expression its pattern has matched. */
  lemma RuleMatchedValue(reps: seq<Expression>, r: Rule, e: Expression, v: Valuation)
    requires ValidClasses(reps) && ValidExpression(e, |reps|)
    requires WellFormed(r) && Sound(r) && MatchExpression(reps, r.pattern, e).Some?
    ensures ValidBinding(reps, MatchExpression(reps, r.pattern, e).value)
    ensures ExpressionValue(reps, e, v)
         == TemplateValue(r.action, v.env, Meanings(reps, MatchExpression(reps, r.pattern, e).value, v))
  {
    MatchedValue(reps, r.pattern, e, v);
    var val := Meanings(reps, MatchExpression(reps, r.pattern, e).value, v);
    assert PatternValue(r.pattern, v.env, val) == TemplateValue(r.action, v.env, val);
  }

  lemma {:induction false} MatchedValue(reps: seq<Expression>, p: Pattern, e: Expression, v: Valuation)
    requires ValidClasses(reps) && ValidExpression(e, |reps|)
    requires p.Apply? && Regular(p) && MatchExpression(reps, p, e).Some?
    ensures ValidBinding(reps, MatchExpression(reps, p, e).value)
    ensures ExpressionValue(reps, e, v) == PatternValue(p, v.env, Meanings(reps, MatchExpression(reps, p, e).value, v))
  {
    var b := MatchExpression(reps, p, e).value;
    MatchAllGrows(reps, p.arguments, e.arguments, map[]);
    MatchAllValue(reps, p.arguments, e.arguments, map[], b, v);
    HeadValue(reps, e, v);
    SameValues(reps, p.arguments, e.arguments, v.env, Meanings(reps, b, v), v);
  }

  lemma {:induction false} MatchedSize(reps: seq<Expression>, p: Pattern, e: Expression)
    requires ValidClasses(reps) && ValidExpression(e, |reps|)
    requires p.Apply? && Regular(p) && MatchExpression(reps, p, e).Some?
    ensures ValidBinding(reps, MatchExpression(reps, p, e).value)
    ensures PatternSize(p, GroupSizes(reps, MatchExpression(reps, p, e).value)) <= ExpressionSize(reps, e)
  {
    var b := MatchExpression(reps, p, e).value;
    MatchAllGrows(reps, p.arguments, e.arguments, map[]);
    MatchAllSize(reps, p.arguments, e.arguments, map[], b);
    var ps, sizes := p.arguments, GroupSizes(reps, b);
    SumMonotone(seq(|ps|, k requires 0 <= k < |ps| => PatternSize(ps[k], sizes)), ArgumentSizes(reps, e.arguments));
  }

  // ----- the weight that falls when a rule keeps the size -----

  predicate HasConstantArgument(reps: seq<Expression>, cs: seq<Id>)
    requires forall k :: 0 <= k < |cs| ==> cs[k] < |reps|
  {
    exists k :: 0 <= k < |cs| && reps[cs[k]].item.Push?
  }

  function Weight(reps: seq<Expression>, e: Expression): nat
    requires ValidExpression(e, |reps|)
  {
    if !e.item.Operation? then 0
    else if e.item.instruction == SUB then 2
    else if IsAssociative(e.item.instruction) && !HasConstantArgument(reps, e.arguments) then 1
    else 0
  }

  lemma SwappedWeight(reps: seq<Expression>, e: Expression, e': Expression)
    requires ValidExpression(e, |reps|) && |e.arguments| == 2 && e' == e.(arguments := Swapped(e.arguments))
    ensures ValidExpression(e', |reps|) && Weight(reps, e) == Weight(reps, e')
  {
    assert e'.arguments[0] == e.arguments[1] && e'.arguments[1] == e.arguments[0];
  }

  /** The measure of the rule's action lies strictly below the measure of the expression it replaces. */
  lemma RuleDescends(reps: seq<Expression>, rules: seq<Rule>, k: nat, e: Expression)
    requires ValidClasses(reps) && ValidExpression(e, |reps|)
    requires k < |rules| && WellFormed(rules[k]) && Decreases(rules[k])
    requires OrderedFor(rules, k)
    requires MatchExpression(reps, rules[k].pattern, e).Some?
    requires forall j :: 0 <= j < k ==> rules[j].pattern.Apply? && MatchExpression(reps, rules[j].pattern, e).None?
    ensures var b := MatchExpression(reps, rules[k].pattern, e).value;
      && ValidBinding(reps, b)
      && var size := TemplateSize(rules[k].action, GroupSizes(reps, b));
         || size < ExpressionSize(reps, e)
         || (size == ExpressionSize(reps, e) && TemplateWeight(rules[k].action) < Weight(reps, e))
  {
    var r := rules[k];
    var b := MatchExpression(reps, r.pattern, e).value;
    RuleMatched(reps, r, e);
    var sizes := GroupSizes(reps, b);
    var size := TemplateSize(r.action, sizes);
    if size == ExpressionSize(reps, e) && IsAssociative(r.pattern.instruction) {
      assert !Shrinks(r);
      MergedBefore(reps, rules, k, e);
    }
  }

  /** Had the second argument been a constant, the rule before would have matched. */
  lemma MergedBefore(reps: seq<Expression>, rules: seq<Rule>, k: nat, e: Expression)
    requires ValidClasses(reps) && ValidExpression(e, |reps|)
    requires k < |rules| && AfterConstantCase(rules, k)
    requires MatchExpression(reps, rules[k].pattern, e).Some?
    requires MatchExpression(reps, rules[k - 1].pattern, e).None?
    ensures !HasConstantArgument(reps, e.arguments)
  {
    var i, inner := rules[k].pattern.instruction, rules[k].pattern.arguments[0];
    assert rules[k].pattern.arguments == [inner, Y];
    MatchTwo(reps, inner, Y, e);
    MatchTwo(reps, inner, B, e);
    MatchBindsMentioned(reps, inner, e.arguments[0], map[]);
  }

  lemma {:induction false} MatchTwo(reps: seq<Expression>, p: Pattern, q: Pattern, e: Expression)
    requires ValidClasses(reps) && ValidExpression(e, |reps|)
    requires e.item.Operation? && |e.arguments| == 2
    ensures MatchExpression(reps, Apply(e.item.instruction, [p, q]), e) ==
      (var b := Match(reps, p, e.arguments[0], map[]);
       if b.None? then None else Match(reps, q, e.arguments[1], b.value))
  {
    var rest := e.arguments[1..];
    assert [p, q][1..] == [q] && rest == [e.arguments[1]];
    assert [q][1..] == [] && rest[1..] == [];
    var b := Match(reps, p, e.arguments[0], map[]);
    if b.Some? {
      assert MatchAll(reps, [q], rest, b.value) ==
        (var b' := Match(reps, q, rest[0], b.value); if b'.None? then None else MatchAll(reps, [], [], b'.value));
    }
  }

  // ----- rebuilding an expression from a rule's action -----

  /** The constants the groups have matched. */
  function Constants(reps: seq<Expression>, b: Binding): Meaning
    requires forall g :: g in b ==> b[g] < |reps|
  {
    g => if g in b && reps[b[g]].item.Push? then reps[b[g]].item.value else 0
  }

  lemma AmountIsConstant(reps: seq<Expression>, b: Binding, a: Amount, v: Valuation)
    requires ValidClasses(reps) && ValidBinding(reps, b) && AmountFits(a, b)
    ensures AmountValue(a, Constants(reps, b)) == AmountValue(a, Meanings(reps, b, v))
  {
    forall g | g in b && IsConstantGroup(g)
      ensures Constants(reps, b)(g) == Meanings(reps, b, v)(g)
    {
      ClassValueIs(reps, b[g], v);
    }
  }

  lemma SameConstants(base: seq<Expression>, reps: seq<Expression>, b: Binding, a: Amount)
    requires ValidClasses(base) && ValidBinding(base, b) && base <= reps && AmountFits(a, b)
    ensures forall g :: g in b ==> b[g] < |reps|
    ensures AmountValue(a, Constants(base, b)) == AmountValue(a, Constants(reps, b))
  {
    forall g | g in b
      ensures Constants(base, b)(g) == Constants(reps, b)(g)
    {
      assert reps[b[g]] == base[b[g]];
    }
  }

  lemma NoArguments(reps: seq<Expression>, e: Expression)
    requires ValidClasses(reps) && e.arguments == [] && !e.item.Operation?
    ensures ExpressionSize(reps, e) == 1 && Weight(reps, e) == 0
  {
    assert ArgumentSizes(reps, []) == [];
  }

  lemma {:induction false} ElementWithinSum(ns: seq<nat>, k: nat)
    requires k < |ns|
    ensures ns[k] <= Sum(ns)
  {
    if k != 0 {
      ElementWithinSum(ns[1..], k - 1);
    }
  }

  lemma {:induction false} ArgumentSmaller(t: Template, k: nat, sizes: Sizes)
    requires t.Build? && k < |t.arguments|
    ensures TemplateSize(t.arguments[k], sizes) < TemplateSize(t, sizes)
  {
    var ts := t.arguments;
    ElementWithinSum(seq(|ts|, j requires 0 <= j < |ts| => TemplateSize(ts[j], sizes)), k);
  }

  /** Class c is what t stands for, given the classes that base had when b was matched. */
  ghost predicate Rebuilt(base: seq<Expression>, reps: seq<Expression>, b: Binding, t: Template, c: Id)
    requires ValidClasses(base) && ValidBinding(base, b) && ValidClasses(reps)
  {
    && c < |reps|
    && (forall v: Valuation :: ClassValue(reps, c, v) == TemplateValue(t, v.env, Meanings(base, b, v)))
    && ClassSize(reps, c) <= TemplateSize(t, GroupSizes(base, b))
    && (forall n: nat :: BindingSettledBy(base, b, n) ==> SettledBy(reps, c, n))
    && (IsConstantTemplate(t) ==> reps[c].item.Push?)
  }

  lemma RebuiltLater(
    base: seq<Expression>, reps: seq<Expression>, reps': seq<Expression>, b: Binding, t: Template, c: Id)
    requires ValidClasses(base) && ValidBinding(base, b) && ValidClasses(reps) && ValidClasses(reps') && reps <= reps'
    requires Rebuilt(base, reps, b, t, c)
    ensures Rebuilt(base, reps', b, t, c)
  {
    PrefixClass(reps, reps', c);
    forall v: Valuation
      ensures ClassValue(reps', c, v) == TemplateValue(t, v.env, Meanings(base, b, v))
    {
      assert ClassValue(reps, c, v) == ClassValue(reps', c, v);
    }
  }

  lemma RebuiltSame(base: seq<Expression>, reps: seq<Expression>, b: Binding, g: nat)
    requires ValidClasses(base) && ValidBinding(base, b) && ValidClasses(reps) && base <= reps && g in b
    ensures Rebuilt(base, reps, b, Same(g), b[g])
  {
    PrefixClass(base, reps, b[g]);
    forall v: Valuation
      ensures ClassValue(reps, b[g], v) == TemplateValue(Same(g), v.env, Meanings(base, b, v))
    {
      assert ClassValue(base, b[g], v) == ClassValue(reps, b[g], v);
    }
  }

  lemma RebuiltFresh(base: seq<Expression>, reps: seq<Expression>, b: Binding, a: Amount, c: Id)
    requires ValidClasses(base) && ValidBinding(base, b) && ValidClasses(reps) && AmountFits(a, b)
    requires c < |reps| && reps[c] == Expression(Push(AmountValue(a, Constants(base, b))), [], 0)
    ensures Rebuilt(base, reps, b, Fresh(a), c)
  {
    ClassSizeIs(reps, c);
    assert ArgumentSizes(reps, []) == [];
    forall v: Valuation
      ensures ClassValue(reps, c, v) == TemplateValue(Fresh(a), v.env, Meanings(base, b, v))
    {
      ClassValueIs(reps, c, v);
      AmountIsConstant(base, b, a, v);
    }
  }

  ghost predicate AllRebuilt(base: seq<Expression>, reps: seq<Expression>, b: Binding, ts: seq<Template>, cs: seq<Id>)
    requires ValidClasses(base) && ValidBinding(base, b) && ValidClasses(reps)
  {
    |cs| <= |ts| && forall k :: 0 <= k < |cs| ==> Rebuilt(base, reps, b, ts[k], cs[k])
  }

  lemma AllRebuiltLater(
    base: seq<Expression>, reps: seq<Expression>, reps': seq<Expression>, b: Binding, ts: seq<Template>, cs: seq<Id>)
    requires ValidClasses(base) && ValidBinding(base, b) && ValidClasses(reps) && ValidClasses(reps') && reps <= reps'
    requires AllRebuilt(base, reps, b, ts, cs)
    ensures AllRebuilt(base, reps', b, ts, cs)
  {
    forall k | 0 <= k < |cs|
      ensures Rebuilt(base, reps', b, ts[k], cs[k])
    {
      RebuiltLater(base, reps, reps', b, ts[k], cs[k]);
    }
  }

  lemma OneMoreRebuilt(
    base: seq<Expression>, reps: seq<Expression>, reps': seq<Expression>, b: Binding, ts: seq<Template>, cs: seq<Id>,
    c: Id)
    requires ValidClasses(base) && ValidBinding(base, b) && ValidClasses(reps) && ValidClasses(reps') && reps <= reps'
    requires AllRebuilt(base, reps, b, ts, cs) && |cs| < |ts| && Rebuilt(base, reps', b, ts[|cs|], c)
    ensures AllRebuilt(base, reps', b, ts, cs + [c])
  {
    AllRebuiltLater(base, reps, reps', b, ts, cs);
  }

  /** The expression over rebuilt arguments is what the template stands for, and its measure is no larger. */
  lemma {:induction false} Assembled(base: seq<Expression>, reps: seq<Expression>, b: Binding, t: Template, cs: seq<Id>)
    requires ValidClasses(base) && ValidBinding(base, b) && ValidClasses(reps)
    requires TemplateFits(t, base, b) && t.Build? && |cs| == |t.arguments|
    requires AllRebuilt(base, reps, b, t.arguments, cs)
    ensures var e := Expression(Operation(t.instruction), cs, 0);
      && ValidExpression(e, |reps|)
      && ExpressionSize(reps, e) <= TemplateSize(t, GroupSizes(base, b))
      && Weight(reps, e) <= TemplateWeight(t)
      && (forall n: nat :: BindingSettledBy(base, b, n) ==> ExpressionSettledBy(reps, e, n))
  {
    var ts, sizes := t.arguments, GroupSizes(base, b);
    forall k | 0 <= k < |cs|
      ensures cs[k] < |reps| && ClassSize(reps, cs[k]) <= TemplateSize(ts[k], sizes)
      ensures forall n: nat :: BindingSettledBy(base, b, n) ==> SettledBy(reps, cs[k], n)
      ensures IsConstantTemplate(ts[k]) ==> reps[cs[k]].item.Push?
    {
      assert Rebuilt(base, reps, b, ts[k], cs[k]);
    }
    SumMonotone(ArgumentSizes(reps, cs), seq(|ts|, k requires 0 <= k < |ts| => TemplateSize(ts[k], sizes)));
    RuleHeadIsValue(t.instruction, cs);
  }

  lemma RuleHeadIsValue(i: Instruction, cs: seq<Id>)
    requires IsRuleHead(i)
    ensures IsValue(Expression(Operation(i), cs, 0))
  {
  }

  lemma {:induction false} AssembledValue(
    base: seq<Expression>, reps: seq<Expression>, b: Binding, t: Template, cs: seq<Id>, v: Valuation)
    requires ValidClasses(base) && ValidBinding(base, b) && ValidClasses(reps)
    requires TemplateFits(t, base, b) && t.Build? && |cs| == |t.arguments|
    requires AllRebuilt(base, reps, b, t.arguments, cs)
    requires ValidExpression(Expression(Operation(t.instruction), cs, 0), |reps|)
    ensures ExpressionValue(reps, Expression(Operation(t.instruction), cs, 0), v)
         == TemplateValue(t, v.env, Meanings(base, b, v))
  {
    var e, ts, val := Expression(Operation(t.instruction), cs, 0), t.arguments, Meanings(base, b, v);
    forall k | 0 <= k < |cs|
      ensures ClassValue(reps, cs[k], v) == TemplateValue(ts[k], v.env, val)
    {
      assert Rebuilt(base, reps, b, ts[k], cs[k]);
    }
    HeadValue(reps, e, v);
    assert ArgumentValues(reps, cs, v) == seq(|ts|, k requires 0 <= k < |ts| => TemplateValue(ts[k], v.env, val));
  }

  lemma {:induction false} RebuiltBuild(
    base: seq<Expression>, reps: seq<Expression>, reps': seq<Expression>, b: Binding, t: Template, cs: seq<Id>, c: Id)
    requires ValidClasses(base) && ValidBinding(base, b) && ValidClasses(reps) && ValidClasses(reps') && reps <= reps'
    requires TemplateFits(t, base, b) && t.Build? && |cs| == |t.arguments|
    requires AllRebuilt(base, reps, b, t.arguments, cs)
    requires Represents(reps', Expression(Operation(t.instruction), cs, 0), c)
    ensures Rebuilt(base, reps', b, t, c)
  {
    var e := Expression(Operation(t.instruction), cs, 0);
    RuleHeadsDeterministic(t.instruction);
    AllRebuiltLater(base, reps, reps', b, t.arguments, cs);
    Assembled(base, reps', b, t, cs);
    forall v: Valuation
      ensures ClassValue(reps', c, v) == TemplateValue(t, v.env, Meanings(base, b, v))
    {
      AssembledValue(base, reps', b, t, cs, v);
      assert ExpressionValue(reps', e, v) == ClassValue(reps', c, v);
    }
  }

  predicate Unmatched(reps: seq<Expression>, r: Rule, e: Expression)
    requires ValidClasses(reps) && ValidExpression(e, |reps|)
  {
    r.pattern.Apply? ==> MatchExpression(reps, r.pattern, e).None?
  }

  predicate NoRule(reps: seq<Expression>, rules: seq<Rule>, e: Expression)
    requires ValidClasses(reps) && ValidExpression(e, |reps|)
  {
    forall j :: 0 <= j < |rules| ==> Unmatched(reps, rules[j], e)
  }

  /** Class c is what the rule makes of the expression. */
  ghost predicate MadeBy(base: seq<Expression>, reps: seq<Expression>, r: Rule, e: Expression, c: Id)
    requires ValidClasses(base) && ValidExpression(e, |base|) && ValidClasses(reps)
  {
    && r.pattern.Apply? && MatchExpression(base, r.pattern, e).Some?
    && ValidBinding(base, MatchExpression(base, r.pattern, e).value)
    && Rebuilt(base, reps, MatchExpression(base, r.pattern, e).value, r.action, c)
  }

  /** Class c is what the first rule that matches makes of the expression. */
  ghost predicate SimplifiedTo(
    base: seq<Expression>, reps: seq<Expression>, rules: seq<Rule>, e: Expression, c: Id)
    requires ValidClasses(base) && ValidExpression(e, |base|) && ValidClasses(reps)
  {
    exists k :: 0 <= k < |rules| && NoRule(base, rules[..k], e) && MadeBy(base, reps, rules[k], e, c)
  }

  lemma FirstRule(
    base: seq<Expression>, reps: seq<Expression>, rules: seq<Rule>, k: nat, e: Expression, c: Id)
    requires ValidClasses(base) && ValidExpression(e, |base|) && ValidClasses(reps) && k < |rules|
    requires forall j :: 0 <= j < k ==> Unmatched(base, rules[j], e)
    requires MadeBy(base, reps, rules[k], e, c)
    ensures SimplifiedTo(base, reps, rules, e, c)
  {
    assert NoRule(base, rules[..k], e);
  }

  /** What the rule's rebuilt action is to the expression the rule has matched. */
  lemma SimplifiedRepresents(base: seq<Expression>, reps: seq<Expression>, r: Rule, e: Expression, c: Id)
    requires ValidClasses(base) && ValidClasses(reps) && base <= reps && ValidExpression(e, |base|)
    requires WellFormed(r) && Sound(r) && MatchExpression(base, r.pattern, e).Some?
    requires ValidBinding(base, MatchExpression(base, r.pattern, e).value)
    requires Rebuilt(base, reps, MatchExpression(base, r.pattern, e).value, r.action, c)
    requires TemplateSize(r.action, GroupSizes(base, MatchExpression(base, r.pattern, e).value))
      <= ExpressionSize(base, e)
    ensures Represents(reps, e, c)
  {
    var b := MatchExpression(base, r.pattern, e).value;
    RuleMatched(base, r, e);
    PrefixExpression(base, reps, e);
    forall v: Valuation
      ensures ExpressionValue(reps, e, v) == ClassValue(reps, c, v)
    {
      RuleMatchedValue(base, r, e, v);
      assert ExpressionValue(base, e, v) == ExpressionValue(reps, e, v);
    }
  }

  lemma SwappedRepresents(reps: seq<Expression>, e: Expression, e': Expression, c: Id)
    requires ValidClasses(reps) && ValidExpression(e, |reps|) && IsCommutativeOperation(e.item) && |e.arguments| == 2
    requires e' == e.(arguments := Swapped(e.arguments))
    requires Represents(reps, e', c)
    ensures Represents(reps, e, c)
  {
    SwappedSame(reps, e, e');
    forall v: Valuation
      ensures ExpressionValue(reps, e, v) == ClassValue(reps, c, v)
    {
      assert ExpressionValue(reps, e', v) == ClassValue(reps, c, v);
    }
  }
}
