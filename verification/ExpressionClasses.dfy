/**
 * The container of equivalence classes. find, tryToSimplify and rebuildExpression call each other;
 * the size of the expression tree, and at equal size the weight of its head, falls on every round.
 */
module ExpressionClasses {
  import opened Results
  import opened Words
  import opened Evm
  import opened SemanticInformation
  import opened Rules
  import opened Classes
  import opened Expressions

  lemma {:induction false} ZeroTest(reps: seq<Expression>, c: Id, z: Id)
    requires ValidClasses(reps) && c < |reps| && z < |reps|
    requires Represents(reps, Expression(Operation(ISZERO), [c], 0), z) && reps[z].item == Push(0)
    ensures forall v: Valuation :: ClassValue(reps, c, v) != 0
  {
    var e := Expression(Operation(ISZERO), [c], 0);
    forall v: Valuation
      ensures ClassValue(reps, c, v) != 0
    {
      ClassValueIs(reps, z, v);
      assert ExpressionValue(reps, e, v) == 0;
      HeadValue(reps, e, v);
      assert ArgumentValues(reps, [c], v) == [ClassValue(reps, c, v)];
    }
  }

  lemma {:induction false} DifferenceValue(reps: seq<Expression>, a: Id, b: Id, d: Id, v: Valuation)
    requires ValidClasses(reps) && a < |reps| && b < |reps| && d < |reps|
    requires Represents(reps, Expression(Operation(SUB), [a, b], 0), d)
    ensures ClassValue(reps, d, v) == Sub(ClassValue(reps, a, v), ClassValue(reps, b, v))
  {
    assert ExpressionValue(reps, Expression(Operation(SUB), [a, b], 0), v) == ClassValue(reps, d, v);
    BinaryValue(reps, SUB, a, b, v);
  }

  /** The forbidden interval is ["-31", 31], computed with wrap-around. */
  predicate FarFromZero(difference: Word) { (difference + 31) % MODULUS > 62 }

  lemma FarApart(x: Word, y: Word)
    requires FarFromZero(Sub(x, y))
    ensures Apart(x, y)
  {
  }

  lemma {:induction false} ApartClasses(reps: seq<Expression>, a: Id, b: Id, d: Id)
    requires ValidClasses(reps) && a < |reps| && b < |reps| && d < |reps|
    requires Represents(reps, Expression(Operation(SUB), [a, b], 0), d)
    requires reps[d].item.Push? && FarFromZero(reps[d].item.value)
    ensures forall v: Valuation :: Apart(ClassValue(reps, a, v), ClassValue(reps, b, v))
  {
    forall v: Valuation
      ensures Apart(ClassValue(reps, a, v), ClassValue(reps, b, v))
    {
      DifferenceValue(reps, a, b, d, v);
      ClassValueIs(reps, d, v);
      FarApart(ClassValue(reps, a, v), ClassValue(reps, b, v));
    }
  }

  lemma {:induction false} DifferentClasses(reps: seq<Expression>, a: Id, b: Id, d: Id)
    requires ValidClasses(reps) && a < |reps| && b < |reps| && d < |reps|
    requires Represents(reps, Expression(Operation(SUB), [a, b], 0), d)
    requires forall v: Valuation :: ClassValue(reps, d, v) != 0
    ensures forall v: Valuation :: ClassValue(reps, a, v) != ClassValue(reps, b, v)
  {
    forall v: Valuation
      ensures ClassValue(reps, a, v) != ClassValue(reps, b, v)
    {
      DifferenceValue(reps, a, b, d, v);
    }
  }

  /** The arguments may be exchanged. */
  predicate HasReverse(exp: Expression) { |exp.arguments| == 2 && IsCommutativeOperation(exp.item) }

  function Reverse(exp: Expression): Expression
    requires HasReverse(exp)
  {
    exp.(arguments := Swapped(exp.arguments))
  }

  class ExpressionClasses {
    var representatives: seq<Expression>
    var expressions: map<Expression, Id>

    /** Which items are let in. */
    ghost var admission: Admission

    ghost predicate Valid()
      reads this
    {
      Consistent(representatives, expressions) && AllAdmitted(representatives, admission)
    }

    constructor (ghost admitted: Admission)
      ensures Valid() && representatives == [] && expressions == map[] && admission == admitted
    {
      representatives, expressions, admission := [], map[], admitted;
    }

    /** Lets more in from now on. */
    ghost method Admit(admitted: Admission)
      requires Valid() && AllAdmitted(representatives, admitted)
      modifies this`admission
      ensures Valid() && admission == admitted
    {
      admission := admitted;
    }

    /** The class of the given item applied to the given classes; creates it if necessary. */
    method Find(item: AssemblyItem, arguments: seq<Id>, sequenceNumber: nat) returns (id: Id)
      requires Valid()
      requires ValidExpression(Expression(item, arguments, sequenceNumber), |representatives|)
      requires Admitted(item, admission)
      modifies this`representatives, this`expressions
      ensures Valid() && old(representatives) <= representatives
      ensures Represents(representatives, Expression(item, arguments, sequenceNumber), id)
      ensures !IsDeterministic(item) ==> id >= |old(representatives)|
      decreases ExpressionSize(representatives, Expression(item, arguments, sequenceNumber)),
                Weight(representatives, Expression(item, arguments, sequenceNumber)), 4
    {
      var exp := Expression(item, arguments, sequenceNumber);
      if IsCommutativeOperation(item) && |arguments| == 2 && arguments[0] > arguments[1] {
        var sorted := exp.(arguments := Swapped(arguments));
        SwappedSame(representatives, exp, sorted);
        SwappedWeight(representatives, exp, sorted);
        id := FindSorted(sorted);
        SwappedRepresents(representatives, exp, sorted, id);
      } else {
        id := FindSorted(exp);
      }
    }

    method FindSorted(exp: Expression) returns (id: Id)
      requires Valid() && ValidExpression(exp, |representatives|) && Admitted(exp.item, admission)
      modifies this`representatives, this`expressions
      ensures Valid() && old(representatives) <= representatives
      ensures Represents(representatives, exp, id)
      ensures !IsDeterministic(exp.item) ==> id >= |old(representatives)|
      decreases ExpressionSize(representatives, exp), Weight(representatives, exp), 3
    {
      if IsDeterministic(exp.item) && exp in expressions {
        return expressions[exp];
      }
      var simplified := TryToSimplify(exp, false);
      if simplified.Some? {
        id := simplified.value;
      } else {
        id := |representatives|;
        AddRepresentative(exp);
      }
      Remember(exp, id);
    }

    method Remember(exp: Expression, id: Id)
      requires Valid() && Represents(representatives, exp, id)
      modifies this`expressions
      ensures Valid()
    {
      if exp !in expressions {
        expressions := expressions[exp := id];
      }
    }

    method AddRepresentative(exp: Expression)
      requires Valid() && ValidExpression(exp, |representatives|) && Admitted(exp.item, admission)
      modifies this`representatives
      ensures Valid() && representatives == old(representatives) + [exp]
      ensures Represents(representatives, exp, |representatives| - 1)
    {
      ghost var before := representatives;
      representatives := representatives + [exp];
      assert ValidClasses(representatives);
      StillConsistent(before, representatives, expressions);
      RepresentsItself(representatives, |before|);
    }

    /** The first rule that matches, and what its groups have matched. */
    method FirstMatch(rules: seq<Rule>, exp: Expression) returns (k: nat, groups: Binding)
      requires Valid() && ValidExpression(exp, |representatives|)
      requires forall j :: 0 <= j < |rules| ==> rules[j].pattern.Apply?
      ensures k <= |rules|
      ensures forall j :: 0 <= j < k ==> Unmatched(representatives, rules[j], exp)
      ensures k < |rules| ==> MatchExpression(representatives, rules[k].pattern, exp) == Some(groups)
    {
      groups := map[];
      k := 0;
      while k < |rules|
        invariant k <= |rules|
        invariant forall j :: 0 <= j < k ==> Unmatched(representatives, rules[j], exp)
      {
        var matched := MatchExpression(representatives, rules[k].pattern, exp);
        if matched.Some? {
          groups := matched.value;
          return;
        }
        k := k + 1;
      }
    }

    /**
     * A class for the expression from the first rule that matches; the second run has the arguments reversed. None
     * if no rule matches, or if the instruction may have another result each time.
     */
    method TryToSimplify(exp: Expression, secondRun: bool) returns (id: Option<Id>)
      requires Valid() && ValidExpression(exp, |representatives|)
      modifies this`representatives, this`expressions
      ensures Valid() && old(representatives) <= representatives
      ensures id.Some? ==> Represents(representatives, exp, id.value) && IsDeterministic(exp.item)
      ensures id.Some? ==>
        || SimplifiedTo(old(representatives), representatives, Table(), exp, id.value)
        || (!secondRun && HasReverse(exp) && NoRule(old(representatives), Table(), exp)
            && SimplifiedTo(old(representatives), representatives, Table(), Reverse(exp), id.value))
      ensures id.None? ==> representatives == old(representatives)
      ensures id.None? && exp.item.Operation? && IsDeterministic(exp.item) ==>
        && NoRule(representatives, Table(), exp)
        && (!secondRun && HasReverse(exp) ==> NoRule(representatives, Table(), Reverse(exp)))
      decreases ExpressionSize(representatives, exp), Weight(representatives, exp), if secondRun then 1 else 2
    {
      if !exp.item.Operation? || !IsDeterministic(exp.item) {
        return None;
      }
      TableWellFormed();
      var k, groups := FirstMatch(Table(), exp);
      if k < |Table()| {
        ghost var base := representatives;
        RuleFacts(k);
        RuleMatched(base, Table()[k], exp);
        RuleDescends(base, Table(), k, exp);
        var c := RebuildExpression(Table()[k].action, groups, base);
        SimplifiedRepresents(base, representatives, Table()[k], exp, c);
        FirstRule(base, representatives, Table(), k, exp, c);
        return Some(c);
      }
      if !secondRun && HasReverse(exp) {
        var reversed := Reverse(exp);
        SwappedSame(representatives, exp, reversed);
        SwappedWeight(representatives, exp, reversed);
        id := TryToSimplify(reversed, true);
        if id.Some? {
          SwappedRepresents(representatives, exp, reversed, id.value);
        }
        return;
      }
      return None;
    }

    /** Builds the expression a rule asks for; base is what the representatives were when the rule matched. */
    method RebuildExpression(t: Template, groups: Binding, ghost base: seq<Expression>) returns (id: Id)
      requires Valid() && ValidClasses(base) && base <= representatives
      requires ValidBinding(base, groups) && TemplateFits(t, base, groups)
      modifies this`representatives, this`expressions
      ensures Valid() && old(representatives) <= representatives
      ensures Rebuilt(base, representatives, groups, t, id)
      decreases TemplateSize(t, GroupSizes(base, groups)), TemplateWeight(t), 5
    {
      match t
      case Same(g) =>
        RebuiltSame(base, representatives, groups, g);
        return groups[g];
      case Fresh(amount) =>
        var value := AmountValue(amount, Constants(representatives, groups));
        SameConstants(base, representatives, groups, amount);
        NoArguments(representatives, Expression(Push(value), [], 0));
        id := Find(Push(value), [], 0);
        RebuiltFresh(base, representatives, groups, amount, id);
      case Build(instruction, templates) =>
        var ids := RebuildArguments(t, groups, base);
        ghost var before := representatives;
        Assembled(base, before, groups, t, ids);
        RuleHeadsAdmitted(instruction, admission);
        id := Find(Operation(instruction), ids, 0);
        RebuiltBuild(base, before, representatives, groups, t, ids, id);
    }

    method RebuildArguments(t: Template, groups: Binding, ghost base: seq<Expression>) returns (ids: seq<Id>)
      requires Valid() && ValidClasses(base) && base <= representatives
      requires ValidBinding(base, groups) && TemplateFits(t, base, groups) && t.Build?
      modifies this`representatives, this`expressions
      ensures Valid() && old(representatives) <= representatives
      ensures |ids| == |t.arguments| && AllRebuilt(base, representatives, groups, t.arguments, ids)
      decreases TemplateSize(t, GroupSizes(base, groups)), TemplateWeight(t), 4
    {
      ids := [];
      for k := 0 to |t.arguments|
        invariant Valid() && old(representatives) <= representatives && |ids| == k
        invariant AllRebuilt(base, representatives, groups, t.arguments, ids)
      {
        ghost var before := representatives;
        ArgumentSmaller(t, k, GroupSizes(base, groups));
        var c := RebuildExpression(t.arguments[k], groups, base);
        OneMoreRebuilt(base, before, representatives, groups, t.arguments, ids, c);
        ids := ids + [c];
      }
    }

    /** A class different from all others. */
    method NewClass() returns (id: Id)
      requires Valid()
      modifies this`representatives, this`expressions
      ensures Valid() && old(representatives) <= representatives
      ensures id == |old(representatives)| < |representatives|
      ensures representatives[id] == Expression(UndefinedItem(SIGN_BIT + id), [], 0)
    {
      id := |representatives|;
      var exp := Expression(UndefinedItem(SIGN_BIT + id), [], 0);
      AddRepresentative(exp);
      Remember(exp, id);
    }

    // ----- what is known about the value of a class -----

    function KnownConstant(c: Id): (r: Option<Word>)
      requires Valid() && c < |representatives|
      reads this
      ensures r.Some? ==> forall v: Valuation :: ClassValue(representatives, c, v) == r.value
    {
      if representatives[c].item.Push? then
        assert forall v: Valuation :: ClassValue(representatives, c, v) == representatives[c].item.value by {
          forall v: Valuation {
            ClassValueIs(representatives, c, v);
          }
        }
        Some(representatives[c].item.value)
      else None
    }

    predicate KnownZero(c: Id)
      requires Valid() && c < |representatives|
      reads this
      ensures KnownZero(c) ==> forall v: Valuation :: ClassValue(representatives, c, v) == 0
    {
      KnownConstant(c) == Some(0)
    }

    method KnownNonZero(c: Id) returns (r: bool)
      requires Valid() && c < |representatives|
      modifies this`representatives, this`expressions
      ensures Valid() && old(representatives) <= representatives
      ensures r ==> forall v: Valuation :: ClassValue(representatives, c, v) != 0
    {
      var z := Find(Operation(ISZERO), [c], 0);
      r := representatives[z].item == Push(0);
      if r {
        ZeroTest(representatives, c, z);
      }
    }

    method KnownToBeDifferent(a: Id, b: Id) returns (r: bool)
      requires Valid() && a < |representatives| && b < |representatives|
      modifies this`representatives, this`expressions
      ensures Valid() && old(representatives) <= representatives
      ensures r ==> forall v: Valuation :: ClassValue(representatives, a, v) != ClassValue(representatives, b, v)
    {
      var d := Find(Operation(SUB), [a, b], 0);
      ghost var before := representatives;
      r := KnownNonZero(d);
      if r {
        StillRepresents(before, representatives, Expression(Operation(SUB), [a, b], 0), d);
        DifferentClasses(representatives, a, b, d);
      }
    }

    /** Different by at least 32, whichever of the two is larger. */
    method KnownToBeDifferentBy32(a: Id, b: Id) returns (r: bool)
      requires Valid() && a < |representatives| && b < |representatives|
      modifies this`representatives, this`expressions
      ensures Valid() && old(representatives) <= representatives
      ensures r ==> forall v: Valuation ::
        Apart(ClassValue(representatives, a, v), ClassValue(representatives, b, v))
    {
      var d := Find(Operation(SUB), [a, b], 0);
      var difference := KnownConstant(d);
      r := difference.Some? && FarFromZero(difference.value);
      if r {
        ApartClasses(representatives, a, b, d);
      }
    }
  }
}
