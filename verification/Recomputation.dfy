/**
 * Which classes generated items compute, and when computing a class once more gives its value: not if the value is
 * what an instruction has left that may leave something else each time, or what was asked before the last call.
 */
module Recomputation {
  import opened Words
  import opened BigEndian
  import opened Evm
  import opened Classes
  import opened Expressions

  // ----- computing a class once more -----

  /** Whatever the valuation of that era, the item of the class, applied to its arguments, has the class's value. */
  ghost predicate SameAgain(reps: seq<Expression>, c: Id, era: nat)
    requires ValidClasses(reps) && c < |reps| && ValidExpression(reps[c], |reps|)
  {
    forall v: Valuation :: v.era == era ==> ExpressionValue(reps, reps[c], v) == ClassValue(reps, c, v)
  }

  lemma {:induction false} SameAgainExactly(reps: seq<Expression>, c: Id, era: nat)
    requires ValidClasses(reps) && c < |reps|
    ensures ValidExpression(reps[c], |reps|)
    ensures SameAgain(reps, c, era) <==> !IsRecorded(reps[c].item, c, era)
  {
    assert ValidExpression(reps[c], c);
    if IsRecorded(reps[c].item, c, era) {
      var v := AnyValuation(era);
      var w := ExpressionValue(reps, reps[c], v);
      var v' := v.(outcome := (d: Id) => if d == c then (w + 1) % MODULUS else v.outcome(d));
      SameArguments(reps, c, v, v');
      assert ClassValue(reps, c, v') == (w + 1) % MODULUS;
    } else {
      forall v: Valuation | v.era == era
        ensures ExpressionValue(reps, reps[c], v) == ClassValue(reps, c, v)
      {
        ClassValueIs(reps, c, v);
      }
    }
  }

  function ZeroCell(k: int): Cell { Cell(0) }

  function ZeroByte(a: int): Byte { ZERO_BYTE }

  lemma AnyValuation(era: nat) returns (v: Valuation)
    ensures v.era == era
  {
    var env := Env((_: AssemblyItem) => 0, (_: Instruction, _: seq<Word>) => 0);
    var store := Store(imap k: int :: ZeroCell(k), imap a: int :: ZeroByte(a));
    v := Valuation(env, (_: int) => 0, (_: nat) => store, (_: Id) => 0, era);
  }

  /** The item of a class does not look at what is recorded for the class. */
  lemma {:induction false} SameArguments(reps: seq<Expression>, c: Id, v: Valuation, v': Valuation)
    requires ValidClasses(reps) && c < |reps| && ValidExpression(reps[c], |reps|)
    requires v' == v.(outcome := v'.outcome) && forall d :: 0 <= d < c ==> v.outcome(d) == v'.outcome(d)
    ensures ExpressionValue(reps, reps[c], v) == ExpressionValue(reps, reps[c], v')
  {
    assert ValidExpression(reps[c], c);
    forall k | 0 <= k < |reps[c].arguments|
      ensures ClassValue(reps, reps[c].arguments[k], v) == ClassValue(reps, reps[c].arguments[k], v')
    {
      EarlierValue(reps, reps[c].arguments[k], v, v');
    }
    assert ArgumentValues(reps, reps[c].arguments, v) == ArgumentValues(reps, reps[c].arguments, v');
    assert forall m: nat :: v.history(m) == v'.history(m);
  }

  // ----- which classes are computed -----

  /** The class is not there, and it is wanted, or an argument of one that has to be computed. */
  predicate Needed(reps: seq<Expression>, available: set<Id>, wanted: set<Id>, c: Id)
    decreases |reps| - c
  {
    && c < |reps| && c !in available
    && (|| c in wanted
        || exists d :: c < d < |reps| && c in reps[d].arguments && Needed(reps, available, wanted, d))
  }

  /** The generator takes care of up to two arguments by hand, and has no way to get an unknown element. */
  predicate Computable(e: Expression) { !e.item.UndefinedItem? && |e.arguments| <= 2 }

  ghost predicate AccountedFor(reps: seq<Expression>, available: set<Id>, wanted: set<Id>, there: set<Id>, c: Id)
  {
    Needed(reps, available, wanted, c) && Computable(reps[c]) && AllIn(reps[c].arguments, there)
  }

  /** Besides what was there, only what is needed has been computed, and all arguments before. */
  ghost predicate Accounted(reps: seq<Expression>, available: set<Id>, wanted: set<Id>, there: set<Id>)
  {
    && available <= there
    && forall c :: c in there && c !in available ==> AccountedFor(reps, available, wanted, there, c)
  }

  predicate AllIn(args: seq<Id>, there: set<Id>) { forall a :: a in args ==> a in there }

  lemma OneMoreIn(args: seq<Id>, k: nat, there: set<Id>, more: set<Id>)
    requires k < |args| && AllIn(args[k + 1..], there) && there <= more && args[k] in more
    ensures AllIn(args[k..], more)
  {
    assert args[k..] == [args[k]] + args[k + 1..];
  }

  lemma {:induction false} OneMoreAccounted(
    reps: seq<Expression>, available: set<Id>, wanted: set<Id>, there: set<Id>, c: Id)
    requires Accounted(reps, available, wanted, there) && AccountedFor(reps, available, wanted, there, c)
    ensures Accounted(reps, available, wanted, there + {c})
  {
    forall d | d in there + {c} && d !in available
      ensures AccountedFor(reps, available, wanted, there + {c}, d)
    {
      assert AccountedFor(reps, available, wanted, there, d);
    }
  }

  /** What a needed class is computed from is there, or needed. */
  lemma {:induction false} ArgumentNeeded(
    reps: seq<Expression>, available: set<Id>, wanted: set<Id>, c: Id, a: Id)
    requires ValidClasses(reps) && Needed(reps, available, wanted, c) && a in reps[c].arguments
    ensures a in available || Needed(reps, available, wanted, a)
  {
    assert ValidExpression(reps[c], c);
  }

  /** When everything that is wanted is there, so is everything that is needed. */
  lemma {:induction false} NeededIsThere(
    reps: seq<Expression>, available: set<Id>, wanted: set<Id>, there: set<Id>, c: Id)
    requires Accounted(reps, available, wanted, there) && wanted <= there && Needed(reps, available, wanted, c)
    ensures c in there
    decreases |reps| - c
  {
    if c !in wanted {
      var d :| c < d < |reps| && c in reps[d].arguments && Needed(reps, available, wanted, d);
      NeededIsThere(reps, available, wanted, there, d);
      assert AccountedFor(reps, available, wanted, there, d);
    }
  }

  /** The classes that are there besides those that have been: exactly those that are needed. */
  ghost predicate ComputedExactly(reps: seq<Expression>, available: set<Id>, wanted: set<Id>, computed: set<Id>)
  {
    forall c :: c in computed <==> Needed(reps, available, wanted, c)
  }

  lemma {:induction false} AllAccounted(
    reps: seq<Expression>, available: set<Id>, wanted: set<Id>, there: set<Id>)
    requires Accounted(reps, available, wanted, there) && wanted <= there
    ensures ComputedExactly(reps, available, wanted, there - available)
  {
    forall c
      ensures c in there - available <==> Needed(reps, available, wanted, c)
    {
      if c in there - available {
        assert AccountedFor(reps, available, wanted, there, c);
      } else if Needed(reps, available, wanted, c) {
        NeededIsThere(reps, available, wanted, there, c);
      }
    }
  }

  // ----- what that means for the items -----

  ghost predicate AllRun(reps: seq<Expression>, computed: set<Id>)
  {
    forall c :: c in computed ==> c < |reps| && Runnable(reps[c].item)
  }

  /** None of the classes has a value that was got before and that its item would have to get once more. */
  ghost predicate NoneRecorded(reps: seq<Expression>, computed: set<Id>, era: nat)
  {
    forall c :: c in computed && c < |reps| ==> !IsRecorded(reps[c].item, c, era)
  }

  /** All of the classes can be computed by items that run straight on, and come out the same as before. */
  ghost predicate Repeatable(reps: seq<Expression>, computed: set<Id>, era: nat)
  {
    AllRun(reps, computed) && NoneRecorded(reps, computed, era)
  }

  /** Those that ask what was asked before the era. */
  ghost function AskedBefore(reps: seq<Expression>, computed: set<Id>, era: nat): set<Id>
  {
    set c | c in computed && c < |reps| && IsQueryItem(reps[c].item) && c < era
  }

  lemma RepeatableIs(reps: seq<Expression>, computed: set<Id>, era: nat)
    requires AllRun(reps, computed) && AskedBefore(reps, computed, era) == {}
    ensures Repeatable(reps, computed, era)
  {
    forall c | c in computed
      ensures !IsRecorded(reps[c].item, c, era)
    {
      RunnableNotIndeterminate(reps[c].item);
      assert c !in AskedBefore(reps, computed, era);
    }
  }

  lemma NothingAskedBefore(reps: seq<Expression>, computed: set<Id>, era: nat)
    requires NothingAsked(reps, era)
    ensures AskedBefore(reps, computed, era) == {}
  {
    forall c
      ensures c !in AskedBefore(reps, computed, era)
    {
    }
  }

  ghost predicate AllComputable(reps: seq<Expression>, computed: set<Id>)
  {
    forall c :: c in computed ==> c < |reps| && Computable(reps[c])
  }

  /** Nothing was asked before the era. */
  ghost predicate NothingAsked(reps: seq<Expression>, era: nat)
  {
    forall c :: 0 <= c < |reps| && IsQueryItem(reps[c].item) ==> era <= c
  }

  lemma StillNothingAsked(reps: seq<Expression>, reps': seq<Expression>, era: nat)
    requires NothingAsked(reps, era) && reps <= reps' && era <= |reps|
    ensures NothingAsked(reps', era)
  {
    forall c | 0 <= c < |reps'| && IsQueryItem(reps'[c].item)
      ensures era <= c
    {
      if c < |reps| {
        assert reps'[c] == reps[c];
      }
    }
  }

  lemma CallTakesMore(i: Instruction)
    requires IsCall(i)
    ensures Info(i).args > 2
  {
  }

  /** Without counters, every class that is computed is computed by straight-line code; calls never are. */
  lemma AllRunWithoutCounters(reps: seq<Expression>, a: Admission, computed: set<Id>)
    requires ValidClasses(reps) && AllAdmitted(reps, a) && !a.counters && AllComputable(reps, computed)
    ensures AllRun(reps, computed)
  {
    forall c | c in computed
      ensures c < |reps| && Runnable(reps[c].item)
    {
      assert ValidExpression(reps[c], c) && Admitted(reps[c].item, a);
      if reps[c].item.Operation? && IsCall(reps[c].item.instruction) {
        CallTakesMore(reps[c].item.instruction);
      }
    }
  }

  lemma RunnableNotIndeterminate(item: AssemblyItem)
    requires Runnable(item)
    ensures !IsIndeterminate(item)
  {
  }
}
