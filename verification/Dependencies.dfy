/**
 * Which classes have to be computed first: the pairs (a, b) where a is needed to compute b. The pairs are closed
 * if everything a class needs is in them, including, for a load, the last write to each slot it could see.
 */
module Dependencies {
  import opened Words
  import opened Evm
  import opened Classes
  import opened Expressions
  import opened Knowledge
  import opened Tracking
  import opened StoreHistory
  import opened Production

  type Pairs = set<(Id, Id)>

  /** The writes to one slot, in order. */
  type Groups = map<(Target, Id), seq<StoreOperation>>

  predicate AllStores(ops: seq<StoreOperation>) { forall i :: 0 <= i < |ops| ==> ops[i].StoreOperation? }

  predicate Ascending(ops: seq<StoreOperation>)
    requires AllStores(ops)
  {
    forall i, j :: 0 <= i < j < |ops| ==> ops[i].sequenceNumber < ops[j].sequenceNumber
  }

  function SlotOf(op: StoreOperation): (Target, Id)
    requires op.StoreOperation?
  {
    (op.target, op.slot)
  }

  ghost predicate IsGroup(ops: seq<StoreOperation>, key: (Target, Id), group: seq<StoreOperation>)
    requires AllStores(ops)
  {
    && group != [] && AllStores(group) && Ascending(group)
    && (forall o :: o in group <==> o in ops && SlotOf(o) == key)
  }

  ghost predicate Grouped(ops: seq<StoreOperation>, groups: Groups)
    requires AllStores(ops)
  {
    && (forall key :: key in groups ==> IsGroup(ops, key, groups[key]))
    && (forall o :: o in ops ==> SlotOf(o) in groups)
  }

  function Added(groups: Groups, op: StoreOperation): Groups
    requires op.StoreOperation?
  {
    groups[SlotOf(op) := (if SlotOf(op) in groups then groups[SlotOf(op)] else []) + [op]]
  }

  lemma OneMoreGrouped(ops: seq<StoreOperation>, op: StoreOperation, groups: Groups)
    requires AllStores(ops) && op.StoreOperation? && Grouped(ops, groups)
    requires forall o :: o in ops ==> o.sequenceNumber < op.sequenceNumber
    ensures AllStores(ops + [op]) && Grouped(ops + [op], Added(groups, op))
  {
    var groups' := Added(groups, op);
    forall key | key in groups'
      ensures IsGroup(ops + [op], key, groups'[key])
    {
      if key in groups {
        assert IsGroup(ops, key, groups[key]);
      }
    }
  }

  // ----- the last write of a group before some number -----

  ghost predicate IsLatest(group: seq<StoreOperation>, n: nat, op: StoreOperation)
    requires AllStores(group)
  {
    && op in group && op.sequenceNumber < n
    && forall o :: o in group && o.sequenceNumber < n ==> o.sequenceNumber <= op.sequenceNumber
  }

  lemma IndexOf(ops: seq<StoreOperation>, op: StoreOperation) returns (k: nat)
    requires op in ops
    ensures k < |ops| && ops[k] == op
  {
    k :| 0 <= k < |ops| && ops[k] == op;
  }

  /** A group's later write is the later one of all writes, too. */
  lemma LaterIs(ops: seq<StoreOperation>, i: nat, k: nat)
    requires AllStores(ops) && Ascending(ops) && i < |ops| && k < |ops|
    requires ops[i].sequenceNumber <= ops[k].sequenceNumber && SlotOf(ops[i]) == SlotOf(ops[k])
    ensures Overwrites(ops, i, k)
  {
  }

  // ----- closed pairs -----

  /** A write before number n that overwrites write i is needed for class c. */
  ghost predicate OverwriteNeeded(ops: seq<StoreOperation>, pairs: Pairs, n: nat, c: Id, i: nat)
    requires AllStores(ops) && i < |ops|
  {
    exists k: nat :: Overwrites(ops, i, k) && ops[k].sequenceNumber < n && (ops[k].expression, c) in pairs
  }

  /**
   * Write i is out of sight of the load of slot at number n by class c, or a later write to its slot is needed for
   * c.
   */
  ghost predicate Covered(
    reps: seq<Expression>, ops: seq<StoreOperation>, pairs: Pairs, slot: Id, n: nat, c: Id, i: nat)
    requires Operations(reps, ops) && AllStores(ops) && i < |ops|
  {
    AlwaysIndependent(reps, ops[i].target, ops[i].slot, slot) || OverwriteNeeded(ops, pairs, n, c, i)
  }

  predicate IsLoadOf(e: Expression, t: Target) { e.item == Operation(LoadInstruction(t)) && |e.arguments| == 1 }

  ghost predicate LoadClosed(reps: seq<Expression>, ops: seq<StoreOperation>, pairs: Pairs, t: Target, c: Id)
    requires Operations(reps, ops) && AllStores(ops) && c < |reps| && IsLoadOf(reps[c], t)
  {
    forall i :: 0 <= i < |ops| && ops[i].target == t && ops[i].sequenceNumber < reps[c].sequenceNumber ==>
      Covered(reps, ops, pairs, reps[c].arguments[0], reps[c].sequenceNumber, c, i)
  }

  ghost predicate AllNeeded(args: seq<Id>, c: Id, pairs: Pairs)
  {
    forall k :: 0 <= k < |args| ==> (args[k], c) in pairs
  }

  lemma OneMoreNeeded(args: seq<Id>, c: Id, k: nat, pairs: Pairs, pairs': Pairs)
    requires k < |args| && AllNeeded(args[..k], c, pairs) && pairs <= pairs' && (args[k], c) in pairs'
    ensures AllNeeded(args[..k + 1], c, pairs')
  {
    var more := args[..k + 1];
    forall j | 0 <= j < |more|
      ensures (more[j], c) in pairs'
    {
      assert j < k ==> args[..k][j] == more[j];
    }
  }

  /** Everything that computing c needs is in the pairs; classes that are available need nothing. */
  ghost predicate Closed(
    reps: seq<Expression>, ops: seq<StoreOperation>, available: set<Id>, pairs: Pairs, c: Id)
    requires Operations(reps, ops)
  {
    c in available || (
      && c < |reps| && !reps[c].item.UndefinedItem?
      && AllNeeded(reps[c].arguments, c, pairs)
      && (forall t :: IsLoadOf(reps[c], t) ==> LoadClosed(reps, ops, pairs, t, c)))
  }

  /** Values that were known at number n, and the writes up to it. */
  ghost predicate Relevant(reps: seq<Expression>, ops: seq<StoreOperation>, c: Id, n: nat)
    requires Operations(reps, ops)
  {
    Settled(reps, c, n) || exists i :: 0 <= i < |ops| && ops[i].expression == c && ops[i].sequenceNumber <= n
  }

  // ----- growing classes and pairs -----

  lemma StillOperations(reps: seq<Expression>, reps': seq<Expression>, ops: seq<StoreOperation>)
    requires Operations(reps, ops) && ValidClasses(reps') && reps <= reps'
    ensures Operations(reps', ops)
  {
    forall i | 0 <= i < |ops|
      ensures SettledStore(reps', ops[i])
    {
      var n := ops[i].sequenceNumber;
      SettledStill(reps, reps', ops[i].slot, n, n);
      SettledStill(reps, reps', StoredValue(reps, ops[i]), n, n);
    }
  }

  lemma StillIndependent(reps: seq<Expression>, reps': seq<Expression>, t: Target, a: Id, b: Id)
    requires ValidClasses(reps) && ValidClasses(reps') && reps <= reps' && a < |reps| && b < |reps|
    requires AlwaysIndependent(reps, t, a, b)
    ensures AlwaysIndependent(reps', t, a, b)
  {
    forall v: Valuation
      ensures Independent(t, ValuesOf(reps', v)(a), ValuesOf(reps', v)(b))
    {
      SameValueStill(reps, reps', a, v);
      SameValueStill(reps, reps', b, v);
      assert Independent(t, ValuesOf(reps, v)(a), ValuesOf(reps, v)(b));
    }
  }

  lemma StillCovered(
    reps: seq<Expression>, reps': seq<Expression>, ops: seq<StoreOperation>, pairs: Pairs, pairs': Pairs,
    slot: Id, n: nat, c: Id, i: nat)
    requires AllStores(ops) && Operations(reps, ops) && Operations(reps', ops) && reps <= reps' && pairs <= pairs'
    requires i < |ops| && slot < |reps| && Covered(reps, ops, pairs, slot, n, c, i)
    ensures Covered(reps', ops, pairs', slot, n, c, i)
  {
    if AlwaysIndependent(reps, ops[i].target, ops[i].slot, slot) {
      StillIndependent(reps, reps', ops[i].target, ops[i].slot, slot);
    }
  }

  lemma StillClosed(
    reps: seq<Expression>, reps': seq<Expression>, ops: seq<StoreOperation>, available: set<Id>,
    pairs: Pairs, pairs': Pairs, c: Id)
    requires Operations(reps, ops) && Operations(reps', ops) && reps <= reps' && pairs <= pairs'
    requires Closed(reps, ops, available, pairs, c)
    ensures Closed(reps', ops, available, pairs', c)
  {
    if c !in available {
      assert ValidExpression(reps[c], c);
      forall t | IsLoadOf(reps[c], t)
        ensures LoadClosed(reps', ops, pairs', t, c)
      {
        forall i | 0 <= i < |ops| && ops[i].target == t && ops[i].sequenceNumber < reps[c].sequenceNumber
          ensures Covered(reps', ops, pairs', reps[c].arguments[0], reps[c].sequenceNumber, c, i)
        {
          StillCovered(reps, reps', ops, pairs, pairs', reps[c].arguments[0], reps[c].sequenceNumber, c, i);
        }
      }
    }
  }

  lemma StillRelevant(reps: seq<Expression>, reps': seq<Expression>, ops: seq<StoreOperation>, c: Id, n: nat, n': nat)
    requires Operations(reps, ops) && Operations(reps', ops) && reps <= reps' && n <= n' && Relevant(reps, ops, c, n)
    ensures Relevant(reps', ops, c, n')
  {
    if Settled(reps, c, n) {
      SettledStill(reps, reps', c, n, n');
    }
  }

  /** The first of each pair is closed, and both are relevant. */
  ghost predicate GoodPairs(
    reps: seq<Expression>, ops: seq<StoreOperation>, available: set<Id>, pairs: Pairs, last: nat)
    requires Operations(reps, ops)
  {
    forall p :: p in pairs ==>
      && Closed(reps, ops, available, pairs, p.0) && Relevant(reps, ops, p.0, last) && Relevant(reps, ops, p.1, last)
  }

  /** Every pair that was not there before is closed on both sides, except for class c. */
  ghost predicate NewClosed(
    reps: seq<Expression>, ops: seq<StoreOperation>, available: set<Id>, before: Pairs, pairs: Pairs, c: Id)
    requires Operations(reps, ops)
  {
    forall p :: p in pairs && p !in before && p.1 != c ==> Closed(reps, ops, available, pairs, p.1)
  }

  lemma StillGood(
    reps: seq<Expression>, reps': seq<Expression>, ops: seq<StoreOperation>, available: set<Id>, pairs: Pairs,
    last: nat)
    requires Operations(reps, ops) && Operations(reps', ops) && reps <= reps'
    requires GoodPairs(reps, ops, available, pairs, last)
    ensures GoodPairs(reps', ops, available, pairs, last)
  {
    forall p | p in pairs
      ensures Closed(reps', ops, available, pairs, p.0) && Relevant(reps', ops, p.0, last)
      ensures Relevant(reps', ops, p.1, last)
    {
      StillClosed(reps, reps', ops, available, pairs, pairs, p.0);
      StillRelevant(reps, reps', ops, p.0, last, last);
      StillRelevant(reps, reps', ops, p.1, last, last);
    }
  }

  lemma OneMorePair(
    reps: seq<Expression>, ops: seq<StoreOperation>, available: set<Id>, pairs: Pairs, last: nat, a: Id, b: Id)
    requires Operations(reps, ops) && GoodPairs(reps, ops, available, pairs, last)
    requires Closed(reps, ops, available, pairs, a) && Relevant(reps, ops, a, last) && Relevant(reps, ops, b, last)
    ensures GoodPairs(reps, ops, available, pairs + {(a, b)}, last)
  {
    forall p | p in pairs + {(a, b)}
      ensures Closed(reps, ops, available, pairs + {(a, b)}, p.0)
    {
      StillClosed(reps, reps, ops, available, pairs, pairs + {(a, b)}, p.0);
    }
  }

  lemma StillNewClosed(
    reps: seq<Expression>, reps': seq<Expression>, ops: seq<StoreOperation>, available: set<Id>,
    before: Pairs, pairs: Pairs, pairs': Pairs, c: Id, d: Id)
    requires Operations(reps, ops) && Operations(reps', ops) && reps <= reps' && before <= pairs <= pairs'
    requires NewClosed(reps, ops, available, before, pairs, c)
    requires NewClosed(reps', ops, available, pairs, pairs', d) && Closed(reps', ops, available, pairs', d)
    ensures NewClosed(reps', ops, available, before, pairs', c)
  {
    forall p | p in pairs' && p !in before && p.1 != c
      ensures Closed(reps', ops, available, pairs', p.1)
    {
      if p in pairs {
        StillClosed(reps, reps', ops, available, pairs, pairs', p.1);
      }
    }
  }

  // ----- the steps of collecting dependencies -----

  lemma ArgumentSettled(reps: seq<Expression>, c: Id, n: nat, k: nat)
    requires ValidClasses(reps) && Settled(reps, c, n) && k < |reps[c].arguments|
    ensures reps[c].arguments[k] < c && Settled(reps, reps[c].arguments[k], n)
  {
    assert ValidExpression(reps[c], c);
  }

  lemma StoreArgumentSettled(reps: seq<Expression>, op: StoreOperation, n: nat, k: nat)
    requires ValidClasses(reps) && SettledStore(reps, op) && op.sequenceNumber <= n
    requires k < |reps[op.expression].arguments|
    ensures reps[op.expression].arguments[k] < op.expression && Settled(reps, reps[op.expression].arguments[k], n)
  {
    assert ValidExpression(reps[op.expression], op.expression);
    SettledStill(reps, reps, reps[op.expression].arguments[k], op.sequenceNumber, n);
  }

  lemma ArgumentRelevant(reps: seq<Expression>, ops: seq<StoreOperation>, c: Id, n: nat, k: nat)
    requires Operations(reps, ops) && c < |reps| && k < |reps[c].arguments| && Relevant(reps, ops, c, n)
    ensures reps[c].arguments[k] < c && Settled(reps, reps[c].arguments[k], n)
  {
    if Settled(reps, c, n) {
      ArgumentSettled(reps, c, n, k);
    } else {
      var i :| 0 <= i < |ops| && ops[i].expression == c && ops[i].sequenceNumber <= n;
      StoreArgumentSettled(reps, ops[i], n, k);
    }
  }

  lemma RelevantExists(reps: seq<Expression>, ops: seq<StoreOperation>, c: Id, n: nat)
    requires Operations(reps, ops) && Relevant(reps, ops, c, n)
    ensures c < |reps| && reps[c].sequenceNumber <= n
  {
    if !Settled(reps, c, n) {
      var i :| 0 <= i < |ops| && ops[i].expression == c && ops[i].sequenceNumber <= n;
      assert SettledStore(reps, ops[i]);
    }
  }

  lemma OperationRelevant(reps: seq<Expression>, ops: seq<StoreOperation>, op: StoreOperation)
    requires Operations(reps, ops) && op in ops
    ensures op.StoreOperation? && Relevant(reps, ops, op.expression, op.sequenceNumber)
  {
    var k := IndexOf(ops, op);
    assert SettledStore(reps, ops[k]);
  }

  /** A relevant load is a value, and loads and writes never have the same number. */
  lemma LoadIsOdd(reps: seq<Expression>, ops: seq<StoreOperation>, c: Id, n: nat, t: Target)
    requires Operations(reps, ops) && Relevant(reps, ops, c, n) && c < |reps| && IsLoadOf(reps[c], t)
    ensures reps[c].sequenceNumber % 2 == 1
  {
    forall i | 0 <= i < |ops|
      ensures ops[i].StoreOperation? && ops[i].expression != c
    {
      assert SettledStore(reps, ops[i]);
    }
  }

  lemma StoreIsEven(reps: seq<Expression>, ops: seq<StoreOperation>, op: StoreOperation)
    requires Operations(reps, ops) && op in ops
    ensures op.StoreOperation? && op.sequenceNumber > 0 && op.sequenceNumber % 2 == 0
  {
    var k := IndexOf(ops, op);
    assert SettledStore(reps, ops[k]);
  }

  /** The writes to the slots in todo are still to be looked at; all others are covered. */
  ghost predicate CoveredExcept(
    reps: seq<Expression>, ops: seq<StoreOperation>, pairs: Pairs, t: Target, slot: Id, n: nat, c: Id,
    todo: set<(Target, Id)>)
    requires Operations(reps, ops) && AllStores(ops)
  {
    forall i :: 0 <= i < |ops| && ops[i].target == t && ops[i].sequenceNumber < n && SlotOf(ops[i]) !in todo ==>
      Covered(reps, ops, pairs, slot, n, c, i)
  }

  lemma StillCoveredExcept(
    reps: seq<Expression>, reps': seq<Expression>, ops: seq<StoreOperation>, pairs: Pairs, pairs': Pairs,
    t: Target, slot: Id, n: nat, c: Id, todo: set<(Target, Id)>)
    requires AllStores(ops) && Operations(reps, ops) && Operations(reps', ops) && reps <= reps' && pairs <= pairs'
    requires slot < |reps| && CoveredExcept(reps, ops, pairs, t, slot, n, c, todo)
    ensures CoveredExcept(reps', ops, pairs', t, slot, n, c, todo)
  {
    forall i | 0 <= i < |ops| && ops[i].target == t && ops[i].sequenceNumber < n && SlotOf(ops[i]) !in todo
      ensures Covered(reps', ops, pairs', slot, n, c, i)
    {
      StillCovered(reps, reps', ops, pairs, pairs', slot, n, c, i);
    }
  }

  /**
   * A slot is dealt with if it is for the other kind of store, only written later, independent, or its latest write
   * needed.
   */
  lemma OneMoreCovered(
    reps: seq<Expression>, ops: seq<StoreOperation>, pairs: Pairs, t: Target, slot: Id, n: nat, c: Id,
    todo: set<(Target, Id)>, key: (Target, Id), group: seq<StoreOperation>)
    requires AllStores(ops) && Operations(reps, ops) && IsGroup(ops, key, group)
    requires CoveredExcept(reps, ops, pairs, t, slot, n, c, todo + {key})
    requires || key.0 != t
             || group[0].sequenceNumber > n
             || AlwaysIndependent(reps, key.0, key.1, slot)
             || exists op :: IsLatest(group, n, op) && (op.expression, c) in pairs
    ensures CoveredExcept(reps, ops, pairs, t, slot, n, c, todo)
  {
    forall i | 0 <= i < |ops| && ops[i].target == t && ops[i].sequenceNumber < n && SlotOf(ops[i]) == key
      ensures Covered(reps, ops, pairs, slot, n, c, i)
    {
      assert ops[i] in group;
      if exists op :: IsLatest(group, n, op) && (op.expression, c) in pairs {
        var op :| IsLatest(group, n, op) && (op.expression, c) in pairs;
        var k := IndexOf(ops, op);
        LaterIs(ops, i, k);
        assert OverwriteNeeded(ops, pairs, n, c, i);
      } else {
        var j := IndexOf(group, ops[i]);
        assert group[0].sequenceNumber <= group[j].sequenceNumber;
      }
    }
  }

  lemma LoadIsClosed(reps: seq<Expression>, ops: seq<StoreOperation>, pairs: Pairs, t: Target, c: Id)
    requires Operations(reps, ops) && AllStores(ops) && c < |reps| && IsLoadOf(reps[c], t)
    requires CoveredExcept(reps, ops, pairs, t, reps[c].arguments[0], reps[c].sequenceNumber, c, {})
    ensures LoadClosed(reps, ops, pairs, t, c)
  {
  }

  lemma FirstOfGroup(reps: seq<Expression>, ops: seq<StoreOperation>, groups: Groups, key: (Target, Id))
    requires Operations(reps, ops) && AllStores(ops) && Grouped(ops, groups) && key in groups
    ensures var group := groups[key];
      && group != [] && AllStores(group) && Ascending(group) && (forall o :: o in group ==> o in ops)
      && group[0].sequenceNumber % 2 == 0
  {
    assert IsGroup(ops, key, groups[key]);
    assert groups[key][0] in groups[key];
    StoreIsEven(reps, ops, groups[key][0]);
  }

  lemma GroupSlot(reps: seq<Expression>, ops: seq<StoreOperation>, key: (Target, Id), group: seq<StoreOperation>)
    requires Operations(reps, ops) && AllStores(ops) && IsGroup(ops, key, group)
    ensures key.1 < |reps|
  {
    assert group[0] in group;
    var k := IndexOf(ops, group[0]);
    assert SettledStore(reps, ops[k]);
  }

  lemma {:induction false} IndependentBy(reps: seq<Expression>, t: Target, a: Id, b: Id)
    requires ValidClasses(reps) && a < |reps| && b < |reps|
    requires t == ToMemory ==> forall v: Valuation :: Apart(ClassValue(reps, a, v), ClassValue(reps, b, v))
    requires t == ToStorage ==> forall v: Valuation :: ClassValue(reps, a, v) != ClassValue(reps, b, v)
    ensures AlwaysIndependent(reps, t, a, b)
  {
    forall v: Valuation
      ensures Independent(t, ValuesOf(reps, v)(a), ValuesOf(reps, v)(b))
    {
      assert t == ToMemory ==> Apart(ClassValue(reps, a, v), ClassValue(reps, b, v));
      assert t == ToStorage ==> ClassValue(reps, a, v) != ClassValue(reps, b, v);
    }
  }

  lemma ClosedBy(reps: seq<Expression>, ops: seq<StoreOperation>, available: set<Id>, pairs: Pairs, c: Id)
    requires Operations(reps, ops) && AllStores(ops) && c < |reps| && !reps[c].item.UndefinedItem?
    requires AllNeeded(reps[c].arguments, c, pairs)
    requires IsLoadOf(reps[c], ToStorage) ==> LoadClosed(reps, ops, pairs, ToStorage, c)
    requires IsLoadOf(reps[c], ToMemory) ==> LoadClosed(reps, ops, pairs, ToMemory, c)
    ensures Closed(reps, ops, available, pairs, c)
  {
    forall t | IsLoadOf(reps[c], t)
      ensures LoadClosed(reps, ops, pairs, t, c)
    {
      assert t == ToStorage || t == ToMemory;
    }
  }

  lemma NewClosedFrom(
    reps: seq<Expression>, reps': seq<Expression>, ops: seq<StoreOperation>, available: set<Id>,
    before: Pairs, pairs: Pairs, pairs': Pairs, c: Id)
    requires Operations(reps, ops) && Operations(reps', ops) && reps <= reps' && before <= pairs <= pairs'
    requires NewClosed(reps, ops, available, before, pairs, c) && NewClosed(reps', ops, available, pairs, pairs', c)
    ensures NewClosed(reps', ops, available, before, pairs', c)
  {
    forall p | p in pairs' && p !in before && p.1 != c
      ensures Closed(reps', ops, available, pairs', p.1)
    {
      if p in pairs {
        StillClosed(reps, reps', ops, available, pairs, pairs', p.1);
      }
    }
  }
}
