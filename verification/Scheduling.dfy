/**
 * Loads and writes in the order of their numbers: when it is safe to carry one out, and what has been carried
 * out at the end.
 */
module Scheduling {
  import opened Evm
  import opened SemanticInformation
  import opened Classes
  import opened Expressions
  import opened Knowledge
  import opened Tracking
  import opened Generation
  import opened Production
  import opened Layout
  import opened Dependencies

  /** The writes whose classes have been computed. */
  function DoneIn(ops: seq<StoreOperation>, computed: set<Id>): set<nat>
    requires AllStores(ops)
  {
    set j: nat | j < |ops| && ops[j].expression in computed
  }

  lemma ExpressionsDiffer(reps: seq<Expression>, ops: seq<StoreOperation>, i: nat, j: nat)
    requires Operations(reps, ops) && i < |ops| && j < |ops|
    ensures ops[i].StoreOperation? && ops[j].StoreOperation?
    ensures ops[i].expression == ops[j].expression ==> i == j
  {
    assert SettledStore(reps, ops[i]) && SettledStore(reps, ops[j]);
  }

  /** Computing a class that is not one of the writes carries out no write. */
  lemma NoWriteDone(ops: seq<StoreOperation>, computed: set<Id>, more: set<Id>)
    requires AllStores(ops) && computed <= more
    requires forall i :: 0 <= i < |ops| && ops[i].expression in more ==> ops[i].expression in computed
    ensures DoneIn(ops, more) == DoneIn(ops, computed)
  {
  }

  lemma OneWriteDone(reps: seq<Expression>, ops: seq<StoreOperation>, computed: set<Id>, j: nat)
    requires Operations(reps, ops) && AllStores(ops) && j < |ops|
    ensures DoneIn(ops, computed + {ops[j].expression}) == DoneIn(ops, computed) + {j}
  {
    forall i | 0 <= i < |ops| && ops[i].expression == ops[j].expression
      ensures i == j
    {
      ExpressionsDiffer(reps, ops, i, j);
    }
  }

  lemma NoWriteIsValue(reps: seq<Expression>, ops: seq<StoreOperation>, c: Id, n: nat, i: nat)
    requires Operations(reps, ops) && Settled(reps, c, n) && i < |ops|
    ensures ops[i].StoreOperation? && ops[i].expression != c
  {
    assert SettledStore(reps, ops[i]);
  }

  /** A load can be computed now, or a write carried out, without disturbing the order. */
  ghost predicate AccessReady(reps: seq<Expression>, ops: seq<StoreOperation>, number: nat, done: set<nat>, c: Id)
    requires Operations(reps, ops) && AllStores(ops) && c < |reps|
  {
    && (forall t :: IsLoadOf(reps[c], t) ==>
          && number <= reps[c].sequenceNumber
          && LoadReady(reps, ops, t, reps[c].arguments[0], reps[c].sequenceNumber, done))
    && (forall j :: 0 <= j < |ops| && ops[j].expression == c ==> forall i :: i in done ==> i < j)
  }

  /** Classes without a sequence number are no accesses. */
  lemma UnsequencedReady(
    reps: seq<Expression>, ops: seq<StoreOperation>, number: nat, done: set<nat>, c: Id, n: nat)
    requires Operations(reps, ops) && AllStores(ops) && Settled(reps, c, n) && reps[c].sequenceNumber == 0
    ensures AccessReady(reps, ops, number, done, c)
  {
    forall j | 0 <= j < |ops|
      ensures ops[j].expression != c
    {
      assert SettledStore(reps, ops[j]);
    }
  }

  // ----- the item of a class, its arguments being in place -----

  lemma ValueProduces(
    reps: seq<Expression>, ops: seq<StoreOperation>, start: Start, computed: set<Id>, g: Generated, c: Id,
    args: seq<Id>, n: nat)
    requires Operations(reps, ops) && AllStores(ops) && Produces(reps, ops, start, computed, g)
    requires Contiguous(g.stack, start.base, g.height)
    requires Settled(reps, c, n) && !reps[c].item.UndefinedItem? && AccessReady(reps, ops, start.number, g.done, c)
    requires c in computed
    requires ArgumentsInPlace(reps[c], args) && OnTop(g.stack, g.height, args) && start.base <= g.height - |args| + 1
    ensures Produces(reps, ops, start, computed, Computed(g, reps[c].item, |args|, c))
  {
    var e := reps[c];
    assert ValidExpression(e, c);
    if !e.item.Operation? {
      PushProduces(reps, ops, start, computed, g, c);
    } else if e.item == Operation(SLOAD) {
      LoadValueProduces(reps, ops, start, computed, g, c, args, ToStorage);
    } else if e.item == Operation(MLOAD) {
      LoadValueProduces(reps, ops, start, computed, g, c, args, ToMemory);
    } else if IsPlain(e.item.instruction) {
      PlainProduces(reps, ops, start, computed, g, c, e.item.instruction, args);
    } else {
      OtherNotRunnable(e.item.instruction, e);
      NotRunnableProduces(reps, ops, start, computed, Computed(g, e.item, |args|, c));
    }
  }

  lemma LoadValueProduces(
    reps: seq<Expression>, ops: seq<StoreOperation>, start: Start, computed: set<Id>, g: Generated, c: Id,
    args: seq<Id>, t: Target)
    requires Operations(reps, ops) && AllStores(ops) && Produces(reps, ops, start, computed, g)
    requires Contiguous(g.stack, start.base, g.height)
    requires c < |reps| && reps[c].item == Operation(LoadInstruction(t)) && |reps[c].arguments| == 1
    requires AccessReady(reps, ops, start.number, g.done, c)
    requires ArgumentsInPlace(reps[c], args) && OnTop(g.stack, g.height, args) && start.base <= g.height - |args| + 1
    ensures Produces(reps, ops, start, computed, Computed(g, reps[c].item, |args|, c))
  {
    assert IsLoadOf(reps[c], t);
    assert args == [reps[c].arguments[0]];
    LoadProduces(reps, ops, start, computed, g, c, t, reps[c].arguments[0]);
  }

  /** A value that is neither a load nor plain has an instruction outside the straight-line fragment. */
  lemma OtherNotRunnable(i: Instruction, e: Expression)
    requires e.item == Operation(i) && IsValue(e) && i != SLOAD && i != MLOAD && !IsPlain(i)
    ensures !Runnable(e.item)
  {
  }

  lemma WriteProduces(
    reps: seq<Expression>, ops: seq<StoreOperation>, start: Start, computed: set<Id>, g: Generated, args: seq<Id>,
    j: nat)
    requires Operations(reps, ops) && AllStores(ops) && Produces(reps, ops, start, computed, g)
    requires Contiguous(g.stack, start.base, g.height) && j < |ops|
    requires ops[j].expression < |reps| && AccessReady(reps, ops, start.number, g.done, ops[j].expression)
    requires ArgumentsInPlace(reps[ops[j].expression], args) && OnTop(g.stack, g.height, args)
    requires start.base <= g.height - |args| + 1
    ensures |args| == 2 && reps[ops[j].expression].item == Operation(StoreInstruction(ops[j].target))
    ensures Produces(reps, ops, start, computed, Written(g, ops[j].target, j))
  {
    assert SettledStore(reps, ops[j]);
    assert !IsCommutativeOperation(reps[ops[j].expression].item);
    assert args == [ops[j].slot, StoredValue(reps, ops[j])];
    StoreProduces(reps, ops, start, computed, g, j);
  }

  // ----- the order of the sequenced classes -----

  /** The classes with a sequence number, as pairs of number and class. */
  type Sequenced = set<(nat, Id)>

  predicate Earlier(p: (nat, Id), q: (nat, Id)) { p.0 < q.0 || (p.0 == q.0 && p.1 < q.1) }

  ghost predicate IsSequenced(
    reps: seq<Expression>, ops: seq<StoreOperation>, available: set<Id>, pairs: Pairs, last: nat, s: Sequenced)
    requires Operations(reps, ops)
  {
    && (forall q :: q in s ==>
         && q.1 < |reps| && q.0 == reps[q.1].sequenceNumber
         && Relevant(reps, ops, q.1, last) && Closed(reps, ops, available, pairs, q.1))
    && forall p, d :: p in pairs && d in {p.0, p.1} && d < |reps| && reps[d].sequenceNumber > 0 ==>
         (reps[d].sequenceNumber, d) in s
  }

  /** Everything up to now has been computed, and no write after it. */
  ghost predicate InOrder(ops: seq<StoreOperation>, computed: set<Id>, s: Sequenced, todo: Sequenced)
    requires AllStores(ops)
  {
    && todo <= s
    && (forall p, q :: p in s && p !in todo && q in todo ==> Earlier(p, q))
    && (forall p :: p in s && p !in todo ==> p.1 in computed)
    && (forall i :: i in DoneIn(ops, computed) ==>
         (ops[i].sequenceNumber, ops[i].expression) in s && (ops[i].sequenceNumber, ops[i].expression) !in todo)
  }

  /** The first class still to do can be done now. */
  lemma FirstReady(
    reps: seq<Expression>, ops: seq<StoreOperation>, number: nat, available: set<Id>, pairs: Pairs, last: nat,
    computed: set<Id>, s: Sequenced, todo: Sequenced, q: (nat, Id))
    requires Operations(reps, ops) && AllStores(ops) && IsSequenced(reps, ops, available, pairs, last, s)
    requires InOrder(ops, computed, s, todo) && available <= computed && q in todo && q.1 !in computed
    requires forall p :: p in todo && p != q ==> Earlier(q, p)
    requires number <= q.0 && GoodPairs(reps, ops, available, pairs, last)
    ensures q.1 < |reps| && AccessReady(reps, ops, number, DoneIn(ops, computed), q.1)
  {
    var c, done := q.1, DoneIn(ops, computed);
    forall t | IsLoadOf(reps[c], t)
      ensures LoadReady(reps, ops, t, reps[c].arguments[0], q.0, done)
    {
      FirstLoadReady(reps, ops, available, pairs, last, computed, s, todo, q, t);
    }
    forall j | 0 <= j < |ops| && ops[j].expression == c
      ensures forall i :: i in done ==> i < j
    {
      FirstWriteReady(reps, ops, available, pairs, last, computed, s, todo, q, j);
    }
  }

  lemma FirstWriteReady(
    reps: seq<Expression>, ops: seq<StoreOperation>, available: set<Id>, pairs: Pairs, last: nat,
    computed: set<Id>, s: Sequenced, todo: Sequenced, q: (nat, Id), j: nat)
    requires Operations(reps, ops) && AllStores(ops) && IsSequenced(reps, ops, available, pairs, last, s)
    requires InOrder(ops, computed, s, todo) && q in todo && j < |ops| && ops[j].expression == q.1
    requires q.1 !in computed
    ensures forall i :: i in DoneIn(ops, computed) ==> i < j
  {
    assert SettledStore(reps, ops[j]);
    forall i | i in DoneIn(ops, computed)
      ensures i < j
    {
      DoneEarlier(reps, ops, computed, s, todo, q, i);
      assert ops[i].sequenceNumber <= ops[j].sequenceNumber && i != j;
    }
  }

  lemma DoneEarlier(
    reps: seq<Expression>, ops: seq<StoreOperation>, computed: set<Id>, s: Sequenced, todo: Sequenced, q: (nat, Id),
    i: nat)
    requires Operations(reps, ops) && AllStores(ops) && InOrder(ops, computed, s, todo) && q in todo
    requires i in DoneIn(ops, computed)
    ensures Earlier((ops[i].sequenceNumber, ops[i].expression), q)
  {
  }

  lemma FirstLoadReady(
    reps: seq<Expression>, ops: seq<StoreOperation>, available: set<Id>, pairs: Pairs, last: nat,
    computed: set<Id>, s: Sequenced, todo: Sequenced, q: (nat, Id), t: Target)
    requires Operations(reps, ops) && AllStores(ops) && IsSequenced(reps, ops, available, pairs, last, s)
    requires InOrder(ops, computed, s, todo) && available <= computed && q in todo && q.1 !in computed
    requires forall p :: p in todo && p != q ==> Earlier(q, p)
    requires q.1 < |reps| && IsLoadOf(reps[q.1], t)
    ensures LoadReady(reps, ops, t, reps[q.1].arguments[0], q.0, DoneIn(ops, computed))
  {
    var c, done, slot := q.1, DoneIn(ops, computed), reps[q.1].arguments[0];
    LoadIsOdd(reps, ops, c, last, t);
    forall i | i in done
      ensures i < |ops| && ops[i].sequenceNumber < q.0
    {
      DoneEarlier(reps, ops, computed, s, todo, q, i);
      StoreIsEven(reps, ops, ops[i]);
    }
    assert LoadClosed(reps, ops, pairs, t, c);
    forall i | 0 <= i < |ops| && ops[i].target == t && ops[i].sequenceNumber < q.0
      ensures AlwaysIndependent(reps, t, ops[i].slot, slot) || OverwrittenBefore(ops, i, q.0, done)
    {
      assert Covered(reps, ops, pairs, slot, q.0, c, i);
      if !AlwaysIndependent(reps, t, ops[i].slot, slot) {
        NeededDone(reps, ops, available, pairs, last, computed, s, todo, q, i);
      }
    }
  }

  lemma NeededDone(
    reps: seq<Expression>, ops: seq<StoreOperation>, available: set<Id>, pairs: Pairs, last: nat,
    computed: set<Id>, s: Sequenced, todo: Sequenced, q: (nat, Id), i: nat)
    requires Operations(reps, ops) && AllStores(ops) && IsSequenced(reps, ops, available, pairs, last, s)
    requires InOrder(ops, computed, s, todo) && q in todo
    requires forall p :: p in todo && p != q ==> Earlier(q, p)
    requires i < |ops| && OverwriteNeeded(ops, pairs, q.0, q.1, i)
    ensures OverwrittenBefore(ops, i, q.0, DoneIn(ops, computed))
  {
    var k: nat :| Overwrites(ops, i, k) && ops[k].sequenceNumber < q.0 && (ops[k].expression, q.1) in pairs;
    assert SettledStore(reps, ops[k]);
    var p := (ops[k].sequenceNumber, ops[k].expression);
    assert p in s;
    assert p !in todo;
    assert k in DoneIn(ops, computed);
  }

  // ----- the end -----

  /** No write has been carried out at the start. */
  ghost predicate NoneAvailable(ops: seq<StoreOperation>, available: set<Id>)
    requires AllStores(ops)
  {
    forall i :: 0 <= i < |ops| ==> ops[i].expression !in available
  }

  ghost predicate LastClosed(
    reps: seq<Expression>, ops: seq<StoreOperation>, available: set<Id>, pairs: Pairs, groups: Groups,
    key: (Target, Id))
    requires Operations(reps, ops)
  {
    && key in groups && groups[key] != [] && AllStores(groups[key])
    && Closed(reps, ops, available, pairs, groups[key][|groups[key]| - 1].expression)
  }

  ghost predicate LastsClosed(
    reps: seq<Expression>, ops: seq<StoreOperation>, available: set<Id>, pairs: Pairs, groups: Groups,
    keys: set<(Target, Id)>)
    requires Operations(reps, ops)
  {
    forall key :: key in keys ==> LastClosed(reps, ops, available, pairs, groups, key)
  }

  lemma InItsGroup(ops: seq<StoreOperation>, groups: Groups, i: nat)
    requires AllStores(ops) && Grouped(ops, groups) && i < |ops|
    ensures SlotOf(ops[i]) in groups && IsGroup(ops, SlotOf(ops[i]), groups[SlotOf(ops[i])])
    ensures ops[i] in groups[SlotOf(ops[i])]
  {
    assert ops[i] in ops;
    assert IsGroup(ops, SlotOf(ops[i]), groups[SlotOf(ops[i])]);
  }

  /** The last write to every slot is needed, so it has been carried out. */
  lemma AllFinished(
    reps: seq<Expression>, ops: seq<StoreOperation>, groups: Groups, available: set<Id>, pairs: Pairs, last: nat,
    computed: set<Id>, s: Sequenced)
    requires Operations(reps, ops) && AllStores(ops) && Ascending(ops) && Grouped(ops, groups)
    requires IsSequenced(reps, ops, available, pairs, last, s) && InOrder(ops, computed, s, {})
    requires NoneAvailable(ops, available)
    requires LastsClosed(reps, ops, available, pairs, groups, groups.Keys)
    ensures Finished(ops, DoneIn(ops, computed))
  {
    forall i | 0 <= i < |ops|
      ensures Overwritten(ops, i, DoneIn(ops, computed))
    {
      OneFinished(reps, ops, groups, available, pairs, last, computed, s, i);
    }
  }

  lemma OneFinished(
    reps: seq<Expression>, ops: seq<StoreOperation>, groups: Groups, available: set<Id>, pairs: Pairs, last: nat,
    computed: set<Id>, s: Sequenced, i: nat)
    requires Operations(reps, ops) && AllStores(ops) && Ascending(ops) && Grouped(ops, groups)
    requires IsSequenced(reps, ops, available, pairs, last, s) && InOrder(ops, computed, s, {})
    requires NoneAvailable(ops, available) && i < |ops|
    requires LastsClosed(reps, ops, available, pairs, groups, groups.Keys)
    ensures Overwritten(ops, i, DoneIn(ops, computed))
  {
    InItsGroup(ops, groups, i);
    var key := SlotOf(ops[i]);
    assert key in groups.Keys;
    LastDone(reps, ops, groups, available, pairs, last, computed, s, i, key);
  }

  lemma LastDone(
    reps: seq<Expression>, ops: seq<StoreOperation>, groups: Groups, available: set<Id>, pairs: Pairs, last: nat,
    computed: set<Id>, s: Sequenced, i: nat, key: (Target, Id))
    requires Operations(reps, ops) && AllStores(ops) && Ascending(ops)
    requires IsSequenced(reps, ops, available, pairs, last, s) && InOrder(ops, computed, s, {})
    requires NoneAvailable(ops, available) && LastsClosed(reps, ops, available, pairs, groups, groups.Keys)
    requires i < |ops| && key == SlotOf(ops[i]) && key in groups && IsGroup(ops, key, groups[key])
    requires ops[i] in groups[key]
    ensures Overwritten(ops, i, DoneIn(ops, computed))
  {
    var k := LastOfGroup(ops, groups[key], i);
    LastIsClosed(reps, ops, available, pairs, groups, key);
    var op := ops[k];
    assert SettledStore(reps, ops[k]);
    assert (reps[op.expression].arguments[0], op.expression) in pairs;
    assert (op.sequenceNumber, op.expression) in s;
  }

  lemma LastIsClosed(
    reps: seq<Expression>, ops: seq<StoreOperation>, available: set<Id>, pairs: Pairs, groups: Groups,
    key: (Target, Id))
    requires Operations(reps, ops) && LastsClosed(reps, ops, available, pairs, groups, groups.Keys)
    requires key in groups && IsGroup(ops, key, groups[key])
    ensures LastClosed(reps, ops, available, pairs, groups, key)
  {
  }

  lemma LastOfGroup(ops: seq<StoreOperation>, group: seq<StoreOperation>, i: nat) returns (k: nat)
    requires AllStores(ops) && Ascending(ops) && i < |ops|
    requires IsGroup(ops, SlotOf(ops[i]), group) && ops[i] in group
    ensures k < |ops| && ops[k] == group[|group| - 1] && Overwrites(ops, i, k)
  {
    var op := group[|group| - 1];
    assert op in group;
    var j := IndexOf(group, ops[i]);
    k := IndexOf(ops, op);
    assert j < |group| - 1 ==> group[j].sequenceNumber < op.sequenceNumber;
    LaterIs(ops, i, k);
  }

  // ----- collecting and performing the sequenced classes -----

  /** Both sides of every pair are closed. */
  ghost predicate AllClosed(reps: seq<Expression>, ops: seq<StoreOperation>, available: set<Id>, pairs: Pairs)
    requires Operations(reps, ops)
  {
    forall p :: p in pairs ==>
      Closed(reps, ops, available, pairs, p.0) && Closed(reps, ops, available, pairs, p.1)
  }

  lemma StillAllClosed(
    reps: seq<Expression>, reps': seq<Expression>, ops: seq<StoreOperation>, available: set<Id>,
    pairs: Pairs, pairs': Pairs, last: nat, c: Id)
    requires Operations(reps, ops) && Operations(reps', ops) && reps <= reps' && pairs <= pairs'
    requires AllClosed(reps, ops, available, pairs) && GoodPairs(reps', ops, available, pairs', last)
    requires NewClosed(reps', ops, available, pairs, pairs', c) && Closed(reps', ops, available, pairs', c)
    ensures AllClosed(reps', ops, available, pairs')
  {
    forall p | p in pairs'
      ensures Closed(reps', ops, available, pairs', p.1)
    {
      if p in pairs {
        StillClosed(reps, reps', ops, available, pairs, pairs', p.1);
      }
    }
  }

  ghost predicate SequencedFrom(
    reps: seq<Expression>, ops: seq<StoreOperation>, available: set<Id>, pairs: Pairs, last: nat, number: nat,
    s: Sequenced)
    requires Operations(reps, ops)
  {
    forall q :: q in s ==>
      && q.1 < |reps| && q.0 == reps[q.1].sequenceNumber && number <= q.0
      && Relevant(reps, ops, q.1, last) && Closed(reps, ops, available, pairs, q.1)
  }

  /** The pairs outside todo have been looked at. */
  ghost predicate Listed(reps: seq<Expression>, pairs: Pairs, todo: Pairs, s: Sequenced)
  {
    forall p, d :: p in pairs && p !in todo && d in {p.0, p.1} && d < |reps| && reps[d].sequenceNumber > 0 ==>
      (reps[d].sequenceNumber, d) in s
  }

  /** The classes with a number among those of the pairs. */
  ghost function Numbered(reps: seq<Expression>, pairs: Pairs): set<Id>
  {
    set p, d | p in pairs && d in {p.0, p.1} && d < |reps| && reps[d].sequenceNumber > 0 :: d
  }

  ghost predicate InPairs(pairs: Pairs, s: Sequenced)
  {
    forall q :: q in s ==> q.0 > 0 && exists p :: p in pairs && q.1 in {p.0, p.1}
  }

  lemma OneMoreListed(reps: seq<Expression>, pairs: Pairs, todo: Pairs, s: Sequenced, p: (Id, Id), s': Sequenced)
    requires Listed(reps, pairs, todo, s) && s <= s'
    requires p.0 < |reps| && reps[p.0].sequenceNumber > 0 ==> (reps[p.0].sequenceNumber, p.0) in s'
    requires p.1 < |reps| && reps[p.1].sequenceNumber > 0 ==> (reps[p.1].sequenceNumber, p.1) in s'
    ensures Listed(reps, pairs, todo - {p}, s')
  {
  }

  method First(todo: Sequenced) returns (q: (nat, Id))
    requires todo != {}
    ensures q in todo && forall p :: p in todo && p != q ==> Earlier(q, p)
  {
    var rest := todo;
    q :| q in rest;
    while rest != {}
      invariant rest <= todo && q in todo
      invariant forall p :: p in todo && p !in rest && p != q ==> Earlier(q, p)
    {
      var p :| p in rest;
      rest := rest - {p};
      if Earlier(p, q) {
        q := p;
      }
    }
  }

  lemma NextInOrder(
    reps: seq<Expression>, ops: seq<StoreOperation>, computed: set<Id>, more: set<Id>, s: Sequenced, todo: Sequenced,
    q: (nat, Id))
    requires Operations(reps, ops) && AllStores(ops) && InOrder(ops, computed, s, todo) && computed <= more
    requires q in todo && q.1 in more && q.1 < |reps| && q.0 == reps[q.1].sequenceNumber
    requires forall p :: p in todo && p != q ==> Earlier(q, p)
    requires forall d :: d in more ==> d in computed || d == q.1 || (d < |reps| && reps[d].sequenceNumber == 0)
    ensures InOrder(ops, more, s, todo - {q})
  {
    forall i | i in DoneIn(ops, more)
      ensures (ops[i].sequenceNumber, ops[i].expression) in s
      ensures (ops[i].sequenceNumber, ops[i].expression) !in todo - {q}
    {
      assert SettledStore(reps, ops[i]);
      if ops[i].expression in computed {
        assert i in DoneIn(ops, computed);
      }
    }
  }

  lemma NothingDone(
    reps: seq<Expression>, ops: seq<StoreOperation>, stack: map<int, Id>, available: set<Id>, last: nat, s: Sequenced)
    requires Operations(reps, ops) && AllStores(ops) && available == ClassesIn(stack)
    requires forall p :: p in stack ==> Settled(reps, stack[p], last)
    ensures NoneAvailable(ops, available) && DoneIn(ops, available) == {} && InOrder(ops, available, s, s)
  {
    forall i | 0 <= i < |ops|
      ensures ops[i].expression !in available
    {
      assert SettledStore(reps, ops[i]);
      if ops[i].expression in available {
        var p := PositionOf(stack, ops[i].expression);
      }
    }
  }

  lemma StillLastsClosed(
    reps: seq<Expression>, reps': seq<Expression>, ops: seq<StoreOperation>, available: set<Id>,
    pairs: Pairs, pairs': Pairs, groups: Groups, keys: set<(Target, Id)>)
    requires Operations(reps, ops) && Operations(reps', ops) && reps <= reps' && pairs <= pairs'
    requires LastsClosed(reps, ops, available, pairs, groups, keys)
    ensures LastsClosed(reps', ops, available, pairs', groups, keys)
  {
    forall key | key in keys
      ensures LastClosed(reps', ops, available, pairs', groups, key)
    {
      assert LastClosed(reps, ops, available, pairs, groups, key);
      StillClosed(reps, reps', ops, available, pairs, pairs', groups[key][|groups[key]| - 1].expression);
    }
  }
}
