/**
 * A straight-line chunk of items fed to the analysis: what is known at its end, and the writes it has made,
 * describe the concrete run from every machine that the knowledge at its beginning described.
 */
module Chunks {
  import opened Evm
  import opened Expressions
  import opened Knowledge
  import opened Tracking
  import opened StoreHistory
  import opened Production
  import opened Dependencies

  /** The history of the valuation from one number to another is that of the writes. */
  ghost predicate FollowsUpTo(
    reps: seq<Expression>, ops: seq<StoreOperation>, first: nat, last: nat, v: Valuation, store: Store)
    requires Operations(reps, ops)
  {
    forall n: nat :: first <= n <= last ==> v.history(n) == AfterAll(Accesses(reps, ops, v), Before(ops, n), store)
  }

  /** The writes of the chunk, numbered in between. */
  ghost predicate WritesBetween(reps: seq<Expression>, ops: seq<StoreOperation>, first: nat, last: nat)
  {
    && Operations(reps, ops) && AllStores(ops) && first <= last
    && forall i :: 0 <= i < |ops| ==> first < ops[i].sequenceNumber < last
  }

  /** For machines whose stack reaches down to the floor. */
  ghost predicate DescribesRun(
    k0: Knowledge, reps0: seq<Expression>, items: seq<AssemblyItem>, ops: seq<StoreOperation>, floor: int,
    k: Knowledge, reps: seq<Expression>)
    requires ValidClasses(reps0) && Operations(reps, ops)
  {
    forall v: Valuation, origin: int, m: Machine ::
      Describes(k0, reps0, v, origin, m) && 0 <= origin + floor && Run(items, v.env, m).Some?
      && FollowsUpTo(reps, ops, k0.sequenceNumber, k.sequenceNumber, v, m.store) ==>
        var m' := Run(items, v.env, m).value;
        Describes(k, reps, v, origin, m') && m'.store == AfterAll(Accesses(reps, ops, v), |ops|, m.store)
  }

  ghost predicate Followed(
    k0: Knowledge, reps0: seq<Expression>, items: seq<AssemblyItem>, ops: seq<StoreOperation>, floor: int,
    k: Knowledge, reps: seq<Expression>)
  {
    && ValidKnowledge(k0, reps0) && ValidKnowledge(k, reps) && reps0 <= reps
    && WritesBetween(reps, ops, k0.sequenceNumber, k.sequenceNumber)
    && LowerBoundsKept(k0, k)
    && DescribesRun(k0, reps0, items, ops, floor, k, reps)
  }

  lemma NothingFollowed(k: Knowledge, reps: seq<Expression>, floor: int)
    requires ValidKnowledge(k, reps)
    ensures Followed(k, reps, [], [], floor, k, reps)
  {
  }

  function Appended(ops: seq<StoreOperation>, op: StoreOperation): seq<StoreOperation>
  {
    if op.StoreOperation? then ops + [op] else ops
  }

  // ----- growing classes -----

  lemma SameAccesses(reps: seq<Expression>, reps': seq<Expression>, ops: seq<StoreOperation>, v: Valuation)
    requires Operations(reps, ops) && Operations(reps', ops) && reps <= reps'
    ensures Accesses(reps, ops, v) == Accesses(reps', ops, v)
  {
    forall i | 0 <= i < |ops|
      ensures AccessOf(reps, ops[i], v) == AccessOf(reps', ops[i], v)
    {
      SameValueStill(reps, reps', ops[i].slot, v);
      SameValueStill(reps, reps', StoredValue(reps, ops[i]), v);
    }
  }

  lemma StillBetween(reps: seq<Expression>, reps': seq<Expression>, ops: seq<StoreOperation>, first: nat, last: nat)
    requires WritesBetween(reps, ops, first, last) && ValidClasses(reps') && reps <= reps'
    ensures WritesBetween(reps', ops, first, last)
  {
    StillOperations(reps, reps', ops);
  }

  // ----- one more item -----

  lemma {:induction false} SameBefore(ws: seq<Access>, ws': seq<Access>, j: nat, store: Store)
    requires j <= |ws| && ws <= ws'
    ensures AfterAll(ws, j, store) == AfterAll(ws', j, store)
  {
    if j > 0 {
      SameBefore(ws, ws', j - 1, store);
    }
  }

  lemma AppendedBetween(
    k: Knowledge, reps: seq<Expression>, item: AssemblyItem, op: StoreOperation, k': Knowledge, reps': seq<Expression>,
    ops: seq<StoreOperation>, first: nat)
    requires WritesBetween(reps, ops, first, k.sequenceNumber) && ValidClasses(reps') && reps <= reps'
    requires NumbersFollow(k.sequenceNumber, item, op, k'.sequenceNumber, reps')
    ensures WritesBetween(reps', Appended(ops, op), first, k'.sequenceNumber)
  {
    StillOperations(reps, reps', ops);
    var ops' := Appended(ops, op);
    forall i | 0 <= i < |ops'|
      ensures SettledStore(reps', ops'[i])
    {
      assert i < |ops| ==> ops'[i] == ops[i];
    }
  }

  lemma {:induction false} BeforeAppended(ops: seq<StoreOperation>, op: StoreOperation, n: nat)
    requires AllStores(ops) && op.StoreOperation? && n <= op.sequenceNumber
    ensures Before(ops + [op], n) == Before(ops, n)
  {
    assert (ops + [op])[..|ops|] == ops;
  }

  lemma AccessesAppended(reps: seq<Expression>, ops: seq<StoreOperation>, op: StoreOperation, v: Valuation)
    requires Operations(reps, ops) && Operations(reps, ops + [op]) && ValidStore(reps, op)
    ensures Accesses(reps, ops + [op], v) == Accesses(reps, ops, v) + [AccessOf(reps, op, v)]
  {
    var more := ops + [op];
    assert more[|ops|] == op;
    forall i | 0 <= i < |ops|
      ensures Accesses(reps, more, v)[i] == Accesses(reps, ops, v)[i]
    {
      assert more[i] == ops[i];
    }
  }

  lemma FollowsBefore(
    reps: seq<Expression>, reps': seq<Expression>, ops: seq<StoreOperation>, op: StoreOperation,
    first: nat, last: nat, last': nat, v: Valuation, store: Store)
    requires WritesBetween(reps, ops, first, last) && WritesBetween(reps', Appended(ops, op), first, last')
    requires reps <= reps' && last <= last' && (op.StoreOperation? ==> last < op.sequenceNumber)
    requires FollowsUpTo(reps', Appended(ops, op), first, last', v, store)
    ensures FollowsUpTo(reps, ops, first, last, v, store)
  {
    StillOperations(reps, reps', ops);
    SameAccesses(reps, reps', ops, v);
    forall n: nat | first <= n <= last
      ensures v.history(n) == AfterAll(Accesses(reps, ops, v), Before(ops, n), store)
    {
      if op.StoreOperation? {
        BeforeAppended(ops, op, n);
        assert (ops + [op])[|ops|] == op && SettledStore(reps', (ops + [op])[|ops|]);
        AccessesAppended(reps', ops, op, v);
        SameBefore(Accesses(reps', ops, v), Accesses(reps', ops + [op], v), Before(ops, n), store);
      }
    }
  }

  /** After the last write, the history has all of them. */
  lemma {:induction false} AllBefore(ops: seq<StoreOperation>, n: nat)
    requires AllStores(ops) && forall i :: 0 <= i < |ops| ==> ops[i].sequenceNumber < n
    ensures Before(ops, n) == |ops|
  {
  }

  lemma {:induction false} EffectIsLast(
    reps: seq<Expression>, reps': seq<Expression>, ops: seq<StoreOperation>, op: StoreOperation, v: Valuation,
    store: Store)
    requires Operations(reps, ops) && Operations(reps', Appended(ops, op)) && reps <= reps'
    requires op.StoreOperation? ==> ValidStore(reps', op)
    ensures var ops' := Appended(ops, op);
      AfterAll(Accesses(reps', ops', v), |ops'|, store)
      == Effect(reps', op, v, AfterAll(Accesses(reps, ops, v), |ops|, store))
  {
    StillOperations(reps, reps', ops);
    SameAccesses(reps, reps', ops, v);
    if op.StoreOperation? {
      AccessesAppended(reps', ops, op, v);
      SameBefore(Accesses(reps', ops, v), Accesses(reps', ops + [op], v), |ops|, store);
    }
  }

  lemma {:induction false} OneMoreAt(
    k0: Knowledge, reps0: seq<Expression>, items: seq<AssemblyItem>, ops: seq<StoreOperation>, floor: int,
    k: Knowledge, reps: seq<Expression>, item: AssemblyItem, op: StoreOperation, k': Knowledge, reps': seq<Expression>,
    v: Valuation, origin: int, m: Machine)
    requires Followed(k0, reps0, items, ops, floor, k, reps) && Fed(k, reps, item, op, k', reps')
    requires WritesBetween(reps', Appended(ops, op), k0.sequenceNumber, k'.sequenceNumber)
    requires Describes(k0, reps0, v, origin, m) && 0 <= origin + floor && Run(items + [item], v.env, m).Some?
    requires FollowsUpTo(reps', Appended(ops, op), k0.sequenceNumber, k'.sequenceNumber, v, m.store)
    ensures var m', ops' := Run(items + [item], v.env, m).value, Appended(ops, op);
      Describes(k', reps', v, origin, m') && m'.store == AfterAll(Accesses(reps', ops', v), |ops'|, m.store)
  {
    RunSnoc(items, item, v.env, m);
    FollowsBefore(reps, reps', ops, op, k0.sequenceNumber, k.sequenceNumber, k'.sequenceNumber, v, m.store);
    EffectIsLast(reps, reps', ops, op, v, m.store);
    AllBefore(Appended(ops, op), k'.sequenceNumber);
    var m1 := Run(items, v.env, m).value;
    assert Describes(k, reps, v, origin, m1);
  }

  lemma OneMoreFollowed(
    k0: Knowledge, reps0: seq<Expression>, items: seq<AssemblyItem>, ops: seq<StoreOperation>, floor: int,
    k: Knowledge, reps: seq<Expression>, item: AssemblyItem, op: StoreOperation, k': Knowledge, reps': seq<Expression>)
    requires Followed(k0, reps0, items, ops, floor, k, reps) && Fed(k, reps, item, op, k', reps')
    ensures Followed(k0, reps0, items + [item], Appended(ops, op), floor, k', reps')
  {
    AppendedBetween(k, reps, item, op, k', reps', ops, k0.sequenceNumber);
    forall v: Valuation, origin: int, m: Machine
      | Describes(k0, reps0, v, origin, m) && 0 <= origin + floor && Run(items + [item], v.env, m).Some?
        && FollowsUpTo(reps', Appended(ops, op), k0.sequenceNumber, k'.sequenceNumber, v, m.store)
      ensures Describes(k', reps', v, origin, Run(items + [item], v.env, m).value)
      ensures Run(items + [item], v.env, m).value.store
           == AfterAll(Accesses(reps', Appended(ops, op), v), |Appended(ops, op)|, m.store)
    {
      OneMoreAt(k0, reps0, items, ops, floor, k, reps, item, op, k', reps', v, origin, m);
    }
  }

  // ----- elements looked up at the end of the chunk -----

  lemma FollowsStill(
    reps: seq<Expression>, reps': seq<Expression>, ops: seq<StoreOperation>,
    first: nat, last: nat, v: Valuation, store: Store)
    requires Operations(reps, ops) && Operations(reps', ops) && reps <= reps'
    requires FollowsUpTo(reps', ops, first, last, v, store)
    ensures FollowsUpTo(reps, ops, first, last, v, store)
  {
    SameAccesses(reps, reps', ops, v);
  }

  /** Looking up the n topmost elements, which then have to exist. */
  lemma RevealedFollowed(
    k0: Knowledge, reps0: seq<Expression>, items: seq<AssemblyItem>, ops: seq<StoreOperation>, floor: int,
    k: Knowledge, reps: seq<Expression>, n: nat, k1: Knowledge, reps1: seq<Expression>, floor1: int)
    requires Followed(k0, reps0, items, ops, floor, k, reps) && ValidKnowledge(k1, reps1)
    requires Deepened(k, reps, n, k1, reps1) && floor1 <= floor && floor1 <= k.height - n + 1
    ensures Followed(k0, reps0, items, ops, floor1, k1, reps1)
  {
    StillBetween(reps, reps1, ops, k0.sequenceNumber, k.sequenceNumber);
    forall v: Valuation, origin: int, m: Machine
      | Describes(k0, reps0, v, origin, m) && 0 <= origin + floor1 && Run(items, v.env, m).Some?
        && FollowsUpTo(reps1, ops, k0.sequenceNumber, k1.sequenceNumber, v, m.store)
      ensures Describes(k1, reps1, v, origin, Run(items, v.env, m).value)
      ensures Run(items, v.env, m).value.store == AfterAll(Accesses(reps1, ops, v), |ops|, m.store)
    {
      FollowsStill(reps, reps1, ops, k0.sequenceNumber, k.sequenceNumber, v, m.store);
      SameAccesses(reps, reps1, ops, v);
      assert Describes(k, reps, v, origin, Run(items, v.env, m).value);
    }
  }

  lemma NothingRevealed(k: Knowledge, reps: seq<Expression>, reps1: seq<Expression>)
    requires ValidKnowledge(k, reps) && ValidClasses(reps1) && reps <= reps1
    ensures ValidKnowledge(k, reps1) && Deepened(k, reps, 0, k, reps1)
  {
    StillValid(k, reps, reps1);
    forall v: Valuation, origin: int, m: Machine | Fits(k, reps, v, origin, m)
      ensures Fits(k, reps1, v, origin, m)
    {
      StillFits(k, reps, reps1, v, origin, m);
    }
  }

  /** The classes have grown since. */
  lemma StillFollowed(
    k0: Knowledge, reps0: seq<Expression>, items: seq<AssemblyItem>, ops: seq<StoreOperation>, floor: int,
    k: Knowledge, reps: seq<Expression>, reps1: seq<Expression>)
    requires Followed(k0, reps0, items, ops, floor, k, reps) && ValidClasses(reps1) && reps <= reps1
    ensures Followed(k0, reps0, items, ops, floor, k, reps1)
  {
    NothingRevealed(k, reps, reps1);
    StillBetween(reps, reps1, ops, k0.sequenceNumber, k.sequenceNumber);
    forall v: Valuation, origin: int, m: Machine
      | Describes(k0, reps0, v, origin, m) && 0 <= origin + floor && Run(items, v.env, m).Some?
        && FollowsUpTo(reps1, ops, k0.sequenceNumber, k.sequenceNumber, v, m.store)
      ensures Describes(k, reps1, v, origin, Run(items, v.env, m).value)
      ensures Run(items, v.env, m).value.store == AfterAll(Accesses(reps1, ops, v), |ops|, m.store)
    {
      FollowsStill(reps, reps1, ops, k0.sequenceNumber, k.sequenceNumber, v, m.store);
      SameAccesses(reps, reps1, ops, v);
    }
  }
}
