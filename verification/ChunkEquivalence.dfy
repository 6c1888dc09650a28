/**
 * The central result of common subexpression elimination: generated code and the chunk it replaces take every
 * machine that the initial knowledge describes to the same machine.
 */
module ChunkEquivalence {
  import opened Results
  import opened Words
  import opened Evm
  import opened BlockEnds
  import opened Classes
  import opened Expressions
  import opened Knowledge
  import opened Tracking
  import opened StoreHistory
  import opened Generation
  import opened Production
  import opened Dependencies
  import opened Recomputation
  import opened Chunks

  // ----- the history of a run that has not happened yet -----

  lemma AccessSame(reps: seq<Expression>, op: StoreOperation, v: Valuation, v': Valuation)
    requires ValidClasses(reps) && SettledStore(reps, op) && SameUpTo(v, v', op.sequenceNumber)
    ensures AccessOf(reps, op, v) == AccessOf(reps, op, v')
  {
    SettledValue(reps, op.slot, op.sequenceNumber, v, v');
    SettledValue(reps, StoredValue(reps, op), op.sequenceNumber, v, v');
  }

  lemma AccessesSame(reps: seq<Expression>, ops: seq<StoreOperation>, n: nat, v: Valuation, v': Valuation)
    requires Operations(reps, ops) && SameUpTo(v, v', n)
    requires AllStores(ops) && forall i :: 0 <= i < |ops| ==> ops[i].sequenceNumber <= n
    ensures Accesses(reps, ops, v) == Accesses(reps, ops, v')
  {
    forall i | 0 <= i < |ops|
      ensures AccessOf(reps, ops[i], v) == AccessOf(reps, ops[i], v')
    {
      AccessSame(reps, ops[i], v, v');
    }
  }

  /** The valuation with another store from some number on. */
  ghost function WithFuture(v: Valuation, n: nat, store: Store): Valuation
  {
    v.(history := (m: nat) => if m <= n then v.history(m) else store)
  }

  lemma PrefixOperations(reps: seq<Expression>, ops: seq<StoreOperation>, j: nat)
    requires Operations(reps, ops) && j <= |ops|
    ensures Operations(reps, ops[..j]) && AllStores(ops)
  {
  }

  lemma {:induction false} BeforePrefix(ops: seq<StoreOperation>, n: nat)
    requires AllStores(ops) && ops != [] && n <= ops[|ops| - 1].sequenceNumber
    ensures Before(ops, n) == Before(ops[..|ops| - 1], n)
  {
  }

  /** One more write, after the history of those before. */
  lemma {:induction false} OneMoreWrite(
    reps: seq<Expression>, ops: seq<StoreOperation>, first: nat, v: Valuation, store: Store)
    requires Operations(reps, ops) && AllStores(ops) && ops != []
    requires Operations(reps, ops[..|ops| - 1]) && HistoryFollows(reps, ops[..|ops| - 1], first, v, store)
    ensures var n := ops[|ops| - 1].sequenceNumber;
      var v' := WithFuture(v, n, AfterAll(Accesses(reps, ops, v), |ops|, store));
      SameUpTo(v, v', n) && HistoryFollows(reps, ops, first, v', store)
  {
    var last := |ops| - 1;
    var n := ops[last].sequenceNumber;
    var v' := WithFuture(v, n, AfterAll(Accesses(reps, ops, v), |ops|, store));
    forall m: nat | first <= m
      ensures v'.history(m) == AfterAll(Accesses(reps, ops, v'), Before(ops, m), store)
    {
      if m <= n {
        HistoryUpTo(reps, ops, first, v, v', store, m);
      } else {
        AccessesSame(reps, ops, n, v, v');
      }
    }
  }

  lemma {:induction false} HistoryUpTo(
    reps: seq<Expression>, ops: seq<StoreOperation>, first: nat, v: Valuation, v': Valuation, store: Store, m: nat)
    requires Operations(reps, ops) && AllStores(ops) && ops != []
    requires Operations(reps, ops[..|ops| - 1]) && HistoryFollows(reps, ops[..|ops| - 1], first, v, store)
    requires first <= m <= ops[|ops| - 1].sequenceNumber && SameUpTo(v, v', ops[|ops| - 1].sequenceNumber)
    ensures v'.history(m) == AfterAll(Accesses(reps, ops, v'), Before(ops, m), store)
  {
    EarlierHistory(reps, ops, m, v', store);
    AccessesSame(reps, ops[..|ops| - 1], ops[|ops| - 1].sequenceNumber, v, v');
  }

  lemma EarlierHistory(reps: seq<Expression>, ops: seq<StoreOperation>, m: nat, v: Valuation, store: Store)
    requires Operations(reps, ops) && AllStores(ops) && ops != [] && m <= ops[|ops| - 1].sequenceNumber
    requires Operations(reps, ops[..|ops| - 1])
    ensures AfterAll(Accesses(reps, ops, v), Before(ops, m), store)
         == AfterAll(Accesses(reps, ops[..|ops| - 1], v), Before(ops[..|ops| - 1], m), store)
  {
    var rest := ops[..|ops| - 1];
    BeforePrefix(ops, m);
    assert Accesses(reps, rest, v) <= Accesses(reps, ops, v);
    SameBefore(Accesses(reps, rest, v), Accesses(reps, ops, v), Before(rest, m), store);
  }

  /** Whatever the writes of a block, some valuation has their history and agrees with the given one so far. */
  lemma {:induction false} Prophecy(
    reps: seq<Expression>, ops: seq<StoreOperation>, first: nat, v: Valuation, store: Store) returns (v': Valuation)
    requires Operations(reps, ops) && AllStores(ops) && v.history(first) == store
    requires forall i :: 0 <= i < |ops| ==> first < ops[i].sequenceNumber
    ensures SameUpTo(v, v', first) && HistoryFollows(reps, ops, first, v', store)
    decreases |ops|
  {
    if ops == [] {
      v' := WithFuture(v, first, store);
    } else {
      var rest := ops[..|ops| - 1];
      PrefixOperations(reps, ops, |ops| - 1);
      var v1 := Prophecy(reps, rest, first, v, store);
      OneMoreWrite(reps, ops, first, v1, store);
      v' := WithFuture(v1, ops[|ops| - 1].sequenceNumber, AfterAll(Accesses(reps, ops, v1), |ops|, store));
    }
  }

  // ----- layouts taken from what is known -----

  /** The layout says for every height from base on what the knowledge says. */
  ghost predicate LayoutOf(k: Knowledge, base: int, layout: map<int, Id>)
  {
    && Contiguous(layout, base, k.height)
    && forall h :: h in layout ==> h in k.elements && k.elements[h] == layout[h]
  }

  lemma LayoutHolds(
    k: Knowledge, layout: map<int, Id>, val: Values, leaf: int -> Word, origin: int, m: Machine, s: Setting)
    requires Holds(k, val, leaf, origin, m) && LayoutOf(k, s.base, layout) && 0 <= origin + s.base
    requires s.val == val && s.origin == origin && s.start == m && s.base <= k.height + 1
    ensures StackIs(s, layout, k.height, m.stack)
  {
    forall h | h in layout
      ensures ElementHolds(layout, val, origin, m.stack, h)
    {
      assert ElementHolds(k.elements, val, origin, m.stack, h);
    }
  }

  /** The base is the lowest height anything is known about, so it is on the machine's stack. */
  lemma BaseExists(k: Knowledge, base: int, val: Values, leaf: int -> Word, origin: int, m: Machine)
    requires Holds(k, val, leaf, origin, m) && (base in k.elements || base == k.height + 1)
    ensures 0 <= origin + base
  {
    if base in k.elements {
      assert ElementHolds(k.elements, val, origin, m.stack, base);
    }
  }

  /** Two machines with the same known layout above the base, and untouched below. */
  lemma SameStacks(
    k0: Knowledge, k1: Knowledge, kT: Knowledge, layout: map<int, Id>, val0: Values, val1: Values, leaf: int -> Word,
    origin: int, m: Machine, m1: Machine, s: Setting, words: seq<Word>)
    requires Holds(k0, val0, leaf, origin, m) && LowerBound(k0, s.base)
    requires Holds(k1, val0, leaf, origin, m1) && LowerBound(k1, s.base)
    requires Holds(kT, val1, leaf, origin, m1) && LayoutOf(kT, s.base, layout) && kT.height == k1.height
    requires s.val == val1 && s.origin == origin && s.start == m && StackIs(s, layout, kT.height, words)
    ensures words == m1.stack
  {
    forall p | 0 <= p < |words|
      ensures words[p] == m1.stack[p]
    {
      var h := p - origin;
      if h < s.base {
        assert origin + h == p;
        assert h !in k0.elements && h !in k1.elements;
        assert m.stack[origin + h] == leaf(h) && m1.stack[origin + h] == leaf(h);
      } else {
        assert h in layout;
        assert ElementHolds(layout, val1, origin, words, h);
        assert ElementHolds(kT.elements, val1, origin, m1.stack, h);
      }
    }
  }

  // ----- the theorem -----

  /** Everything the code generator is given, and how it was obtained from the analysis of the items. */
  datatype Block = Block(
    k0: Knowledge, reps0: seq<Expression>, items: seq<AssemblyItem>, ops: seq<StoreOperation>, floor: int,
    k: Knowledge, reps: seq<Expression>,
    base: int, kI: Knowledge, initial: map<int, Id>, kT: Knowledge, target: map<int, Id>)

  ghost predicate ValidBlock(b: Block)
  {
    && Followed(b.k0, b.reps0, b.items, b.ops, b.floor, b.k, b.reps)
    && LowerBound(b.k, b.base) && (b.base in b.k.elements || b.base == b.k.height + 1)
    && ValidKnowledge(b.kI, b.reps) && ValidKnowledge(b.kT, b.reps)
    && Deepened(b.k0, b.reps0, NatOf(b.k0.height - b.base + 1), b.kI, b.reps) && LayoutOf(b.kI, b.base, b.initial)
    && Deepened(b.k, b.reps, NatOf(b.k.height - b.base + 1), b.kT, b.reps) && LayoutOf(b.kT, b.base, b.target)
  }

  /**
   * The classes computed are exactly those that are not in the layout before the chunk and that the layout after it,
   * or an operation with a sequence number, needs.
   */
  ghost predicate ComputesFor(b: Block, wanted: set<Id>, reps: seq<Expression>, computed: set<Id>)
  {
    && ValidBlock(b) && ClassesIn(b.target) <= wanted
    && (forall c :: c in wanted && c !in ClassesIn(b.target) ==> c < |reps| && reps[c].sequenceNumber > 0)
    && ComputedExactly(reps, ClassesIn(b.initial), wanted, computed)
  }

  function NatOf(n: int): nat { if n < 0 then 0 else n }

  function StartOf(b: Block): Start { Start(b.k0.sequenceNumber, b.base, b.k0.height, b.initial) }

  /** On every machine the initial knowledge describes, in the present era, the code does what the items do. */
  ghost predicate SameRuns(
    k0: Knowledge, reps0: seq<Expression>, era: nat, floor: int, items: seq<AssemblyItem>, code: seq<AssemblyItem>)
    requires ValidClasses(reps0)
  {
    forall v: Valuation, origin: int, m: Machine ::
      Describes(k0, reps0, v, origin, m) && v.era == era && 0 <= origin + floor && Run(items, v.env, m).Some? ==>
        Run(code, v.env, m) == Run(items, v.env, m)
  }

  lemma {:induction false} SameRunAt(
    b: Block, computed: set<Id>, code: seq<AssemblyItem>, v: Valuation, origin: int, m: Machine)
    requires ValidBlock(b) && Delivers(b.reps, b.ops, StartOf(b), computed, code, b.target, b.k.height)
    requires Describes(b.k0, b.reps0, v, origin, m) && 0 <= origin + b.floor && Run(b.items, v.env, m).Some?
    requires AllRunnable(code) && NoneRecorded(b.reps, computed, v.era)
    requires HistoryFollows(b.reps, b.ops, b.k0.sequenceNumber, v, m.store)
    ensures Run(code, v.env, m) == Run(b.items, v.env, m)
  {
    var m1 := Run(b.items, v.env, m).value;
    assert Describes(b.k, b.reps, v, origin, m1);
    BaseExists(b.k, b.base, ValuesOf(b.reps, v), v.leaf, origin, m1);
    assert Fits(b.kI, b.reps, v, origin, m);
    assert Fits(b.kT, b.reps, v, origin, m1);
    assert LowerBound(b.k0, b.base);
    var s := SettingOf(b.reps, b.ops, StartOf(b), v, origin, m);
    LayoutHolds(b.kI, b.initial, ValuesOf(b.reps, v), v.leaf, origin, m, s);
    assert Starts(b.reps, b.ops, StartOf(b), computed, v, origin, m);
    StillDescribes(b.k0, b.reps0, b.reps, v, origin, m);
    var m2 := Run(code, v.env, m).value;
    SameStacks(
      b.k0, b.k, b.kT, b.target, ValuesOf(b.reps, v), ValuesOf(b.reps, v), v.leaf, origin, m, m1, s, m2.stack);
  }

  lemma GeneratedSameRuns(b: Block, computed: set<Id>, code: seq<AssemblyItem>, era: nat)
    requires ValidBlock(b) && Delivers(b.reps, b.ops, StartOf(b), computed, code, b.target, b.k.height)
    requires AllRunnable(code) && NoneRecorded(b.reps, computed, era)
    ensures SameRuns(b.k0, b.reps0, era, b.floor, b.items, code)
  {
    forall v: Valuation, origin: int, m: Machine
      | Describes(b.k0, b.reps0, v, origin, m) && v.era == era && 0 <= origin + b.floor
        && Run(b.items, v.env, m).Some?
      ensures Run(code, v.env, m) == Run(b.items, v.env, m)
    {
      var v' := Prophecy(b.reps, b.ops, b.k0.sequenceNumber, v, m.store);
      DescribesOtherFuture(b.k0, b.reps0, v, v', origin, m);
      SameRunAt(b, computed, code, v', origin, m);
    }
  }

  /** The end of a run is described under some valuation that agrees with the given one so far. */
  lemma RunDescribed(
    k0: Knowledge, reps0: seq<Expression>, items: seq<AssemblyItem>, ops: seq<StoreOperation>, floor: int,
    k: Knowledge, reps: seq<Expression>, v: Valuation, origin: int, m: Machine) returns (v': Valuation)
    requires Followed(k0, reps0, items, ops, floor, k, reps)
    requires Describes(k0, reps0, v, origin, m) && 0 <= origin + floor && Run(items, v.env, m).Some?
    ensures v'.env == v.env && v'.era == v.era
    ensures Describes(k, reps, v', origin, Run(items, v.env, m).value)
  {
    v' := Prophecy(reps, ops, k0.sequenceNumber, v, m.store);
    DescribesOtherFuture(k0, reps0, v, v', origin, m);
    assert FollowsUpTo(reps, ops, k0.sequenceNumber, k.sequenceNumber, v', m.store);
  }

  lemma BlockLater(b: Block, reps: seq<Expression>)
    requires ValidBlock(b) && ValidClasses(reps) && b.reps <= reps
    ensures ValidBlock(b.(reps := reps))
  {
    StillFollowed(b.k0, b.reps0, b.items, b.ops, b.floor, b.k, b.reps, reps);
    DeepenedLater(b.k0, b.reps0, NatOf(b.k0.height - b.base + 1), b.kI, b.reps, reps);
    StillValid(b.kI, b.reps, reps);
    StillValid(b.kT, b.reps, reps);
    DeepenedSame(b.k, b.reps, NatOf(b.k.height - b.base + 1), b.kT, b.reps, reps);
  }

  lemma DeepenedSame(
    k: Knowledge, reps: seq<Expression>, n: nat, k1: Knowledge, reps1: seq<Expression>, reps2: seq<Expression>)
    requires ValidKnowledge(k, reps) && ValidKnowledge(k1, reps1) && ValidClasses(reps2) && reps <= reps1 <= reps2
    requires Deepened(k, reps, n, k1, reps1)
    ensures Deepened(k, reps2, n, k1, reps2)
  {
    forall v: Valuation, origin: int, m: Machine | Fits(k, reps2, v, origin, m) && n <= |m.stack|
      ensures Fits(k1, reps2, v, origin, m)
    {
      FitsBefore(k, reps, reps2, v, origin, m);
      StillFits(k1, reps1, reps2, v, origin, m);
    }
  }

  /** More classes do not help to describe a machine. */
  lemma FitsBefore(
    k: Knowledge, reps: seq<Expression>, reps1: seq<Expression>, v: Valuation, origin: int, m: Machine)
    requires ValidKnowledge(k, reps) && ValidClasses(reps1) && reps <= reps1 && Fits(k, reps1, v, origin, m)
    ensures Fits(k, reps, v, origin, m)
  {
    forall c | Mentions(k, c)
      ensures ValuesOf(reps1, v)(c) == ValuesOf(reps, v)(c)
    {
      MentionedExists(k, reps, c);
      SameValueStill(reps, reps1, c, v);
    }
    HoldsForSameValues(k, ValuesOf(reps1, v), ValuesOf(reps, v), v.leaf, origin, m);
  }

  lemma DeepenedMore(k: Knowledge, reps: seq<Expression>, n: nat, k1: Knowledge, reps1: seq<Expression>, n': nat)
    requires ValidClasses(reps) && ValidClasses(reps1) && Deepened(k, reps, n, k1, reps1) && n <= n'
    ensures Deepened(k, reps, n', k1, reps1)
  {
  }

  // ----- the item that ends the block -----

  /**
   * The two ways of ending agree, and the stack reaches down to the floor, on every machine the knowledge
   * describes.
   */
  ghost predicate SameEnds(
    k0: Knowledge, reps0: seq<Expression>, items: seq<AssemblyItem>, breaking: Option<AssemblyItem>,
    items': seq<AssemblyItem>, breaking': Option<AssemblyItem>, floor: int)
    requires ValidClasses(reps0)
  {
    forall v: Valuation, origin: int, m: Machine ::
      Describes(k0, reps0, v, origin, m) && Outcome(items, breaking, v.env, m) != Stuck ==>
        0 <= origin + floor && Outcome(items', breaking', v.env, m) == Outcome(items, breaking, v.env, m)
  }

  lemma NothingChanged(k0: Knowledge, reps0: seq<Expression>, items: seq<AssemblyItem>, breaking: Option<AssemblyItem>)
    requires ValidClasses(reps0)
    ensures SameEnds(k0, reps0, items, breaking, items, breaking, k0.height + 1)
  {
  }

  predicate TakesTwo(breaking: Option<AssemblyItem>)
  {
    breaking == Some(Operation(JUMPI)) || breaking == Some(Operation(RETURN))
  }

  /** An item that takes two elements from the stack proves that they are there. */
  lemma SecondRevealed(
    k0: Knowledge, reps0: seq<Expression>, items: seq<AssemblyItem>, ops: seq<StoreOperation>,
    k: Knowledge, reps: seq<Expression>, breaking: Option<AssemblyItem>, floor: int)
    requires Followed(k0, reps0, items, ops, k0.height + 1, k, reps) && TakesTwo(breaking)
    requires floor == k0.height + 1 || floor == k.height - 1
    ensures SameEnds(k0, reps0, items, breaking, items, breaking, floor)
  {
    forall v: Valuation, origin: int, m: Machine
      | Describes(k0, reps0, v, origin, m) && Outcome(items, breaking, v.env, m) != Stuck
      ensures 0 <= origin + floor
    {
      SecondThere(k0, reps0, items, ops, k, reps, breaking, v, origin, m);
    }
  }

  lemma SecondThere(
    k0: Knowledge, reps0: seq<Expression>, items: seq<AssemblyItem>, ops: seq<StoreOperation>,
    k: Knowledge, reps: seq<Expression>, breaking: Option<AssemblyItem>, v: Valuation, origin: int, m: Machine)
    requires Followed(k0, reps0, items, ops, k0.height + 1, k, reps) && TakesTwo(breaking)
    requires Describes(k0, reps0, v, origin, m) && Outcome(items, breaking, v.env, m) != Stuck
    ensures 0 <= origin + k0.height + 1 && 0 <= origin + k.height - 1
  {
    HeightIs(k0, reps0, v, origin, m);
    var v' := RunDescribed(k0, reps0, items, ops, k0.height + 1, k, reps, v, origin, m);
    HeightIs(k, reps, v', origin, Run(items, v.env, m).value);
  }

  lemma HeightIs(k: Knowledge, reps: seq<Expression>, v: Valuation, origin: int, m: Machine)
    requires ValidClasses(reps) && Describes(k, reps, v, origin, m)
    ensures |m.stack| == origin + k.height + 1
  {
  }

  lemma {:induction false} SecondValue(
    k: Knowledge, reps: seq<Expression>, c: Id, v: Valuation, origin: int, m: Machine)
    requires ValidClasses(reps) && Describes(k, reps, v, origin, m) && c < |reps|
    requires (k.height - 1) in k.elements && k.elements[k.height - 1] == c
    ensures |m.stack| >= 2 && m.stack[|m.stack| - 2] == ClassValue(reps, c, v)
  {
    assert ElementHolds(k.elements, ValuesOf(reps, v), origin, m.stack, k.height - 1);
  }

  /** The class is zero under every valuation, or under none. */
  ghost predicate AlwaysZero(reps: seq<Expression>, c: Id, zero: bool)
    requires ValidClasses(reps) && c < |reps|
  {
    forall v: Valuation :: ClassValue(reps, c, v) == 0 <==> zero
  }

  lemma {:induction false} AlwaysZeroAt(reps: seq<Expression>, c: Id, zero: bool, v: Valuation)
    requires ValidClasses(reps) && c < |reps| && AlwaysZero(reps, c, zero)
    ensures ClassValue(reps, c, v) == 0 <==> zero
  {
  }

  lemma {:induction false} SecondIs(
    k: Knowledge, reps: seq<Expression>, c: Id, zero: bool, v: Valuation, origin: int, m: Machine)
    requires ValidClasses(reps) && Describes(k, reps, v, origin, m) && c < |reps|
    requires (k.height - 1) in k.elements && k.elements[k.height - 1] == c
    requires ClassValue(reps, c, v) == 0 <==> zero
    ensures |m.stack| >= 2 && (m.stack[|m.stack| - 2] == 0 <==> zero)
  {
    SecondValue(k, reps, c, v, origin, m);
  }

  /** What replaces the end of a block when the second element from the top is known to be zero or not. */
  datatype Ending = Ending(items: seq<AssemblyItem>, breaking: Option<AssemblyItem>)

  function KnownEnding(items: seq<AssemblyItem>, breaking: AssemblyItem, zero: bool): Ending
  {
    if !zero then Ending(items + [Operation(SWAP(1)), Operation(POP)], Some(Operation(JUMP)))
    else if breaking == Operation(JUMPI) then Ending(items + [Operation(POP), Operation(POP)], None)
    else Ending(items + [Operation(POP), Operation(POP)], Some(Operation(STOP)))
  }

  /** After the items, the second element from the top is there, and zero or not as said. */
  ghost predicate SecondIsZero(items: seq<AssemblyItem>, zero: bool, env: Env, m: Machine)
  {
    var r := Run(items, env, m);
    r.Some? && |r.value.stack| >= 2 && (r.value.stack[|r.value.stack| - 2] == 0 <==> zero)
  }

  lemma EndingAt(items: seq<AssemblyItem>, breaking: AssemblyItem, zero: bool, env: Env, m: Machine)
    requires breaking == Operation(JUMPI) || (breaking == Operation(RETURN) && zero)
    requires SecondIsZero(items, zero, env, m) && Outcome(items, Some(breaking), env, m) != Stuck
    ensures var e := KnownEnding(items, breaking, zero);
      Outcome(e.items, e.breaking, env, m) == Outcome(items, Some(breaking), env, m)
  {
    if !zero {
      JumpOutcome(items, env, m);
    } else if breaking == Operation(JUMPI) {
      FallOutcome(items, env, m);
    } else {
      StopOutcome(items, env, m);
    }
  }

  lemma {:induction false} SecondKnown(
    k0: Knowledge, reps0: seq<Expression>, items: seq<AssemblyItem>, ops: seq<StoreOperation>, floor: int,
    k: Knowledge, reps: seq<Expression>, c: Id, zero: bool, v: Valuation, origin: int, m: Machine)
    requires Followed(k0, reps0, items, ops, floor, k, reps) && c < |reps| && AlwaysZero(reps, c, zero)
    requires (k.height - 1) in k.elements && k.elements[k.height - 1] == c
    requires Describes(k0, reps0, v, origin, m) && 0 <= origin + floor && Run(items, v.env, m).Some?
    ensures SecondIsZero(items, zero, v.env, m)
  {
    var v' := RunDescribed(k0, reps0, items, ops, floor, k, reps, v, origin, m);
    SecondAt(k, reps, c, zero, v', origin, items, v.env, m);
  }

  lemma {:induction false} SecondAt(
    k: Knowledge, reps: seq<Expression>, c: Id, zero: bool, v: Valuation, origin: int,
    items: seq<AssemblyItem>, env: Env, m: Machine)
    requires ValidClasses(reps) && c < |reps| && AlwaysZero(reps, c, zero)
    requires (k.height - 1) in k.elements && k.elements[k.height - 1] == c
    requires Run(items, env, m).Some? && Describes(k, reps, v, origin, Run(items, env, m).value)
    ensures SecondIsZero(items, zero, env, m)
  {
    AlwaysZeroAt(reps, c, zero, v);
    SecondIs(k, reps, c, zero, v, origin, Run(items, env, m).value);
  }

  lemma EndingSame(
    k0: Knowledge, reps0: seq<Expression>, items: seq<AssemblyItem>, ops: seq<StoreOperation>, floor: int,
    k: Knowledge, reps: seq<Expression>, breaking: AssemblyItem, c: Id, zero: bool)
    requires Followed(k0, reps0, items, ops, floor, k, reps) && c < |reps| && AlwaysZero(reps, c, zero)
    requires SameEnds(k0, reps0, items, Some(breaking), items, Some(breaking), floor)
    requires (k.height - 1) in k.elements && k.elements[k.height - 1] == c
    requires breaking == Operation(JUMPI) || (breaking == Operation(RETURN) && zero)
    ensures var e := KnownEnding(items, breaking, zero);
      SameEnds(k0, reps0, items, Some(breaking), e.items, e.breaking, floor)
  {
    forall v: Valuation, origin: int, m: Machine
      | Describes(k0, reps0, v, origin, m) && Outcome(items, Some(breaking), v.env, m) != Stuck
      ensures SecondIsZero(items, zero, v.env, m)
    {
      SecondKnown(k0, reps0, items, ops, floor, k, reps, c, zero, v, origin, m);
    }
    EndingBySecond(k0, reps0, items, breaking, zero, floor);
  }

  lemma EndingBySecond(
    k0: Knowledge, reps0: seq<Expression>, items: seq<AssemblyItem>, breaking: AssemblyItem, zero: bool, floor: int)
    requires ValidClasses(reps0) && SameEnds(k0, reps0, items, Some(breaking), items, Some(breaking), floor)
    requires forall v: Valuation, origin: int, m: Machine ::
      Describes(k0, reps0, v, origin, m) && Outcome(items, Some(breaking), v.env, m) != Stuck ==>
        SecondIsZero(items, zero, v.env, m)
    requires breaking == Operation(JUMPI) || (breaking == Operation(RETURN) && zero)
    ensures var e := KnownEnding(items, breaking, zero);
      SameEnds(k0, reps0, items, Some(breaking), e.items, e.breaking, floor)
  {
    var e := KnownEnding(items, breaking, zero);
    forall v: Valuation, origin: int, m: Machine
      | Describes(k0, reps0, v, origin, m) && Outcome(items, Some(breaking), v.env, m) != Stuck
      ensures Outcome(e.items, e.breaking, v.env, m) == Outcome(items, Some(breaking), v.env, m)
    {
      EndingAt(items, breaking, zero, v.env, m);
    }
  }

  /** The two ways of ending agree on every machine the knowledge describes, in the present era. */
  ghost predicate SameOutcomes(
    k0: Knowledge, reps0: seq<Expression>, era: nat, items: seq<AssemblyItem>, breaking: Option<AssemblyItem>,
    code: seq<AssemblyItem>, breaking': Option<AssemblyItem>)
    requires ValidClasses(reps0)
  {
    forall v: Valuation, origin: int, m: Machine ::
      Describes(k0, reps0, v, origin, m) && v.era == era && Outcome(items, breaking, v.env, m) != Stuck ==>
        Outcome(code, breaking', v.env, m) == Outcome(items, breaking, v.env, m)
  }

  lemma SameRunsSameOutcomes(
    k0: Knowledge, reps0: seq<Expression>, era: nat, items: seq<AssemblyItem>, breaking: Option<AssemblyItem>,
    items': seq<AssemblyItem>, breaking': Option<AssemblyItem>, floor: int, code: seq<AssemblyItem>)
    requires ValidClasses(reps0) && SameEnds(k0, reps0, items, breaking, items', breaking', floor)
    requires SameRuns(k0, reps0, era, floor, items', code)
    ensures SameOutcomes(k0, reps0, era, items, breaking, code, breaking')
  {
  }

  /** The block, its layouts having been looked up one after the other while the classes grew. */
  lemma BlockIs(b: Block, reps: seq<Expression>, reps1: seq<Expression>)
    requires Followed(b.k0, b.reps0, b.items, b.ops, b.floor, b.k, reps) && reps <= reps1 <= b.reps
    requires LowerBound(b.k, b.base) && (b.base in b.k.elements || b.base == b.k.height + 1)
    requires ValidClasses(b.reps) && ValidKnowledge(b.kI, reps1) && ValidKnowledge(b.kT, b.reps)
    requires Deepened(b.k0, reps, NatOf(b.k0.height - b.base + 1), b.kI, reps1) && LayoutOf(b.kI, b.base, b.initial)
    requires Deepened(b.k, reps1, NatOf(b.k.height - b.base + 1), b.kT, b.reps) && LayoutOf(b.kT, b.base, b.target)
    ensures ValidBlock(b)
  {
    var n, m := NatOf(b.k0.height - b.base + 1), NatOf(b.k.height - b.base + 1);
    StillFollowed(b.k0, b.reps0, b.items, b.ops, b.floor, b.k, reps, b.reps);
    NothingRevealed(b.k0, b.reps0, reps);
    DeepenedFrom(b.k0, b.reps0, 0, b.k0, reps, n, b.kI, reps1);
    DeepenedLater(b.k0, b.reps0, n, b.kI, reps1, b.reps);
    StillValid(b.kI, reps1, b.reps);
    StillValid(b.k, reps, reps1);
    DeepenedSame(b.k, reps1, m, b.kT, b.reps, b.reps);
  }

  /** What the code generator asks for. */
  lemma BlockPrepared(b: Block)
    requires ValidBlock(b)
    ensures b.base <= b.k0.height + 1 && Contiguous(b.initial, b.base, b.k0.height)
    ensures Contiguous(b.target, b.base, b.k.height)
    ensures Operations(b.reps, b.ops) && AllStores(b.ops)
    ensures forall o :: o in b.ops ==> o.sequenceNumber <= b.k.sequenceNumber
    ensures forall p :: p in b.initial ==> Settled(b.reps, b.initial[p], b.k.sequenceNumber)
    ensures forall p :: p in b.target ==> Settled(b.reps, b.target[p], b.k.sequenceNumber)
  {
    assert LowerBound(b.k0, b.base);
    forall p | p in b.initial
      ensures Settled(b.reps, b.initial[p], b.k.sequenceNumber)
    {
      SettledStill(b.reps, b.reps, b.initial[p], b.kI.sequenceNumber, b.k.sequenceNumber);
    }
  }
}
