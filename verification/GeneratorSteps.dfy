/** Each step of the code generator, on values: items, symbolic stack and position index stay in agreement. */
module GeneratorSteps {
  import opened Evm
  import opened SemanticInformation
  import opened Classes
  import opened Expressions
  import opened Knowledge
  import opened Tracking
  import opened Generation
  import opened Production
  import opened Layout
  import opened Dependencies
  import opened Scheduling
  import opened Recomputation

  datatype State = State(items: seq<AssemblyItem>, stack: map<int, Id>, height: int, positions: Positions)

  ghost function GeneratedBy(ops: seq<StoreOperation>, s: State): Generated
    requires AllStores(ops)
  {
    Generated(s.items, s.stack, s.height, DoneIn(ops, s.positions.Keys))
  }

  /** The classes that have been computed since the start. */
  ghost function ComputedIn(start: Start, s: State): set<Id> { s.positions.Keys - ClassesIn(start.stack) }

  /** The symbolic stack and the index of positions are exact, and the items lead to that stack. */
  ghost predicate Agreed(reps: seq<Expression>, ops: seq<StoreOperation>, start: Start, s: State)
  {
    && Operations(reps, ops) && AllStores(ops)
    && Contiguous(s.stack, start.base, s.height) && Inverse(s.stack, s.positions)
    && Produces(reps, ops, start, ComputedIn(start, s), GeneratedBy(ops, s))
    && OnlyRuns(reps, ComputedIn(start, s), s.items)
  }

  /** The items are straight-line code if and only if those of the computed classes are; and none of them jumps. */
  ghost predicate OnlyRuns(reps: seq<Expression>, computed: set<Id>, items: seq<AssemblyItem>)
  {
    NoFlow(items) && (AllRunnable(items) <==> AllRun(reps, computed))
  }

  lemma ValuesDoNotJump(reps: seq<Expression>, c: Id, n: nat)
    requires ValidClasses(reps) && Settled(reps, c, n)
    ensures !IsFlow(reps[c].item)
  {
  }

  lemma RunsMore(reps: seq<Expression>, computed: set<Id>, items: seq<AssemblyItem>, item: AssemblyItem)
    requires OnlyRuns(reps, computed, items) && Runnable(item)
    ensures OnlyRuns(reps, computed, items + [item])
  {
    AllRunnableAppend(items, item);
  }

  lemma RunsComputed(reps: seq<Expression>, computed: set<Id>, items: seq<AssemblyItem>, c: Id)
    requires OnlyRuns(reps, computed, items) && c < |reps| && !IsFlow(reps[c].item)
    ensures OnlyRuns(reps, computed + {c}, items + [reps[c].item])
  {
    AllRunnableAppend(items, reps[c].item);
    assert AllRun(reps, computed + {c}) <==> AllRun(reps, computed) && Runnable(reps[c].item) by {
      assert c in computed + {c};
      assert forall d :: d in computed ==> d in computed + {c};
    }
  }

  lemma RunsAfterSwap(reps: seq<Expression>, computed: set<Id>, items: seq<AssemblyItem>, n: nat)
    requires OnlyRuns(reps, computed, items) && 1 <= n <= 16
    ensures OnlyRuns(reps, computed, AfterSwap(items, n))
  {
    if items != [] && items[|items| - 1] == Operation(SWAP(n)) {
      assert items == items[..|items| - 1] + [Operation(SWAP(n))];
      AllRunnableAppend(items[..|items| - 1], Operation(SWAP(n)));
    } else {
      RunsMore(reps, computed, items, Operation(SWAP(n)));
    }
  }

  /** The state has an exact index. */
  ghost predicate Indexed(s: State, base: int) { Contiguous(s.stack, base, s.height) && Inverse(s.stack, s.positions) }

  lemma AgreedBy(reps: seq<Expression>, ops: seq<StoreOperation>, start: Start, s: State, g: Generated)
    requires Operations(reps, ops) && AllStores(ops) && Indexed(s, start.base)
    requires Produces(reps, ops, start, ComputedIn(start, s), g) && g == GeneratedBy(ops, s)
    requires OnlyRuns(reps, ComputedIn(start, s), s.items)
    ensures Agreed(reps, ops, start, s)
  {
  }

  function Dupped(s: State, p: int): State
    requires p in s.stack && s.height + 1 - p >= 0
  {
    var c := s.stack[p];
    State(s.items + [Operation(DUP(1 + s.height - p))], s.stack[s.height + 1 := c], s.height + 1,
          With(s.positions, c, s.height + 1))
  }

  lemma DuppedIndexed(s: State, base: int, p: int)
    requires Indexed(s, base) && p in s.stack
    ensures p <= s.height && Indexed(Dupped(s, p), base) && Dupped(s, p).positions.Keys == s.positions.Keys
  {
    var c := s.stack[p];
    PushedTop(s.stack, base, s.height, c);
    PushedInverse(s.stack, s.positions, c, s.height + 1);
    assert Dupped(s, p).positions.Keys == s.positions.Keys;
  }

  lemma DuppedIs(ops: seq<StoreOperation>, s: State, base: int, p: int)
    requires AllStores(ops) && Contiguous(s.stack, base, s.height) && p in s.stack
    requires p <= s.height && Dupped(s, p).positions.Keys == s.positions.Keys
    ensures var g := GeneratedBy(ops, s);
      GeneratedBy(ops, Dupped(s, p))
      == Generated(
           g.items + [Operation(DUP(1 + g.height - p))], ReplaceTop(g.stack, g.height, 0, g.stack[p]), g.height + 1,
           g.done)
  {
    PushedTop(s.stack, base, s.height, s.stack[p]);
  }

  lemma DuppedProduces(
    reps: seq<Expression>, ops: seq<StoreOperation>, start: Start, computed: set<Id>, s: State, p: int)
    requires Operations(reps, ops) && AllStores(ops) && Contiguous(s.stack, start.base, s.height)
    requires Produces(reps, ops, start, computed, GeneratedBy(ops, s)) && p in s.stack && p <= s.height <= p + 15
    requires Dupped(s, p).positions.Keys == s.positions.Keys
    ensures Produces(reps, ops, start, computed, GeneratedBy(ops, Dupped(s, p)))
  {
    DuppedIs(ops, s, start.base, p);
    DupProduces(reps, ops, start, computed, GeneratedBy(ops, s), p);
  }

  lemma DuppedAgrees(reps: seq<Expression>, ops: seq<StoreOperation>, start: Start, s: State, p: int)
    requires Agreed(reps, ops, start, s) && p in s.stack && 1 + s.height - p <= 16
    ensures p <= s.height && Agreed(reps, ops, start, Dupped(s, p))
    ensures Dupped(s, p).positions.Keys == s.positions.Keys
  {
    DuppedIndexed(s, start.base, p);
    DuppedProduces(reps, ops, start, ComputedIn(start, s), s, p);
    RunsMore(reps, ComputedIn(start, s), s.items, Operation(DUP(1 + s.height - p)));
    AgreedBy(reps, ops, start, Dupped(s, p), GeneratedBy(ops, Dupped(s, p)));
  }

  predicate CanExchange(s: State, p: int)
  {
    && s.height in s.stack && p in s.stack && p < s.height
    && s.stack[s.height] in s.positions && s.stack[p] in s.positions
  }

  ghost predicate IsExchanged(s: State, p: int, s': State) { CanExchange(s, p) && s' == Exchanging(s, p) }

  function Exchanging(s: State, p: int): State
    requires CanExchange(s, p)
  {
    State(AfterSwap(s.items, s.height - p), Exchange(s.stack, s.height, p), s.height,
      if s.stack[s.height] == s.stack[p] then s.positions
      else Moved(s.positions, s.stack[s.height], s.height, s.stack[p], p))
  }

  lemma TopTwoKnown(s: State, base: int, p: int)
    requires Indexed(s, base) && base <= p < s.height
    ensures CanExchange(s, p)
  {
  }

  lemma ExchangingIndexed(s: State, base: int, p: int)
    requires Indexed(s, base) && CanExchange(s, p)
    ensures Indexed(Exchanging(s, p), base) && Exchanging(s, p).positions.Keys == s.positions.Keys
  {
    ExchangedTop(s.stack, base, s.height, p);
    if s.stack[s.height] != s.stack[p] {
      ExchangedInverse(s.stack, s.positions, s.height, p);
    }
    assert Exchanging(s, p).positions.Keys == s.positions.Keys;
  }

  lemma ExchangingIs(ops: seq<StoreOperation>, s: State, p: int)
    requires AllStores(ops) && s.height in s.stack && p in s.stack && p < s.height
    requires s.stack[s.height] in s.positions && s.stack[p] in s.positions
    requires Exchanging(s, p).positions.Keys == s.positions.Keys
    ensures var g := GeneratedBy(ops, s);
      GeneratedBy(ops, Exchanging(s, p))
      == g.(items := AfterSwap(g.items, g.height - p), stack := Exchange(g.stack, g.height, p))
  {
  }

  lemma SwapProducesAs(
    reps: seq<Expression>, ops: seq<StoreOperation>, start: Start, computed: set<Id>, g: Generated, p: int,
    g': Generated)
    requires Operations(reps, ops) && Produces(reps, ops, start, computed, g)
    requires Contiguous(g.stack, start.base, g.height)
    requires p in g.stack && p < g.height <= p + 16 && g.height in g.stack
    requires g' == g.(items := AfterSwap(g.items, g.height - p), stack := Exchange(g.stack, g.height, p))
    ensures Produces(reps, ops, start, computed, g')
  {
    SwapProduces(reps, ops, start, computed, g, p);
  }

  lemma ExchangingProduces(
    reps: seq<Expression>, ops: seq<StoreOperation>, start: Start, computed: set<Id>, s: State, p: int)
    requires Operations(reps, ops) && AllStores(ops) && Contiguous(s.stack, start.base, s.height)
    requires Produces(reps, ops, start, computed, GeneratedBy(ops, s)) && start.base <= p < s.height <= p + 16
    requires s.height in s.stack && p in s.stack && s.stack[s.height] in s.positions && s.stack[p] in s.positions
    requires Exchanging(s, p).positions.Keys == s.positions.Keys
    ensures Produces(reps, ops, start, computed, GeneratedBy(ops, Exchanging(s, p)))
  {
    ExchangingIs(ops, s, p);
    SwapProducesAs(reps, ops, start, computed, GeneratedBy(ops, s), p, GeneratedBy(ops, Exchanging(s, p)));
  }

  lemma ExchangingRuns(reps: seq<Expression>, start: Start, s: State, p: int)
    requires OnlyRuns(reps, ComputedIn(start, s), s.items) && p < s.height <= p + 16
    requires CanExchange(s, p)
    requires Exchanging(s, p).positions.Keys == s.positions.Keys
    ensures ComputedIn(start, Exchanging(s, p)) == ComputedIn(start, s)
    ensures OnlyRuns(reps, ComputedIn(start, s), Exchanging(s, p).items)
  {
    RunsAfterSwap(reps, ComputedIn(start, s), s.items, s.height - p);
  }

  lemma ExchangingAgrees(reps: seq<Expression>, ops: seq<StoreOperation>, start: Start, s: State, p: int)
    requires Agreed(reps, ops, start, s) && start.base <= p < s.height <= p + 16
    requires CanExchange(s, p)
    ensures Agreed(reps, ops, start, Exchanging(s, p))
  {
    ExchangingIndexed(s, start.base, p);
    ExchangingProduces(reps, ops, start, ComputedIn(start, s), s, p);
    ExchangingRuns(reps, start, s, p);
    AgreedBy(reps, ops, start, Exchanging(s, p), GeneratedBy(ops, Exchanging(s, p)));
  }

  /** All there is to say about an exchange above the part of the target that is in place. */
  lemma TopExchanged(
    reps: seq<Expression>, ops: seq<StoreOperation>, start: Start, s: State, target: map<int, Id>, t: int, p: int)
    requires Agreed(reps, ops, start, s) && start.base <= p < s.height <= p + 16
    requires InPlace(s.stack, s.height, target, t) && t < p
    ensures CanExchange(s, p)
    ensures s.stack[s.height] == s.stack[p] ==> Exchange(s.stack, s.height, p) == s.stack
    ensures Agreed(reps, ops, start, Exchanging(s, p)) && Exchanging(s, p).positions.Keys == s.positions.Keys
    ensures InPlace(Exchange(s.stack, s.height, p), s.height, target, t)
  {
    TopTwoKnown(s, start.base, p);
    ExchangedTop(s.stack, start.base, s.height, p);
    ExchangingIndexed(s, start.base, p);
    ExchangingAgrees(reps, ops, start, s, p);
    InPlaceExchanged(s.stack, start.base, s.height, target, t, p);
  }

  function Popping(s: State): State
    requires s.height in s.stack && s.stack[s.height] in s.positions
  {
    State(s.items + [Operation(POP)], s.stack - {s.height}, s.height - 1,
          Without(s.positions, s.stack[s.height], s.height))
  }

  lemma PoppingAgrees(reps: seq<Expression>, ops: seq<StoreOperation>, start: Start, s: State)
    requires Agreed(reps, ops, start, s) && s.height in s.stack
    ensures s.stack[s.height] in s.positions && Agreed(reps, ops, start, Popping(s))
    ensures Popping(s).positions.Keys == s.positions.Keys
  {
    PopProduces(reps, ops, start, ComputedIn(start, s), GeneratedBy(ops, s));
    RunsMore(reps, ComputedIn(start, s), s.items, Operation(POP));
    PoppedTop(s.stack, start.base, s.height);
    PoppedInverse(s.stack, s.positions, s.height);
    assert Popping(s).positions.Keys == s.positions.Keys;
  }

  // ----- computing a class from the elements on top -----

  /** The index after the n topmost elements have been taken off. */
  function Cleared(positions: Positions, stack: map<int, Id>, height: int, n: nat): Positions
    requires forall h :: height - n < h <= height ==> h in stack && stack[h] in positions
    ensures Cleared(positions, stack, height, n).Keys == positions.Keys
  {
    if n == 0 then positions
    else
      var before := Cleared(positions, stack, height, n - 1);
      Without(before, stack[height - n + 1], height - n + 1)
  }

  /** The state without its n topmost elements. */
  function ClearedTo(s: State, n: nat): State
    requires forall h :: s.height - n < h <= s.height ==> h in s.stack && s.stack[h] in s.positions
  {
    State(s.items, Below(s.stack, s.height - n), s.height - n, Cleared(s.positions, s.stack, s.height, n))
  }

  lemma TopIsKnown(s: State, base: int, n: nat)
    requires Contiguous(s.stack, base, s.height) && Inverse(s.stack, s.positions) && base <= s.height - n + 1
    ensures TopKnown(s, n)
    ensures forall h :: h in s.stack ==> h <= s.height
  {
  }

  ghost predicate TopKnown(s: State, n: nat)
  {
    forall h :: s.height - n < h <= s.height ==> h in s.stack && s.stack[h] in s.positions
  }

  function TopOff(s: State): State
    requires s.height in s.stack && s.stack[s.height] in s.positions
  {
    State(s.items, s.stack - {s.height}, s.height - 1, Without(s.positions, s.stack[s.height], s.height))
  }

  lemma TopOffIndexed(s: State, base: int)
    requires Indexed(s, base) && base <= s.height
    ensures s.height in s.stack && s.stack[s.height] in s.positions && Indexed(TopOff(s), base)
  {
    PoppedInverse(s.stack, s.positions, s.height);
    PoppedTop(s.stack, base, s.height);
  }

  lemma OneMoreCleared(s: State, n: nat)
    requires n > 0 && TopKnown(s, n)
    ensures TopKnown(s, n - 1)
    ensures var s1 := ClearedTo(s, n - 1);
      s1.height in s1.stack && s1.stack[s1.height] in s1.positions && ClearedTo(s, n) == TopOff(s1)
  {
    var s1 := ClearedTo(s, n - 1);
    assert Below(s.stack, s.height - n) == s1.stack - {s1.height};
  }

  lemma {:induction false} ClearedIndexed(s: State, base: int, n: nat)
    requires Indexed(s, base) && base <= s.height - n + 1 && TopKnown(s, n)
    ensures Indexed(ClearedTo(s, n), base)
  {
    if n == 0 {
      assert ClearedTo(s, 0) == s by {
        assert Below(s.stack, s.height) == s.stack;
      }
    } else {
      OneMoreCleared(s, n);
      ClearedIndexed(s, base, n - 1);
      TopOffIndexed(ClearedTo(s, n - 1), base);
    }
  }

  /** An entry that says the class has been computed. */
  function Touched(positions: Positions, c: Id): Positions
  {
    positions[c := if c in positions then positions[c] else {}]
  }

  lemma TouchedInverse(stack: map<int, Id>, positions: Positions, c: Id)
    requires Inverse(stack, positions)
    ensures Inverse(stack, Touched(positions, c))
  {
    forall d | d in Touched(positions, c)
      ensures PositionsOf(stack, d, Touched(positions, c)[d])
    {
      assert d in positions ==> PositionsOf(stack, d, positions[d]);
    }
  }

  function EmittedValue(s: State, item: AssemblyItem, n: nat, c: Id): State
    requires forall h :: s.height - n < h <= s.height ==> h in s.stack && s.stack[h] in s.positions
  {
    WithTop(ClearedTo(s, n), item, c)
  }

  function WithTop(s: State, item: AssemblyItem, c: Id): State
  {
    State(s.items + [item], s.stack[s.height + 1 := c], s.height + 1, With(s.positions, c, s.height + 1))
  }

  function EmittedWrite(s: State, item: AssemblyItem, n: nat, c: Id): State
    requires forall h :: s.height - n < h <= s.height ==> h in s.stack && s.stack[h] in s.positions
  {
    var rest := ClearedTo(s, n);
    State(s.items + [item], rest.stack, rest.height, Touched(rest.positions, c))
  }

  lemma EmittedValueIs(ops: seq<StoreOperation>, s: State, item: AssemblyItem, n: nat, c: Id)
    requires TopKnown(s, n)
    requires AllStores(ops) && forall i :: 0 <= i < |ops| ==> ops[i].expression != c
    ensures EmittedValue(s, item, n, c).positions.Keys == s.positions.Keys + {c}
    ensures GeneratedBy(ops, EmittedValue(s, item, n, c)) == Computed(GeneratedBy(ops, s), item, n, c)
  {
    var s' := EmittedValue(s, item, n, c);
    assert s'.positions.Keys == s.positions.Keys + {c};
    NoWriteDone(ops, s.positions.Keys, s'.positions.Keys);
  }

  lemma EmittedWriteIs(ops: seq<StoreOperation>, s: State, t: Target, c: Id, j: nat)
    requires TopKnown(s, 2)
    requires AllStores(ops) && DoneIn(ops, s.positions.Keys + {c}) == DoneIn(ops, s.positions.Keys) + {j}
    ensures EmittedWrite(s, Operation(StoreInstruction(t)), 2, c).positions.Keys == s.positions.Keys + {c}
    ensures GeneratedBy(ops, EmittedWrite(s, Operation(StoreInstruction(t)), 2, c))
         == Written(GeneratedBy(ops, s), t, j)
  {
    var s' := EmittedWrite(s, Operation(StoreInstruction(t)), 2, c);
    assert s'.positions.Keys == s.positions.Keys + {c};
  }

  lemma WithTopIndexed(s: State, base: int, item: AssemblyItem, c: Id)
    requires Indexed(s, base)
    ensures Indexed(WithTop(s, item, c), base)
  {
    PushedTop(s.stack, base, s.height, c);
    PushedInverse(s.stack, s.positions, c, s.height + 1);
  }

  lemma EmittedValueIndexed(s: State, base: int, item: AssemblyItem, n: nat, c: Id)
    requires Indexed(s, base) && base <= s.height - n + 1 && TopKnown(s, n)
    ensures Indexed(EmittedValue(s, item, n, c), base)
  {
    ClearedIndexed(s, base, n);
    WithTopIndexed(ClearedTo(s, n), base, item, c);
  }

  lemma EmittedWriteIndexed(s: State, base: int, item: AssemblyItem, n: nat, c: Id)
    requires Indexed(s, base) && base <= s.height - n + 1 && TopKnown(s, n)
    ensures Indexed(EmittedWrite(s, item, n, c), base)
  {
    ClearedIndexed(s, base, n);
    TouchedInverse(Below(s.stack, s.height - n), Cleared(s.positions, s.stack, s.height, n), c);
  }

  lemma NoWriteIs(reps: seq<Expression>, ops: seq<StoreOperation>, c: Id, n: nat)
    requires Operations(reps, ops) && AllStores(ops) && Settled(reps, c, n)
    ensures forall i :: 0 <= i < |ops| ==> ops[i].expression != c
  {
    forall i | 0 <= i < |ops|
      ensures ops[i].expression != c
    {
      NoWriteIsValue(reps, ops, c, n, i);
    }
  }

  lemma ComputedMore(start: Start, s: State, s': State, c: Id)
    requires s'.positions.Keys == s.positions.Keys + {c} && c !in ClassesIn(start.stack)
    ensures ComputedIn(start, s') == ComputedIn(start, s) + {c}
  {
  }

  lemma EmittedValueAgrees(
    reps: seq<Expression>, ops: seq<StoreOperation>, start: Start, s: State, c: Id, args: seq<Id>, last: nat)
    requires Agreed(reps, ops, start, s) && Settled(reps, c, last) && !reps[c].item.UndefinedItem?
    requires AccessReady(reps, ops, start.number, DoneIn(ops, s.positions.Keys), c)
    requires ArgumentsInPlace(reps[c], args) && OnTop(s.stack, s.height, args) && start.base <= s.height - |args| + 1
    requires TopKnown(s, |args|) && c !in ClassesIn(start.stack)
    ensures Agreed(reps, ops, start, EmittedValue(s, reps[c].item, |args|, c))
    ensures EmittedValue(s, reps[c].item, |args|, c).positions.Keys == s.positions.Keys + {c}
  {
    var s', g' := EmittedValue(s, reps[c].item, |args|, c), Computed(GeneratedBy(ops, s), reps[c].item, |args|, c);
    NoWriteIs(reps, ops, c, last);
    ValuesDoNotJump(reps, c, last);
    EmittedValueIs(ops, s, reps[c].item, |args|, c);
    EmittedValueIndexed(s, start.base, reps[c].item, |args|, c);
    ComputedMore(start, s, s', c);
    MoreComputed(reps, ops, start, ComputedIn(start, s), GeneratedBy(ops, s), c);
    ValueProduces(reps, ops, start, ComputedIn(start, s'), GeneratedBy(ops, s), c, args, last);
    RunsComputed(reps, ComputedIn(start, s), s.items, c);
    AgreedBy(reps, ops, start, s', g');
  }

  lemma EmittedWriteAgrees(
    reps: seq<Expression>, ops: seq<StoreOperation>, start: Start, s: State, j: nat, args: seq<Id>)
    requires Agreed(reps, ops, start, s) && j < |ops| && ops[j].expression < |reps|
    requires AccessReady(reps, ops, start.number, DoneIn(ops, s.positions.Keys), ops[j].expression)
    requires ArgumentsInPlace(reps[ops[j].expression], args) && OnTop(s.stack, s.height, args)
    requires start.base <= s.height - |args| + 1 && TopKnown(s, |args|)
    requires ops[j].expression !in ClassesIn(start.stack)
    ensures var c := ops[j].expression;
      Agreed(reps, ops, start, EmittedWrite(s, reps[c].item, |args|, c))
    ensures var c := ops[j].expression;
      EmittedWrite(s, reps[c].item, |args|, c).positions.Keys == s.positions.Keys + {c}
  {
    var c, item := ops[j].expression, reps[ops[j].expression].item;
    OneWriteDone(reps, ops, s.positions.Keys, j);
    MoreComputed(reps, ops, start, ComputedIn(start, s), GeneratedBy(ops, s), c);
    WriteProduces(reps, ops, start, ComputedIn(start, s) + {c}, GeneratedBy(ops, s), args, j);
    EmittedWriteIs(ops, s, ops[j].target, c, j);
    EmittedWriteIndexed(s, start.base, item, |args|, c);
    ComputedMore(start, s, EmittedWrite(s, item, |args|, c), c);
    RunsComputed(reps, ComputedIn(start, s), s.items, c);
    AgreedBy(reps, ops, start, EmittedWrite(s, item, |args|, c), Written(GeneratedBy(ops, s), ops[j].target, j));
  }

  // ----- what has to be computed, and what has been in the end -----

  ghost function Wanted(target: map<int, Id>, s: Sequenced): set<Id> { ClassesIn(target) + set q | q in s :: q.1 }

  lemma WantedIs(reps: seq<Expression>, pairs: Pairs, target: map<int, Id>, s: Sequenced)
    requires Listed(reps, pairs, {}, s) && InPairs(pairs, s)
    requires forall q :: q in s ==> q.1 < |reps| && q.0 == reps[q.1].sequenceNumber
    ensures Wanted(target, s) == ClassesIn(target) + Numbered(reps, pairs)
  {
    forall d
      ensures d in Wanted(target, s) <==> d in ClassesIn(target) + Numbered(reps, pairs)
    {
      if d in Numbered(reps, pairs) {
        assert (reps[d].sequenceNumber, d) in s;
      }
    }
  }

  /** The target is on the stack, and all accesses have been performed: everything needed has been computed. */
  lemma EndAccounted(
    reps: seq<Expression>, start: Start, state: State, wanted: set<Id>, target: map<int, Id>, s: Sequenced)
    requires Accounted(reps, ClassesIn(start.stack), wanted, state.positions.Keys)
    requires Inverse(state.stack, state.positions) && state.stack == target && wanted == Wanted(target, s)
    requires forall q :: q in s ==> q.1 in state.positions.Keys
    ensures ComputedExactly(reps, ClassesIn(start.stack), wanted, ComputedIn(start, state))
    ensures AllComputable(reps, ComputedIn(start, state))
  {
    forall c: Id | c in wanted
      ensures c in state.positions.Keys
    {
      if c in ClassesIn(target) {
        var h := PositionOf(target, c);
      } else {
        var q :| q in s && q.1 == c;
        assert q.1 in state.positions.Keys;
      }
    }
    AllAccounted(reps, ClassesIn(start.stack), wanted, state.positions.Keys);
    forall c | c in ComputedIn(start, state)
      ensures c < |reps| && Computable(reps[c])
    {
      assert AccountedFor(reps, ClassesIn(start.stack), wanted, state.positions.Keys, c);
    }
  }

  // ----- arguments in place -----

  lemma CommutativeHasTwo(reps: seq<Expression>, c: Id)
    requires ValidClasses(reps) && c < |reps| && IsCommutativeOperation(reps[c].item)
    ensures |reps[c].arguments| == 2
  {
    assert ValidExpression(reps[c], c);
  }

  predicate LastIsSwap(items: seq<AssemblyItem>) { items != [] && items[|items| - 1] == Operation(SWAP(1)) }

  lemma ArgumentsSwapped(e: Expression, args: seq<Id>)
    requires IsCommutativeOperation(e.item) && |e.arguments| == 2 && ArgumentsInPlace(e, args)
    ensures |args| == 2 && ArgumentsInPlace(e, Swapped(args))
  {
    assert Swapped(Swapped(e.arguments)) == e.arguments;
  }

  ghost predicate TwoOnTop(s: State, a: Id, b: Id)
  {
    && s.height in s.stack && s.stack[s.height] == a
    && (s.height - 1) in s.stack && s.stack[s.height - 1] == b
  }

  lemma OnTopIsTwo(s: State, args: seq<Id>)
    requires |args| == 2
    ensures OnTop(s.stack, s.height, args) <==> TwoOnTop(s, args[0], args[1])
  {
    if OnTop(s.stack, s.height, args) {
      assert (s.height - 0) in s.stack && s.stack[s.height - 0] == args[0];
    }
  }

  /** Dropping a SWAP1 exchanges the two. */
  lemma TopTwoExchanged(s: State, p: int, a: Id, b: Id)
    requires TwoOnTop(s, a, b) && LastIsSwap(s.items) && p == s.height - 1
    ensures forall s' :: IsExchanged(s, p, s') ==> SwapDropped(s, a, b, s')
  {
  }

  ghost predicate SwapDropped(s: State, a: Id, b: Id, s': State)
  {
    TwoOnTop(s', b, a) && |s'.items| < |s.items|
  }

  /** What is above the part of the target that is in place still is. */
  lemma AboveExchanged(s: State, t: int, s': State)
    requires t < s.height - 1
    ensures IsExchanged(s, s.height - 1, s') ==> forall c :: Above(s.stack, c, t) ==> Above(s'.stack, c, t)
  {
    if IsExchanged(s, s.height - 1, s') {
      StillAbove(s.stack, s'.stack, s.height, t);
    }
  }

  /** Computing only classes without a number carries out no write. */
  lemma SameDone(reps: seq<Expression>, ops: seq<StoreOperation>, computed: set<Id>, more: set<Id>)
    requires Operations(reps, ops) && AllStores(ops) && computed <= more
    requires forall d :: d in more ==> d in computed || (d < |reps| && reps[d].sequenceNumber == 0)
    ensures DoneIn(ops, more) == DoneIn(ops, computed)
  {
    forall i | 0 <= i < |ops| && ops[i].expression in more
      ensures ops[i].expression in computed
    {
      assert SettledStore(reps, ops[i]);
    }
    NoWriteDone(ops, computed, more);
  }

  lemma UnsequencedIsReady(
    reps: seq<Expression>, ops: seq<StoreOperation>, number: nat, done: set<nat>, c: Id, last: nat)
    requires Operations(reps, ops) && AllStores(ops) && Relevant(reps, ops, c, last)
    requires c < |reps| && reps[c].sequenceNumber == 0
    ensures Settled(reps, c, last) && AccessReady(reps, ops, number, done, c)
  {
    forall i | 0 <= i < |ops|
      ensures ops[i].expression != c
    {
      assert SettledStore(reps, ops[i]);
    }
    UnsequencedReady(reps, ops, number, done, c, last);
  }

  lemma DepositOf(reps: seq<Expression>, c: Id, last: nat)
    requires ValidClasses(reps) && Settled(reps, c, last) && !reps[c].item.UndefinedItem?
    ensures Deposit(reps[c].item) == 1 - |reps[c].arguments|
    ensures !reps[c].item.Operation? || Info(reps[c].item.instruction).ret == 1
  {
    assert ValidExpression(reps[c], c);
  }

  lemma DepositOfWrite(reps: seq<Expression>, ops: seq<StoreOperation>, j: nat)
    requires Operations(reps, ops) && j < |ops|
    ensures ops[j].StoreOperation? && ops[j].expression < |reps|
    ensures reps[ops[j].expression].item.Operation? && Info(reps[ops[j].expression].item.instruction).ret == 0
    ensures Deposit(reps[ops[j].expression].item) == -2 && |reps[ops[j].expression].arguments| == 2
  {
    assert SettledStore(reps, ops[j]);
    ArgumentsOfAccess(ops[j].target);
  }

  /** A relevant class is a value, or one of the writes, which leave nothing on the stack. */
  lemma ValueOrWrite(reps: seq<Expression>, ops: seq<StoreOperation>, c: Id, last: nat) returns (j: nat)
    requires Operations(reps, ops) && AllStores(ops) && Relevant(reps, ops, c, last)
    requires c < |reps| && !reps[c].item.UndefinedItem?
    ensures !reps[c].item.Operation? || Info(reps[c].item.instruction).ret == 1 ==> Settled(reps, c, last)
    ensures reps[c].item.Operation? && Info(reps[c].item.instruction).ret == 0 ==> j < |ops| && ops[j].expression == c
  {
    j := 0;
    if Settled(reps, c, last) {
      DepositOf(reps, c, last);
    } else {
      j :| 0 <= j < |ops| && ops[j].expression == c;
      DepositOfWrite(reps, ops, j);
    }
  }

  lemma EmittedInPlace(s: State, item: AssemblyItem, n: nat, c: Id, target: map<int, Id>, t: int)
    requires TopKnown(s, n)
    requires InPlace(s.stack, s.height, target, t) && t <= s.height - n
    ensures InPlace(EmittedValue(s, item, n, c).stack, s.height - n + 1, target, t)
    ensures InPlace(EmittedWrite(s, item, n, c).stack, s.height - n, target, t)
  {
  }

  lemma StillLayouts(
    reps: seq<Expression>, reps': seq<Expression>, stack: map<int, Id>, target: map<int, Id>, last: nat)
    requires ValidClasses(reps) && ValidClasses(reps') && reps <= reps'
    requires forall p :: p in stack ==> Settled(reps, stack[p], last)
    requires forall p :: p in target ==> Settled(reps, target[p], last)
    ensures forall p :: p in stack ==> Settled(reps', stack[p], last)
    ensures forall p :: p in target ==> Settled(reps', target[p], last)
  {
    forall c | Settled(reps, c, last)
      ensures Settled(reps', c, last)
    {
      SettledStill(reps, reps', c, last, last);
    }
  }
}
