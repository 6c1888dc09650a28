/**
 * Generated items against the classes of the analysis: for every valuation and every machine that matches the
 * initial layout, the items lead to the symbolic stack, with the words of its classes.
 */
module Production {
  import opened Evm
  import opened SemanticInformation
  import opened Classes
  import opened Expressions
  import opened Knowledge
  import opened Tracking
  import opened StoreHistory
  import opened Generation
  import opened Recomputation

  /** Where a block begins: the first sequence number, and the layout of the stack from height base on. */
  datatype Start = Start(number: nat, base: int, height: int, stack: map<int, Id>)

  /** The writes of a block, in order; their values are known before, and no two have the same number. */
  ghost predicate Operations(reps: seq<Expression>, ops: seq<StoreOperation>)
  {
    && ValidClasses(reps)
    && (forall i :: 0 <= i < |ops| ==> SettledStore(reps, ops[i]))
    && forall i, j :: 0 <= i < j < |ops| ==> ops[i].sequenceNumber < ops[j].sequenceNumber
  }

  ghost function AccessOf(reps: seq<Expression>, op: StoreOperation, v: Valuation): Access
    requires ValidStore(reps, op)
  {
    Access(op.target, op.slot, ValuesOf(reps, v)(op.slot), ValuesOf(reps, v)(StoredValue(reps, op)))
  }

  ghost function Accesses(reps: seq<Expression>, ops: seq<StoreOperation>, v: Valuation): (ws: seq<Access>)
    requires Operations(reps, ops)
    ensures |ws| == |ops|
  {
    seq(|ops|, i requires 0 <= i < |ops| => AccessOf(reps, ops[i], v))
  }

  lemma AccessesAgree(reps: seq<Expression>, ops: seq<StoreOperation>, v: Valuation)
    requires Operations(reps, ops)
    ensures SlotsAgree(Accesses(reps, ops, v))
  {
  }

  /** How many of the writes come before sequence number n. */
  function Before(ops: seq<StoreOperation>, n: nat): (j: nat)
    requires forall i :: 0 <= i < |ops| ==> ops[i].StoreOperation?
    ensures j <= |ops|
  {
    if ops == [] then 0
    else if ops[|ops| - 1].sequenceNumber < n then |ops|
    else Before(ops[..|ops| - 1], n)
  }

  lemma {:induction false} BeforeIs(ops: seq<StoreOperation>, n: nat, i: nat)
    requires forall i :: 0 <= i < |ops| ==> ops[i].StoreOperation?
    requires forall i, j :: 0 <= i < j < |ops| ==> ops[i].sequenceNumber < ops[j].sequenceNumber
    requires i < |ops|
    ensures i < Before(ops, n) <==> ops[i].sequenceNumber < n
  {
    var last := |ops| - 1;
    if ops[last].sequenceNumber >= n && i < last {
      BeforeIs(ops[..last], n, i);
    }
  }

  /** The history of the valuation is that of the writes, from the start of the block on. */
  ghost predicate HistoryFollows(
    reps: seq<Expression>, ops: seq<StoreOperation>, number: nat, v: Valuation, store: Store)
    requires Operations(reps, ops)
  {
    forall n: nat :: number <= n ==> v.history(n) == AfterAll(Accesses(reps, ops, v), Before(ops, n), store)
  }

  ghost function SettingOf(
    reps: seq<Expression>, ops: seq<StoreOperation>, start: Start, v: Valuation, origin: int, m: Machine): Setting
    requires Operations(reps, ops)
  {
    Setting(v.env, ValuesOf(reps, v), Accesses(reps, ops, v), origin, start.base, m)
  }

  /** A machine to start on, if the given classes are computed on the way. */
  ghost predicate Starts(
    reps: seq<Expression>, ops: seq<StoreOperation>, start: Start, computed: set<Id>,
    v: Valuation, origin: int, m: Machine)
    requires Operations(reps, ops)
  {
    && StackIs(SettingOf(reps, ops, start, v, origin, m), start.stack, start.height, m.stack)
    && HistoryFollows(reps, ops, start.number, v, m.store) && NoneRecorded(reps, computed, v.era)
  }

  ghost predicate Produces(
    reps: seq<Expression>, ops: seq<StoreOperation>, start: Start, computed: set<Id>, g: Generated)
    requires Operations(reps, ops)
  {
    forall v: Valuation, origin: int, m: Machine ::
      Starts(reps, ops, start, computed, v, origin, m) ==> Yields(SettingOf(reps, ops, start, v, origin, m), g)
  }

  lemma NothingProduced(reps: seq<Expression>, ops: seq<StoreOperation>, start: Start, computed: set<Id>, g: Generated)
    requires Operations(reps, ops) && g == Generated([], start.stack, start.height, {})
    ensures Produces(reps, ops, start, computed, g)
  {
    forall v: Valuation, origin: int, m: Machine | Starts(reps, ops, start, computed, v, origin, m)
      ensures Yields(SettingOf(reps, ops, start, v, origin, m), g)
    {
      NothingGenerated(SettingOf(reps, ops, start, v, origin, m), g);
    }
  }

  /** Computing one more class asks for more. */
  lemma MoreComputed(
    reps: seq<Expression>, ops: seq<StoreOperation>, start: Start, computed: set<Id>, g: Generated, c: Id)
    requires Operations(reps, ops) && Produces(reps, ops, start, computed, g)
    ensures Produces(reps, ops, start, computed + {c}, g)
  {
    forall v: Valuation, origin: int, m: Machine | Starts(reps, ops, start, computed + {c}, v, origin, m)
      ensures Yields(SettingOf(reps, ops, start, v, origin, m), g)
    {
      assert Starts(reps, ops, start, computed, v, origin, m);
    }
  }

  lemma DupProduces(
    reps: seq<Expression>, ops: seq<StoreOperation>, start: Start, computed: set<Id>, g: Generated, p: int)
    requires Operations(reps, ops) && Produces(reps, ops, start, computed, g)
    requires Contiguous(g.stack, start.base, g.height)
    requires p in g.stack && 1 + g.height - p <= 16
    ensures Produces(reps, ops, start, computed, Generated(
      g.items + [Operation(DUP(1 + g.height - p))], ReplaceTop(g.stack, g.height, 0, g.stack[p]), g.height + 1, g.done))
  {
    var g' := Generated(g.items + [Operation(DUP(1 + g.height - p))], ReplaceTop(g.stack, g.height, 0, g.stack[p]),
      g.height + 1, g.done);
    forall v: Valuation, origin: int, m: Machine | Starts(reps, ops, start, computed, v, origin, m)
      ensures Yields(SettingOf(reps, ops, start, v, origin, m), g')
    {
      DupYields(SettingOf(reps, ops, start, v, origin, m), g, p);
    }
  }

  lemma PopProduces(reps: seq<Expression>, ops: seq<StoreOperation>, start: Start, computed: set<Id>, g: Generated)
    requires Operations(reps, ops) && Produces(reps, ops, start, computed, g)
    requires Contiguous(g.stack, start.base, g.height)
    requires start.base <= g.height
    ensures Produces(reps, ops, start, computed,
      Generated(g.items + [Operation(POP)], Below(g.stack, g.height - 1), g.height - 1, g.done))
  {
    var g' := Generated(g.items + [Operation(POP)], Below(g.stack, g.height - 1), g.height - 1, g.done);
    forall v: Valuation, origin: int, m: Machine | Starts(reps, ops, start, computed, v, origin, m)
      ensures Yields(SettingOf(reps, ops, start, v, origin, m), g')
    {
      PopYields(SettingOf(reps, ops, start, v, origin, m), g);
    }
  }

  /** The items after an exchange of the top with position p: one more, or one fewer if that undoes the last one. */
  function AfterSwap(items: seq<AssemblyItem>, n: nat): seq<AssemblyItem>
  {
    if items != [] && items[|items| - 1] == Operation(SWAP(n)) then items[..|items| - 1]
    else items + [Operation(SWAP(n))]
  }

  lemma SwapProduces(
    reps: seq<Expression>, ops: seq<StoreOperation>, start: Start, computed: set<Id>, g: Generated, p: int)
    requires Operations(reps, ops) && Produces(reps, ops, start, computed, g)
    requires Contiguous(g.stack, start.base, g.height)
    requires p in g.stack && p < g.height <= p + 16
    ensures g.height in g.stack
    ensures Produces(reps, ops, start, computed,
      g.(items := AfterSwap(g.items, g.height - p), stack := Exchange(g.stack, g.height, p)))
  {
    assert g.height in g.stack;
    var g' := g.(items := AfterSwap(g.items, g.height - p), stack := Exchange(g.stack, g.height, p));
    forall v: Valuation, origin: int, m: Machine | Starts(reps, ops, start, computed, v, origin, m)
      ensures Yields(SettingOf(reps, ops, start, v, origin, m), g')
    {
      if g.items != [] && g.items[|g.items| - 1] == Operation(SWAP(g.height - p)) {
        SwapRemoved(SettingOf(reps, ops, start, v, origin, m), g, p);
      } else {
        SwapYields(SettingOf(reps, ops, start, v, origin, m), g, p);
      }
    }
  }

  // ----- computing a class from its arguments -----

  /** The arguments are in place; the order does not matter for a commutative operation. */
  predicate ArgumentsInPlace(e: Expression, args: seq<Id>)
  {
    args == e.arguments || (IsCommutativeOperation(e.item) && |e.arguments| == 2 && args == Swapped(e.arguments))
  }

  lemma InPlaceValue(reps: seq<Expression>, e: Expression, e': Expression, v: Valuation)
    requires ValidClasses(reps) && ValidExpression(e, |reps|)
    requires ArgumentsInPlace(e, e'.arguments) && e' == e.(arguments := e'.arguments)
    ensures ValidExpression(e', |reps|) && ExpressionValue(reps, e', v) == ExpressionValue(reps, e, v)
  {
    if e' != e {
      SwappedSame(reps, e, e');
    }
  }

  lemma ComputedValue(reps: seq<Expression>, c: Id, args: seq<Id>, i: Instruction, v: Valuation)
    requires ValidClasses(reps) && c < |reps| && reps[c].item == Operation(i) && IsPlain(i)
    requires ArgumentsInPlace(reps[c], args) && !IsRecorded(reps[c].item, c, v.era)
    ensures ValuesOf(reps, v)(c)
         == Eval(v.env, i, seq(|args|, k requires 0 <= k < |args| => ValuesOf(reps, v)(args[k])))
  {
    var e := reps[c].(arguments := args);
    ClassValueIs(reps, c, v);
    InPlaceValue(reps, reps[c], e, v);
    HeadValue(reps, e, v);
    ArgumentValuesAre(reps, args, v);
  }

  lemma ArgumentValuesAre(reps: seq<Expression>, args: seq<Id>, v: Valuation)
    requires ValidClasses(reps) && forall k :: 0 <= k < |args| ==> args[k] < |reps|
    ensures ArgumentValues(reps, args, v) == seq(|args|, k requires 0 <= k < |args| => ValuesOf(reps, v)(args[k]))
  {
    forall k | 0 <= k < |args|
      ensures ArgumentValues(reps, args, v)[k] == ValuesOf(reps, v)(args[k])
    {
    }
  }

  lemma PlainProduces(
    reps: seq<Expression>, ops: seq<StoreOperation>, start: Start, computed: set<Id>, g: Generated, c: Id,
    i: Instruction, args: seq<Id>)
    requires Operations(reps, ops) && Produces(reps, ops, start, computed, g)
    requires Contiguous(g.stack, start.base, g.height)
    requires c < |reps| && reps[c].item == Operation(i) && IsPlain(i) && |args| == Info(i).args && c in computed
    requires ArgumentsInPlace(reps[c], args) && OnTop(g.stack, g.height, args) && start.base <= g.height - |args| + 1
    ensures Produces(reps, ops, start, computed, Computed(g, Operation(i), |args|, c))
  {
    forall v: Valuation, origin: int, m: Machine | Starts(reps, ops, start, computed, v, origin, m)
      ensures Yields(SettingOf(reps, ops, start, v, origin, m), Computed(g, Operation(i), |args|, c))
    {
      ComputedValue(reps, c, args, i, v);
      PlainYields(SettingOf(reps, ops, start, v, origin, m), g, i, args, c);
    }
  }

  lemma PushProduces(
    reps: seq<Expression>, ops: seq<StoreOperation>, start: Start, computed: set<Id>, g: Generated, c: Id)
    requires Operations(reps, ops) && Produces(reps, ops, start, computed, g)
    requires Contiguous(g.stack, start.base, g.height)
    requires c < |reps| && IsPush(reps[c].item)
    ensures Produces(reps, ops, start, computed, Computed(g, reps[c].item, 0, c))
  {
    forall v: Valuation, origin: int, m: Machine | Starts(reps, ops, start, computed, v, origin, m)
      ensures Yields(SettingOf(reps, ops, start, v, origin, m), Computed(g, reps[c].item, 0, c))
    {
      ClassValueIs(reps, c, v);
      PushYields(SettingOf(reps, ops, start, v, origin, m), g, reps[c].item, c);
    }
  }

  /** An item the machine cannot run: nothing is claimed about code that contains it. */
  lemma NotRunnableProduces(
    reps: seq<Expression>, ops: seq<StoreOperation>, start: Start, computed: set<Id>, g: Generated)
    requires Operations(reps, ops) && g.items != [] && !Runnable(g.items[|g.items| - 1])
    ensures Produces(reps, ops, start, computed, g)
  {
  }

  // ----- loads and stores -----

  ghost predicate AlwaysIndependent(reps: seq<Expression>, t: Target, a: Id, b: Id)
    requires ValidClasses(reps)
  {
    forall v: Valuation :: Independent(t, ValuesOf(reps, v)(a), ValuesOf(reps, v)(b))
  }

  /** Write k is to the same slot as write i, and no earlier. */
  predicate Overwrites(ops: seq<StoreOperation>, i: nat, k: nat)
    requires forall i :: 0 <= i < |ops| ==> ops[i].StoreOperation?
    requires i < |ops|
  {
    i <= k < |ops| && ops[k].target == ops[i].target && ops[k].slot == ops[i].slot
  }

  /** A chosen write before number n overwrites write i. */
  ghost predicate OverwrittenBefore(ops: seq<StoreOperation>, i: nat, n: nat, chosen: set<nat>)
    requires forall i :: 0 <= i < |ops| ==> ops[i].StoreOperation?
    requires i < |ops|
  {
    exists k :: k in chosen && Overwrites(ops, i, k) && ops[k].sequenceNumber < n
  }

  ghost predicate Overwritten(ops: seq<StoreOperation>, i: nat, chosen: set<nat>)
    requires forall i :: 0 <= i < |ops| ==> ops[i].StoreOperation?
    requires i < |ops|
  {
    exists k :: k in chosen && Overwrites(ops, i, k)
  }

  /** Everything a load at number n could see has been carried out, and nothing later has. */
  ghost predicate LoadReady(
    reps: seq<Expression>, ops: seq<StoreOperation>, t: Target, slot: Id, n: nat, done: set<nat>)
    requires Operations(reps, ops)
  {
    && (forall i :: i in done ==> i < |ops| && ops[i].sequenceNumber < n)
    && forall i :: 0 <= i < |ops| && ops[i].target == t && ops[i].sequenceNumber < n ==>
         AlwaysIndependent(reps, t, ops[i].slot, slot) || OverwrittenBefore(ops, i, n, done)
  }

  lemma {:induction false} OverwrittenSupersedes(
    reps: seq<Expression>, ops: seq<StoreOperation>, i: nat, n: nat, done: set<nat>, v: Valuation)
    requires Operations(reps, ops) && i < |ops| && ops[i].sequenceNumber < n && OverwrittenBefore(ops, i, n, done)
    ensures i < Before(ops, n) && Superseded(Accesses(reps, ops, v), done, i, Before(ops, n))
  {
    BeforeIs(ops, n, i);
    var k :| k in done && Overwrites(ops, i, k) && ops[k].sequenceNumber < n;
    BeforeIs(ops, n, k);
    assert SameSlot(Accesses(reps, ops, v)[i], Accesses(reps, ops, v)[k]);
  }

  lemma {:induction false} LoadSees(
    reps: seq<Expression>, ops: seq<StoreOperation>, t: Target, slot: Id, n: nat, done: set<nat>, v: Valuation,
    store: Store)
    requires Operations(reps, ops) && LoadReady(reps, ops, t, slot, n, done)
    ensures Load(LoadInstruction(t), After(Accesses(reps, ops, v), done, |ops|, store), ValuesOf(reps, v)(slot))
         == Load(LoadInstruction(t), AfterAll(Accesses(reps, ops, v), Before(ops, n), store), ValuesOf(reps, v)(slot))
  {
    var ws, j := Accesses(reps, ops, v), Before(ops, n);
    AccessesAgree(reps, ops, v);
    forall i | i in done
      ensures i < j
    {
      BeforeIs(ops, n, i);
    }
    NothingLater(ws, done, j, |ops|, store);
    forall i | 0 <= i < j && ws[i].target == t && !Independent(t, ws[i].address, ValuesOf(reps, v)(slot))
      ensures Superseded(ws, done, i, j)
    {
      BeforeIs(ops, n, i);
      OverwrittenSupersedes(reps, ops, i, n, done, v);
    }
    SameLoad(ws, done, j, store, t, ValuesOf(reps, v)(slot));
  }

  lemma LoadedClass(reps: seq<Expression>, c: Id, t: Target, v: Valuation)
    requires ValidClasses(reps) && c < |reps| && reps[c].item == Operation(LoadInstruction(t))
    ensures |reps[c].arguments| == 1 && reps[c].arguments[0] < |reps|
    ensures ValuesOf(reps, v)(c)
         == Load(LoadInstruction(t), v.history(reps[c].sequenceNumber), ValuesOf(reps, v)(reps[c].arguments[0]))
  {
    ClassValueIs(reps, c, v);
    assert reps[c].arguments == [reps[c].arguments[0]];
    LoadedValue(reps, LoadInstruction(t), reps[c].arguments[0], reps[c].sequenceNumber, v);
  }

  lemma LoadProducesAt(
    reps: seq<Expression>, ops: seq<StoreOperation>, start: Start, computed: set<Id>, g: Generated,
    c: Id, t: Target, slot: Id, v: Valuation, origin: int, m: Machine)
    requires Operations(reps, ops) && Contiguous(g.stack, start.base, g.height)
    requires c < |reps| && reps[c].item == Operation(LoadInstruction(t)) && reps[c].arguments == [slot]
    requires OnTop(g.stack, g.height, [slot]) && start.base <= g.height
    requires start.number <= reps[c].sequenceNumber
    requires LoadReady(reps, ops, t, slot, reps[c].sequenceNumber, g.done)
    requires HistoryFollows(reps, ops, start.number, v, m.store)
    requires Yields(SettingOf(reps, ops, start, v, origin, m), g)
    ensures Yields(SettingOf(reps, ops, start, v, origin, m), Computed(g, Operation(LoadInstruction(t)), 1, c))
  {
    LoadedClass(reps, c, t, v);
    LoadSees(reps, ops, t, slot, reps[c].sequenceNumber, g.done, v, m.store);
    LoadYields(SettingOf(reps, ops, start, v, origin, m), g, t, slot, c);
  }

  lemma LoadProduces(
    reps: seq<Expression>, ops: seq<StoreOperation>, start: Start, computed: set<Id>, g: Generated, c: Id, t: Target,
    slot: Id)
    requires Operations(reps, ops) && Produces(reps, ops, start, computed, g)
    requires Contiguous(g.stack, start.base, g.height)
    requires c < |reps| && reps[c].item == Operation(LoadInstruction(t)) && reps[c].arguments == [slot]
    requires OnTop(g.stack, g.height, [slot]) && start.base <= g.height
    requires start.number <= reps[c].sequenceNumber
    requires LoadReady(reps, ops, t, slot, reps[c].sequenceNumber, g.done)
    ensures Produces(reps, ops, start, computed, Computed(g, Operation(LoadInstruction(t)), 1, c))
  {
    var g' := Computed(g, Operation(LoadInstruction(t)), 1, c);
    forall v: Valuation, origin: int, m: Machine | Starts(reps, ops, start, computed, v, origin, m)
      ensures Yields(SettingOf(reps, ops, start, v, origin, m), g')
    {
      LoadProducesAt(reps, ops, start, computed, g, c, t, slot, v, origin, m);
    }
  }

  lemma StoreProduces(
    reps: seq<Expression>, ops: seq<StoreOperation>, start: Start, computed: set<Id>, g: Generated, j: nat)
    requires Operations(reps, ops) && Produces(reps, ops, start, computed, g)
    requires Contiguous(g.stack, start.base, g.height)
    requires j < |ops| && OnTop(g.stack, g.height, [ops[j].slot, StoredValue(reps, ops[j])])
    requires start.base <= g.height - 1
    requires forall i :: i in g.done ==> i < j
    ensures Produces(reps, ops, start, computed, Written(g, ops[j].target, j))
  {
    forall v: Valuation, origin: int, m: Machine | Starts(reps, ops, start, computed, v, origin, m)
      ensures Yields(SettingOf(reps, ops, start, v, origin, m), Written(g, ops[j].target, j))
    {
      StoreYields(
        SettingOf(reps, ops, start, v, origin, m), g, ops[j].target, ops[j].slot, StoredValue(reps, ops[j]), j);
    }
  }

  // ----- the end -----

  /** The items lead from every machine that matches the start to exactly the target layout and the final store. */
  ghost predicate Delivers(
    reps: seq<Expression>, ops: seq<StoreOperation>, start: Start, computed: set<Id>,
    items: seq<AssemblyItem>, target: map<int, Id>, height: int)
    requires Operations(reps, ops)
  {
    forall v: Valuation, origin: int, m: Machine ::
      Starts(reps, ops, start, computed, v, origin, m) && AllRunnable(items) ==>
        var r := Run(items, v.env, m);
        && r.Some?
        && StackIs(SettingOf(reps, ops, start, v, origin, m), target, height, r.value.stack)
        && r.value.store == AfterAll(Accesses(reps, ops, v), |ops|, m.store)
  }

  /** The last write to every slot has been carried out. */
  ghost predicate Finished(ops: seq<StoreOperation>, done: set<nat>)
    requires forall i :: 0 <= i < |ops| ==> ops[i].StoreOperation?
  {
    forall i {:trigger Overwritten(ops, i, done)} :: 0 <= i < |ops| ==> Overwritten(ops, i, done)
  }

  lemma {:induction false} FinishedStore(
    reps: seq<Expression>, ops: seq<StoreOperation>, done: set<nat>, v: Valuation, store: Store)
    requires Operations(reps, ops) && Finished(ops, done)
    ensures After(Accesses(reps, ops, v), done, |ops|, store) == AfterAll(Accesses(reps, ops, v), |ops|, store)
  {
    var ws := Accesses(reps, ops, v);
    AccessesAgree(reps, ops, v);
    forall i | 0 <= i < |ws|
      ensures Superseded(ws, done, i, |ws|)
    {
      assert Overwritten(ops, i, done);
      var k :| k in done && Overwrites(ops, i, k);
      assert SameSlot(ws[i], ws[k]);
    }
    SameStore(ws, done, store);
  }

  lemma ProducedDelivers(reps: seq<Expression>, ops: seq<StoreOperation>, start: Start, computed: set<Id>, g: Generated)
    requires Operations(reps, ops) && Produces(reps, ops, start, computed, g) && Finished(ops, g.done)
    ensures Delivers(reps, ops, start, computed, g.items, g.stack, g.height)
  {
    forall v: Valuation, origin: int, m: Machine
      | Starts(reps, ops, start, computed, v, origin, m) && AllRunnable(g.items)
      ensures Run(g.items, v.env, m).Some?
      ensures StackIs(SettingOf(reps, ops, start, v, origin, m), g.stack, g.height, Run(g.items, v.env, m).value.stack)
      ensures Run(g.items, v.env, m).value.store == AfterAll(Accesses(reps, ops, v), |ops|, m.store)
    {
      FinishedStore(reps, ops, g.done, v, m.store);
      assert Yields(SettingOf(reps, ops, start, v, origin, m), g);
    }
  }
}
