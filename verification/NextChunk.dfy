/**
 * From one chunk to the next: what is known after the item that ends a chunk describes the machine from which
 * execution goes on. In the beginning nothing is known, and that describes every machine.
 */
module NextChunk {
  import opened Results
  import opened Words
  import opened Evm
  import opened SemanticInformation
  import opened BlockEnds
  import opened Classes
  import opened Expressions
  import opened Knowledge
  import opened Tracking
  import opened Chunks
  import opened ChunkEquivalence

  /** What an item that is not tracked leads to: the machine, and the environment from then on. */
  datatype Answer = Answer(env: Env, machine: Machine)

  /** Execution goes on with the answer after the exit. What an item that is not tracked does is only known in part. */
  ghost predicate GoesOn(exit: Exit, env: Env, a: Answer)
  {
    match exit
    case Fall(m) => a == Answer(env, m)
    case Jump(_, m) => a == Answer(env, m)
    case Other(item, m) =>
      if item.Operation? then Performs(item.instruction, env, m, a) else item.Tag? && a == Answer(env, m)
    case _ => false
  }

  ghost predicate Performs(i: Instruction, env: Env, m: Machine, a: Answer)
  {
    MayAnswer(i, env, a.env) && exists w: Word :: MayLead(i, env, w, m, a.machine)
  }

  /** A call may change other accounts, and nothing else does. */
  ghost predicate MayAnswer(i: Instruction, env: Env, env': Env)
  {
    if IsCall(i) then OnlyQueriesDiffer(env, env') else env' == env
  }

  ghost predicate OnlyQueriesDiffer(env: Env, env': Env)
  {
    && env'.pushed == env.pushed
    && forall i: Instruction, args: seq<Word> :: !IsQuery(i) ==> env'.query(i, args) == env.query(i, args)
  }

  /** The knowledge describes the machine, for some history of the store and some unknown stack elements. */
  ghost predicate Described(k: Knowledge, reps: seq<Expression>, era: nat, env: Env, origin: int, m: Machine)
    requires ValidClasses(reps)
  {
    exists v: Valuation :: v.env == env && v.era == era && Describes(k, reps, v, origin, m)
  }

  /** A call begins a new era: what was asked before is recorded. */
  function EraAfter(breaking: Option<AssemblyItem>, reps: seq<Expression>, era: nat): nat
  {
    if breaking.Some? && IsCallItem(breaking.value) then |reps| else era
  }

  predicate IsCallItem(item: AssemblyItem) { item.Operation? && IsCall(item.instruction) }

  /** What is known in the end describes every machine from which execution goes on. */
  ghost predicate DescribesNext(
    k0: Knowledge, reps0: seq<Expression>, era: nat, items: seq<AssemblyItem>, breaking: Option<AssemblyItem>,
    k': Knowledge, reps': seq<Expression>, era': nat)
    requires ValidClasses(reps0) && ValidClasses(reps')
  {
    forall v: Valuation, origin: int, m: Machine, a: Answer ::
      Describes(k0, reps0, v, origin, m) && v.era == era && GoesOn(Outcome(items, breaking, v.env, m), v.env, a) ==>
        Described(k', reps', era', a.env, origin, a.machine)
  }

  /** The knowledge after the item that ends a chunk has been fed, if there is one. */
  ghost predicate Continued(
    k: Knowledge, reps: seq<Expression>, breaking: Option<AssemblyItem>, k': Knowledge, reps': seq<Expression>)
  {
    && ValidKnowledge(k, reps) && ValidKnowledge(k', reps') && reps <= reps'
    && match breaking
       case None => k' == k
       case Some(item) => CanEnd(item) && exists op: StoreOperation :: op.NoStore? && Fed(k, reps, item, op, k', reps')
  }

  /** The item at the end, if there is one. */
  function EndItems(breaking: Option<AssemblyItem>): seq<AssemblyItem>
  {
    if breaking.Some? then [breaking.value] else []
  }

  predicate CanEnd(item: AssemblyItem) { item.Tag? || (item.Operation? && IsOpaque(item.instruction)) }

  lemma BreakingCanEnd(item: AssemblyItem)
    requires BreaksCSEAnalysisBlock(item) && !item.UndefinedItem?
    ensures CanEnd(item)
  {
  }

  // ----- one step -----

  /** A history in which the store is the given one from the number of the new knowledge on. */
  lemma FutureStore(k: Knowledge, reps: seq<Expression>, v: Valuation, origin: int, m: Machine, n: nat, store: Store)
    returns (v': Valuation)
    requires ValidKnowledge(k, reps) && Describes(k, reps, v, origin, m)
    requires k.sequenceNumber <= n && (n == k.sequenceNumber ==> store == m.store)
    ensures v' == v.(history := v'.history) && Describes(k, reps, v', origin, m) && v'.history(n) == store
  {
    v' := WithFuture(v, k.sequenceNumber, store);
    DescribesOtherFuture(k, reps, v, v', origin, m);
  }

  /** Foreseeing the result of an instruction says nothing about the classes before it. */
  lemma OtherOutcome(k: Knowledge, reps: seq<Expression>, v: Valuation, c: Id, w: Word, origin: int, m: Machine)
    returns (v': Valuation)
    requires ValidKnowledge(k, reps) && Describes(k, reps, v, origin, m) && c >= |reps|
    ensures v' == v.(outcome := v'.outcome) && Describes(k, reps, v', origin, m) && v'.outcome(c) == w
  {
    v' := v.(outcome := (d: Id) => if d == c then w else v.outcome(d));
    LaterOutcome(k, reps, v, v', origin, m);
  }

  lemma LaterOutcome(k: Knowledge, reps: seq<Expression>, v: Valuation, v': Valuation, origin: int, m: Machine)
    requires ValidKnowledge(k, reps) && Describes(k, reps, v, origin, m)
    requires v' == v.(outcome := v'.outcome) && forall d :: 0 <= d < |reps| ==> v.outcome(d) == v'.outcome(d)
    ensures Describes(k, reps, v', origin, m)
  {
    forall d | Mentions(k, d)
      ensures ValuesOf(reps, v)(d) == ValuesOf(reps, v')(d)
    {
      MentionedExists(k, reps, d);
      EarlierValue(reps, d, v, v');
    }
    HoldsForSameValues(k, ValuesOf(reps, v), ValuesOf(reps, v'), v.leaf, origin, m);
  }

  /** Some valuation foresees what the instruction leaves on the stack and in the store. */
  lemma Foreseeing(
    k: Knowledge, reps: seq<Expression>, i: Instruction, k': Knowledge, v: Valuation, origin: int, w: Word,
    m: Machine, store: Store) returns (v': Valuation)
    requires ValidKnowledge(k, reps) && Describes(k, reps, v, origin, m) && FreshResult(Operation(i), reps, k')
    requires k.sequenceNumber <= k'.sequenceNumber && (k'.sequenceNumber == k.sequenceNumber ==> store == m.store)
    ensures v'.env == v.env && v'.era == v.era && Describes(k, reps, v', origin, m) && Foreseen(i, k', v', w)
    ensures v'.history(k'.sequenceNumber) == store
  {
    var v1 := v;
    if IsIndeterminate(Operation(i)) {
      v1 := OtherOutcome(k, reps, v, k'.elements[k'.height], w, origin, m);
    }
    v' := FutureStore(k, reps, v1, origin, m, k'.sequenceNumber, store);
  }

  lemma OperationDescribed(
    k: Knowledge, reps: seq<Expression>, i: Instruction, k': Knowledge, reps': seq<Expression>,
    v: Valuation, origin: int, w: Word, m: Machine, m': Machine)
    requires Fed(k, reps, Operation(i), NoStore, k', reps') && IsOpaque(i)
    requires Describes(k, reps, v, origin, m) && MayLead(i, v.env, w, m, m')
    ensures Described(k', reps', v.era, v.env, origin, m')
  {
    NumbersAllow(k.sequenceNumber, i, k'.sequenceNumber, reps', w, m, m');
    var v' := Foreseeing(k, reps, i, k', v, origin, w, m, m'.store);
    assert Describes(k', reps', v', origin, m');
  }

  // ----- a new era -----

  ghost function Answered(reps: seq<Expression>, v: Valuation, c: Id): Word
    requires ValidClasses(reps)
  {
    if c < |reps| && IsQueryItem(reps[c].item) then ClassValue(reps, c, v) else v.outcome(c)
  }

  /** The valuation of the next era, in another environment: queries made so far keep their answers. */
  ghost function Renewed(reps: seq<Expression>, v: Valuation, env': Env): Valuation
    requires ValidClasses(reps)
  {
    v.(env := env', era := |reps|, outcome := (c: Id) => Answered(reps, v, c))
  }

  lemma SameInOther(item: AssemblyItem, n: nat, args: seq<Word>, v: Valuation, v': Valuation)
    requires IsDeterministic(item) && OnlyQueriesDiffer(v.env, v'.env) && v'.leaf == v.leaf && v'.history == v.history
    ensures ItemValue(item, n, args, v') == ItemValue(item, n, args, v)
  {
  }

  /** No class changes its value when other accounts change. */
  lemma {:induction false} RenewedValue(reps: seq<Expression>, c: Id, v: Valuation, env': Env)
    requires ValidClasses(reps) && c < |reps| && OnlyQueriesDiffer(v.env, env')
    ensures ClassValue(reps, c, Renewed(reps, v, env')) == ClassValue(reps, c, v)
    decreases c
  {
    var e, v' := reps[c], Renewed(reps, v, env');
    assert ValidExpression(e, c);
    if IsDeterministic(e.item) {
      forall k | 0 <= k < |e.arguments|
        ensures ClassValue(reps, e.arguments[k], v') == ClassValue(reps, e.arguments[k], v)
      {
        RenewedValue(reps, e.arguments[k], v, env');
      }
      ClassValueIs(reps, c, v);
      ClassValueIs(reps, c, v');
      assert ArgumentValues(reps, e.arguments, v') == ArgumentValues(reps, e.arguments, v);
      SameInOther(e.item, e.sequenceNumber, ArgumentValues(reps, e.arguments, v), v, v');
    }
  }

  lemma RenewedDescribes(k: Knowledge, reps: seq<Expression>, v: Valuation, env': Env, origin: int, m: Machine)
    requires ValidKnowledge(k, reps) && Describes(k, reps, v, origin, m) && OnlyQueriesDiffer(v.env, env')
    ensures Describes(k, reps, Renewed(reps, v, env'), origin, m)
  {
    var v' := Renewed(reps, v, env');
    forall c | Mentions(k, c)
      ensures ValuesOf(reps, v)(c) == ValuesOf(reps, v')(c)
    {
      MentionedExists(k, reps, c);
      RenewedValue(reps, c, v, env');
    }
    HoldsForSameValues(k, ValuesOf(reps, v), ValuesOf(reps, v'), v.leaf, origin, m);
  }

  /** After a call, the same is known in the new era, whatever other accounts have become. */
  lemma NextEra(
    k: Knowledge, reps: seq<Expression>, i: Instruction, era: nat, env: Env, env': Env, origin: int, m: Machine)
    requires ValidKnowledge(k, reps) && Described(k, reps, era, env, origin, m) && MayAnswer(i, env, env')
    ensures Described(k, reps, EraAfter(Some(Operation(i)), reps, era), env', origin, m)
  {
    if IsCall(i) {
      var v: Valuation :| v.env == env && v.era == era && Describes(k, reps, v, origin, m);
      RenewedDescribes(k, reps, v, env', origin, m);
      assert Renewed(reps, v, env').env == env' && Renewed(reps, v, env').era == |reps|;
    }
  }

  /** The sequence number grows if the store may change. */
  lemma NumbersAllow(
    n: nat, i: Instruction, n': nat, reps': seq<Expression>, w: Word, m: Machine, m': Machine)
    requires ValidClasses(reps') && NumbersFollow(n, Operation(i), NoStore, n', reps') && IsOpaque(i)
    requires OpaqueEffect(i, w, m, m')
    ensures n <= n' && (n' == n ==> m'.store == m.store)
  {
  }

  lemma TagDescribed(
    k: Knowledge, reps: seq<Expression>, item: AssemblyItem, k': Knowledge, reps': seq<Expression>,
    v: Valuation, origin: int, m: Machine)
    requires Fed(k, reps, item, NoStore, k', reps') && item.Tag? && Describes(k, reps, v, origin, m)
    ensures Described(k', reps', v.era, v.env, origin, m)
  {
    var v' := FutureStore(k, reps, v, origin, m, k'.sequenceNumber, m.store);
    assert Describes(k', reps', v', origin, m);
  }

  /** The machine after an exit is one that the item at the end may lead to. */
  lemma ExitPerforms(item: AssemblyItem, env: Env, m: Machine, a: Answer)
    requires CanEnd(item) && GoesOn(ExitOf(Some(item), m), env, a)
    ensures if item.Operation? then Performs(item.instruction, env, m, a) else a == Answer(env, m)
  {
    if item == Operation(JUMP) {
      JumpPerforms(env, m, a.machine);
    } else if item == Operation(JUMPI) {
      BranchPerforms(env, m, a.machine);
    }
  }

  lemma JumpPerforms(env: Env, m: Machine, m': Machine)
    requires |m.stack| >= 1 && m' == Dropped(m, 1)
    ensures Performs(JUMP, env, m, Answer(env, m'))
  {
    assert MayLead(JUMP, env, Eval(env, JUMP, TopWords(m.stack, 1)), m, m');
  }

  lemma BranchPerforms(env: Env, m: Machine, m': Machine)
    requires |m.stack| >= 2 && m' == Dropped(m, 2)
    ensures Performs(JUMPI, env, m, Answer(env, m'))
  {
    assert MayLead(JUMPI, env, Eval(env, JUMPI, TopWords(m.stack, 2)), m, m');
  }

  lemma EndDescribed(
    k: Knowledge, reps: seq<Expression>, breaking: Option<AssemblyItem>, k': Knowledge, reps': seq<Expression>,
    v: Valuation, origin: int, m: Machine, a: Answer)
    requires Continued(k, reps, breaking, k', reps') && Describes(k, reps, v, origin, m)
    requires GoesOn(ExitOf(breaking, m), v.env, a)
    ensures Described(k', reps', EraAfter(breaking, reps', v.era), a.env, origin, a.machine)
  {
    if breaking.None? {
      StillDescribes(k, reps, reps', v, origin, m);
    } else {
      ExitPerforms(breaking.value, v.env, m, a);
      if breaking.value.Operation? {
        var i := breaking.value.instruction;
        var w: Word :| MayLead(i, v.env, w, m, a.machine);
        OperationDescribed(k, reps, i, k', reps', v, origin, w, m, a.machine);
        NextEra(k', reps', i, v.era, v.env, a.env, origin, a.machine);
      } else {
        TagDescribed(k, reps, breaking.value, k', reps', v, origin, m);
      }
    }
  }

  // ----- a whole chunk -----

  /** The chunk may have been given another end that has the same outcomes. */
  lemma NextDescribed(
    k0: Knowledge, reps0: seq<Expression>, era: nat, items: seq<AssemblyItem>, breaking: Option<AssemblyItem>,
    items': seq<AssemblyItem>, breaking': Option<AssemblyItem>, ops: seq<StoreOperation>, floor: int,
    k: Knowledge, reps: seq<Expression>, k': Knowledge, reps': seq<Expression>)
    requires Followed(k0, reps0, items', ops, floor, k, reps) && Continued(k, reps, breaking', k', reps')
    requires SameEnds(k0, reps0, items, breaking, items', breaking', floor)
    ensures DescribesNext(k0, reps0, era, items, breaking, k', reps', EraAfter(breaking', reps', era))
  {
    forall v: Valuation, origin: int, m: Machine, a: Answer
      | Describes(k0, reps0, v, origin, m) && v.era == era && GoesOn(Outcome(items, breaking, v.env, m), v.env, a)
      ensures Described(k', reps', EraAfter(breaking', reps', era), a.env, origin, a.machine)
    {
      var v' := RunDescribed(k0, reps0, items', ops, floor, k, reps, v, origin, m);
      EndDescribed(k, reps, breaking', k', reps', v', origin, Run(items', v.env, m).value, a);
    }
  }

  /** It still does when there are more classes. */
  lemma NextLater(
    k0: Knowledge, reps0: seq<Expression>, era: nat, items: seq<AssemblyItem>, breaking: Option<AssemblyItem>,
    k: Knowledge, reps: seq<Expression>, era': nat, reps': seq<Expression>)
    requires ValidClasses(reps0) && ValidKnowledge(k, reps) && ValidClasses(reps') && reps <= reps'
    requires DescribesNext(k0, reps0, era, items, breaking, k, reps, era')
    ensures DescribesNext(k0, reps0, era, items, breaking, k, reps', era')
  {
    forall v: Valuation, origin: int, m: Machine, a: Answer
      | Describes(k0, reps0, v, origin, m) && v.era == era && GoesOn(Outcome(items, breaking, v.env, m), v.env, a)
      ensures Described(k, reps', era', a.env, origin, a.machine)
    {
      assert Described(k, reps, era', a.env, origin, a.machine);
      var v': Valuation :| v'.env == a.env && v'.era == era' && Describes(k, reps, v', origin, a.machine);
      StillDescribes(k, reps, reps', v', origin, a.machine);
    }
  }

  /** The whole of it: the classes grow while code is generated after the item at the end has been fed. */
  lemma DescribedAfter(
    k0: Knowledge, reps0: seq<Expression>, era: nat, items: seq<AssemblyItem>, breaking: Option<AssemblyItem>,
    items': seq<AssemblyItem>, breaking': Option<AssemblyItem>, ops: seq<StoreOperation>, floor: int,
    k: Knowledge, reps: seq<Expression>, k': Knowledge, reps1: seq<Expression>, reps': seq<Expression>)
    requires Followed(k0, reps0, items', ops, floor, k, reps) && Continued(k, reps, breaking', k', reps1)
    requires SameEnds(k0, reps0, items, breaking, items', breaking', floor)
    requires ValidClasses(reps') && reps1 <= reps'
    ensures ValidKnowledge(k', reps')
    ensures DescribesNext(k0, reps0, era, items, breaking, k', reps', EraAfter(breaking', reps1, era))
  {
    NextDescribed(k0, reps0, era, items, breaking, items', breaking', ops, floor, k, reps, k', reps1);
    NextLater(k0, reps0, era, items, breaking, k', reps1, EraAfter(breaking', reps1, era), reps');
    StillValid(k', reps1, reps');
  }

  // ----- the beginning -----

  predicate KnowsNothing(k: Knowledge) { k.elements == map[] && k.storage == map[] && k.memory == map[] }

  /** Every machine is described if nothing is known. */
  lemma NothingKnown(k: Knowledge, reps: seq<Expression>, era: nat, env: Env, m: Machine)
    requires KnowsNothing(k) && ValidClasses(reps) && era <= |reps|
    ensures Described(k, reps, era, env, |m.stack| - 1 - k.height, m)
  {
    var origin := |m.stack| - 1 - k.height;
    var leaf := (h: int) => if 0 <= origin + h < |m.stack| then m.stack[origin + h] else 0;
    var v := Valuation(env, leaf, (n: nat) => m.store, (c: nat) => 0, era);
    assert Describes(k, reps, v, origin, m);
  }
}
