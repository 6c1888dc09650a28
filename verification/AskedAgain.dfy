/**
 * Asking once more what has been asked: when the output of the block optimiser shows it, and two blocks for which
 * the output is wrong because of it.
 */
module AskedAgain {
  import opened Results
  import opened Words
  import opened Evm
  import opened BlockEnds
  import opened Classes
  import opened Expressions
  import opened ExpressionClasses
  import opened Tracking
  import opened Generation
  import opened Production
  import opened Recomputation
  import opened CSECodeGenerator
  import opened NextChunk
  import opened BlockOptimiser

  // ----- how many exits a run has -----

  /** The run has come to the end of the items. */
  predicate Complete(t: seq<Exit>) { t != [] && (t[|t| - 1].Fall? || t[|t| - 1].Jump? || t[|t| - 1].Halt?) }

  lemma {:induction false} FlowCounts(item: AssemblyItem, env: Env, m: Machine, answers: seq<Answer>)
    requires IsFlow(item)
    ensures Asks([item]) == 0 && |Trace([item], env, m, answers)| == 1
  {
    var e := ExitOf(Some(item), m);
    assert [item][1..] == [];
    assert Trace([item], env, m, answers) == TraceFrom(e, [], env, answers);
    assert !e.Other?;
    if e.Fall? {
      assert Trace([], env, e.machine, answers) == [Fall(e.machine)];
    }
  }

  lemma {:induction false} RunnableFirst(
    item: AssemblyItem, rest: seq<AssemblyItem>, env: Env, m: Machine, answers: seq<Answer>)
    requires Runnable(item)
    ensures Asks([item] + rest) == Asks(rest)
    ensures var r := Step(item, env, m);
      Trace([item] + rest, env, m, answers) == if r.None? then [Stuck] else Trace(rest, env, r.value, answers)
  {
    var items := [item] + rest;
    assert items[0] == item && items[1..] == rest;
  }

  lemma {:induction false} AskingFirst(
    item: AssemblyItem, rest: seq<AssemblyItem>, env: Env, m: Machine, answers: seq<Answer>)
    requires IsAsking(item)
    ensures Asks([item] + rest) == 1 + Asks(rest)
    ensures Trace([item] + rest, env, m, answers)
         == [Other(item, m)] + TraceAnswered(Other(item, m), rest, env, answers)
  {
    var items := [item] + rest;
    assert items[0] == item && items[1..] == rest;
    assert ExitOf(Some(item), m) == Other(item, m);
  }

  lemma {:induction false} RunnableComplete(
    item: AssemblyItem, rest: seq<AssemblyItem>, env: Env, m: Machine, answers: seq<Answer>)
    requires Runnable(item) && Complete(Trace([item] + rest, env, m, answers))
    ensures Asks([item] + rest) == Asks(rest) && Step(item, env, m).Some?
    ensures Trace([item] + rest, env, m, answers) == Trace(rest, env, Step(item, env, m).value, answers)
  {
    RunnableFirst(item, rest, env, m, answers);
  }

  lemma {:induction false} AskingComplete(
    item: AssemblyItem, rest: seq<AssemblyItem>, env: Env, m: Machine, answers: seq<Answer>)
    requires IsAsking(item) && Complete(Trace([item] + rest, env, m, answers))
    ensures Asks([item] + rest) == 1 + Asks(rest) && answers != []
    ensures Complete(Trace(rest, answers[0].env, answers[0].machine, answers[1..]))
    ensures |Trace([item] + rest, env, m, answers)|
         == 1 + |Trace(rest, answers[0].env, answers[0].machine, answers[1..])|
  {
    AskingFirst(item, rest, env, m, answers);
    var t := TraceAnswered(Other(item, m), rest, env, answers);
    assert t != [];
    assert ([Other(item, m)] + t)[|t|] == t[|t| - 1];
  }

  lemma {:induction false} CompleteCounts(items: seq<AssemblyItem>, env: Env, m: Machine, answers: seq<Answer>)
    requires FlowAtEnd(items) && Complete(Trace(items, env, m, answers))
    ensures |Trace(items, env, m, answers)| == Asks(items) + 1
    decreases |items|, 0
  {
    if items != [] {
      CompleteFirst(items[0], items[1..], env, m, answers);
      assert items == [items[0]] + items[1..];
    }
  }

  lemma {:induction false} CompleteFirst(
    item: AssemblyItem, rest: seq<AssemblyItem>, env: Env, m: Machine, answers: seq<Answer>)
    requires FlowAtEnd([item] + rest) && Complete(Trace([item] + rest, env, m, answers))
    ensures |Trace([item] + rest, env, m, answers)| == Asks([item] + rest) + 1
    decreases |rest|, 1
  {
    FlowAtEndRest(item, rest);
    if IsFlow(item) {
      assert [item] + rest == [item];
      FlowCounts(item, env, m, answers);
    } else if Runnable(item) {
      RunnableComplete(item, rest, env, m, answers);
      CompleteCounts(rest, env, Step(item, env, m).value, answers);
    } else {
      AskingComplete(item, rest, env, m, answers);
      CompleteCounts(rest, answers[0].env, answers[0].machine, answers[1..]);
    }
  }

  lemma FlowAtEndRest(item: AssemblyItem, rest: seq<AssemblyItem>)
    requires FlowAtEnd([item] + rest)
    ensures FlowAtEnd(rest) && (IsFlow(item) ==> rest == [])
  {
    var items := [item] + rest;
    assert items[0] == item;
    forall k | 0 <= k < |rest| - 1
      ensures !IsFlow(rest[k])
    {
      assert items[k + 1] == rest[k];
    }
  }

  /** Items that ask more, or less, do something else. */
  lemma {:induction false} AskingDiffers(
    items: seq<AssemblyItem>, items': seq<AssemblyItem>, env: Env, m: Machine, answers: seq<Answer>)
    requires FlowAtEnd(items) && FlowAtEnd(items') && Asks(items') != Asks(items)
    requires Complete(Trace(items, env, m, answers))
    ensures !SameTrace(items, items', env, m, answers)
  {
    CompleteCounts(items, env, m, answers);
    if SameTrace(items, items', env, m, answers) {
      CompleteCounts(items', env, m, answers);
    }
  }

  /** If the items come to their end at all, output that is right when it asks no more is right only then. */
  lemma {:induction false} ReplacesExactly(
    p: Point, items: seq<AssemblyItem>, output: seq<AssemblyItem>, v: Valuation, origin: int, m: Machine,
    answers: seq<Answer>)
    requires ValidClasses(p.reps) && FlowAtEnd(items) && FlowAtEnd(output)
    requires Describes(p.known, p.reps, v, origin, m) && v.era == p.era
    requires Complete(Trace(items, v.env, m, answers))
    requires Asks(output) == Asks(items) ==> Replaces(p, items, output)
    ensures Replaces(p, items, output) <==> Asks(output) == Asks(items)
  {
    if Asks(output) != Asks(items) {
      AskingDiffers(items, output, v.env, m, answers);
    }
  }

  // ----- the generator asks once more -----

  /** Code that leaves an earlier result of GAS on an empty stack, as for PUSH 0 MLOAD when memory at 0 holds it. */
  method GenerateGas() returns (r: Result<seq<AssemblyItem>>)
    ensures r.Ok? ==> NoFlow(r.value) && Asks(r.value) > 0
  {
    var classes := new ExpressionClasses(Admission(true, true));
    var c := classes.Find(Operation(GAS), [], 0);
    var target: map<int, Id> := map[0 := c];
    TargetOfGas(classes.representatives, c, target);
    var generator := new CSECodeGenerator(classes, [], Start(1, 0, -1, map[]), 1);
    r := generator.GenerateCode(1, -1, map[], target, 0);
    if r.Ok? {
      GasIsNeeded(generator.Reps(), {}, generator.wanted, c);
      AsksNothing(r.value);
    }
  }

  lemma {:induction false} TargetOfGas(reps: seq<Expression>, c: Id, target: map<int, Id>)
    requires ValidClasses(reps) && Represents(reps, Expression(Operation(GAS), [], 0), c) && target == map[0 := c]
    ensures reps[c] == Expression(Operation(GAS), [], 0) && Settled(reps, c, 1)
    ensures Contiguous(target, 0, 0) && Contiguous(map[], 0, -1)
    ensures c in ClassesIn(target) && forall p :: p in target ==> Settled(reps, target[p], 1)
  {
    assert target[0] == c;
  }

  lemma {:induction false} GasIsNeeded(reps: seq<Expression>, available: set<Id>, wanted: set<Id>, c: Id)
    requires c < |reps| && c in wanted && c !in available && reps[c].item == Operation(GAS)
    ensures Needed(reps, available, wanted, c) && !Runnable(reps[c].item)
  {
  }

  /** The guard at the balance of the contract: the class is needed, not there, and from before the era. */
  lemma {:induction false} BalanceIsRecorded(reps: seq<Expression>, era: nat)
    requires ValidClasses(reps) && |reps| == 2 <= era
    requires reps[0].item == Operation(ADDRESS) && reps[1].item == Operation(BALANCE)
    ensures Needed(reps, {}, {1}, 1) && 1 in AskedBefore(reps, {1}, era)
    ensures ValidExpression(reps[1], |reps|) && !SameAgain(reps, 1, era)
  {
    SameAgainExactly(reps, 1, era);
  }

  // ----- a counter asked once more -----

  function GasBefore(a: seq<AssemblyItem>, b: seq<AssemblyItem>): seq<AssemblyItem>
  {
    [Operation(GAS)] + (a + ([Operation(GAS)] + b))
  }

  /** GAS PUSH 0 MSTORE GAS PUSH 0 MLOAD SUB: how much gas has been used in between. */
  function GasUsed(): seq<AssemblyItem> { GasBefore(STORE_AT_0, LOAD_AND_SUBTRACT) }

  /** What it is turned into: memory at 0 is known to hold the first class, which is no longer on the stack. */
  function GasUsedOutput(): seq<AssemblyItem> { GasBefore(STORE_AT_0, [Operation(GAS), Operation(SUB)]) }

  const STORE_AT_0: seq<AssemblyItem> := [Push(0), Operation(MSTORE)]
  const LOAD_AT_0: seq<AssemblyItem> := [Push(0), Operation(MLOAD)]
  const LOAD_AND_SUBTRACT: seq<AssemblyItem> := LOAD_AT_0 + [Operation(SUB)]

  /** GAS leaves 0 on the stack. */
  function AfterGas(env: Env, m: Machine): Answer { Answer(env, PushWord(m, 0)) }

  lemma {:induction false} TraceGas(rest: seq<AssemblyItem>, env: Env, m: Machine, answers: seq<Answer>)
    requires answers != [] && answers[0] == AfterGas(env, m)
    ensures Trace([Operation(GAS)] + rest, env, m, answers)
         == [Other(Operation(GAS), m)] + Trace(rest, env, PushWord(m, 0), answers[1..])
  {
    AskingFirst(Operation(GAS), rest, env, m, answers);
    assert m.stack[..|m.stack|] == m.stack;
    assert MayLead(GAS, env, 0, m, PushWord(m, 0));
    assert GoesOn(Other(Operation(GAS), m), env, AfterGas(env, m));
  }

  lemma {:induction false} TraceStraight(
    items: seq<AssemblyItem>, rest: seq<AssemblyItem>, env: Env, m: Machine, answers: seq<Answer>)
    requires AllRunnable(items) && Run(items, env, m).Some?
    ensures Trace(items + rest, env, m, answers) == Trace(rest, env, Run(items, env, m).value, answers)
  {
    TraceRun(items, rest, env, m, answers);
  }

  lemma {:induction false} RunStoreAt0(env: Env, m: Machine)
    requires m.stack != []
    ensures AllRunnable(STORE_AT_0)
    ensures Run(STORE_AT_0, env, m)
         == Some(Machine(m.stack[..|m.stack| - 1], Write(MSTORE, m.store, 0, m.stack[|m.stack| - 1])))
  {
    var pushed := PushWord(m, 0);
    assert STORE_AT_0 == [Push(0)] + [Operation(MSTORE)];
    RunSnoc([Push(0)], Operation(MSTORE), env, m);
    RunOne(Push(0), env, m);
    StepStore(MSTORE, env, pushed);
    assert pushed.stack[..|m.stack| - 1] == m.stack[..|m.stack| - 1];
  }

  lemma {:induction false} RunThree(a: AssemblyItem, b: AssemblyItem, c: AssemblyItem, env: Env, m: Machine)
    requires Step(a, env, m).Some? && Step(b, env, Step(a, env, m).value).Some?
    ensures Run([a, b, c], env, m) == Step(c, env, Step(b, env, Step(a, env, m).value).value)
  {
    RunTwo([a], b, c, env, m);
    assert [a, b, c] == [a] + [b, c];
    RunOne(a, env, m);
  }

  lemma {:induction false} RunPair(a: AssemblyItem, b: AssemblyItem, env: Env, m: Machine, m1: Machine, m2: Machine)
    requires Step(a, env, m) == Some(m1) && Step(b, env, m1) == Some(m2)
    ensures Run([a, b], env, m) == Some(m2)
  {
    assert [a, b] == [a] + [b];
    RunSnoc([a], b, env, m);
    RunOne(a, env, m);
  }

  lemma PushedBelow(m: Machine, w: Word)
    ensures PushWord(m, w).stack[..|m.stack|] == m.stack
    ensures TopWords(PushWord(m, w).stack, 1) == [w]
  {
  }

  lemma StepLoadAt0(env: Env, m: Machine)
    ensures Step(Operation(MLOAD), env, PushWord(m, 0)) == Some(PushWord(m, Mload(m.store.memory, 0)))
  {
    StepLoad(MLOAD, env, PushWord(m, 0));
    PushedBelow(m, 0);
  }

  lemma {:induction false} RunLoadAt0(env: Env, m: Machine)
    ensures Run(LOAD_AT_0, env, m) == Some(PushWord(m, Mload(m.store.memory, 0)))
  {
    StepLoadAt0(env, m);
    RunPair(Push(0), Operation(MLOAD), env, m, PushWord(m, 0), PushWord(m, Mload(m.store.memory, 0)));
  }

  lemma {:induction false} RunLoadAndSubtract(env: Env, m: Machine)
    requires m.stack != []
    ensures Run(LOAD_AND_SUBTRACT, env, m).Some?
  {
    RunLoadAt0(env, m);
    StepPlain(SUB, env, PushWord(m, Mload(m.store.memory, 0)));
    RunSnoc(LOAD_AT_0, Operation(SUB), env, m);
  }

  lemma {:induction false} TraceEnds(items: seq<AssemblyItem>, env: Env, m: Machine, answers: seq<Answer>)
    requires AllRunnable(items) && Run(items, env, m).Some?
    ensures Trace(items, env, m, answers) == [Fall(Run(items, env, m).value)]
  {
    TraceStraight(items, [], env, m, answers);
    assert items + [] == items;
  }

  /** A block that asks for the gas twice comes to its end if the answer is 0 both times. */
  lemma {:induction false} GasTwice(
    store: seq<AssemblyItem>, rest: seq<AssemblyItem>, env: Env, m: Machine, m2: Machine)
    requires AllRunnable(store) && Run(store, env, PushWord(m, 0)) == Some(m2)
    requires AllRunnable(rest) && Run(rest, env, PushWord(m2, 0)).Some?
    ensures Complete(Trace(GasBefore(store, rest), env, m, [AfterGas(env, m), AfterGas(env, m2)]))
  {
    var answers := [AfterGas(env, m), AfterGas(env, m2)];
    TraceGas(store + ([Operation(GAS)] + rest), env, m, answers);
    assert answers[1..] == [AfterGas(env, m2)];
    TraceStraight(store, [Operation(GAS)] + rest, env, PushWord(m, 0), answers[1..]);
    TraceGas(rest, env, m2, answers[1..]);
    TraceEnds(rest, env, PushWord(m2, 0), answers[1..][1..]);
  }

  ghost function Stored(m: Machine, w: Word): Machine { m.(store := Write(MSTORE, m.store, 0, w)) }

  lemma {:induction false} GasStored(env: Env, m: Machine)
    ensures AllRunnable(STORE_AT_0) && Run(STORE_AT_0, env, PushWord(m, 0)) == Some(Stored(m, 0))
  {
    RunStoreAt0(env, PushWord(m, 0));
    assert PushWord(m, 0).stack[..|m.stack|] == m.stack;
  }

  lemma {:induction false} GasSubtracted(env: Env, m: Machine)
    ensures AllRunnable(LOAD_AND_SUBTRACT) && Run(LOAD_AND_SUBTRACT, env, PushWord(m, 0)).Some?
  {
    RunLoadAndSubtract(env, PushWord(m, 0));
  }

  lemma {:induction false} GasAsks(rest: seq<AssemblyItem>)
    ensures Asks([Operation(GAS)] + rest) == 1 + Asks(rest)
  {
    assert ([Operation(GAS)] + rest)[1..] == rest;
  }

  lemma {:induction false} GasBeforeAsks(a: seq<AssemblyItem>, b: seq<AssemblyItem>)
    ensures Asks(GasBefore(a, b)) == 2 + Asks(a) + Asks(b)
  {
    GasAsks(a + ([Operation(GAS)] + b));
    AsksAppend(a, [Operation(GAS)] + b);
    GasAsks(b);
  }

  lemma {:induction false} StraightAsks()
    ensures Asks(STORE_AT_0) == 0 && Asks(LOAD_AND_SUBTRACT) == 0 && Asks([Operation(SUB)]) == 0
  {
    AsksNothing(STORE_AT_0);
    AsksNothing(LOAD_AND_SUBTRACT);
    AsksNothing([Operation(SUB)]);
  }

  lemma GasUsedFlow()
    ensures FlowAtEnd(GasUsed()) && FlowAtEnd(GasUsedOutput())
  {
  }

  lemma {:induction false} GasUsedAsks()
    ensures Asks(GasUsed()) == 2 && Asks(GasUsedOutput()) == 3
  {
    StraightAsks();
    GasBeforeAsks(STORE_AT_0, LOAD_AND_SUBTRACT);
    GasAsks([Operation(SUB)]);
    assert [Operation(GAS)] + [Operation(SUB)] == [Operation(GAS), Operation(SUB)];
    GasBeforeAsks(STORE_AT_0, [Operation(GAS), Operation(SUB)]);
  }

  ghost function GasAnswers(env: Env, m: Machine): seq<Answer> { [AfterGas(env, m), AfterGas(env, Stored(m, 0))] }

  /** On every machine, the output can be told from the block by what follows these answers. */
  lemma GasAskedAgain(env: Env, m: Machine)
    ensures !SameTrace(GasUsed(), GasUsedOutput(), env, m, GasAnswers(env, m))
  {
    GasStored(env, m);
    GasSubtracted(env, Stored(m, 0));
    GasTwice(STORE_AT_0, LOAD_AND_SUBTRACT, env, m, Stored(m, 0));
    GasUsedAsks();
    GasUsedFlow();
    AskingDiffers(GasUsed(), GasUsedOutput(), env, m, GasAnswers(env, m));
  }

  // ----- a query asked once more after a call -----

  /** ADDRESS BALANCE PUSH 0 MSTORE, and three arguments for CREATE, which is to pay out 7. */
  function BeforeCreate(): seq<AssemblyItem> { ASK_BALANCE + STORE_AT_0 + [Push(0), Push(0), Push(7)] }

  /** POP PUSH 0 MLOAD PUSH 0 ADD: the balance there was before. */
  function BalanceKept(): seq<AssemblyItem>
  {
    BeforeCreate() + ([Operation(CREATE)] + ([Operation(POP)] + (LOAD_AT_0 + ADD_0)))
  }

  /** What the block is turned into: CREATE leaves memory alone, so the class in memory at 0 is still known. */
  function BalanceKeptOutput(): seq<AssemblyItem>
  {
    BeforeCreate() + ([Operation(CREATE)] + ([Operation(POP)] + ASK_BALANCE))
  }

  const ASK_BALANCE: seq<AssemblyItem> := [Operation(ADDRESS), Operation(BALANCE)]
  const ADD_0: seq<AssemblyItem> := [Push(0), Operation(ADD)]

  function BalanceIn(env: Env): Word { env.query(BALANCE, [env.query(ADDRESS, [])]) }

  lemma StepAddress(env: Env, m: Machine)
    ensures Step(Operation(ADDRESS), env, m) == Some(PushWord(m, env.query(ADDRESS, [])))
  {
    StepPlain(ADDRESS, env, m);
    assert TopWords(m.stack, 0) == [];
    assert m.stack[..|m.stack|] == m.stack;
  }

  lemma StepBalance(env: Env, m: Machine, a: Word)
    ensures Step(Operation(BALANCE), env, PushWord(m, a)) == Some(PushWord(m, env.query(BALANCE, [a])))
  {
    StepPlain(BALANCE, env, PushWord(m, a));
    PushedBelow(m, a);
  }

  lemma AskBalanceRuns()
    ensures AllRunnable(ASK_BALANCE)
  {
  }

  lemma {:induction false} RunAskBalance(env: Env, m: Machine)
    ensures Run(ASK_BALANCE, env, m) == Some(PushWord(m, BalanceIn(env)))
  {
    var a := env.query(ADDRESS, []);
    StepAddress(env, m);
    StepBalance(env, m, a);
    RunPair(Operation(ADDRESS), Operation(BALANCE), env, m, PushWord(m, a), PushWord(m, BalanceIn(env)));
  }

  lemma {:induction false} RunThreePushes(a: Word, b: Word, c: Word, env: Env, m: Machine)
    ensures Run([Push(a), Push(b), Push(c)], env, m) == Some(m.(stack := m.stack + [a, b, c]))
  {
    RunThree(Push(a), Push(b), Push(c), env, m);
    assert m.stack + [a] + [b] + [c] == m.stack + [a, b, c];
  }

  ghost function CreateStarts(env: Env, m: Machine): Machine
  {
    var stored := Stored(m, BalanceIn(env));
    stored.(stack := m.stack + [0, 0, 7])
  }

  lemma {:induction false} RunInTurn(
    a: seq<AssemblyItem>, b: seq<AssemblyItem>, env: Env, m: Machine, m1: Machine, m2: Machine)
    requires AllRunnable(a) && AllRunnable(b) && Run(a, env, m) == Some(m1) && Run(b, env, m1) == Some(m2)
    ensures AllRunnable(a + b) && Run(a + b, env, m) == Some(m2)
  {
    RunAppend(a, b, env, m);
  }

  lemma {:induction false} RunKeepBalance(env: Env, m: Machine)
    ensures AllRunnable(ASK_BALANCE + STORE_AT_0)
    ensures Run(ASK_BALANCE + STORE_AT_0, env, m) == Some(Stored(m, BalanceIn(env)))
  {
    var asked := PushWord(m, BalanceIn(env));
    AskBalanceRuns();
    RunAskBalance(env, m);
    RunStoreAt0(env, asked);
    PushedBelow(m, BalanceIn(env));
    RunInTurn(ASK_BALANCE, STORE_AT_0, env, m, asked, Stored(m, BalanceIn(env)));
  }

  lemma {:induction false} PushedThree(a: seq<AssemblyItem>, env: Env, m: Machine, m1: Machine)
    requires AllRunnable(a) && Run(a, env, m) == Some(m1)
    ensures AllRunnable(a + [Push(0), Push(0), Push(7)])
    ensures Run(a + [Push(0), Push(0), Push(7)], env, m) == Some(m1.(stack := m1.stack + [0, 0, 7]))
  {
    RunThreePushes(0, 0, 7, env, m1);
    RunInTurn(a, [Push(0), Push(0), Push(7)], env, m, m1, m1.(stack := m1.stack + [0, 0, 7]));
  }

  lemma {:induction false} RunBeforeCreate(env: Env, m: Machine)
    ensures AllRunnable(BeforeCreate()) && Run(BeforeCreate(), env, m) == Some(CreateStarts(env, m))
  {
    RunKeepBalance(env, m);
    PushedThree(ASK_BALANCE + STORE_AT_0, env, m, Stored(m, BalanceIn(env)));
  }

  function Changed(env: Env, i: Instruction, args: seq<Word>): Word
  {
    if i == BALANCE then (BalanceIn(env) + 1) % MODULUS else env.query(i, args)
  }

  /** Another balance than before. */
  function PaidOut(env: Env): Env
  {
    env.(query := (i: Instruction, args: seq<Word>) => Changed(env, i, args))
  }

  ghost function Created(env: Env, m: Machine): Answer
  {
    Answer(PaidOut(env), PushWord(Stored(m, BalanceIn(env)), 0))
  }

  lemma CreateLeads(env: Env, stack: seq<Word>, store: Store)
    ensures MayLead(CREATE, env, 0, Machine(stack + [0, 0, 7], store), Machine(stack + [0], store))
  {
    assert (stack + [0, 0, 7])[..|stack|] == stack;
  }

  lemma OthersChange(env: Env)
    ensures OnlyQueriesDiffer(env, PaidOut(env))
  {
  }

  ghost predicate Answers(item: AssemblyItem, env: Env, m: Machine, a: Answer)
  {
    IsAsking(item) && GoesOn(Other(item, m), env, a)
  }

  lemma CreateAnswers(env: Env, m: Machine)
    ensures Answers(Operation(CREATE), env, CreateStarts(env, m), Created(env, m))
  {
    CreateLeads(env, m.stack, Stored(m, BalanceIn(env)).store);
    OthersChange(env);
    CreateAsks();
  }

  lemma CreateAsks()
    ensures IsAsking(Operation(CREATE))
  {
  }

  lemma StepAdd(env: Env, m: Machine, w: Word)
    ensures Step(Operation(ADD), env, PushWord(PushWord(m, w), 0)) == Some(PushWord(m, w))
  {
    var m1 := PushWord(PushWord(m, w), 0);
    StepPlain(ADD, env, m1);
    assert TopWords(m1.stack, 2) == [0, w];
    assert m1.stack[..|m.stack|] == m.stack;
  }

  lemma {:induction false} RunAdd0(env: Env, m: Machine, w: Word)
    ensures Run(ADD_0, env, PushWord(m, w)) == Some(PushWord(m, w))
  {
    StepAdd(env, m, w);
    RunPair(Push(0), Operation(ADD), env, PushWord(m, w), PushWord(PushWord(m, w), 0), PushWord(m, w));
  }

  lemma LoadAndAddRun()
    ensures AllRunnable(LOAD_AT_0 + ADD_0)
  {
  }

  lemma {:induction false} RunLoadAndAdd(env: Env, m: Machine)
    ensures AllRunnable(LOAD_AT_0 + ADD_0)
    ensures Run(LOAD_AT_0 + ADD_0, env, m) == Some(PushWord(m, Mload(m.store.memory, 0)))
  {
    LoadAndAddRun();
    RunLoadAt0(env, m);
    RunAdd0(env, m, Mload(m.store.memory, 0));
    RunAppend(LOAD_AT_0, ADD_0, env, m);
  }

  /** The exits of a block that asks once. */
  lemma {:induction false} AskOnce(
    before: seq<AssemblyItem>, item: AssemblyItem, rest: seq<AssemblyItem>, env: Env, m: Machine,
    m1: Machine, a: Answer, m2: Machine)
    requires AllRunnable(before) && Run(before, env, m) == Some(m1)
    requires Answers(item, env, m1, a)
    requires AllRunnable(rest) && Run(rest, a.env, a.machine) == Some(m2)
    ensures Trace(before + ([item] + rest), env, m, [a]) == [Other(item, m1), Fall(m2)]
  {
    TraceStraight(before, [item] + rest, env, m, [a]);
    AskingFirst(item, rest, env, m1, [a]);
    assert [a][1..] == [];
    TraceEnds(rest, a.env, a.machine, []);
  }

  lemma {:induction false} RunAfterPop(rest: seq<AssemblyItem>, env: Env, m: Machine, w: Word, m2: Machine)
    requires AllRunnable(rest) && Run(rest, env, m) == Some(m2)
    ensures AllRunnable([Operation(POP)] + rest) && Run([Operation(POP)] + rest, env, PushWord(m, w)) == Some(m2)
  {
    StepPop(env, PushWord(m, w));
    assert PushWord(m, w).stack[..|m.stack|] == m.stack;
    RunOne(Operation(POP), env, PushWord(m, w));
    RunAppend([Operation(POP)], rest, env, PushWord(m, w));
  }

  /** Two blocks that ask once, and then do different things. */
  lemma {:induction false} EndsDiffer(
    before: seq<AssemblyItem>, item: AssemblyItem, rest: seq<AssemblyItem>, rest': seq<AssemblyItem>,
    env: Env, m: Machine, m1: Machine, a: Answer, m2: Machine, m2': Machine)
    requires AllRunnable(before) && Run(before, env, m) == Some(m1)
    requires Answers(item, env, m1, a)
    requires AllRunnable(rest) && Run(rest, a.env, a.machine) == Some(m2)
    requires AllRunnable(rest') && Run(rest', a.env, a.machine) == Some(m2') && m2' != m2
    ensures !SameTrace(before + ([item] + rest), before + ([item] + rest'), env, m, [a])
  {
    AskOnce(before, item, rest, env, m, m1, a, m2);
    AskOnce(before, item, rest', env, m, m1, a, m2');
    assert [Other(item, m1), Fall(m2)][1] != [Other(item, m1), Fall(m2')][1];
  }

  /** After the call, the block leaves the balance from before on the stack. */
  lemma {:induction false} RunKept(env: Env, m: Machine)
    ensures AllRunnable([Operation(POP)] + (LOAD_AT_0 + ADD_0))
    ensures Run([Operation(POP)] + (LOAD_AT_0 + ADD_0), PaidOut(env), Created(env, m).machine)
         == Some(PushWord(Stored(m, BalanceIn(env)), BalanceIn(env)))
  {
    var w, stored := BalanceIn(env), Stored(m, BalanceIn(env));
    LoadStored(m.store.memory, 0, w);
    RunLoadAndAdd(PaidOut(env), stored);
    RunAfterPop(LOAD_AT_0 + ADD_0, PaidOut(env), stored, 0, PushWord(stored, w));
  }

  /** The output leaves the balance after the call there. */
  lemma {:induction false} RunAskedAgain(env: Env, m: Machine)
    ensures AllRunnable([Operation(POP)] + ASK_BALANCE)
    ensures Run([Operation(POP)] + ASK_BALANCE, PaidOut(env), Created(env, m).machine)
         == Some(PushWord(Stored(m, BalanceIn(env)), BalanceIn(PaidOut(env))))
  {
    var stored := Stored(m, BalanceIn(env));
    AskBalanceRuns();
    RunAskBalance(PaidOut(env), stored);
    RunAfterPop(ASK_BALANCE, PaidOut(env), stored, 0, PushWord(stored, BalanceIn(PaidOut(env))));
  }

  lemma OtherBalance(env: Env, m: Machine)
    ensures PushWord(m, BalanceIn(PaidOut(env))) != PushWord(m, BalanceIn(env))
  {
    assert BalanceIn(PaidOut(env)) == (BalanceIn(env) + 1) % MODULUS;
    assert PushWord(m, BalanceIn(env)).stack[|m.stack|] == BalanceIn(env);
  }

  lemma {:induction false} BalanceDiffers(
    before: seq<AssemblyItem>, kept: seq<AssemblyItem>, asked: seq<AssemblyItem>, env: Env, m: Machine)
    requires AllRunnable(before) && Run(before, env, m) == Some(CreateStarts(env, m))
    requires AllRunnable(kept) && AllRunnable(asked)
    requires Run(kept, PaidOut(env), Created(env, m).machine)
          == Some(PushWord(Stored(m, BalanceIn(env)), BalanceIn(env)))
    requires Run(asked, PaidOut(env), Created(env, m).machine)
          == Some(PushWord(Stored(m, BalanceIn(env)), BalanceIn(PaidOut(env))))
    ensures !SameTrace(
      before + ([Operation(CREATE)] + kept), before + ([Operation(CREATE)] + asked), env, m, [Created(env, m)])
  {
    var stored := Stored(m, BalanceIn(env));
    CreateAnswers(env, m);
    OtherBalance(env, stored);
    EndsDiffer(
      before, Operation(CREATE), kept, asked, env, m, CreateStarts(env, m), Created(env, m),
      PushWord(stored, BalanceIn(env)), PushWord(stored, BalanceIn(PaidOut(env))));
  }

  /** On every machine, the output can be told from the block if the call has paid something out. */
  lemma {:induction false} BalanceAskedAgain(env: Env, m: Machine)
    ensures !SameTrace(BalanceKept(), BalanceKeptOutput(), env, m, [Created(env, m)])
  {
    RunBeforeCreate(env, m);
    RunKept(env, m);
    RunAskedAgain(env, m);
    BalanceDiffers(
      BeforeCreate(), [Operation(POP)] + (LOAD_AT_0 + ADD_0), [Operation(POP)] + ASK_BALANCE, env, m);
  }
}
