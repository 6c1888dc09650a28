/**
 * The optimisation of one basic block: chunk after chunk goes through common subexpression elimination, and its
 * code is replaced if that makes it shorter. What can be observed of the block stays the same, whatever the
 * instructions do that are not tracked.
 */
module BlockOptimiser {
  import opened Results
  import opened Evm
  import opened SemanticInformation
  import opened BlockEnds
  import opened Classes
  import opened Expressions
  import opened Recomputation
  import opened GeneratorSteps
  import opened Knowledge
  import opened Tracking
  import opened KnownState
  import opened ChunkEquivalence
  import opened NextChunk
  import opened CommonSubexpressionEliminator

  // ----- what can be observed of a run -----

  /**
   * The exits on the way: every instruction that is not tracked, with the machine it starts from, and the end. The
   * answers are what such instructions lead to: a machine, and what other accounts are from then on. A run for which
   * there is no possible answer stays there.
   */
  ghost function Trace(items: seq<AssemblyItem>, env: Env, m: Machine, answers: seq<Answer>): seq<Exit>
    decreases |items|, 0
  {
    if items == [] then [Fall(m)]
    else if Runnable(items[0]) then TraceAfter(Step(items[0], env, m), items[1..], env, answers)
    else TraceFrom(ExitOf(Some(items[0]), m), items[1..], env, answers)
  }

  ghost function TraceAfter(r: Option<Machine>, rest: seq<AssemblyItem>, env: Env, answers: seq<Answer>): seq<Exit>
    decreases |rest|, 1
  {
    if r.None? then [Stuck] else Trace(rest, env, r.value, answers)
  }

  /** From an exit on. */
  ghost function TraceFrom(e: Exit, rest: seq<AssemblyItem>, env: Env, answers: seq<Answer>): seq<Exit>
    decreases |rest|, 2
  {
    match e
    case Fall(m) => Trace(rest, env, m, answers)
    case Other(item, m) =>
      if Runnable(item) then TraceAfter(Step(item, env, m), rest, env, answers)
      else [e] + TraceAnswered(e, rest, env, answers)
    case _ => [e]
  }

  ghost function TraceAnswered(e: Exit, rest: seq<AssemblyItem>, env: Env, answers: seq<Answer>): seq<Exit>
    decreases |rest|, 1
  {
    if answers != [] && GoesOn(e, env, answers[0]) then Trace(rest, answers[0].env, answers[0].machine, answers[1..])
    else []
  }

  lemma {:induction false} TraceRun(
    items: seq<AssemblyItem>, rest: seq<AssemblyItem>, env: Env, m: Machine, answers: seq<Answer>)
    requires AllRunnable(items)
    ensures Trace(items + rest, env, m, answers) == TraceAfter(Run(items, env, m), rest, env, answers)
  {
    if items == [] {
      assert items + rest == rest;
    } else {
      var all := items + rest;
      assert Runnable(items[0]) && all[0] == items[0] && all[1..] == items[1..] + rest;
      var next := Step(items[0], env, m);
      if next.Some? {
        assert AllRunnable(items[1..]);
        TraceRun(items[1..], rest, env, next.value, answers);
      }
    }
  }

  /** Nothing that can be run ends the block. */
  lemma RunnableExit(item: AssemblyItem, m: Machine)
    requires Runnable(item)
    ensures ExitOf(Some(item), m) == Other(item, m)
  {
  }

  lemma {:induction false} TraceItem(
    item: AssemblyItem, rest: seq<AssemblyItem>, env: Env, m: Machine, answers: seq<Answer>)
    ensures Trace([item] + rest, env, m, answers) == TraceFrom(ExitOf(Some(item), m), rest, env, answers)
  {
    var all := [item] + rest;
    assert all[0] == item && all[1..] == rest;
    if Runnable(item) {
      RunnableExit(item, m);
    }
  }

  lemma {:induction false} TraceEnd(
    breaking: Option<AssemblyItem>, rest: seq<AssemblyItem>, env: Env, m: Machine, answers: seq<Answer>)
    ensures Trace(EndItems(breaking) + rest, env, m, answers) == TraceFrom(ExitOf(breaking, m), rest, env, answers)
  {
    if breaking.None? {
      assert EndItems(breaking) + rest == rest;
    } else {
      TraceItem(breaking.value, rest, env, m, answers);
    }
  }

  lemma {:induction false} TraceChunk(
    items: seq<AssemblyItem>, breaking: Option<AssemblyItem>, rest: seq<AssemblyItem>,
    env: Env, m: Machine, answers: seq<Answer>)
    requires AllRunnable(items)
    ensures Trace(items + (EndItems(breaking) + rest), env, m, answers)
         == TraceFrom(Outcome(items, breaking, env, m), rest, env, answers)
  {
    TraceRun(items, EndItems(breaking) + rest, env, m, answers);
    var r := Run(items, env, m);
    if r.Some? {
      TraceEnd(breaking, rest, env, r.value, answers);
    }
  }

  // ----- the same can be observed -----

  /** The traces are the same, or the same up to where the stack is too short for the first. */
  ghost predicate Agree(t: seq<Exit>, t': seq<Exit>)
  {
    if t != [] && t[|t| - 1] == Stuck then t[..|t| - 1] <= t' else t' == t
  }

  lemma AgreeAfter(e: Exit, t: seq<Exit>, t': seq<Exit>)
    requires Agree(t, t')
    ensures Agree([e] + t, [e] + t')
  {
    if t != [] && t[|t| - 1] == Stuck {
      assert ([e] + t)[..|t|] == [e] + t[..|t| - 1];
    }
  }

  ghost predicate SameTrace(
    items: seq<AssemblyItem>, items': seq<AssemblyItem>, env: Env, m: Machine, answers: seq<Answer>)
  {
    Agree(Trace(items, env, m, answers), Trace(items', env, m, answers))
  }

  /** What is known at some point of the block, and when the present era has begun. */
  datatype Point = Point(known: Knowledge, reps: seq<Expression>, era: nat)

  /** From every machine that is described, whatever the answers. */
  ghost predicate Replaces(p: Point, items: seq<AssemblyItem>, items': seq<AssemblyItem>)
    requires ValidClasses(p.reps)
  {
    forall v: Valuation, origin: int, m: Machine, answers: seq<Answer> ::
      Describes(p.known, p.reps, v, origin, m) && v.era == p.era ==> SameTrace(items, items', v.env, m, answers)
  }

  ghost predicate DescribedAt(p: Point, env: Env, origin: int, m: Machine)
    requires ValidClasses(p.reps)
  {
    Described(p.known, p.reps, p.era, env, origin, m)
  }

  lemma DescribedSame(
    p: Point, items: seq<AssemblyItem>, items': seq<AssemblyItem>, env: Env, origin: int, m: Machine,
    answers: seq<Answer>)
    requires ValidClasses(p.reps) && Replaces(p, items, items') && DescribedAt(p, env, origin, m)
    ensures SameTrace(items, items', env, m, answers)
  {
    var v: Valuation :| v.env == env && v.era == p.era && Describes(p.known, p.reps, v, origin, m);
    assert SameTrace(items, items', v.env, m, answers);
  }

  /** A plain instruction with many arguments, or a tag, leads where it leads when it is run. */
  lemma RunnableGoesOn(item: AssemblyItem, env: Env, m: Machine)
    requires CanEnd(item) && Runnable(item) && Step(item, env, m).Some?
    ensures GoesOn(Other(item, m), env, Answer(env, Step(item, env, m).value))
  {
    if item.Operation? {
      PlainMayLead(item.instruction, env, m);
    }
  }

  lemma {:induction false} AfterSame(
    e: Exit, p: Point, rest: seq<AssemblyItem>, rest': seq<AssemblyItem>, env: Env, origin: int,
    answers: seq<Answer>)
    requires ValidClasses(p.reps) && Replaces(p, rest, rest')
    requires forall a: Answer :: GoesOn(e, env, a) ==> DescribedAt(p, a.env, origin, a.machine)
    requires e.Other? ==> CanEnd(e.item)
    ensures Agree(TraceFrom(e, rest, env, answers), TraceFrom(e, rest', env, answers))
  {
    match e
    case Fall(m) =>
      assert GoesOn(e, env, Answer(env, m));
      DescribedSame(p, rest, rest', env, origin, m, answers);
    case Other(item, m) =>
      if Runnable(item) {
        var r := Step(item, env, m);
        if r.Some? {
          RunnableGoesOn(item, env, m);
          assert GoesOn(e, env, Answer(env, r.value));
          DescribedSame(p, rest, rest', env, origin, r.value, answers);
        }
      } else {
        if answers != [] && GoesOn(e, env, answers[0]) {
          DescribedSame(p, rest, rest', answers[0].env, origin, answers[0].machine, answers[1..]);
        }
        AgreeAfter(e, TraceAnswered(e, rest, env, answers), TraceAnswered(e, rest', env, answers));
      }
    case _ =>
  }

  /** With something behind both that can be replaced from where the items lead to. */
  ghost predicate ReplacesBefore(p: Point, items: seq<AssemblyItem>, items': seq<AssemblyItem>, p': Point)
    requires ValidClasses(p.reps) && ValidClasses(p'.reps)
  {
    forall rest, rest' :: Replaces(p', rest, rest') ==> Replaces(p, items + rest, items' + rest')
  }

  ghost predicate LeadsTo(p: Point, items: seq<AssemblyItem>, breaking: Option<AssemblyItem>, p': Point)
    requires ValidClasses(p.reps) && ValidClasses(p'.reps)
  {
    DescribesNext(p.known, p.reps, p.era, items, breaking, p'.known, p'.reps, p'.era)
  }

  lemma {:induction false} ChunkSame(
    p: Point, items: seq<AssemblyItem>, breaking: Option<AssemblyItem>,
    code: seq<AssemblyItem>, ending: Option<AssemblyItem>, p': Point,
    rest: seq<AssemblyItem>, rest': seq<AssemblyItem>, v: Valuation, origin: int, m: Machine, answers: seq<Answer>)
    requires ValidClasses(p.reps) && ValidClasses(p'.reps) && AllRunnable(items) && AllRunnable(code)
    requires SameOutcomes(p.known, p.reps, p.era, items, breaking, code, ending)
    requires breaking.Some? ==> CanEnd(breaking.value)
    requires LeadsTo(p, items, breaking, p') && Replaces(p', rest, rest')
    requires Describes(p.known, p.reps, v, origin, m) && v.era == p.era
    ensures SameTrace(items + (EndItems(breaking) + rest), code + (EndItems(ending) + rest'), v.env, m, answers)
  {
    TraceChunk(items, breaking, rest, v.env, m, answers);
    TraceChunk(code, ending, rest', v.env, m, answers);
    var e := Outcome(items, breaking, v.env, m);
    if e != Stuck {
      forall a: Answer | GoesOn(e, v.env, a)
        ensures DescribedAt(p', a.env, origin, a.machine)
      {
      }
      AfterSame(e, p', rest, rest', v.env, origin, answers);
    }
  }

  /** A chunk and straight-line code with the same outcomes. */
  lemma {:induction false} ChunkReplaces(
    p: Point, items: seq<AssemblyItem>, breaking: Option<AssemblyItem>,
    code: seq<AssemblyItem>, ending: Option<AssemblyItem>, p': Point)
    requires ValidClasses(p.reps) && ValidClasses(p'.reps) && AllRunnable(items) && AllRunnable(code)
    requires SameOutcomes(p.known, p.reps, p.era, items, breaking, code, ending)
    requires breaking.Some? ==> CanEnd(breaking.value)
    requires LeadsTo(p, items, breaking, p')
    ensures ReplacesBefore(p, items + EndItems(breaking), code + EndItems(ending), p')
  {
    forall rest, rest' | Replaces(p', rest, rest')
      ensures Replaces(p, items + EndItems(breaking) + rest, code + EndItems(ending) + rest')
    {
      assert items + EndItems(breaking) + rest == items + (EndItems(breaking) + rest);
      assert code + EndItems(ending) + rest' == code + (EndItems(ending) + rest');
      forall v: Valuation, origin: int, m: Machine, answers: seq<Answer>
        | Describes(p.known, p.reps, v, origin, m) && v.era == p.era
        ensures SameTrace(
          items + EndItems(breaking) + rest, code + EndItems(ending) + rest', v.env, m, answers)
      {
        ChunkSame(p, items, breaking, code, ending, p', rest, rest', v, origin, m, answers);
      }
    }
  }

  /** A chunk that stays as it is. */
  lemma ChunkKept(p: Point, items: seq<AssemblyItem>, breaking: Option<AssemblyItem>, p': Point)
    requires ValidClasses(p.reps) && ValidClasses(p'.reps) && AllRunnable(items)
    requires (breaking.Some? ==> CanEnd(breaking.value)) && LeadsTo(p, items, breaking, p')
    ensures ReplacesBefore(p, items + EndItems(breaking), items + EndItems(breaking), p')
  {
    ChunkReplaces(p, items, breaking, items, breaking, p');
  }

  // ----- one chunk after another -----

  lemma NothingYet(p: Point)
    requires ValidClasses(p.reps)
    ensures ReplacesBefore(p, [], [], p)
  {
    forall rest, rest' | Replaces(p, rest, rest')
      ensures Replaces(p, [] + rest, [] + rest')
    {
      assert [] + rest == rest && [] + rest' == rest';
    }
  }

  lemma OneAfterTheOther(
    p: Point, a: seq<AssemblyItem>, a': seq<AssemblyItem>, p1: Point, b: seq<AssemblyItem>, b': seq<AssemblyItem>,
    p2: Point)
    requires ValidClasses(p.reps) && ValidClasses(p1.reps) && ValidClasses(p2.reps)
    requires ReplacesBefore(p, a, a', p1) && ReplacesBefore(p1, b, b', p2)
    ensures ReplacesBefore(p, a + b, a' + b', p2)
  {
    forall rest, rest' | Replaces(p2, rest, rest')
      ensures Replaces(p, a + b + rest, a' + b' + rest')
    {
      assert Replaces(p1, b + rest, b' + rest');
      assert Replaces(p, a + (b + rest), a' + (b' + rest'));
      assert a + b + rest == a + (b + rest) && a' + b' + rest' == a' + (b' + rest');
    }
  }

  lemma AllDone(p: Point, items: seq<AssemblyItem>, items': seq<AssemblyItem>, p': Point)
    requires ValidClasses(p.reps) && ValidClasses(p'.reps) && ReplacesBefore(p, items, items', p')
    ensures Replaces(p, items, items')
  {
    assert items + [] == items && items' + [] == items';
    assert Replaces(p', [], []);
  }

  // ----- items whose effect is left open -----

  /** How many times the items ask: run through to the end, they have one more exit than that. */
  function Asks(items: seq<AssemblyItem>): nat
  {
    if items == [] then 0 else (if IsAsking(items[0]) then 1 else 0) + Asks(items[1..])
  }

  lemma {:induction false} AsksAppend(a: seq<AssemblyItem>, b: seq<AssemblyItem>)
    ensures Asks(a + b) == Asks(a) + Asks(b)
  {
    if a == [] {
      assert a + b == b;
    } else {
      assert (a + b)[1..] == a[1..] + b;
      AsksAppend(a[1..], b);
    }
  }

  lemma {:induction false} AsksNothing(items: seq<AssemblyItem>)
    requires NoFlow(items)
    ensures Asks(items) == 0 <==> AllRunnable(items)
  {
    if items != [] {
      AsksNothing(items[1..]);
      assert items == [items[0]] + items[1..];
    }
  }

  lemma {:induction false} AsksAtEnd(items: seq<AssemblyItem>, breaking: Option<AssemblyItem>)
    requires NoFlow(items)
    ensures Asks(items + EndItems(breaking)) == Asks(items) + if IsAskingEnd(breaking) then 1 else 0
  {
    AsksAppend(items, EndItems(breaking));
    if breaking.Some? {
      assert EndItems(breaking)[1..] == [];
    }
  }

  lemma RunnableNoFlow(items: seq<AssemblyItem>)
    requires AllRunnable(items)
    ensures NoFlow(items)
  {
  }

  /** Control flow only at the end. */
  predicate FlowAtEnd(items: seq<AssemblyItem>) { forall k :: 0 <= k < |items| - 1 ==> !IsFlow(items[k]) }

  predicate FlowAtEndIf(last: bool, items: seq<AssemblyItem>) { if last then FlowAtEnd(items) else NoFlow(items) }

  /** New code for a chunk asks no less than the chunk, and does not jump where the chunk does not. */
  lemma {:induction false} CodeAsks(
    items: seq<AssemblyItem>, breaking: Option<AssemblyItem>, code: seq<AssemblyItem>, ending: Option<AssemblyItem>,
    last: bool)
    requires AllRunnable(items) && NoFlow(code) && SameKind(ending, breaking)
    ensures Asks(code + EndItems(ending)) >= Asks(items + EndItems(breaking))
    ensures Asks(code + EndItems(ending)) == Asks(items + EndItems(breaking)) <==> AllRunnable(code)
    ensures FlowAtEndIf(last, items + EndItems(breaking)) ==> FlowAtEndIf(last, code + EndItems(ending))
  {
    RunnableNoFlow(items);
    AsksAtEnd(items, breaking);
    AsksAtEnd(code, ending);
    AsksNothing(items);
    AsksNothing(code);
    if !last && breaking.Some? {
      assert (items + EndItems(breaking))[|items|] == breaking.value;
    }
  }

  // ----- the optimiser -----

  /** Items of an assembly; a word to be pushed is an item of its own, not an operation. */
  predicate Optimisable(item: AssemblyItem)
  {
    item.Operation? ==>
      InSet(item.instruction) && item.instruction != SHA3 && !item.instruction.PUSH?
  }

  predicate AllOptimisable(items: seq<AssemblyItem>) { forall k :: 0 <= k < |items| ==> Optimisable(items[k]) }

  predicate IsCounterItem(item: AssemblyItem) { item.Operation? && IsCounter(item.instruction) }

  predicate NoCounter(items: seq<AssemblyItem>) { forall k :: 0 <= k < |items| ==> !IsCounterItem(items[k]) }

  predicate NoCallFrom(items: seq<AssemblyItem>, from: nat)
  {
    forall k :: from <= k < |items| ==> !IsCallItem(items[k])
  }

  /** No call after a query. */
  predicate QueriesLast(items: seq<AssemblyItem>)
  {
    forall i, j :: 0 <= i < j < |items| && IsQueryItem(items[i]) ==> !IsCallItem(items[j])
  }

  /** What the block may contain if only some classes are let in. */
  predicate Suitable(items: seq<AssemblyItem>, a: Admission)
  {
    (a.counters || NoCounter(items)) && (a.queries || QueriesLast(items))
  }

  /** Nothing has been asked before the era, and there will be no later one in which that is asked again. */
  ghost predicate Calm(items: seq<AssemblyItem>, from: nat, a: Admission, reps: seq<Expression>, era: nat)
  {
    a.queries ==> NoCallFrom(items, from) && NothingAsked(reps, era)
  }

  lemma QueriesLetIn(items: seq<AssemblyItem>, from: nat, a: Admission, reps: seq<Expression>, era: nat)
    requires AllAdmitted(reps, a) && !a.queries && NoCallFrom(items, from)
    ensures AllAdmitted(reps, a.(queries := true)) && Calm(items, from, a.(queries := true), reps, era)
  {
    forall c | 0 <= c < |reps|
      ensures Admitted(reps[c].item, a.(queries := true)) && !IsQueryItem(reps[c].item)
    {
      assert Admitted(reps[c].item, a);
    }
  }

  lemma StillCalm(
    items: seq<AssemblyItem>, from: nat, a: Admission, reps: seq<Expression>, era: nat,
    next: nat, reps': seq<Expression>, era': nat)
    requires Calm(items, from, a, reps, era) && from <= next && reps <= reps' && era <= |reps|
    requires AllAdmitted(reps', a) && (NoCallFrom(items, from) ==> era' == era)
    ensures Calm(items, next, a, reps', era') && NothingAsked(reps', era)
  {
    if a.queries {
      StillNothingAsked(reps, reps', era);
    } else {
      forall c | 0 <= c < |reps'|
        ensures !IsQueryItem(reps'[c].item)
      {
        assert Admitted(reps'[c].item, a);
      }
    }
  }

  lemma OptimisableAdmitted(item: AssemblyItem, a: Admission)
    requires Optimisable(item) && (a.counters || !IsCounterItem(item)) && (a.queries || !IsQueryItem(item))
    ensures Feedable(item, a)
  {
  }

  lemma CallBreaks(item: AssemblyItem)
    requires IsCallItem(item)
    ensures BreaksCSEAnalysisBlock(item)
  {
  }

  /** In front of a call there is no query to be fed. */
  lemma NoQueryBefore(items: seq<AssemblyItem>, from: nat, k: nat)
    requires from <= k < |items| && Unbroken(items, from, k) && QueriesLast(items) && !NoCallFrom(items, from)
    ensures !IsQueryItem(items[k])
  {
    var j :| from <= j < |items| && IsCallItem(items[j]);
    CallBreaks(items[j]);
  }

  lemma ChunkFeedable(items: seq<AssemblyItem>, from: nat, a: Admission)
    requires AllOptimisable(items) && Suitable(items, a) && (a.queries || !NoCallFrom(items, from))
    ensures forall k :: from <= k < |items| && Unbroken(items, from, k) ==> Feedable(items[k], a)
  {
    forall k | from <= k < |items| && Unbroken(items, from, k)
      ensures Feedable(items[k], a)
    {
      if !a.queries {
        NoQueryBefore(items, from, k);
      }
      OptimisableAdmitted(items[k], a);
    }
  }

  lemma FedPlain(i: Instruction)
    requires !BreaksCSEAnalysisBlock(Operation(i)) && IsOpaque(i) && !i.PUSH? && i != SHA3
    ensures IsPlain(i)
  {
  }

  /** What is fed and does not break the block can be run. */
  lemma FedRunnable(item: AssemblyItem)
    requires Optimisable(item) && !BreaksCSEAnalysisBlock(item)
    ensures Runnable(item)
  {
    if item.Operation? && IsOpaque(item.instruction) {
      FedPlain(item.instruction);
    }
  }

  /** What has been fed, and the item that breaks the block, are the items of the chunk. */
  lemma FedIs(items: seq<AssemblyItem>, from: nat, next: nat, fed: seq<AssemblyItem>, breaking: Option<AssemblyItem>)
    requires from <= next <= |items| && AllOptimisable(items)
    requires breaking.None? ==> fed == [] + items[from..next]
    requires breaking.Some? ==> from < next && fed == [] + items[from..next - 1] && breaking == Some(items[next - 1])
    requires Unbroken(items, from, if breaking.Some? then next - 1 else next)
    ensures items[from..next] == fed + EndItems(breaking) && AllRunnable(fed)
    ensures FlowAtEnd(items) ==> FlowAtEndIf(next == |items|, items[from..next])
    ensures IsCalling(breaking) ==> !NoCallFrom(items, from)
  {
    forall k | 0 <= k < |fed|
      ensures Runnable(fed[k])
    {
      assert fed[k] == items[from + k];
      FedRunnable(items[from + k]);
    }
  }

  /** The eliminator has no better code for the chunk; the chunk is kept. */
  predicate IsHarmless(error: Error) { error == StackTooDeep || error == ItemNotAvailable }

  ghost function PointOf(eliminator: CommonSubexpressionEliminator, era: nat): Point
    reads eliminator
  {
    Point(eliminator.first, eliminator.firstReps, era)
  }

  /** The chunk may be put in place of the items: it asks no less, and does not jump where they do not. */
  ghost predicate MayReplace(items: seq<AssemblyItem>, chunk: seq<AssemblyItem>, last: bool)
  {
    && |chunk| <= |items| && Asks(chunk) >= Asks(items)
    && (FlowAtEndIf(last, items) ==> FlowAtEndIf(last, chunk))
  }

  /** The classes are all those of queries. */
  ghost predicate AllQueries(reps: seq<Expression>, lost: set<Id>)
  {
    forall c :: c in lost ==> c < |reps| && IsQueryItem(reps[c].item)
  }

  lemma AllQueriesOf(reps: seq<Expression>, computed: set<Id>, era: nat)
    ensures AllQueries(reps, AskedBefore(reps, computed, era))
  {
  }

  lemma MoreQueries(reps: seq<Expression>, lost: set<Id>, reps': seq<Expression>, more: set<Id>)
    requires AllQueries(reps, lost) && reps <= reps' && AllQueries(reps', more)
    ensures AllQueries(reps', lost + more)
  {
  }

  /** What is true of new code for a chunk. */
  lemma {:induction false} ChunkChanged(
    p: Point, items: seq<AssemblyItem>, breaking: Option<AssemblyItem>,
    code: seq<AssemblyItem>, ending: Option<AssemblyItem>, p': Point, a: Admission, computed: set<Id>, last: bool)
    requires ValidClasses(p.reps) && ValidClasses(p'.reps) && AllRunnable(items)
    requires Repeatable(p'.reps, computed, p.era) ==>
      SameOutcomes(p.known, p.reps, p.era, items, breaking, code, ending)
    requires breaking.Some? ==> CanEnd(breaking.value)
    requires LeadsTo(p, items, breaking, p') && SameKind(ending, breaking)
    requires AllAdmitted(p'.reps, a) && AllComputable(p'.reps, computed) && OnlyRuns(p'.reps, computed, code)
    ensures var chunk, changed := items + EndItems(breaking), code + EndItems(ending);
      && Asks(changed) >= Asks(chunk) && (FlowAtEndIf(last, chunk) ==> FlowAtEndIf(last, changed))
      && (!a.counters ==> Asks(changed) == Asks(chunk))
      && (Asks(changed) == Asks(chunk) && AskedBefore(p'.reps, computed, p.era) == {} ==>
            ReplacesBefore(p, chunk, changed, p'))
    ensures NothingAsked(p'.reps, p.era) ==> AskedBefore(p'.reps, computed, p.era) == {}
  {
    CodeAsks(items, breaking, code, ending, last);
    if !a.counters {
      AllRunWithoutCounters(p'.reps, a, computed);
    }
    if NothingAsked(p'.reps, p.era) {
      NothingAskedBefore(p'.reps, computed, p.era);
    }
    if AllRunnable(code) && AskedBefore(p'.reps, computed, p.era) == {} {
      RepeatableIs(p'.reps, computed, p.era);
      ChunkReplaces(p, items, breaking, code, ending, p');
    }
  }

  /**
   * The next chunk, or shorter code for it. The lost classes are those that the code asks once more, in another era.
   */
  method OptimiseChunk(eliminator: CommonSubexpressionEliminator, items: seq<AssemblyItem>, from: nat, ghost era: nat)
    returns (next: nat, r: Result<seq<AssemblyItem>>, ghost lost: set<Id>, ghost era': nat)
    requires eliminator.Valid() && eliminator.fed == [] && eliminator.breakingItem == None && from < |items|
    requires AllOptimisable(items) && era <= |eliminator.firstReps|
    requires forall k :: from <= k < |items| && Unbroken(items, from, k) ==>
      Feedable(items[k], eliminator.state.classes.admission)
    modifies eliminator, eliminator.initialState, eliminator.state
    modifies eliminator.state.classes`representatives, eliminator.state.classes`expressions
    ensures from < next <= |items| && (r.Err? ==> !IsHarmless(r.error))
    ensures r.Ok? ==> MayReplace(items[from..next], r.value, next == |items|)
    ensures r.Ok? ==>
      && eliminator.Valid() && eliminator.fed == [] && eliminator.breakingItem == None
      && fresh(eliminator.initialState) && fresh(eliminator.state)
      && eliminator.state.classes == old(eliminator.state.classes)
      && eliminator.firstReps == eliminator.state.Reps() && old(eliminator.firstReps) <= eliminator.firstReps
    ensures r.Ok? && Asks(r.value) == Asks(items[from..next]) && lost == {} ==>
      ReplacesBefore(old(PointOf(eliminator, era)), items[from..next], r.value, PointOf(eliminator, era'))
    ensures r.Ok? && !eliminator.state.classes.admission.counters ==> Asks(r.value) == Asks(items[from..next])
    ensures r.Ok? && NothingAsked(eliminator.firstReps, era) ==> lost == {}
    ensures r.Ok? ==> AllQueries(eliminator.firstReps, lost)
    ensures r.Ok? ==> era' <= |eliminator.firstReps|
    ensures NoCallFrom(items, from) ==> era' == era
  {
    ghost var p := PointOf(eliminator, era);
    var s;
    next, s := eliminator.FeedItems(items, from);
    ghost var fed, breaking := eliminator.fed, eliminator.breakingItem;
    FedIs(items, from, next, fed, breaking);
    ghost var code, ending, computed;
    r, code, ending, computed, era' := eliminator.GetOptimizedItems(era);
    lost := {};
    if r.Ok? && |r.value| < next - from {
      lost := AskedBefore(eliminator.state.Reps(), computed, era);
      AllQueriesOf(eliminator.state.Reps(), computed, era);
      ChunkChanged(
        p, fed, breaking, code, ending, PointOf(eliminator, era'), eliminator.state.classes.admission, computed,
        next == |items|);
    } else if r.Ok? || IsHarmless(r.error) {
      r := Ok(items[from..next]);
      ChunkKept(p, fed, breaking, PointOf(eliminator, era'));
    }
  }

  // ----- the whole block -----

  /** The eliminator is ready for the next item. */
  ghost predicate Ready(eliminator: CommonSubexpressionEliminator, items: seq<AssemblyItem>, era: nat)
    reads eliminator, eliminator.initialState, eliminator.state, eliminator.state.classes
  {
    && eliminator.Valid() && eliminator.fed == [] && eliminator.breakingItem == None
    && eliminator.firstReps == eliminator.state.Reps() && era <= |eliminator.firstReps|
    && Suitable(items, eliminator.state.classes.admission)
  }

  ghost predicate CalmAt(
    eliminator: CommonSubexpressionEliminator, items: seq<AssemblyItem>, from: nat, era: nat)
    reads eliminator, eliminator.state, eliminator.state.classes
  {
    Calm(items, from, eliminator.state.classes.admission, eliminator.firstReps, era)
  }

  /** Before each chunk: queries are let in once there is no call any more. */
  ghost method LetQueriesIn(eliminator: CommonSubexpressionEliminator, items: seq<AssemblyItem>, from: nat, era: nat)
    requires Ready(eliminator, items, era)
    modifies eliminator.state.classes`admission
    ensures Ready(eliminator, items, era)
    ensures eliminator.state.classes.admission.queries || !NoCallFrom(items, from)
    ensures eliminator.state.classes.admission.counters == old(eliminator.state.classes.admission.counters)
    ensures old(CalmAt(eliminator, items, from, era)) ==> CalmAt(eliminator, items, from, era)
  {
    var a := eliminator.state.classes.admission;
    if !a.queries && NoCallFrom(items, from) {
      QueriesLetIn(items, from, a, eliminator.firstReps, era);
      eliminator.Admit(a.(queries := true));
    }
  }

  /** One turn of the loop over the chunks. */
  method OptimiseNext(eliminator: CommonSubexpressionEliminator, items: seq<AssemblyItem>, from: nat, ghost era: nat)
    returns (next: nat, r: Result<seq<AssemblyItem>>, ghost lost: set<Id>, ghost era': nat)
    requires Ready(eliminator, items, era) && AllOptimisable(items) && from < |items|
    modifies eliminator, eliminator.initialState, eliminator.state, eliminator.state.classes
    ensures from < next <= |items| && (r.Err? ==> !IsHarmless(r.error))
    ensures r.Ok? ==> MayReplace(items[from..next], r.value, next == |items|)
    ensures r.Ok? ==>
      && Ready(eliminator, items, era') && fresh(eliminator.initialState) && fresh(eliminator.state)
      && eliminator.state.classes == old(eliminator.state.classes)
      && eliminator.state.classes.admission.counters == old(eliminator.state.classes.admission.counters)
    ensures r.Ok? && Asks(r.value) == Asks(items[from..next]) && lost == {} ==>
      ReplacesBefore(old(PointOf(eliminator, era)), items[from..next], r.value, PointOf(eliminator, era'))
    ensures r.Ok? && !eliminator.state.classes.admission.counters ==> Asks(r.value) == Asks(items[from..next])
    ensures r.Ok? && old(CalmAt(eliminator, items, from, era)) ==>
      CalmAt(eliminator, items, next, era') && lost == {}
    ensures r.Ok? ==> old(eliminator.firstReps) <= eliminator.firstReps && AllQueries(eliminator.firstReps, lost)
  {
    LetQueriesIn(eliminator, items, from, era);
    ghost var a, reps, calm := eliminator.state.classes.admission, eliminator.firstReps,
      CalmAt(eliminator, items, from, era);
    ChunkFeedable(items, from, a);
    next, r, lost, era' := OptimiseChunk(eliminator, items, from, era);
    if r.Ok? && calm {
      StillCalm(items, from, a, reps, era, next, eliminator.firstReps, era');
    }
  }

  /** What is true of the output for the items so far. */
  ghost predicate Done(
    p0: Point, items: seq<AssemblyItem>, next: nat, output: seq<AssemblyItem>, lost: set<Id>, p: Point)
    requires ValidClasses(p0.reps) && ValidClasses(p.reps)
  {
    && next <= |items| && |output| <= next && Asks(output) >= Asks(items[..next])
    && (FlowAtEnd(items) ==> FlowAtEndIf(next == |items|, output)) && AllQueries(p.reps, lost)
    && (Asks(output) == Asks(items[..next]) && lost == {} ==> ReplacesBefore(p0, items[..next], output, p))
  }

  lemma NothingDoneYet(p0: Point, items: seq<AssemblyItem>)
    requires ValidClasses(p0.reps)
    ensures Done(p0, items, 0, [], {}, p0)
  {
    NothingYet(p0);
  }

  lemma {:induction false} OneMoreChunk(
    p0: Point, items: seq<AssemblyItem>, from: nat, next: nat, output: seq<AssemblyItem>, lost: set<Id>, p: Point,
    chunk: seq<AssemblyItem>, more: set<Id>, p': Point)
    requires ValidClasses(p0.reps) && ValidClasses(p.reps) && ValidClasses(p'.reps) && from < next <= |items|
    requires Done(p0, items, from, output, lost, p) && MayReplace(items[from..next], chunk, next == |items|)
    requires Asks(chunk) == Asks(items[from..next]) && more == {} ==> ReplacesBefore(p, items[from..next], chunk, p')
    requires p.reps <= p'.reps && AllQueries(p'.reps, more)
    ensures Done(p0, items, next, output + chunk, lost + more, p')
    ensures Asks(output) == Asks(items[..from]) && Asks(chunk) == Asks(items[from..next]) ==>
      Asks(output + chunk) == Asks(items[..next])
  {
    assert items[..next] == items[..from] + items[from..next];
    MoreQueries(p.reps, lost, p'.reps, more);
    AsksAppend(items[..from], items[from..next]);
    AsksAppend(output, chunk);
    if Asks(output + chunk) == Asks(items[..next]) && lost + more == {} {
      assert lost == {} && more == {};
      OneAfterTheOther(p0, items[..from], output, p, items[from..next], chunk, p');
    }
    if FlowAtEnd(items) {
      PartFlowAtEnd(items, from, next);
      FlowAppended(output, chunk, next == |items|);
    }
  }

  lemma PartFlowAtEnd(items: seq<AssemblyItem>, from: nat, next: nat)
    requires from < next <= |items| && FlowAtEnd(items)
    ensures FlowAtEndIf(next == |items|, items[from..next])
  {
  }

  lemma FlowAppended(output: seq<AssemblyItem>, chunk: seq<AssemblyItem>, last: bool)
    requires NoFlow(output) && FlowAtEndIf(last, chunk)
    ensures FlowAtEndIf(last, output + chunk)
  {
  }

  lemma {:induction false} BlockDone(
    p0: Point, items: seq<AssemblyItem>, output: seq<AssemblyItem>, lost: set<Id>, p: Point)
    requires ValidClasses(p0.reps) && ValidClasses(p.reps) && Done(p0, items, |items|, output, lost, p)
    ensures |output| <= |items| && Asks(output) >= Asks(items) && (FlowAtEnd(items) ==> FlowAtEnd(output))
    ensures AllQueries(p.reps, lost)
    ensures Asks(output) == Asks(items) && lost == {} ==> Replaces(p0, items, output)
  {
    assert items[..|items|] == items;
    if Asks(output) == Asks(items) && lost == {} {
      AllDone(p0, items, output, p);
    }
  }

  /**
   * A block that starts with the given knowledge in the given era. The output is not longer and asks no less. If it
   * asks no more, and none of what was asked before another call once more, it has the same traces as the block. It
   * asks no more if there is no GAS, PC or MSIZE in the block, and nothing from before another call if BALANCE and
   * EXTCODESIZE come after all calls, given that nothing else has been let in.
   */
  method OptimiseBlock(start: KnownState, items: seq<AssemblyItem>, ghost era: nat)
    returns (r: Result<seq<AssemblyItem>>, ghost lost: set<Id>)
    requires start.Valid() && AllOptimisable(items)
    requires era <= |start.Reps()| && Suitable(items, start.classes.admission)
    modifies start.classes
    ensures r.Ok? ==> |r.value| <= |items| && Asks(r.value) >= Asks(items) && (FlowAtEnd(items) ==> FlowAtEnd(r.value))
    ensures r.Ok? && Asks(r.value) == Asks(items) && lost == {} ==>
      Replaces(Point(old(start.Known()), old(start.Reps()), era), items, r.value)
    ensures r.Ok? && !old(start.classes.admission).counters ==> Asks(r.value) == Asks(items)
    ensures r.Ok? && old(Calm(items, 0, start.classes.admission, start.Reps(), era)) ==> lost == {}
    ensures r.Ok? ==> AllQueries(start.classes.representatives, lost)
    ensures r.Err? ==> !IsHarmless(r.error)
  {
    var eliminator := new CommonSubexpressionEliminator(start);
    ghost var p0, now: nat := PointOf(eliminator, era), era;
    ghost var calm, counters := CalmAt(eliminator, items, 0, era), start.classes.admission.counters;
    var output: seq<AssemblyItem> := [];
    var next := 0;
    lost := {};
    NothingDoneYet(p0, items);
    while next < |items|
      invariant next <= |items| && Ready(eliminator, items, now)
      invariant fresh(eliminator.initialState) && fresh(eliminator.state)
      invariant eliminator.state.classes == start.classes && start.classes.admission.counters == counters
      invariant calm ==> CalmAt(eliminator, items, next, now) && lost == {}
      invariant !counters ==> Asks(output) == Asks(items[..next])
      invariant Done(p0, items, next, output, lost, PointOf(eliminator, now))
    {
      var from := next;
      ghost var p := PointOf(eliminator, now);
      var chunk;
      ghost var more;
      next, chunk, more, now := OptimiseNext(eliminator, items, from, now);
      if chunk.Err? {
        return chunk, lost;
      }
      OneMoreChunk(p0, items, from, next, output, lost, p, chunk.value, more, PointOf(eliminator, now));
      output, lost := output + chunk.value, lost + more;
    }
    assert items[..next] == items;
    BlockDone(p0, items, output, lost, PointOf(eliminator, now));
    r := Ok(output);
  }

  /** Where a block starts with no knowledge, the output can take its place on every machine. */
  lemma ReplacesEverywhere(
    p: Point, items: seq<AssemblyItem>, items': seq<AssemblyItem>, env: Env, m: Machine, answers: seq<Answer>)
    requires ValidClasses(p.reps) && p.era <= |p.reps| && KnowsNothing(p.known) && Replaces(p, items, items')
    ensures SameTrace(items, items', env, m, answers)
  {
    NothingKnown(p.known, p.reps, p.era, env, m);
    DescribedSame(p, items, items', env, |m.stack| - 1 - p.known.height, m, answers);
  }
}
