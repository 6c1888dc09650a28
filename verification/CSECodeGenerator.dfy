/**
 * Generates items from the current layout of the stack, the target layout, and the writes of a block.
 */
module CSECodeGenerator {
  import opened Results
  import opened Evm
  import opened SemanticInformation
  import opened Classes
  import opened Expressions
  import opened ExpressionClasses
  import opened Knowledge
  import opened Tracking
  import opened Generation
  import opened Production
  import opened Layout
  import opened Dependencies
  import opened Scheduling
  import opened Recomputation
  import opened GeneratorSteps

  class CSECodeGenerator {
    var generatedItems: seq<AssemblyItem>
    var stackHeight: int
    var neededBy: Pairs
    var stack: map<int, Id>
    var classPositions: Positions
    const classes: ExpressionClasses
    var storeOperations: Groups
    var finalClasses: set<Id>
    var targetStack: map<int, Id>
    ghost var targetHeight: int
    ghost var wanted: set<Id>
    ghost const operations: seq<StoreOperation>
    ghost const start: Start
    ghost const last: nat

    /** Sorts the writes by slot. */
    constructor (expressionClasses: ExpressionClasses, ops: seq<StoreOperation>, ghost first: Start, ghost bound: nat)
      requires AllStores(ops) && Ascending(ops)
      ensures classes == expressionClasses && operations == ops && start == first && last == bound
      ensures Grouped(ops, storeOperations)
      ensures generatedItems == [] && neededBy == {} && stack == map[] && classPositions == map[] && finalClasses == {}
      ensures targetStack == map[]
    {
      var groups: Groups := map[];
      for i := 0 to |ops|
        invariant Grouped(ops[..i], groups)
      {
        OneMoreGrouped(ops[..i], ops[i], groups);
        assert ops[..i + 1] == ops[..i] + [ops[i]];
        groups := Added(groups, ops[i]);
      }
      assert ops[..|ops|] == ops;
      generatedItems, stackHeight, neededBy, stack, classPositions := [], 0, {}, map[], map[];
      finalClasses, targetStack, storeOperations := {}, map[], groups;
      classes := expressionClasses;
      operations, start, last := ops, first, bound;
    }

    ghost function Reps(): seq<Expression>
      reads classes
    {
      classes.representatives
    }

    // ----- what has to be computed -----

    ghost predicate Gathering()
      reads this, classes
    {
      && classes.Valid() && Operations(Reps(), operations) && AllStores(operations)
      && Grouped(operations, storeOperations)
      && GoodPairs(Reps(), operations, classPositions.Keys, neededBy, last)
    }

    ghost predicate Gathered(c: Id, before: Pairs)
      requires Operations(Reps(), operations)
      reads this, classes
    {
      && before <= neededBy
      && NewClosed(Reps(), operations, classPositions.Keys, before, neededBy, c)
    }

    /** The classes grow: nothing about the pairs changes. */
    lemma StillGathering(reps: seq<Expression>, before: Pairs, c: Id)
      requires classes.Valid() && reps <= Reps() && Operations(reps, operations) && AllStores(operations)
      requires Grouped(operations, storeOperations)
      requires GoodPairs(reps, operations, classPositions.Keys, neededBy, last)
      requires before <= neededBy && NewClosed(reps, operations, classPositions.Keys, before, neededBy, c)
      ensures Gathering() && Gathered(c, before)
    {
      StillOperations(reps, Reps(), operations);
      StillGood(reps, Reps(), operations, classPositions.Keys, neededBy, last);
      forall p | p in neededBy && p !in before && p.1 != c
        ensures Closed(Reps(), operations, classPositions.Keys, neededBy, p.1)
      {
        StillClosed(reps, Reps(), operations, classPositions.Keys, neededBy, neededBy, p.1);
      }
    }

    /** What one class needs. */
    method Need(a: Id, b: Id, ghost before: Pairs)
      requires Gathering() && Gathered(b, before)
      requires Closed(Reps(), operations, classPositions.Keys, neededBy, a)
      requires Relevant(Reps(), operations, a, last) && Relevant(Reps(), operations, b, last)
      modifies this`neededBy
      ensures neededBy == old(neededBy) + {(a, b)}
      ensures Gathering() && Gathered(b, before)
    {
      OneMorePair(Reps(), operations, classPositions.Keys, neededBy, last, a, b);
      neededBy := neededBy + {(a, b)};
      forall p | p in neededBy && p !in before && p.1 != b
        ensures Closed(Reps(), operations, classPositions.Keys, neededBy, p.1)
      {
        StillClosed(Reps(), Reps(), operations, classPositions.Keys, old(neededBy), neededBy, p.1);
      }
    }

    method AddDependencies(c: Id, ghost n: nat) returns (s: Status)
      requires Gathering() && Relevant(Reps(), operations, c, n) && n <= last
      modifies this`neededBy, classes`representatives, classes`expressions
      ensures classes.Valid() && old(Reps()) <= Reps()
      ensures s.Fine? ==> Gathering() && Gathered(c, old(neededBy))
      ensures s.Fine? ==> Closed(Reps(), operations, classPositions.Keys, neededBy, c)
      decreases n, c, 2
    {
      if c in classPositions {
        return Fine;
      }
      if exists p :: p in neededBy && p.0 == c {
        return Fine;
      }
      RelevantExists(Reps(), operations, c, n);
      if classes.representatives[c].item.UndefinedItem? {
        return Failed(ItemNotAvailable);
      }
      s := AddArguments(c, n);
      if s.Fine? {
        s := AddLoaded(c, n, old(neededBy));
      }
    }

    /** What a load needs besides its argument. */
    method AddLoaded(c: Id, ghost n: nat, ghost before: Pairs) returns (s: Status)
      requires Gathering() && Relevant(Reps(), operations, c, n) && n <= last && c < |Reps()| && Gathered(c, before)
      requires !Reps()[c].item.UndefinedItem?
      requires AllNeeded(Reps()[c].arguments, c, neededBy)
      modifies this`neededBy, classes`representatives, classes`expressions
      ensures classes.Valid() && old(Reps()) <= Reps()
      ensures s.Fine? ==> Gathering() && Gathered(c, before)
      ensures s.Fine? ==> Closed(Reps(), operations, classPositions.Keys, neededBy, c)
      decreases n, c, 1
    {
      var item := classes.representatives[c].item;
      s := Fine;
      ghost var reps, pairs := Reps(), neededBy;
      if item == Operation(SLOAD) {
        s := AddStores(c, ToStorage, n);
      } else if item == Operation(MLOAD) {
        s := AddStores(c, ToMemory, n);
      }
      if s.Fine? {
        ClosedBy(Reps(), operations, classPositions.Keys, neededBy, c);
        NewClosedFrom(reps, Reps(), operations, classPositions.Keys, before, pairs, neededBy, c);
      }
    }

    /** Class a is needed for class b, with everything a itself needs. */
    method AddNeeded(a: Id, b: Id, ghost n: nat, ghost before: Pairs) returns (s: Status)
      requires Gathering() && Gathered(b, before) && n <= last
      requires Relevant(Reps(), operations, a, n) && Relevant(Reps(), operations, b, last)
      modifies this`neededBy, classes`representatives, classes`expressions
      ensures classes.Valid() && old(Reps()) <= Reps()
      ensures s.Fine? ==> Gathering() && Gathered(b, before)
      ensures s.Fine? ==> old(neededBy) <= neededBy && (a, b) in neededBy
      decreases n, a, 3
    {
      ghost var reps := Reps();
      s := AddDependencies(a, n);
      if s.Fine? {
        StillNewClosed(reps, Reps(), operations, classPositions.Keys, before, old(neededBy), neededBy, b, a);
        StillRelevant(reps, Reps(), operations, a, n, last);
        StillRelevant(reps, Reps(), operations, b, last, last);
        Need(a, b, before);
      }
    }

    method AddArgument(c: Id, k: nat, ghost n: nat, ghost before: Pairs) returns (s: Status)
      requires Gathering() && Gathered(c, before) && Relevant(Reps(), operations, c, n) && n <= last
      requires c < |Reps()| && k < |Reps()[c].arguments|
      modifies this`neededBy, classes`representatives, classes`expressions
      ensures classes.Valid() && old(Reps()) <= Reps()
      ensures s.Fine? ==> Gathering() && Gathered(c, before)
      ensures s.Fine? ==> Relevant(Reps(), operations, c, n)
      ensures s.Fine? ==> old(neededBy) <= neededBy && (Reps()[c].arguments[k], c) in neededBy
      decreases n, c, 0
    {
      ghost var reps := Reps();
      StillRelevant(reps, reps, operations, c, n, last);
      ArgumentRelevant(reps, operations, c, n, k);
      s := AddNeeded(classes.representatives[c].arguments[k], c, n, before);
      if s.Fine? {
        StillRelevant(reps, Reps(), operations, c, n, n);
      }
    }

    method AddArguments(c: Id, ghost n: nat) returns (s: Status)
      requires Gathering() && Relevant(Reps(), operations, c, n) && n <= last && c < |Reps()|
      modifies this`neededBy, classes`representatives, classes`expressions
      ensures classes.Valid() && old(Reps()) <= Reps()
      ensures s.Fine? ==> Gathering() && Gathered(c, old(neededBy))
      ensures s.Fine? ==> Relevant(Reps(), operations, c, n)
      ensures s.Fine? ==> AllNeeded(Reps()[c].arguments, c, neededBy)
      decreases n, c, 1
    {
      var arguments := classes.representatives[c].arguments;
      for k := 0 to |arguments|
        invariant Gathering() && old(Reps()) <= Reps() && Gathered(c, old(neededBy))
        invariant Relevant(Reps(), operations, c, n)
        invariant AllNeeded(arguments[..k], c, neededBy)
      {
        ghost var pairs := neededBy;
        s := AddArgument(c, k, n, old(neededBy));
        if s.Failed? {
          return;
        }
        OneMoreNeeded(arguments, c, k, pairs, neededBy);
      }
      assert arguments[..|arguments|] == arguments;
      s := Fine;
    }

    /** The last write of the group before number n. */
    method LatestBefore(group: seq<StoreOperation>, n: nat) returns (op: StoreOperation)
      requires group != [] && AllStores(group) && Ascending(group) && group[0].sequenceNumber < n
      ensures IsLatest(group, n, op)
    {
      op := group[0];
      ghost var at := 0;
      for k := 1 to |group|
        invariant at < k && op == group[at] && op.sequenceNumber < n
        invariant forall j :: 0 <= j < k && group[j].sequenceNumber < n ==> group[j].sequenceNumber <= op.sequenceNumber
      {
        if group[k].sequenceNumber < n {
          op, at := group[k], k;
        }
      }
    }

    method KnownIndependent(t: Target, a: Id, b: Id) returns (r: bool)
      requires classes.Valid() && a < |Reps()| && b < |Reps()|
      modifies classes`representatives, classes`expressions
      ensures classes.Valid() && old(Reps()) <= Reps()
      ensures r ==> AlwaysIndependent(Reps(), t, a, b)
    {
      if t == ToStorage {
        r := classes.KnownToBeDifferent(a, b);
        assert r ==> forall v: Valuation :: ClassValue(Reps(), a, v) != ClassValue(Reps(), b, v);
      } else {
        r := classes.KnownToBeDifferentBy32(a, b);
      }
      if r {
        IndependentBy(Reps(), t, a, b);
      }
    }

    /** A load needs the last write before it to every slot that it could see. */
    method AddStores(c: Id, t: Target, ghost n: nat) returns (s: Status)
      requires Gathering() && Relevant(Reps(), operations, c, n) && n <= last && c < |Reps()| && IsLoadOf(Reps()[c], t)
      modifies this`neededBy, classes`representatives, classes`expressions
      ensures classes.Valid() && old(Reps()) <= Reps()
      ensures s.Fine? ==> Gathering() && Gathered(c, old(neededBy))
      ensures s.Fine? ==> LoadClosed(Reps(), operations, neededBy, t, c)
      decreases n, c, 0
    {
      var expr := classes.representatives[c];
      assert ValidExpression(expr, c);
      RelevantExists(Reps(), operations, c, n);
      LoadIsOdd(Reps(), operations, c, n, t);
      var todo := storeOperations.Keys;
      while todo != {}
        invariant Gathering() && old(Reps()) <= Reps() && Gathered(c, old(neededBy))
        invariant todo <= storeOperations.Keys
        invariant CoveredExcept(Reps(), operations, neededBy, t, expr.arguments[0], expr.sequenceNumber, c, todo)
      {
        var key :| key in todo;
        StillRelevant(old(Reps()), Reps(), operations, c, n, n);
        s := AddStore(c, t, key, old(neededBy), todo - {key}, n);
        if s.Failed? {
          return;
        }
        todo := todo - {key};
      }
      LoadIsClosed(Reps(), operations, neededBy, t, c);
      s := Fine;
    }

    /** The write to one slot that a load needs, if any. */
    method AddStore(
      c: Id, t: Target, key: (Target, Id), ghost before: Pairs, ghost todo: set<(Target, Id)>, ghost n: nat)
      returns (s: Status)
      requires Gathering() && Gathered(c, before) && Relevant(Reps(), operations, c, n) && n <= last
      requires c < |Reps()| && IsLoadOf(Reps()[c], t) && Reps()[c].arguments[0] < c && Reps()[c].sequenceNumber <= n
      requires Reps()[c].sequenceNumber % 2 == 1 && key in storeOperations
      requires CoveredExcept(
        Reps(), operations, neededBy, t, Reps()[c].arguments[0], Reps()[c].sequenceNumber, c, todo + {key})
      modifies this`neededBy, classes`representatives, classes`expressions
      ensures classes.Valid() && old(Reps()) <= Reps()
      ensures s.Fine? ==> Gathering() && Gathered(c, before)
      ensures s.Fine? ==>
        CoveredExcept(Reps(), operations, neededBy, t, Reps()[c].arguments[0], Reps()[c].sequenceNumber, c, todo)
      decreases n, c, 0, 1
    {
      var expr, group := classes.representatives[c], storeOperations[key];
      var slot, number := expr.arguments[0], expr.sequenceNumber;
      if key.0 != t || group[0].sequenceNumber > number {
        OneMoreCovered(Reps(), operations, neededBy, t, slot, number, c, todo, key, group);
        return Fine;
      }
      ghost var reps := Reps();
      GroupSlot(reps, operations, key, group);
      var independent := KnownIndependent(t, key.1, slot);
      StillGathering(reps, before, c);
      StillCoveredExcept(reps, Reps(), operations, neededBy, neededBy, t, slot, number, c, todo + {key});
      if independent {
        OneMoreCovered(Reps(), operations, neededBy, t, slot, number, c, todo, key, group);
        return Fine;
      }
      StillRelevant(reps, Reps(), operations, c, n, n);
      ghost var pairs, reps1 := neededBy, Reps();
      ghost var latest;
      s, latest := AddLatest(c, key, number, before, n);
      if s.Fine? {
        StillCoveredExcept(reps1, Reps(), operations, pairs, neededBy, t, slot, number, c, todo + {key});
        OneMoreCovered(Reps(), operations, neededBy, t, slot, number, c, todo, key, group);
      }
    }

    method AddLatest(c: Id, key: (Target, Id), number: nat, ghost before: Pairs, ghost n: nat)
      returns (s: Status, ghost latest: StoreOperation)
      requires Gathering() && Gathered(c, before) && Relevant(Reps(), operations, c, n) && number <= n <= last
      requires key in storeOperations && storeOperations[key][0].sequenceNumber <= number && number % 2 == 1
      modifies this`neededBy, classes`representatives, classes`expressions
      ensures classes.Valid() && old(Reps()) <= Reps()
      ensures s.Fine? ==> Gathering() && Gathered(c, before) && old(neededBy) <= neededBy
      ensures s.Fine? ==> IsLatest(storeOperations[key], number, latest) && (latest.expression, c) in neededBy
      decreases n, c, 0, 0
    {
      var group := storeOperations[key];
      FirstOfGroup(Reps(), operations, storeOperations, key);
      var op := LatestBefore(group, number);
      OperationRelevant(Reps(), operations, op);
      StillRelevant(Reps(), Reps(), operations, c, n, last);
      s := AddNeeded(op.expression, c, op.sequenceNumber, before);
      latest := op;
    }

    // ----- the items generated so far -----

    /** Whatever has been computed so far was needed for the wanted classes. */
    ghost predicate Accounting()
      reads this, classes
    {
      Accounted(Reps(), ClassesIn(start.stack), wanted, classPositions.Keys)
    }

    /** Class c is there, or it has to be computed. */
    ghost predicate Due(c: Id)
      reads this, classes
    {
      c in classPositions || Needed(Reps(), ClassesIn(start.stack), wanted, c)
    }

    /** What has been computed since the start. */
    ghost function Computed(): set<Id>
      reads this
    {
      ComputedIn(start, Current())
    }

    ghost function Current(): State
      reads this
    {
      State(generatedItems, stack, stackHeight, classPositions)
    }

    /** The target layout is contiguous, like the stack, and its classes are the final ones. */
    ghost predicate TargetKnown()
      reads this
    {
      && Contiguous(targetStack, start.base, targetHeight)
      && forall h :: h in targetStack ==> targetStack[h] in finalClasses
    }

    /** Symbolic stack, positions and items agree, and the target is in place up to height t. */
    ghost predicate Generating(t: int)
      reads this, classes
    {
      && Agreed(Reps(), operations, start, Current())
      && TargetKnown() && start.base - 1 <= t <= targetHeight && InPlace(stack, stackHeight, targetStack, t)
    }

    /** The topmost position of a class. */
    method ClassElementPosition(c: Id) returns (r: Result<int>)
      ensures r.Ok? <==> c in classPositions && classPositions[c] != {}
      ensures r.Ok? ==> r.value in classPositions[c]
      ensures r.Ok? ==> forall p :: p in classPositions[c] ==> p <= r.value
    {
      if c !in classPositions || classPositions[c] == {} {
        return Err(OptimizerFailure);
      }
      var p := Topmost(classPositions[c]);
      return Ok(p);
    }

    /** Can the copy at the given position go, in general or while the class result is computed? */
    predicate CanBeRemoved(element: Id, result: Option<Id>, from: int)
      requires element in classPositions
      reads this
    {
      var haveCopy := |classPositions[element]| > 1;
      if element in finalClasses then haveCopy && (from !in targetStack || targetStack[from] != element)
      else haveCopy || forall p :: p in neededBy && p.0 == element ==> Some(p.1) == result || p.1 in classPositions
    }

    /** What is already at its place in the target is never removed. */
    lemma RemovableIsAbove(element: Id, result: Option<Id>, from: int, t: int)
      requires Generating(t) && element in classPositions
      requires from in stack && stack[from] == element && CanBeRemoved(element, result, from)
      ensures t < from
    {
    }

    method PushCopy(p: int)
      requires p in stack && 1 <= 1 + stackHeight - p <= 16
      modifies this`generatedItems, this`stackHeight, this`stack, this`classPositions
      ensures Current() == Dupped(old(Current()), p)
    {
      var c := stack[p];
      generatedItems := generatedItems + [Operation(DUP(1 + stackHeight - p))];
      stackHeight := stackHeight + 1;
      stack := stack[stackHeight := c];
      classPositions := With(classPositions, c, stackHeight);
    }

    method AppendDup(p: int, ghost t: int) returns (s: Status)
      requires Generating(t) && p in stack
      modifies this`generatedItems, this`stackHeight, this`stack, this`classPositions
      ensures s.Fine? ==> Generating(t) && classPositions.Keys == old(classPositions.Keys)
      ensures s.Fine? ==> stackHeight == old(stackHeight) + 1 && stack == old(stack)[stackHeight := old(stack)[p]]
    {
      var n := 1 + stackHeight - p;
      s := if n > 16 then Failed(StackTooDeep) else Fine;
      if s.Fine? {
        DuppedAgrees(Reps(), operations, start, Current(), p);
        PushCopy(p);
      }
    }

    /** Appends a SWAP; an identical one just before is undone instead. */
    method AppendSwap(n: nat)
      requires 1 <= n <= 16
      modifies this`generatedItems
      ensures generatedItems == AfterSwap(old(generatedItems), n)
    {
      generatedItems := generatedItems + [Operation(SWAP(n))];
      var count := |generatedItems|;
      if count >= 2 && IsSwapInstruction(generatedItems[count - 1])
        && generatedItems[count - 2] == generatedItems[count - 1]
      {
        generatedItems := generatedItems[..count - 2];
      }
    }

    method ExchangeTop(p: int)
      requires stackHeight in stack && p in stack && p < stackHeight <= p + 16
      requires stack[stackHeight] in classPositions && stack[p] in classPositions
      requires stack[stackHeight] == stack[p] ==> Exchange(stack, stackHeight, p) == stack
      modifies this`generatedItems, this`stack, this`classPositions
      ensures Current() == Exchanging(old(Current()), p)
      ensures stack == Exchange(old(stack), stackHeight, p)
      ensures generatedItems == AfterSwap(old(generatedItems), stackHeight - p)
    {
      AppendSwap(stackHeight - p);
      if stack[stackHeight] != stack[p] {
        classPositions := Moved(classPositions, stack[stackHeight], stackHeight, stack[p], p);
        stack := Exchange(stack, stackHeight, p);
      }
    }

    /** Exchanges the top with a position above the part of the target that is in place. */
    method ExchangeAbove(p: int, ghost t: int)
      requires Generating(t) && start.base <= p < stackHeight <= p + 16 && t < p
      modifies this`generatedItems, this`stack, this`classPositions
      ensures Generating(t) && classPositions.Keys == old(classPositions.Keys)
      ensures IsExchanged(old(Current()), p, Current())
    {
      TopExchanged(Reps(), operations, start, Current(), targetStack, t, p);
      ExchangeTop(p);
    }

    /** Exchanges the top with position p. */
    method AppendOrRemoveSwap(p: int, ghost t: int) returns (s: Status)
      requires Generating(t) && start.base <= p && (p == stackHeight || t < p)
      modifies this`generatedItems, this`stack, this`classPositions
      ensures s.Fine? ==> Generating(t) && classPositions.Keys == old(classPositions.Keys)
      ensures s.Fine? ==>
        if p == stackHeight then Current() == old(Current()) else IsExchanged(old(Current()), p, Current())
    {
      var n := stackHeight - p;
      s := if n > 16 then Failed(StackTooDeep) else if n < 0 then Failed(OptimizerFailure) else Fine;
      if s.Fine? && n > 0 {
        ExchangeAbove(p, t);
      }
    }

    method RemoveStackTopIfPossible(ghost t: int) returns (r: Result<bool>)
      requires Generating(t)
      modifies this`generatedItems, this`stackHeight, this`stack, this`classPositions
      ensures r.Ok? ==> Generating(t) && classPositions.Keys == old(classPositions.Keys)
      ensures r.Ok? ==> stackHeight == if r.value then old(stackHeight) - 1 else old(stackHeight)
    {
      if stack == map[] {
        return Ok(false);
      }
      if stackHeight !in stack {
        return Err(OptimizerFailure);
      }
      var top := stack[stackHeight];
      if !CanBeRemoved(top, None, stackHeight) {
        return Ok(false);
      }
      RemovableIsAbove(top, None, stackHeight, t);
      PoppingAgrees(Reps(), operations, start, Current());
      classPositions := Without(classPositions, top, stackHeight);
      stack := stack - {stackHeight};
      generatedItems := generatedItems + [Operation(POP)];
      stackHeight := stackHeight - 1;
      return Ok(true);
    }

    // ----- moving arguments to the top -----

    /** Can the topmost copy of the argument be used up to compute the result? */
    method IsRemovable(argument: Id, result: Id, ghost t: int) returns (r: Result<bool>)
      requires Generating(t)
      ensures r == Ok(true) ==> Above(stack, argument, t)
    {
      var position := ClassElementPosition(argument);
      if position.Err? {
        return Err(position.error);
      }
      assert PositionsOf(stack, argument, classPositions[argument]);
      var removable := CanBeRemoved(argument, Some(result), position.value);
      if removable {
        RemovableIsAbove(argument, Some(result), position.value, t);
      }
      return Ok(removable);
    }

    method MoveToTop(c: Id, ghost t: int) returns (s: Status)
      requires Generating(t) && Above(stack, c, t)
      modifies this`generatedItems, this`stack, this`classPositions
      ensures s.Fine? ==> Generating(t) && classPositions.Keys == old(classPositions.Keys)
      ensures s.Fine? ==> t < stackHeight && stackHeight in stack && stack[stackHeight] == c
    {
      assert c in classPositions && PositionsOf(stack, c, classPositions[c]);
      var position := ClassElementPosition(c);
      s := AppendOrRemoveSwap(position.value, t);
    }

    method CopyToTop(c: Id, ghost t: int) returns (s: Status)
      requires Generating(t)
      modifies this`generatedItems, this`stackHeight, this`stack, this`classPositions
      ensures s.Fine? ==> Generating(t) && classPositions.Keys == old(classPositions.Keys)
      ensures s.Fine? ==> stackHeight == old(stackHeight) + 1
    {
      var position := ClassElementPosition(c);
      if position.Err? {
        return Failed(position.error);
      }
      assert PositionsOf(stack, c, classPositions[c]);
      s := AppendDup(position.value, t);
    }

    method SwapTopTwo(ghost t: int) returns (s: Status)
      requires Generating(t) && t < stackHeight - 1
      modifies this`generatedItems, this`stack, this`classPositions
      ensures s.Fine? ==> Generating(t) && classPositions.Keys == old(classPositions.Keys)
      ensures s.Fine? ==> forall c :: Above(old(stack), c, t) ==> Above(stack, c, t)
    {
      ghost var before := Current();
      s := AppendOrRemoveSwap(stackHeight - 1, t);
      if s.Fine? {
        AboveExchanged(before, t, Current());
      }
    }

    method PlaceOne(a: Id, c: Id, ghost t: int) returns (s: Status)
      requires Generating(t)
      modifies this`generatedItems, this`stackHeight, this`stack, this`classPositions
      ensures s.Fine? ==> Generating(t) && classPositions.Keys == old(classPositions.Keys) && t <= stackHeight - 1
    {
      var removable := IsRemovable(a, c, t);
      if removable.Err? {
        return Failed(removable.error);
      }
      if removable.value {
        s := MoveToTop(a, t);
      } else {
        s := CopyToTop(a, t);
      }
    }

    /** The second argument can be used up; it goes to the top first. */
    method PlaceTwoSecondMoved(a: Id, b: Id, c: Id, ghost t: int) returns (s: Status)
      requires Generating(t) && Above(stack, b, t)
      modifies this`generatedItems, this`stackHeight, this`stack, this`classPositions
      ensures s.Fine? ==> Generating(t) && classPositions.Keys == old(classPositions.Keys) && t <= stackHeight - 2
    {
      s := MoveToTop(b, t);
      if s.Failed? {
        return;
      }
      if a == b {
        s := AppendDup(stackHeight, t);
        return;
      }
      var removable := IsRemovable(a, c, t);
      if removable.Err? {
        return Failed(removable.error);
      }
      if removable.value {
        s := SwapTopTwo(t);
        if s.Fine? {
          s := MoveToTop(a, t);
        }
      } else {
        s := CopyToTop(a, t);
      }
    }

    method PlaceTwoSecondCopied(a: Id, b: Id, c: Id, ghost t: int) returns (s: Status)
      requires Generating(t)
      modifies this`generatedItems, this`stackHeight, this`stack, this`classPositions
      ensures s.Fine? ==> Generating(t) && classPositions.Keys == old(classPositions.Keys) && t <= stackHeight - 2
    {
      if a == b {
        s := CopyToTop(a, t);
        if s.Fine? {
          s := AppendDup(stackHeight, t);
        }
        return;
      }
      var removable := IsRemovable(a, c, t);
      if removable.Err? {
        return Failed(removable.error);
      }
      if removable.value {
        s := MoveToTop(a, t);
        if s.Failed? {
          return;
        }
        s := CopyToTop(b, t);
        if s.Fine? {
          s := SwapTopTwo(t);
        }
      } else {
        s := CopyToTop(b, t);
        if s.Fine? {
          s := CopyToTop(a, t);
        }
      }
    }

    /** Up to two arguments, each case by hand, as either can be used up or not, or both be the same. */
    method PlaceArguments(args: seq<Id>, c: Id, ghost t: int) returns (s: Status)
      requires Generating(t)
      modifies this`generatedItems, this`stackHeight, this`stack, this`classPositions
      ensures s.Fine? ==> Generating(t) && classPositions.Keys == old(classPositions.Keys) && t <= stackHeight - |args|
      ensures s.Fine? ==> OnTop(stack, stackHeight, args) && |args| <= 2
    {
      s := Fine;
      if |args| == 1 {
        s := PlaceOne(args[0], c, t);
      } else if |args| == 2 {
        var removable := IsRemovable(args[1], c, t);
        if removable.Err? {
          return Failed(removable.error);
        }
        if removable.value {
          s := PlaceTwoSecondMoved(args[0], args[1], c, t);
        } else {
          s := PlaceTwoSecondCopied(args[0], args[1], c, t);
        }
      } else if |args| > 2 {
        return Failed(OptimizerFailure);
      }
      if s.Failed? {
        return;
      }
      for i := 0 to |args|
        invariant forall j :: 0 <= j < i ==> (stackHeight - j) in stack && stack[stackHeight - j] == args[j]
      {
        if (stackHeight - i) !in stack || stack[stackHeight - i] != args[i] {
          return Failed(OptimizerFailure);
        }
      }
    }

    // ----- computing a class -----

    method DropSwap(ghost a: Id, ghost b: Id, ghost t: int) returns (s: Status)
      requires Generating(t) && TwoOnTop(Current(), a, b) && LastIsSwap(generatedItems) && t < stackHeight - 1
      modifies this`generatedItems, this`stack, this`classPositions
      ensures s.Fine? ==> Generating(t) && classPositions.Keys == old(classPositions.Keys)
      ensures s.Fine? ==> SwapDropped(old(Current()), a, b, Current())
    {
      var p := stackHeight - 1;
      TopTwoExchanged(Current(), p, a, b);
      s := AppendOrRemoveSwap(p, t);
    }

    /** A SWAP1 just before a commutative operation is not needed. */
    method DropSwaps(c: Id, ghost t: int) returns (s: Status, ghost args: seq<Id>)
      requires Generating(t) && c < |Reps()|
      requires OnTop(stack, stackHeight, Reps()[c].arguments) && t <= stackHeight - |Reps()[c].arguments|
      modifies this`generatedItems, this`stack, this`classPositions
      ensures s.Fine? ==> Generating(t) && classPositions.Keys == old(classPositions.Keys)
      ensures s.Fine? ==> OnTop(stack, stackHeight, args) && ArgumentsInPlace(Reps()[c], args)
    {
      var expr := classes.representatives[c];
      args := expr.arguments;
      s := Fine;
      while s.Fine? && IsCommutativeOperation(expr.item) && LastIsSwap(generatedItems)
        invariant s.Fine? ==> Generating(t) && classPositions.Keys == old(classPositions.Keys)
        invariant s.Fine? ==> OnTop(stack, stackHeight, args) && ArgumentsInPlace(expr, args)
        decreases s.Fine?, |generatedItems|
      {
        CommutativeHasTwo(Reps(), c);
        ArgumentsSwapped(expr, args);
        OnTopIsTwo(Current(), args);
        s := DropSwap(args[0], args[1], t);
        args := Swapped(args);
        OnTopIsTwo(Current(), args);
      }
    }

    /** Takes the n topmost elements off the symbolic stack. */
    method Consume(n: nat)
      requires TopKnown(Current(), n) && forall h :: h in stack ==> h <= stackHeight
      modifies this`stack, this`classPositions
      ensures stack == ClearedTo(old(Current()), n).stack
      ensures classPositions == ClearedTo(old(Current()), n).positions
    {
      for i := 0 to n
        invariant stack == Below(old(stack), stackHeight - i)
        invariant classPositions == Cleared(old(classPositions), old(stack), stackHeight, i)
      {
        classPositions := Without(classPositions, stack[stackHeight - i], stackHeight - i);
        stack := stack - {stackHeight - i};
      }
    }

    method AppendValue(item: AssemblyItem, n: nat, c: Id)
      requires TopKnown(Current(), n) && forall h :: h in stack ==> h <= stackHeight
      requires Deposit(item) == 1 - n
      modifies this`generatedItems, this`stackHeight, this`stack, this`classPositions
      ensures Current() == EmittedValue(old(Current()), item, n, c)
    {
      ghost var before := Current();
      Consume(n);
      generatedItems := generatedItems + [item];
      stackHeight := stackHeight + Deposit(item);
      assert stackHeight == ClearedTo(before, n).height + 1;
      stack := stack[stackHeight := c];
      classPositions := With(classPositions, c, stackHeight);
    }

    method AppendWrite(item: AssemblyItem, n: nat, c: Id)
      requires TopKnown(Current(), n) && forall h :: h in stack ==> h <= stackHeight
      requires Deposit(item) == 0 - n
      modifies this`generatedItems, this`stackHeight, this`stack, this`classPositions
      ensures Current() == EmittedWrite(old(Current()), item, n, c)
    {
      Consume(n);
      generatedItems := generatedItems + [item];
      stackHeight := stackHeight + Deposit(item);
      classPositions := Touched(classPositions, c);
    }

    method EmitValue(c: Id, ghost args: seq<Id>, ghost t: int)
      requires Generating(t) && Settled(Reps(), c, last) && !Reps()[c].item.UndefinedItem?
      requires AccessReady(Reps(), operations, start.number, DoneIn(operations, classPositions.Keys), c)
      requires ArgumentsInPlace(Reps()[c], args) && OnTop(stack, stackHeight, args) && t <= stackHeight - |args|
      requires c !in ClassesIn(start.stack)
      modifies this`generatedItems, this`stackHeight, this`stack, this`classPositions
      ensures Generating(t) && classPositions.Keys == old(classPositions.Keys) + {c}
    {
      var expr := classes.representatives[c];
      ghost var before := Current();
      DepositOf(Reps(), c, last);
      TopIsKnown(before, start.base, |args|);
      AppendValue(expr.item, |expr.arguments|, c);
      EmittedInPlace(before, expr.item, |args|, c, targetStack, t);
      EmittedValueAgrees(Reps(), operations, start, before, c, args, last);
    }

    method EmitWrite(c: Id, ghost args: seq<Id>, ghost t: int, ghost j: nat)
      requires Generating(t) && j < |operations| && operations[j].expression == c < |Reps()|
      requires AccessReady(Reps(), operations, start.number, DoneIn(operations, classPositions.Keys), c)
      requires ArgumentsInPlace(Reps()[c], args) && OnTop(stack, stackHeight, args) && t <= stackHeight - |args|
      requires c !in ClassesIn(start.stack)
      modifies this`generatedItems, this`stackHeight, this`stack, this`classPositions
      ensures Generating(t) && classPositions.Keys == old(classPositions.Keys) + {c}
    {
      var expr := classes.representatives[c];
      ghost var before := Current();
      DepositOfWrite(Reps(), operations, j);
      TopIsKnown(before, start.base, |args|);
      AppendWrite(expr.item, |expr.arguments|, c);
      EmittedInPlace(before, expr.item, |args|, c, targetStack, t);
      EmittedWriteAgrees(Reps(), operations, start, before, j, args);
    }

    /** Appends the item of a class whose arguments are in place. */
    method Emit(c: Id, ghost args: seq<Id>, ghost t: int) returns (s: Status)
      requires Generating(t) && c < |Reps()| && Relevant(Reps(), operations, c, last)
      requires !Reps()[c].item.UndefinedItem?
      requires AccessReady(Reps(), operations, start.number, DoneIn(operations, classPositions.Keys), c)
      requires ArgumentsInPlace(Reps()[c], args) && OnTop(stack, stackHeight, args) && t <= stackHeight - |args|
      requires c !in ClassesIn(start.stack)
      modifies this`generatedItems, this`stackHeight, this`stack, this`classPositions
      ensures s.Fine? ==> Generating(t) && classPositions.Keys == old(classPositions.Keys) + {c}
    {
      var item := classes.representatives[c].item;
      ghost var j := ValueOrWrite(Reps(), operations, c, last);
      if !item.Operation? || Info(item.instruction).ret == 1 {
        EmitValue(c, args, t);
      } else if Info(item.instruction).ret == 0 {
        EmitWrite(c, args, t, j);
      } else {
        return Failed(OptimizerFailure);
      }
      return Fine;
    }

    method GenerateClassElement(c: Id, allowSequenced: bool, ghost t: int) returns (s: Status)
      requires Generating(t) && c < |Reps()| && Relevant(Reps(), operations, c, last)
      requires allowSequenced ==>
        AccessReady(Reps(), operations, start.number, DoneIn(operations, classPositions.Keys), c)
      requires Accounting() && Due(c)
      modifies this`generatedItems, this`stackHeight, this`stack, this`classPositions
      ensures s.Fine? ==> Generating(t) && old(classPositions.Keys) <= classPositions.Keys && c in classPositions
      ensures s.Fine? ==> Accounting()
      ensures s.Fine? ==> forall d :: d in classPositions.Keys ==>
        d in old(classPositions.Keys) || (allowSequenced && d == c) || (d < |Reps()| && Reps()[d].sequenceNumber == 0)
      decreases c
    {
      var removed := RemoveStackTopIfPossible(t);
      if removed.Err? {
        return Failed(removed.error);
      }
      if c in classPositions {
        return if classPositions[c] == {} then Failed(OptimizerFailure) else Fine;
      }
      var expr := classes.representatives[c];
      if !allowSequenced && expr.sequenceNumber != 0 {
        return Failed(OptimizerFailure);
      }
      if expr.item.UndefinedItem? {
        return Failed(OptimizerFailure);
      }
      if !allowSequenced {
        UnsequencedIsReady(Reps(), operations, start.number, DoneIn(operations, classPositions.Keys), c, last);
      }
      s := GenerateArguments(c, t);
      if s.Failed? {
        return;
      }
      SameDone(Reps(), operations, old(classPositions.Keys), classPositions.Keys);
      s := PlaceArguments(expr.arguments, c, t);
      if s.Failed? {
        return;
      }
      ghost var there := classPositions.Keys;
      ghost var args;
      s, args := DropSwaps(c, t);
      if s.Fine? {
        OneMoreAccounted(Reps(), ClassesIn(start.stack), wanted, there, c);
        s := Emit(c, args, t);
      }
    }

    method GenerateArgument(c: Id, k: nat, ghost t: int) returns (s: Status)
      requires Generating(t) && c < |Reps()| && k < |Reps()[c].arguments| && Relevant(Reps(), operations, c, last)
      requires Accounting() && Needed(Reps(), ClassesIn(start.stack), wanted, c)
      modifies this`generatedItems, this`stackHeight, this`stack, this`classPositions
      ensures s.Fine? ==> Generating(t) && old(classPositions.Keys) <= classPositions.Keys
      ensures s.Fine? ==> Accounting() && Reps()[c].arguments[k] in classPositions
      ensures s.Fine? ==> forall d :: d in classPositions.Keys ==>
        d in old(classPositions.Keys) || (d < |Reps()| && Reps()[d].sequenceNumber == 0)
      decreases c, 0
    {
      ArgumentRelevant(Reps(), operations, c, last, k);
      ArgumentNeeded(Reps(), ClassesIn(start.stack), wanted, c, Reps()[c].arguments[k]);
      s := GenerateClassElement(classes.representatives[c].arguments[k], false, t);
    }

    /** The arguments of a class, the last one first. */
    method GenerateArguments(c: Id, ghost t: int) returns (s: Status)
      requires Generating(t) && c < |Reps()| && Relevant(Reps(), operations, c, last)
      requires Accounting() && Needed(Reps(), ClassesIn(start.stack), wanted, c)
      modifies this`generatedItems, this`stackHeight, this`stack, this`classPositions
      ensures s.Fine? ==> Generating(t) && old(classPositions.Keys) <= classPositions.Keys
      ensures s.Fine? ==> Accounting() && AllIn(Reps()[c].arguments, classPositions.Keys)
      ensures s.Fine? ==> forall d :: d in classPositions.Keys ==>
        d in old(classPositions.Keys) || (d < |Reps()| && Reps()[d].sequenceNumber == 0)
      decreases c, 1
    {
      var arguments := classes.representatives[c].arguments;
      var k := |arguments|;
      while k > 0
        invariant 0 <= k <= |arguments|
        invariant Generating(t) && old(classPositions.Keys) <= classPositions.Keys && Accounting()
        invariant AllIn(arguments[k..], classPositions.Keys)
        invariant forall d :: d in classPositions.Keys ==>
          d in old(classPositions.Keys) || (d < |Reps()| && Reps()[d].sequenceNumber == 0)
      {
        k := k - 1;
        ghost var there := classPositions.Keys;
        s := GenerateArgument(c, k, t);
        if s.Failed? {
          return;
        }
        OneMoreIn(arguments, k, there, classPositions.Keys);
      }
      assert arguments[0..] == arguments;
      s := Fine;
    }

    // ----- loads and writes in order -----

    ghost predicate GatheredAll()
      reads this, classes
    {
      Gathering() && AllClosed(Reps(), operations, classPositions.Keys, neededBy)
    }

    /** A class that has to be there in the end. */
    method AddRoot(c: Id, ghost n: nat) returns (s: Status)
      requires GatheredAll() && Relevant(Reps(), operations, c, n) && n <= last
      modifies this`neededBy, classes`representatives, classes`expressions
      ensures classes.Valid() && old(Reps()) <= Reps()
      ensures s.Fine? ==> GatheredAll() && old(neededBy) <= neededBy
      ensures s.Fine? ==> Closed(Reps(), operations, classPositions.Keys, neededBy, c)
    {
      ghost var reps, pairs := Reps(), neededBy;
      s := AddDependencies(c, n);
      if s.Fine? {
        StillAllClosed(reps, Reps(), operations, classPositions.Keys, pairs, neededBy, last, c);
      }
    }

    /** The last write to every slot has to be carried out. */
    method AddLastWrite(key: (Target, Id), ghost keys: set<(Target, Id)>) returns (s: Status)
      requires GatheredAll() && forall o :: o in operations ==> o.sequenceNumber <= last
      requires key in storeOperations && keys <= storeOperations.Keys
      requires LastsClosed(Reps(), operations, classPositions.Keys, neededBy, storeOperations, keys)
      modifies this`neededBy, classes`representatives, classes`expressions
      ensures classes.Valid() && old(Reps()) <= Reps()
      ensures s.Fine? ==> GatheredAll()
      ensures s.Fine? ==>
        LastsClosed(Reps(), operations, classPositions.Keys, neededBy, storeOperations, keys + {key})
    {
      var group := storeOperations[key];
      FirstOfGroup(Reps(), operations, storeOperations, key);
      var op := group[|group| - 1];
      assert op in group;
      OperationRelevant(Reps(), operations, op);
      ghost var reps, pairs := Reps(), neededBy;
      s := AddRoot(op.expression, op.sequenceNumber);
      if s.Fine? {
        StillLastsClosed(reps, Reps(), operations, classPositions.Keys, pairs, neededBy, storeOperations, keys);
      }
    }

    method AddLastWrites() returns (s: Status)
      requires GatheredAll() && forall o :: o in operations ==> o.sequenceNumber <= last
      modifies this`neededBy, classes`representatives, classes`expressions
      ensures classes.Valid() && old(Reps()) <= Reps()
      ensures s.Fine? ==> GatheredAll()
      ensures s.Fine? ==>
        LastsClosed(Reps(), operations, classPositions.Keys, neededBy, storeOperations, storeOperations.Keys)
    {
      var todo := storeOperations.Keys;
      while todo != {}
        invariant GatheredAll() && old(Reps()) <= Reps() && todo <= storeOperations.Keys
        invariant LastsClosed(
          Reps(), operations, classPositions.Keys, neededBy, storeOperations, storeOperations.Keys - todo)
      {
        var key :| key in todo;
        s := AddLastWrite(key, storeOperations.Keys - todo);
        if s.Failed? {
          return;
        }
        assert storeOperations.Keys - (todo - {key}) == storeOperations.Keys - todo + {key};
        todo := todo - {key};
      }
      s := Fine;
    }

    method AddTargets() returns (s: Status)
      requires GatheredAll() && forall h :: h in targetStack ==> Settled(Reps(), targetStack[h], last)
      modifies this`neededBy, this`finalClasses, classes`representatives, classes`expressions
      ensures classes.Valid() && old(Reps()) <= Reps()
      ensures s.Fine? ==> GatheredAll() && old(neededBy) <= neededBy
      ensures s.Fine? ==> forall h :: h in targetStack ==> targetStack[h] in finalClasses
    {
      var todo := targetStack.Keys;
      while todo != {}
        invariant GatheredAll() && old(Reps()) <= Reps() && old(neededBy) <= neededBy && todo <= targetStack.Keys
        invariant forall h :: h in targetStack && h !in todo ==> targetStack[h] in finalClasses
      {
        var h := Lowest(todo);
        SettledStill(old(Reps()), Reps(), targetStack[h], last, last);
        finalClasses := finalClasses + {targetStack[h]};
        s := AddRoot(targetStack[h], last);
        if s.Failed? {
          return;
        }
        todo := todo - {h};
      }
      s := Fine;
    }

    method SequencedClass(d: Id, number: nat, s: Sequenced) returns (r: Result<Sequenced>)
      requires GatheredAll() && SequencedFrom(Reps(), operations, classPositions.Keys, neededBy, last, number, s)
      requires Relevant(Reps(), operations, d, last) && Closed(Reps(), operations, classPositions.Keys, neededBy, d)
      ensures r.Ok? ==> s <= r.value && forall q :: q in r.value && q !in s ==> q.0 > 0 && q.1 == d
      ensures r.Ok? ==> SequencedFrom(Reps(), operations, classPositions.Keys, neededBy, last, number, r.value)
      ensures r.Ok? ==> d < |Reps()| && (Reps()[d].sequenceNumber > 0 ==> (Reps()[d].sequenceNumber, d) in r.value)
    {
      RelevantExists(Reps(), operations, d, last);
      var sequence := classes.representatives[d].sequenceNumber;
      if sequence == 0 {
        return Ok(s);
      }
      if sequence < number {
        return Err(StackTooDeep);
      }
      return Ok(s + {(sequence, d)});
    }

    /** All needed classes with a sequence number; numbers before the block's first one are an error. */
    method SequencedExpressions(number: nat) returns (r: Result<Sequenced>)
      requires GatheredAll()
      ensures r.Ok? ==> SequencedFrom(Reps(), operations, classPositions.Keys, neededBy, last, number, r.value)
      ensures r.Ok? ==> Listed(Reps(), neededBy, {}, r.value) && InPairs(neededBy, r.value)
    {
      var todo, s: Sequenced := neededBy, {};
      while todo != {}
        invariant todo <= neededBy
        invariant SequencedFrom(Reps(), operations, classPositions.Keys, neededBy, last, number, s)
        invariant Listed(Reps(), neededBy, todo, s) && InPairs(neededBy, s)
      {
        var p :| p in todo;
        var first := SequencedClass(p.0, number, s);
        if first.Err? {
          return first;
        }
        var second := SequencedClass(p.1, number, first.value);
        if second.Err? {
          return second;
        }
        OneMoreListed(Reps(), neededBy, todo, s, p, second.value);
        todo, s := todo - {p}, second.value;
      }
      return Ok(s);
    }

    /** Computes the sequenced classes in order, so that every load finds the store as it was. */
    method PerformSequenced(s: Sequenced, ghost available: set<Id>) returns (r: Status)
      requires Generating(start.base - 1) && classPositions.Keys == available
      requires GoodPairs(Reps(), operations, available, neededBy, last)
      requires SequencedFrom(Reps(), operations, available, neededBy, last, start.number, s)
      requires Listed(Reps(), neededBy, {}, s) && InOrder(operations, available, s, s)
      requires Accounting() && available == ClassesIn(start.stack) && forall q :: q in s ==> q.1 in wanted
      modifies this`generatedItems, this`stackHeight, this`stack, this`classPositions
      ensures r.Fine? ==> Generating(start.base - 1) && InOrder(operations, classPositions.Keys, s, {})
      ensures r.Fine? ==> Accounting()
    {
      var todo := s;
      while todo != {}
        invariant Generating(start.base - 1) && available <= classPositions.Keys && Accounting()
        invariant InOrder(operations, classPositions.Keys, s, todo)
      {
        var q := First(todo);
        ghost var computed := classPositions.Keys;
        if q.1 !in classPositions {
          FirstReady(Reps(), operations, start.number, available, neededBy, last, computed, s, todo, q);
          r := GenerateClassElement(q.1, true, start.base - 1);
          if r.Failed? {
            return;
          }
        }
        NextInOrder(Reps(), operations, computed, classPositions.Keys, s, todo, q);
        todo := todo - {q};
      }
      r := Fine;
    }

    // ----- the target layout -----

    /** Puts one element of the target in place, those below being there already. */
    method GenerateTarget(h: int, ghost t: int) returns (s: Status)
      requires Generating(t) && h in targetStack && h == t + 1
      requires Relevant(Reps(), operations, targetStack[h], last)
      requires Accounting() && targetStack[h] in wanted
      modifies this`generatedItems, this`stackHeight, this`stack, this`classPositions
      ensures s.Fine? ==> Generating(h) && old(classPositions.Keys) <= classPositions.Keys && Accounting()
      ensures s.Fine? ==> forall d :: d in classPositions.Keys ==>
        d in old(classPositions.Keys) || (d < |Reps()| && Reps()[d].sequenceNumber == 0)
    {
      var c := targetStack[h];
      if h in stack && stack[h] == c {
        InPlaceUpTo(stack, stackHeight, targetStack, t, h);
        return Fine;
      }
      RelevantExists(Reps(), operations, c, last);
      s := GenerateClassElement(c, false, t);
      if s.Failed? {
        return;
      }
      if classPositions[c] == {} {
        return Failed(OptimizerFailure);
      }
      assert PositionsOf(stack, c, classPositions[c]);
      if h in classPositions[c] {
        InPlaceUpTo(stack, stackHeight, targetStack, t, h);
        return Fine;
      }
      s := MoveIntoPlace(c, h, t);
    }

    method MoveIntoPlace(c: Id, h: int, ghost t: int) returns (s: Status)
      requires Generating(t) && h in targetStack && h == t + 1 && targetStack[h] == c
      requires c in classPositions && classPositions[c] != {} && h !in classPositions[c]
      modifies this`generatedItems, this`stackHeight, this`stack, this`classPositions
      ensures s.Fine? ==> Generating(h) && old(classPositions.Keys) == classPositions.Keys
    {
      s := CopyOrMove(c, h, t);
      if s.Fine? {
        s := AppendOrRemoveSwap(h, t);
        if s.Fine? {
          InPlaceUpTo(stack, stackHeight, targetStack, t, h);
        }
      }
    }

    /** The class is brought to the top: by a copy if it is below, and otherwise by an exchange. */
    method CopyOrMove(c: Id, h: int, ghost t: int) returns (s: Status)
      requires Generating(t) && h == t + 1
      requires c in classPositions && classPositions[c] != {} && h !in classPositions[c]
      modifies this`generatedItems, this`stackHeight, this`stack, this`classPositions
      ensures s.Fine? ==> Generating(t) && old(classPositions.Keys) == classPositions.Keys
      ensures s.Fine? ==> h <= stackHeight && stackHeight in stack && stack[stackHeight] == c
    {
      var position := ClassElementPosition(c);
      assert PositionsOf(stack, c, classPositions[c]);
      if position.value < h {
        s := AppendDup(position.value, t);
      } else {
        s := AppendOrRemoveSwap(position.value, t);
      }
    }

    /** The target elements from the lowest one up. */
    method GenerateTargets() returns (s: Status)
      requires Generating(start.base - 1)
      requires forall h :: h in targetStack ==> Relevant(Reps(), operations, targetStack[h], last)
      requires Accounting() && ClassesIn(targetStack) <= wanted
      modifies this`generatedItems, this`stackHeight, this`stack, this`classPositions
      ensures s.Fine? ==> Generating(targetHeight) && old(classPositions.Keys) <= classPositions.Keys
      ensures s.Fine? ==> Accounting()
      ensures s.Fine? ==> forall d :: d in classPositions.Keys ==>
        d in old(classPositions.Keys) || (d < |Reps()| && Reps()[d].sequenceNumber == 0)
    {
      var todo := targetStack.Keys;
      ghost var t := start.base - 1;
      while todo != {}
        invariant Generating(t) && old(classPositions.Keys) <= classPositions.Keys && Accounting()
        invariant forall h :: h in todo <==> h in targetStack && t < h
        invariant forall d :: d in classPositions.Keys ==>
          d in old(classPositions.Keys) || (d < |Reps()| && Reps()[d].sequenceNumber == 0)
      {
        var h := Lowest(todo);
        assert t + 1 in todo;
        s := GenerateTarget(h, t);
        if s.Failed? {
          return;
        }
        t := h;
        todo := todo - {h};
      }
      assert t == targetHeight by {
        assert t < targetHeight ==> t + 1 in todo;
      }
      s := Fine;
    }

    method RemoveSurplus(ghost t: int) returns (s: Status)
      requires Generating(t)
      modifies this`generatedItems, this`stackHeight, this`stack, this`classPositions
      ensures s.Fine? ==> Generating(t) && old(classPositions.Keys) == classPositions.Keys
    {
      var removed := true;
      while removed
        invariant Generating(t) && old(classPositions.Keys) == classPositions.Keys
        decreases stackHeight - start.base, removed
      {
        var r := RemoveStackTopIfPossible(t);
        if r.Err? {
          return Failed(r.error);
        }
        removed := r.value;
      }
      return Fine;
    }

    /** The height that the layouts ask for. */
    method FinalHeight(initialStack: map<int, Id>, initialStackHeight: int) returns (height: int)
      requires Contiguous(initialStack, start.base, initialStackHeight)
      requires Contiguous(targetStack, start.base, targetHeight)
      ensures height == targetHeight
    {
      if targetStack != map[] {
        assert targetStack.Keys != {};
        height := Topmost(targetStack.Keys);
        assert targetHeight in targetStack;
      } else if initialStack != map[] {
        assert initialStack.Keys != {};
        var lowest := Lowest(initialStack.Keys);
        height := lowest - 1;
        assert start.base in initialStack && start.base !in targetStack;
      } else {
        height := initialStackHeight;
        assert start.base !in initialStack && start.base !in targetStack;
      }
    }

    /** The index of positions for a given layout. */
    method FillPositions()
      requires classPositions == map[]
      modifies this`classPositions
      ensures Inverse(stack, classPositions) && classPositions.Keys == ClassesIn(stack)
    {
      var todo := stack.Keys;
      ghost var filled: map<int, Id> := map[];
      while todo != {}
        invariant todo <= stack.Keys && filled == stack - todo
        invariant Inverse(filled, classPositions)
        invariant forall c :: c in classPositions ==> exists h :: h in stack && stack[h] == c
      {
        var h := Lowest(todo);
        PushedInverse(filled, classPositions, stack[h], h);
        classPositions := With(classPositions, stack[h], h);
        filled := filled[h := stack[h]];
        todo := todo - {h};
      }
      assert filled == stack;
      forall c: Id | c in ClassesIn(stack)
        ensures c in classPositions.Keys
      {
        var h := PositionOf(stack, c);
      }
    }

    /** What the caller promises about the layouts; every class in them was known by the last number. */
    ghost predicate Prepared(number: nat, height: int, initialStack: map<int, Id>, target: map<int, Id>, h: int)
      reads this, classes
    {
      && classes.Valid() && Operations(Reps(), operations) && AllStores(operations)
      && Grouped(operations, storeOperations)
      && (forall o :: o in operations ==> o.sequenceNumber <= last)
      && start == Start(number, start.base, height, initialStack)
      && Contiguous(initialStack, start.base, height) && Contiguous(target, start.base, h)
      && (forall p :: p in initialStack ==> Settled(Reps(), initialStack[p], last))
      && (forall p :: p in target ==> Settled(Reps(), target[p], last))
    }

    ghost predicate LayoutsSettled(initialStack: map<int, Id>, target: map<int, Id>)
      requires classes.Valid()
      reads this, classes
    {
      && (forall p :: p in initialStack ==> Settled(Reps(), initialStack[p], last))
      && (forall p :: p in target ==> Settled(Reps(), target[p], last))
    }

    method SetUp(height: int, initialStack: map<int, Id>, target: map<int, Id>, ghost h: int)
      requires classPositions == map[]
      modifies this`stackHeight, this`stack, this`targetStack, this`targetHeight, this`classPositions
      ensures stackHeight == height && stack == initialStack && targetStack == target && targetHeight == h
      ensures Inverse(stack, classPositions) && classPositions.Keys == ClassesIn(stack)
    {
      stackHeight, stack, targetStack, targetHeight := height, initialStack, target, h;
      FillPositions();
    }

    /** Sets up the layouts and collects everything that has to be computed. */
    method Prepare(
      number: nat, height: int, initialStack: map<int, Id>, target: map<int, Id>, ghost h: int) returns (s: Status)
      requires generatedItems == [] && neededBy == {} && classPositions == map[] && finalClasses == {}
      requires Prepared(number, height, initialStack, target, h)
      modifies this, classes`representatives, classes`expressions
      ensures storeOperations == old(storeOperations)
      ensures classes.Valid() && old(Reps()) <= Reps()
      ensures s.Fine? ==> GatheredAll() && LayoutsSettled(initialStack, target)
      ensures s.Fine? ==> generatedItems == [] && stackHeight == height && stack == initialStack
      ensures s.Fine? ==> targetStack == target && targetHeight == h && Inverse(stack, classPositions) && TargetKnown()
      ensures s.Fine? ==> classPositions.Keys == ClassesIn(initialStack)
      ensures s.Fine? ==>
        LastsClosed(Reps(), operations, classPositions.Keys, neededBy, storeOperations, storeOperations.Keys)
    {
      SetUp(height, initialStack, target, h);
      s := AddLastWrites();
      if s.Fine? {
        ghost var reps, pairs := Reps(), neededBy;
        StillLayouts(old(Reps()), reps, initialStack, target, last);
        s := AddTargets();
        if s.Fine? {
          StillLayouts(reps, Reps(), initialStack, target, last);
          StillLastsClosed(
            reps, Reps(), operations, classPositions.Keys, pairs, neededBy, storeOperations, storeOperations.Keys);
        }
      }
    }

    /** All that is known once everything that has to be computed is collected, with the accesses in s. */
    ghost predicate Collected(s: Sequenced)
      reads this, classes
    {
      && GatheredAll() && Generating(start.base - 1) && Accounting() && classPositions.Keys == ClassesIn(start.stack)
      && SequencedFrom(Reps(), operations, classPositions.Keys, neededBy, last, start.number, s)
      && Listed(Reps(), neededBy, {}, s) && InOrder(operations, classPositions.Keys, s, s)
      && LastsClosed(Reps(), operations, classPositions.Keys, neededBy, storeOperations, storeOperations.Keys)
      && NoneAvailable(operations, classPositions.Keys)
      && wanted == Wanted(targetStack, s) && wanted == ClassesIn(targetStack) + Numbered(Reps(), neededBy)
      && forall h :: h in targetStack ==> Settled(Reps(), targetStack[h], last)
    }

    method Collect(
      number: nat, height: int, initialStack: map<int, Id>, target: map<int, Id>, ghost h: int)
      returns (r: Result<Sequenced>)
      requires generatedItems == [] && neededBy == {} && classPositions == map[] && finalClasses == {}
      requires Prepared(number, height, initialStack, target, h)
      modifies this, classes`representatives, classes`expressions
      ensures classes.Valid() && old(Reps()) <= Reps()
      ensures r.Ok? ==> Collected(r.value) && targetStack == target && targetHeight == h
    {
      var s := Prepare(number, height, initialStack, target, h);
      if s.Failed? {
        return Err(s.error);
      }
      r := SequencedExpressions(number);
      if r.Ok? {
        wanted := Wanted(target, r.value);
        WantedIs(Reps(), neededBy, target, r.value);
        NothingDone(Reps(), operations, initialStack, classPositions.Keys, last, r.value);
        NothingProduced(Reps(), operations, start, Computed(), GeneratedBy(operations, Current()));
      }
    }

    /** Performs the accesses, and then brings everything into the target layout. */
    method Produce(s: Sequenced) returns (r: Status)
      requires Collected(s)
      modifies this`generatedItems, this`stackHeight, this`stack, this`classPositions
      ensures r.Fine? ==> Generating(targetHeight) && Accounting()
      ensures r.Fine? ==> Finished(operations, DoneIn(operations, classPositions.Keys))
      ensures r.Fine? ==> forall q :: q in s ==> q.1 in classPositions.Keys
    {
      ghost var available := classPositions.Keys;
      r := PerformSequenced(s, available);
      if r.Failed? {
        return;
      }
      AllFinished(Reps(), operations, storeOperations, available, neededBy, last, classPositions.Keys, s);
      ghost var computed := classPositions.Keys;
      r := GenerateTargets();
      if r.Failed? {
        return;
      }
      SameDone(Reps(), operations, computed, classPositions.Keys);
      r := RemoveSurplus(targetHeight);
    }

    /**
     * Items that lead from the initial layout to the target layout. On every machine that matches the initial
     * layout they leave exactly the target layout, nothing else touched below it, and the same store as all writes.
     * They compute what is needed for the target and the accesses and not in the initial layout, and nothing else.
     * Nothing is claimed if that includes a class whose item does not run straight on, or asks a second time.
     */
    method GenerateCode(
      number: nat, height: int, initialStack: map<int, Id>, target: map<int, Id>, ghost h: int)
      returns (r: Result<seq<AssemblyItem>>)
      requires generatedItems == [] && neededBy == {} && classPositions == map[] && finalClasses == {}
      requires Prepared(number, height, initialStack, target, h)
      modifies this, classes`representatives, classes`expressions
      ensures classes.Valid() && old(Reps()) <= Reps()
      ensures r.Ok? ==> Operations(Reps(), operations)
      ensures r.Ok? ==> Delivers(Reps(), operations, start, Computed(), r.value, target, h)
      ensures r.Ok? ==> wanted == ClassesIn(target) + Numbered(Reps(), neededBy)
      ensures r.Ok? ==> ComputedExactly(Reps(), ClassesIn(initialStack), wanted, Computed())
      ensures r.Ok? ==> AllComputable(Reps(), Computed()) && OnlyRuns(Reps(), Computed(), r.value)
    {
      var sequenced := Collect(number, height, initialStack, target, h);
      if sequenced.Err? {
        return Err(sequenced.error);
      }
      var s := Produce(sequenced.value);
      if s.Failed? {
        return Err(s.error);
      }
      var finalHeight := FinalHeight(initialStack, height);
      if finalHeight != stackHeight {
        return Err(OptimizerFailure);
      }
      WholeTarget(stack, start.base, stackHeight, targetStack);
      EndAccounted(Reps(), start, Current(), wanted, target, sequenced.value);
      ProducedDelivers(Reps(), operations, start, Computed(), GeneratedBy(operations, Current()));
      return Ok(generatedItems);
    }
  }
}
