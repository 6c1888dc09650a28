/**
 * Common subexpression elimination of one chunk after another. The chunk that comes out ends in the same way
 * as the chunk that went in, from every machine that the knowledge at its beginning described.
 */
module CommonSubexpressionEliminator {
  import opened Results
  import opened Evm
  import opened SemanticInformation
  import opened Classes
  import opened Expressions
  import opened Knowledge
  import opened Tracking
  import opened KnownState
  import opened Generation
  import opened Recomputation
  import opened Layout
  import opened Chunks
  import opened ChunkEquivalence
  import opened NextChunk
  import opened GeneratorSteps
  import opened CSECodeGenerator

  predicate Feedable(item: AssemblyItem, a: Admission)
  {
    && (item.Operation? ==> InSet(item.instruction) && item.instruction != SHA3)
    && ResultAdmitted(item, a)
  }

  predicate MayEnd(item: AssemblyItem, a: Admission)
  {
    Feedable(item, a) && (item.UndefinedItem? || CanEnd(item))
  }

  /** No item before the given one breaks the block. */
  predicate Unbroken(items: seq<AssemblyItem>, from: nat, to: nat)
    requires to <= |items|
  {
    forall j :: from <= j < to ==> !BreaksCSEAnalysisBlock(items[j])
  }

  lemma OneMoreUnbroken(items: seq<AssemblyItem>, from: nat, next: nat, before: seq<AssemblyItem>)
    requires from <= next < |items| && Unbroken(items, from, next) && !BreaksCSEAnalysisBlock(items[next])
    ensures Unbroken(items, from, next + 1)
    ensures before + items[from..next] + [items[next]] == before + items[from..next + 1]
  {
    assert items[from..next + 1] == items[from..next] + [items[next]];
  }

  predicate IsCalling(breaking: Option<AssemblyItem>) { breaking.Some? && IsCallItem(breaking.value) }

  predicate IsAskingEnd(breaking: Option<AssemblyItem>) { breaking.Some? && IsAsking(breaking.value) }

  predicate IsFlowEnd(breaking: Option<AssemblyItem>) { breaking.Some? && IsFlow(breaking.value) }

  /** The end is left open if it was; it does not jump or stop unless it did. */
  predicate SameKind(breaking: Option<AssemblyItem>, was: Option<AssemblyItem>)
  {
    IsAskingEnd(breaking) == IsAskingEnd(was) && (IsFlowEnd(breaking) ==> IsFlowEnd(was))
  }

  predicate IsUndefined(breaking: Option<AssemblyItem>) { breaking.Some? && breaking.value.UndefinedItem? }

  predicate MayFollow(item: AssemblyItem, a: Admission) { Feedable(item, a) && !item.UndefinedItem? }

  /** What may be done with the item at the end: two more items, and another one at the end, or none. */
  datatype Change = NoChange | Change(zero: bool, a: AssemblyItem, b: AssemblyItem, breaking: Option<AssemblyItem>)

  const ALWAYS_TAKEN := Change(false, Operation(SWAP(1)), Operation(POP), Some(Operation(JUMP)))
  const NEVER_TAKEN := Change(true, Operation(POP), Operation(POP), None)
  const STOPPED := Change(true, Operation(POP), Operation(POP), Some(Operation(STOP)))

  function Changes(breaking: Option<AssemblyItem>): set<Change>
  {
    if breaking == Some(Operation(JUMPI)) then {ALWAYS_TAKEN, NEVER_TAKEN}
    else if breaking == Some(Operation(RETURN)) then {STOPPED}
    else {}
  }

  predicate Feeds(change: Change)
  {
    && change.Change? && MayFollow(change.a, NEITHER) && MayFollow(change.b, NEITHER)
    && (change.breaking.Some? ==> MayEnd(change.breaking.value, NEITHER) && change.breaking.value.Operation?)
    && !IsCalling(change.breaking) && !IsAskingEnd(change.breaking)
  }

  /** The items of a change, and the ending it leads to. */
  lemma ChangeIs(breaking: Option<AssemblyItem>, change: Change)
    requires change in Changes(breaking)
    ensures Feeds(change) && breaking.Some?
    ensures breaking.value == Operation(JUMPI) || (breaking.value == Operation(RETURN) && change.zero)
    ensures KnownEnding([], breaking.value, change.zero) == Ending([change.a, change.b], change.breaking)
  {
    SwapPopFollow();
    JumpStopEnd();
  }

  lemma SwapPopFollow()
    ensures MayFollow(Operation(SWAP(1)), NEITHER) && MayFollow(Operation(POP), NEITHER)
  {
  }

  lemma JumpStopEnd()
    ensures MayEnd(Operation(JUMP), NEITHER) && MayEnd(Operation(STOP), NEITHER)
    ensures !IsCallItem(Operation(JUMP)) && !IsCallItem(Operation(STOP))
    ensures !IsAsking(Operation(JUMP)) && !IsAsking(Operation(STOP))
  {
  }

  function ChangedItems(items: seq<AssemblyItem>, change: Change): seq<AssemblyItem>
  {
    if change.NoChange? then items else items + [change.a, change.b]
  }

  function ChangedBreaking(breaking: Option<AssemblyItem>, change: Change): Option<AssemblyItem>
  {
    if change.NoChange? then breaking else change.breaking
  }

  /** With a change, the chunk ends as it does without. */
  ghost predicate Suits(
    k0: Knowledge, reps0: seq<Expression>, items: seq<AssemblyItem>, breaking: Option<AssemblyItem>, floor: int,
    change: Change)
    requires ValidClasses(reps0)
  {
    SameEnds(k0, reps0, items, breaking, ChangedItems(items, change), ChangedBreaking(breaking, change), floor)
  }

  lemma EndingChanged(
    k0: Knowledge, reps0: seq<Expression>, items: seq<AssemblyItem>, ops: seq<StoreOperation>, floor: int,
    k: Knowledge, reps: seq<Expression>, breaking: Option<AssemblyItem>, c: Id, change: Change)
    requires Followed(k0, reps0, items, ops, floor, k, reps) && change in Changes(breaking)
    requires c < |reps| && AlwaysZero(reps, c, change.zero)
    requires SameEnds(k0, reps0, items, breaking, items, breaking, floor)
    requires (k.height - 1) in k.elements && k.elements[k.height - 1] == c
    ensures SameEnds(k0, reps0, items, breaking, items + [change.a, change.b], change.breaking, floor)
  {
    ChangeIs(breaking, change);
    EndingSame(k0, reps0, items, ops, floor, k, reps, breaking.value, c, change.zero);
    var e := KnownEnding([], breaking.value, change.zero);
    assert KnownEnding(items, breaking.value, change.zero) == Ending(items + e.items, e.breaking);
  }

  /** A change is made when the second element from the top is known to be zero, or known not to be. */
  lemma ChangeSuits(
    k0: Knowledge, reps0: seq<Expression>, items: seq<AssemblyItem>, ops: seq<StoreOperation>, floor: int,
    k: Knowledge, reps: seq<Expression>, reps': seq<Expression>, breaking: Option<AssemblyItem>, c: Id, change: Change)
    requires Followed(k0, reps0, items, ops, floor, k, reps) && ValidClasses(reps') && reps <= reps' && c < |reps'|
    requires SameEnds(k0, reps0, items, breaking, items, breaking, floor)
    requires (k.height - 1) in k.elements && k.elements[k.height - 1] == c
    requires change.Change? ==> change in Changes(breaking) && AlwaysZero(reps', c, change.zero)
    ensures Followed(k0, reps0, items, ops, floor, k, reps')
    ensures Suits(k0, reps0, items, breaking, floor, change) && (change.Change? ==> Feeds(change))
  {
    StillFollowed(k0, reps0, items, ops, floor, k, reps, reps');
    if change.Change? {
      ChangeIs(breaking, change);
      EndingChanged(k0, reps0, items, ops, floor, k, reps', breaking, c, change);
    }
  }

  /** The changed end may be fed, whatever is let in. */
  lemma FeedsAnyway(change: Change, a: Admission)
    requires Feeds(change)
    ensures MayFollow(change.a, a) && MayFollow(change.b, a)
    ensures change.breaking.Some? ==> MayEnd(change.breaking.value, a)
    ensures !IsCalling(change.breaking) && !IsUndefined(change.breaking)
  {
  }

  lemma ChangedEnd(breaking: Option<AssemblyItem>, change: Change)
    requires TakesTwo(breaking) && (change.Change? ==> Feeds(change))
    ensures IsUndefined(ChangedBreaking(breaking, change)) == IsUndefined(breaking)
    ensures IsCalling(ChangedBreaking(breaking, change)) == IsCalling(breaking)
    ensures SameKind(ChangedBreaking(breaking, change), breaking)
  {
  }

  /** The block has the same outcomes as the items. */
  ghost predicate IsBlockFor(
    b: Block, k0: Knowledge, reps0: seq<Expression>, items: seq<AssemblyItem>, breaking: Option<AssemblyItem>,
    ending: Option<AssemblyItem>)
  {
    && ValidClasses(reps0) && b.k0 == k0 && b.reps0 == reps0
    && SameEnds(k0, reps0, items, breaking, b.items, ending, b.floor)
  }

  /** The classes computed are exactly those that a block with the same outcomes needs and that are not there. */
  ghost predicate ComputesNeeded(
    k0: Knowledge, reps0: seq<Expression>, items: seq<AssemblyItem>, breaking: Option<AssemblyItem>,
    ending: Option<AssemblyItem>, reps: seq<Expression>, computed: set<Id>)
  {
    exists b: Block, wanted: set<Id> ::
      ComputesFor(b, wanted, reps, computed) && IsBlockFor(b, k0, reps0, items, breaking, ending)
  }

  lemma CodeIs(
    b: Block, wanted: set<Id>, reps: seq<Expression>, computed: set<Id>, k0: Knowledge, reps0: seq<Expression>,
    era: nat, items: seq<AssemblyItem>, breaking: Option<AssemblyItem>, ending: Option<AssemblyItem>,
    code: seq<AssemblyItem>)
    requires IsBlockFor(b, k0, reps0, items, breaking, ending) && ComputesFor(b, wanted, reps, computed)
    requires Repeatable(reps, computed, era) ==> SameRuns(k0, reps0, era, b.floor, b.items, code)
    ensures ComputesNeeded(k0, reps0, items, breaking, ending, reps, computed)
    ensures Repeatable(reps, computed, era) ==> SameOutcomes(k0, reps0, era, items, breaking, code, ending)
  {
    if Repeatable(reps, computed, era) {
      SameRunsSameOutcomes(k0, reps0, era, items, breaking, b.items, ending, b.floor, code);
    }
  }

  lemma BreakingMayEnd(item: AssemblyItem, a: Admission)
    requires Feedable(item, a) && BreaksCSEAnalysisBlock(item)
    ensures MayEnd(item, a)
  {
    if !item.UndefinedItem? {
      BreakingCanEnd(item);
    }
  }

  class CommonSubexpressionEliminator {
    var initialState: KnownState
    var state: KnownState
    var storeOperations: seq<StoreOperation>
    var breakingItem: Option<AssemblyItem>
    ghost var fed: seq<AssemblyItem>
    ghost var first: Knowledge
    ghost var firstReps: seq<Expression>
    ghost var floor: int

    constructor (known: KnownState)
      requires known.Valid()
      ensures Valid() && fed == [] && breakingItem == None && fresh(initialState) && fresh(state)
      ensures first == known.Known() && firstReps == known.Reps() && state.classes == known.classes
    {
      initialState := new KnownState.Copy(known);
      state := new KnownState.Copy(known);
      storeOperations, breakingItem := [], None;
      fed, first, firstReps, floor := [], known.Known(), known.Reps(), known.stackHeight + 1;
      new;
      NothingFollowed(state.Known(), state.Reps(), floor);
    }

    ghost predicate Valid()
      reads this, initialState, state, state.classes
    {
      Tracked() && floor == initialState.stackHeight + 1
    }

    /** What was fed since the initial state has led to the present one. */
    ghost predicate Tracked()
      reads this, initialState, state, state.classes
    {
      && initialState != state && initialState.classes == state.classes && state.Valid()
      && (breakingItem.Some? ==> MayEnd(breakingItem.value, state.classes.admission)) && initialState.Known() == first
      && Followed(first, firstReps, fed, storeOperations, floor, state.Known(), state.Reps())
    }

    /** Feeds the state, the item and its write not being recorded yet. */
    method FeedState(item: AssemblyItem) returns (op: StoreOperation)
      requires Tracked() && MayFollow(item, state.classes.admission)
      modifies state, state.classes`representatives, state.classes`expressions
      ensures state.Valid() && initialState.Known() == first
      ensures Followed(
        first, firstReps, fed + [item], Appended(storeOperations, op), floor, state.Known(), state.Reps())
    {
      ghost var k, reps := state.Known(), state.Reps();
      var r := state.FeedItem(item);
      op := r.value;
      OneMoreFollowed(
        first, firstReps, fed, storeOperations, floor, k, reps, item, op, state.Known(), state.Reps());
    }

    method FeedItem(item: AssemblyItem)
      requires Tracked() && MayFollow(item, state.classes.admission)
      modifies this`storeOperations, this`fed, state, state.classes`representatives, state.classes`expressions
      ensures Tracked() && fed == old(fed) + [item]
    {
      var op := FeedState(item);
      storeOperations := Appended(storeOperations, op);
      fed := fed + [item];
    }

    method SetBreakingItem(breaking: Option<AssemblyItem>)
      requires Tracked() && (breaking.Some? ==> MayEnd(breaking.value, state.classes.admission))
      modifies this`breakingItem
      ensures Tracked() && breakingItem == breaking
    {
      breakingItem := breaking;
    }

    /** Feeds items up to the first one that breaks the block. */
    method FeedUnbroken(items: seq<AssemblyItem>, from: nat) returns (next: nat)
      requires Valid() && from <= |items|
      requires forall k :: from <= k < |items| && Unbroken(items, from, k) ==>
        Feedable(items[k], state.classes.admission)
      modifies this`storeOperations, this`fed, state, state.classes`representatives, state.classes`expressions
      ensures Valid() && from <= next <= |items| && fed == old(fed) + items[from..next]
      ensures Unbroken(items, from, next) && (next < |items| ==> BreaksCSEAnalysisBlock(items[next]))
    {
      next := from;
      ghost var before := fed;
      while next < |items| && !BreaksCSEAnalysisBlock(items[next])
        invariant Valid() && from <= next <= |items|
        invariant fed == before + items[from..next] && Unbroken(items, from, next)
      {
        OneMoreUnbroken(items, from, next, before);
        FeedItem(items[next]);
        next := next + 1;
      }
    }

    /** Besides, the item that breaks the block is remembered; next is the one after that. */
    method FeedItems(items: seq<AssemblyItem>, from: nat) returns (next: nat, s: Status)
      requires Valid() && from <= |items|
      requires forall k :: from <= k < |items| && Unbroken(items, from, k) ==>
        Feedable(items[k], state.classes.admission)
      modifies this`storeOperations, this`fed, this`breakingItem, state
      modifies state.classes`representatives, state.classes`expressions
      ensures Valid() && from <= next <= |items|
      ensures s.Fine? <==> old(breakingItem).None?
      ensures s.Fine? && breakingItem.None? ==> next == |items| && fed == old(fed) + items[from..next]
      ensures s.Fine? && breakingItem.Some? ==>
        && from < next && fed == old(fed) + items[from..next - 1]
        && breakingItem == Some(items[next - 1]) && BreaksCSEAnalysisBlock(items[next - 1])
      ensures s.Fine? ==> Unbroken(items, from, if breakingItem.Some? then next - 1 else next)
    {
      if breakingItem.Some? {
        return from, Failed(OptimizerFailure);
      }
      next := FeedUnbroken(items, from);
      if next < |items| {
        BreakingMayEnd(items[next], state.classes.admission);
        SetBreakingItem(Some(items[next]));
        next := next + 1;
      }
      s := Fine;
    }

    // ----- the item at the end -----

    /** The class of the second element from the top. */
    method SecondFromTop() returns (c: Id)
      requires Valid()
      modifies this`floor, state, state.classes`representatives, state.classes`expressions
      ensures Tracked()
      ensures (state.stackHeight - 1) in state.stackElements && state.stackElements[state.stackHeight - 1] == c
      ensures old(state.Reps()) <= state.Reps() && state.stackHeight == old(state.stackHeight)
      ensures floor == if state.stackHeight - 1 < old(floor) then state.stackHeight - 1 else old(floor)
    {
      ghost var k, reps := state.Known(), state.Reps();
      c := state.StackElement(state.stackHeight - 1);
      floor := if state.stackHeight - 1 < floor then state.stackHeight - 1 else floor;
      RevealedFollowed(
        first, firstReps, fed, storeOperations, old(floor), k, reps, 2, state.Known(), state.Reps(), floor);
    }

    method IsNonZero(c: Id) returns (r: bool)
      requires state.classes.Valid() && c < |state.Reps()|
      modifies state.classes`representatives, state.classes`expressions
      ensures state.classes.Valid() && old(state.Reps()) <= state.Reps()
      ensures r ==> AlwaysZero(state.Reps(), c, false)
    {
      r := state.classes.KnownNonZero(c);
    }

    predicate IsZero(c: Id)
      requires state.classes.Valid() && c < |state.classes.representatives|
      reads this, state, state.classes
      ensures IsZero(c) ==> AlwaysZero(state.classes.representatives, c, true)
    {
      state.classes.KnownZero(c)
    }

    method FeedTwo(a: AssemblyItem, b: AssemblyItem)
      requires Tracked() && MayFollow(a, state.classes.admission) && MayFollow(b, state.classes.admission)
      modifies this`storeOperations, this`fed, state, state.classes`representatives, state.classes`expressions
      ensures Tracked() && fed == old(fed) + [a, b]
    {
      FeedItem(a);
      FeedItem(b);
      assert old(fed) + [a] + [b] == old(fed) + [a, b];
    }

    /** Looks up the second element from the top, which the breaking item takes from the stack. */
    method Condition() returns (c: Id)
      requires Valid() && TakesTwo(breakingItem)
      modifies this`floor, state, state.classes`representatives, state.classes`expressions
      ensures Tracked()
      ensures (state.stackHeight - 1) in state.stackElements && state.stackElements[state.stackHeight - 1] == c
      ensures c < |state.Reps()|
      ensures SameEnds(first, firstReps, fed, breakingItem, fed, breakingItem, floor)
    {
      SecondRevealed(
        first, firstReps, fed, storeOperations, state.Known(), state.Reps(), breakingItem,
        if state.stackHeight - 1 < floor then state.stackHeight - 1 else floor);
      c := SecondFromTop();
    }

    /**
     * A conditional jump whose condition is known always jumps, or never does; a return of no bytes is a stop.
     * The class is that of the second element from the top.
     */
    method ChangeFor(c: Id) returns (change: Change)
      requires state.classes.Valid() && TakesTwo(breakingItem) && c < |state.Reps()|
      modifies state.classes`representatives, state.classes`expressions
      ensures state.classes.Valid() && old(state.Reps()) <= state.Reps()
      ensures change.Change? ==> change in Changes(breakingItem) && AlwaysZero(state.Reps(), c, change.zero)
    {
      if breakingItem == Some(Operation(JUMPI)) {
        var nonZero := IsNonZero(c);
        if nonZero {
          return ALWAYS_TAKEN;
        } else if IsZero(c) {
          return NEVER_TAKEN;
        }
      } else if IsZero(c) {
        return STOPPED;
      }
      return NoChange;
    }

    /** The change, given the class that the second element from the top has now. */
    method KnownChange(c: Id) returns (change: Change)
      requires Tracked() && TakesTwo(breakingItem) && c < |state.Reps()|
      requires (state.stackHeight - 1) in state.stackElements && state.stackElements[state.stackHeight - 1] == c
      requires SameEnds(first, firstReps, fed, breakingItem, fed, breakingItem, floor)
      modifies state.classes`representatives, state.classes`expressions
      ensures Tracked() && (change.Change? ==> Feeds(change))
      ensures Suits(first, firstReps, fed, breakingItem, floor, change)
    {
      ghost var k, reps := state.Known(), state.Reps();
      change := ChangeFor(c);
      ChangeSuits(first, firstReps, fed, storeOperations, floor, k, reps, state.Reps(), breakingItem, c, change);
    }

    /** What to do with the item at the end. */
    method EndingChange() returns (change: Change)
      requires Valid() && TakesTwo(breakingItem)
      modifies this`floor, state, state.classes`representatives, state.classes`expressions
      ensures Tracked() && (change.Change? ==> Feeds(change))
      ensures Suits(first, firstReps, fed, breakingItem, floor, change)
    {
      var c := Condition();
      change := KnownChange(c);
    }

    method Apply(change: Change)
      requires Tracked() && change.Change? && Feeds(change)
      modifies this`storeOperations, this`fed, this`breakingItem, state
      modifies state.classes`representatives, state.classes`expressions
      ensures Tracked() && fed == old(fed) + [change.a, change.b] && breakingItem == change.breaking
    {
      FeedsAnyway(change, state.classes.admission);
      FeedTwo(change.a, change.b);
      SetBreakingItem(change.breaking);
    }

    method OptimizeBreakingItem()
      requires Valid()
      modifies this`storeOperations, this`fed, this`breakingItem, this`floor, state
      modifies state.classes`representatives, state.classes`expressions
      ensures Tracked()
      ensures SameEnds(first, firstReps, old(fed), old(breakingItem), fed, breakingItem, floor)
      ensures IsUndefined(breakingItem) == IsUndefined(old(breakingItem))
      ensures IsCalling(breakingItem) == IsCalling(old(breakingItem))
      ensures SameKind(breakingItem, old(breakingItem))
    {
      if TakesTwo(breakingItem) {
        var change := EndingChange();
        ChangedEnd(breakingItem, change);
        if change.Change? {
          Apply(change);
        }
      } else {
        NothingChanged(first, firstReps, fed, breakingItem);
      }
    }

    // ----- the optimised chunk -----

    /** The lowest height anything is known about, or just above the stack. */
    method MinHeight() returns (h: int)
      requires state.Valid()
      ensures LowerBound(state.Known(), h) && (h in state.stackElements || h == state.stackHeight + 1)
    {
      h := state.stackHeight + 1;
      if state.stackElements != map[] {
        assert state.stackElements.Keys != {};
        var lowest := Lowest(state.stackElements.Keys);
        if lowest < h {
          h := lowest;
        }
      }
    }

    /** The classes of all elements from the base on, looked up if necessary. */
    static method LayoutFrom(s: KnownState, base: int) returns (layout: map<int, Id>)
      requires s.Valid() && base <= s.stackHeight + 1
      modifies s`stackElements, s.classes`representatives, s.classes`expressions
      ensures s.Valid() && LayoutOf(s.Known(), base, layout)
      ensures Deepened(old(s.Known()), old(s.Reps()), NatOf(s.stackHeight - base + 1), s.Known(), s.Reps())
    {
      layout := map[];
      ghost var n := NatOf(s.stackHeight - base + 1);
      NothingRevealed(s.Known(), s.Reps(), s.Reps());
      DeepenedMore(s.Known(), s.Reps(), 0, s.Known(), s.Reps(), n);
      for h := base to s.stackHeight + 1
        invariant s.Valid() && Contiguous(layout, base, h - 1)
        invariant forall p :: p in layout ==> p in s.stackElements && s.stackElements[p] == layout[p]
        invariant Deepened(old(s.Known()), old(s.Reps()), n, s.Known(), s.Reps())
      {
        ghost var k, reps := s.Known(), s.Reps();
        var c := s.StackElement(h);
        DeepenedMore(k, reps, s.stackHeight - h + 1, s.Known(), s.Reps(), n);
        DeepenedFrom(old(s.Known()), old(s.Reps()), n, k, reps, n, s.Known(), s.Reps());
        layout := layout[h := c];
      }
    }

    /** The layout before the chunk; what is known in the end reaches down to the base. */
    method InitialLayout(base: int) returns (initial: map<int, Id>)
      requires Tracked() && LowerBound(state.Known(), base)
      modifies initialState`stackElements, state.classes`representatives, state.classes`expressions
      ensures initialState.Valid() && LayoutOf(initialState.Known(), base, initial)
      ensures Deepened(
        first, old(state.Reps()), NatOf(first.height - base + 1), initialState.Known(), initialState.Reps())
    {
      StillValid(first, firstReps, state.Reps());
      assert LowerBound(first, base);
      initial := LayoutFrom(initialState, base);
    }

    /** The layouts before and after the chunk, from the same lowest height on. */
    method Layouts() returns (initial: map<int, Id>, target: map<int, Id>, ghost b: Block)
      requires Tracked()
      modifies initialState`stackElements, state`stackElements, state.classes`representatives, state.classes`expressions
      ensures ValidBlock(b) && b.reps == state.Reps() && state.classes.Valid() && old(state.Reps()) <= b.reps
      ensures b == Block(
        first, firstReps, fed, storeOperations, floor, old(state.Known()), b.reps, b.base, b.kI, initial, b.kT, target)
    {
      ghost var k, reps := state.Known(), state.Reps();
      var base := MinHeight();
      initial := InitialLayout(base);
      ghost var kI, reps1 := initialState.Known(), state.Reps();
      StillValid(k, reps, reps1);
      target := LayoutFrom(state, base);
      b := Block(
        first, firstReps, fed, storeOperations, floor, k, state.Reps(), base, kI, initial, state.Known(), target);
      BlockIs(b, reps, reps1);
    }

    /**
     * Code for what has been fed, and the classes it computes. It does the same if they can all be computed once
     * more in the present era.
     */
    method Generate(ghost era: nat)
      returns (r: Result<seq<AssemblyItem>>, ghost b: Block, ghost wanted: set<Id>, ghost computed: set<Id>)
      requires Tracked()
      modifies initialState`stackElements, state`stackElements
      modifies state.classes`representatives, state.classes`expressions
      ensures state.classes.Valid() && old(state.Reps()) <= state.Reps()
      ensures r.Ok? && Repeatable(state.Reps(), computed, era) ==>
        SameRuns(first, firstReps, era, floor, fed, r.value)
      ensures r.Ok? ==> AllComputable(state.Reps(), computed) && OnlyRuns(state.Reps(), computed, r.value)
      ensures b.k0 == first && b.reps0 == firstReps && b.items == fed && b.floor == floor
      ensures r.Ok? ==> ComputesFor(b, wanted, state.Reps(), computed)
    {
      var initial, target;
      initial, target, b := Layouts();
      BlockPrepared(b);
      var generator := new CSECodeGenerator(state.classes, storeOperations, StartOf(b), state.sequenceNumber);
      r := generator.GenerateCode(
        initialState.sequenceNumber, initialState.stackHeight, initial, target, state.stackHeight);
      wanted, computed := generator.wanted, generator.Computed();
      if r.Ok? && Repeatable(state.Reps(), computed, era) {
        BlockLater(b, state.Reps());
        GeneratedSameRuns(b.(reps := state.Reps()), computed, r.value, era);
      }
    }

    /** The code with the breaking item behind it, for a chunk that ends like what has been fed. */
    method GenerateChunk(ghost items: seq<AssemblyItem>, ghost breaking: Option<AssemblyItem>, ghost era: nat)
      returns (r: Result<seq<AssemblyItem>>, ghost code: seq<AssemblyItem>, ghost computed: set<Id>)
      requires Tracked() && SameEnds(first, firstReps, items, breaking, fed, breakingItem, floor)
      modifies initialState`stackElements, state`stackElements
      modifies state.classes`representatives, state.classes`expressions
      ensures state.classes.Valid() && old(state.Reps()) <= state.Reps()
      ensures r.Ok? ==> r.value == code + EndItems(breakingItem)
      ensures r.Ok? && Repeatable(state.Reps(), computed, era) ==>
        SameOutcomes(first, firstReps, era, items, breaking, code, breakingItem)
      ensures r.Ok? ==> AllComputable(state.Reps(), computed) && OnlyRuns(state.Reps(), computed, code)
      ensures r.Ok? ==>
        ComputesNeeded(first, firstReps, items, breaking, breakingItem, state.Reps(), computed)
    {
      ghost var b, wanted;
      r, b, wanted, computed := Generate(era);
      code := [];
      if r.Ok? {
        code := r.value;
        CodeIs(b, wanted, state.Reps(), computed, first, firstReps, era, items, breaking, breakingItem, code);
        r := Ok(r.value + EndItems(breakingItem));
      }
    }

    /** The state the next chunk starts from: the present one after the breaking item. */
    method NextState() returns (next: KnownState, s: Status)
      requires Tracked()
      modifies state.classes`representatives, state.classes`expressions
      ensures fresh(next) && next.classes == state.classes
      ensures s.Fine? ==> Tracked() && next.Valid()
      ensures s.Fine? ==>
        Continued(old(state.Known()), old(state.Reps()), breakingItem, next.Known(), next.Reps())
      ensures s == if IsUndefined(breakingItem) then Failed(OptimizerFailure) else Fine
    {
      ghost var k, reps := state.Known(), state.Reps();
      next := new KnownState.Copy(state);
      s := Fine;
      if breakingItem.Some? {
        var op := next.FeedItem(breakingItem.value);
        if op.Err? {
          return next, Failed(op.error);
        }
        StillFollowed(first, firstReps, fed, storeOperations, floor, k, reps, state.Reps());
      }
    }

    /** Lets more items in from now on. */
    ghost method Admit(a: Admission)
      requires Valid() && breakingItem.None? && AllAdmitted(state.Reps(), a)
      modifies state.classes`admission
      ensures Valid() && state.classes.admission == a
    {
      state.classes.Admit(a);
    }

    /** Forgets the chunk; the next one starts from the given state. */
    method Reset(next: KnownState)
      requires next.Valid() && next.classes == state.classes && next != initialState && next != state
      modifies this
      ensures Valid() && fed == [] && breakingItem == None && initialState == next && fresh(state)
      ensures first == next.Known() && firstReps == next.Reps() && state.classes == next.classes
    {
      storeOperations, breakingItem, initialState := [], None, next;
      state := new KnownState.Copy(next);
      fed, first, firstReps, floor := [], next.Known(), next.Reps(), next.stackHeight + 1;
      NothingFollowed(state.Known(), state.Reps(), floor);
    }

    /**
     * The optimised chunk, and the classes that its code computes: those that are needed and not there before. If
     * they can all be computed once more, it ends like what was fed and then the breaking item: same machine, same
     * jump, same data. The eliminator is ready for the next chunk, also when there is no optimised code; a call begins
     * a new era.
     */
    method GetOptimizedItems(ghost era: nat)
      returns (
        r: Result<seq<AssemblyItem>>, ghost code: seq<AssemblyItem>, ghost ending: Option<AssemblyItem>,
        ghost computed: set<Id>, ghost era': nat)
      requires Valid()
      modifies this, initialState, state, state.classes`representatives, state.classes`expressions
      ensures r.Ok? ==> r.value == code + EndItems(ending) && SameKind(ending, old(breakingItem))
      ensures r.Ok? && Repeatable(state.Reps(), computed, era) ==>
        SameOutcomes(old(first), old(firstReps), era, old(fed), old(breakingItem), code, ending)
      ensures r.Ok? ==> AllComputable(state.Reps(), computed) && OnlyRuns(state.Reps(), computed, code)
      ensures r.Ok? ==> ComputesNeeded(
        old(first), old(firstReps), old(fed), old(breakingItem), ending, state.Reps(), computed)
      ensures IsUndefined(old(breakingItem)) ==> r == Err(OptimizerFailure)
      ensures !IsUndefined(old(breakingItem)) ==>
        && Valid() && fed == [] && breakingItem == None
        && fresh(initialState) && fresh(state) && state.classes == old(state.classes)
        && old(firstReps) <= firstReps == state.Reps()
        && DescribesNext(old(first), old(firstReps), era, old(fed), old(breakingItem), first, firstReps, era')
      ensures !IsCalling(old(breakingItem)) ==> era' == era
      ensures !IsUndefined(old(breakingItem)) && era <= |old(firstReps)| ==> era' <= |firstReps|
    {
      code, ending, computed, era' := [], None, {}, era;
      OptimizeBreakingItem();
      ghost var k, reps := state.Known(), state.Reps();
      var next, s := NextState();
      if s.Failed? {
        return Err(s.error), code, ending, computed, era';
      }
      ghost var reps1 := next.Reps();
      r, code, computed := GenerateChunk(old(fed), old(breakingItem), era);
      ending, era' := breakingItem, EraAfter(breakingItem, reps1, era);
      DescribedAfter(
        first, firstReps, era, old(fed), old(breakingItem), fed, breakingItem, storeOperations, floor, k, reps,
        next.Known(), reps1, next.Reps());
      Reset(next);
    }
  }
}
