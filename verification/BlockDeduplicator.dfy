/** Unifies blocks that share content, by renaming the tags that are pushed. */
module BlockDeduplicator {
  import opened Results
  import opened Words
  import opened Evm
  import opened Blocks
  import opened LabelMachine
  import opened Deduplication

  /** Skips tags, and goes to the end where the control flow does not continue; replaces one item on the fly. */
  class BlockIterator {
    const items: Items
    const replaceItem: AssemblyItem
    const replaceWith: AssemblyItem
    var it: nat
    ghost const own: int

    constructor (all: Items, p: nat)
      requires p < |all|
      ensures items == all && it == p && own == Own(all, p) && Valid()
    {
      items, it, own := all, p, Own(all, p);
      replaceItem := if all[p].Tag? then PushTag(all[p].data) else PushTag(SELF);
      replaceWith := PushTag(SELF);
    }

    ghost predicate Valid()
      reads this
    {
      it <= |items| && replaceItem == PushTag(own) && replaceWith == PushTag(SELF)
    }

    /** What the iterator is still going to deliver, except for a tag right here. */
    ghost function Rest(): Items
      requires Valid()
      reads this
    {
      UnifiedAll(Tail(items, it), own)
    }

    function Current(): AssemblyItem
      requires it < |items|
      reads this
    {
      if items[it] == replaceItem then replaceWith else items[it]
    }

    method SkipTag()
      requires Valid()
      modifies this
      ensures Valid() && Rest() == old(Rest()) && (it < |items| ==> !items[it].Tag?)
    {
      if it < |items| && items[it].Tag? {
        Advance();
      }
    }

    method Advance()
      requires Valid()
      modifies this
      ensures Valid() && (it < |items| ==> !items[it].Tag?)
      ensures Rest() == if old(it) < |items| && !items[old(it)].Tag? then old(Rest())[1..] else old(Rest())
    {
      if it == |items| {
        return;
      }
      if Ends(items[it]) {
        it := |items|;
        return;
      }
      it := it + 1;
      ghost var first := it;
      while it < |items| && items[it].Tag?
        invariant first <= it <= |items| && Tail(items, it) == Tail(items, first)
      {
        it := it + 1;
      }
      ghost var p := first - 1;
      if !items[p].Tag? {
        assert UnifiedAll(Tail(items, p), own)[1..] == UnifiedAll(Tail(items, first), own);
      }
    }
  }

  /** The order of blocks, by lexicographic comparison of what two iterators deliver. */
  method Precedes(items: Items, i: nat, j: nat) returns (r: bool)
    requires i < |items| && j < |items|
    ensures r <==> LexLess(Norm(items, i), Norm(items, j))
  {
    if i == j {
      LexIrreflexive(Norm(items, i));
      return false;
    }
    var first := new BlockIterator(items, i);
    var second := new BlockIterator(items, j);
    first.SkipTag();
    second.SkipTag();
    while first.it < |items| && second.it < |items|
      invariant first.Valid() && second.Valid() && first.items == items && second.items == items && first != second
      invariant first.it < |items| ==> !items[first.it].Tag?
      invariant second.it < |items| ==> !items[second.it].Tag?
      invariant LexLess(first.Rest(), second.Rest()) <==> LexLess(Norm(items, i), Norm(items, j))
      decreases |first.Rest()|
    {
      assert first.Rest()[0] == first.Current() && second.Rest()[0] == second.Current();
      if Less(first.Current(), second.Current()) {
        return true;
      }
      if Less(second.Current(), first.Current()) {
        return false;
      }
      first.Advance();
      second.Advance();
    }
    return first.it == |items| && second.it < |items|;
  }

  /** The blocks seen so far: the first tag of each kind. */
  ghost predicate Firsts(items: Items, seen: set<nat>, end: nat)
  {
    && (forall p :: p in seen ==> p < end <= |items| && items[p].Tag? && IsFirst(items, p))
    && (forall p: nat :: p < end <= |items| && items[p].Tag? && p !in seen ==> !IsFirst(items, p))
  }

  /** The first block with the same normalised items. */
  ghost predicate IsOriginal(items: Items, p: nat, q: nat)
  {
    q < p < |items| && items[q].Tag? && IsFirst(items, q) && Norm(items, q) == Norm(items, p)
  }

  lemma {:induction false} OriginalExists(items: Items, p: nat, q: nat)
    requires q < p < |items| && items[q].Tag? && Norm(items, q) == Norm(items, p)
    ensures exists r: nat :: IsOriginal(items, p, r)
    decreases q
  {
    if IsFirst(items, q) {
      assert IsOriginal(items, p, q);
    } else {
      var before: nat :| before < q && items[before].Tag? && Norm(items, before) == Norm(items, q);
      OriginalExists(items, p, before);
    }
  }

  lemma OriginalUnique(items: Items, p: nat, q: nat, r: nat)
    requires IsOriginal(items, p, q) && IsOriginal(items, p, r)
    ensures q == r
  {
  }

  ghost function Original(items: Items, p: nat): (q: nat)
    requires p < |items| && items[p].Tag? && !IsFirst(items, p)
    ensures IsOriginal(items, p, q)
  {
    var q: nat :| q < p && items[q].Tag? && Norm(items, q) == Norm(items, p);
    OriginalExists(items, p, q);
    var o: nat :| IsOriginal(items, p, o);
    o
  }

  /** The tag of each block that is not the first of its kind, and the tag of the first one. */
  ghost function ReplacementFor(items: Items, n: nat): Replacement
    requires n <= |items|
  {
    if n == 0 then map[]
    else
      var m := ReplacementFor(items, n - 1);
      if items[n - 1].Tag? && !IsFirst(items, n - 1) then
        m[items[n - 1].data := items[Original(items, n - 1)].data]
      else m
  }

  /** The block among those seen that is ordered neither before nor after block j. */
  method FindBlock(items: Items, seen: set<nat>, j: nat) returns (r: Option<nat>)
    requires j < |items| && AllReal(items) && forall p :: p in seen ==> p < |items|
    ensures r.Some? ==> r.value in seen && Norm(items, r.value) == Norm(items, j)
    ensures r.None? ==> forall p :: p in seen ==> Norm(items, p) != Norm(items, j)
  {
    var todo := seen;
    while todo != {}
      invariant todo <= seen
      invariant forall p :: p in seen && p !in todo ==> Norm(items, p) != Norm(items, j)
    {
      var p :| p in todo;
      todo := todo - {p};
      var before := Precedes(items, p, j);
      var after := Precedes(items, j, p);
      if !before && !after {
        NormReal(items, p);
        NormReal(items, j);
        LexTotal(Norm(items, p), Norm(items, j));
        return Some(p);
      }
      LexIrreflexive(Norm(items, j));
    }
    return None;
  }

  lemma FirstSeen(items: Items, seen: set<nat>, p: nat)
    requires p < |items| && items[p].Tag? && Firsts(items, seen, p)
    ensures IsFirst(items, p) <==> forall q :: q in seen ==> Norm(items, q) != Norm(items, p)
    decreases p
  {
    if !IsFirst(items, p) && forall q :: q in seen ==> Norm(items, q) != Norm(items, p) {
      var q: nat :| q < p && items[q].Tag? && Norm(items, q) == Norm(items, p);
      assert q !in seen && !IsFirst(items, q);
      EarliestSeen(items, seen, p, q);
    }
  }

  /** Among equal blocks, the first one has been seen. */
  lemma {:induction false} EarliestSeen(items: Items, seen: set<nat>, end: nat, q: nat)
    requires q < end <= |items| && items[q].Tag? && Firsts(items, seen, end)
    ensures exists s :: s in seen && Norm(items, s) == Norm(items, q)
    decreases q
  {
    if q !in seen {
      var r: nat :| r < q && items[r].Tag? && Norm(items, r) == Norm(items, q);
      EarliestSeen(items, seen, end, r);
    }
  }

  lemma SeenMore(items: Items, seen: set<nat>, i: nat)
    requires i < |items| && Firsts(items, seen, i)
    ensures Firsts(items, if items[i].Tag? && IsFirst(items, i) then seen + {i} else seen, i + 1)
  {
  }

  lemma OriginalSeen(items: Items, seen: set<nat>, i: nat, q: nat)
    requires i < |items| && items[i].Tag? && Firsts(items, seen, i) && q in seen && Norm(items, q) == Norm(items, i)
    ensures !IsFirst(items, i)
    ensures ReplacementFor(items, i + 1) == ReplacementFor(items, i)[items[i].data := items[q].data]
  {
    OriginalUnique(items, i, q, Original(items, i));
  }

  lemma BlockSeen(items: Items, seen: set<nat>, i: nat, block: Option<nat>)
    requires i < |items| && items[i].Tag? && Firsts(items, seen, i)
    requires block.Some? ==> block.value in seen && Norm(items, block.value) == Norm(items, i)
    requires block.None? ==> forall p :: p in seen ==> Norm(items, p) != Norm(items, i)
    ensures Firsts(items, if block.None? then seen + {i} else seen, i + 1)
    ensures ReplacementFor(items, i + 1)
         == if block.None? then ReplacementFor(items, i)
            else ReplacementFor(items, i)[items[i].data := items[block.value].data]
  {
    SeenMore(items, seen, i);
    FirstSeen(items, seen, i);
    if block.Some? {
      OriginalSeen(items, seen, i, block.value);
    }
  }

  /** The tags to be replaced, and by which. */
  method TagReplacement(items: Items) returns (m: Replacement)
    requires AllReal(items)
    ensures m == ReplacementFor(items, |items|)
  {
    var seen: set<nat> := {};
    m := map[];
    for i := 0 to |items|
      invariant Firsts(items, seen, i) && m == ReplacementFor(items, i)
    {
      if items[i].Tag? {
        var block := FindBlock(items, seen, i);
        BlockSeen(items, seen, i, block);
        if block.None? {
          seen := seen + {i};
        } else {
          m := m[items[i].data := items[block.value].data];
        }
      }
    }
  }

  /** Every replacement comes from a block and the first one like it, and no such block is left out. */
  lemma {:induction false} ReplacementFrom(items: Items, n: nat)
    requires n <= |items|
    ensures forall t :: t in ReplacementFor(items, n) ==>
      exists j: nat :: j < n && items[j] == Tag(t) && !IsFirst(items, j)
                       && items[Original(items, j)].data == ReplacementFor(items, n)[t]
    ensures forall p: nat :: p < n && items[p].Tag? && !IsFirst(items, p) ==> items[p].data in ReplacementFor(items, n)
  {
    if n > 0 {
      ReplacementFrom(items, n - 1);
      var m, m' := ReplacementFor(items, n - 1), ReplacementFor(items, n);
      forall t | t in m'
        ensures exists j: nat :: j < n && items[j] == Tag(t) && !IsFirst(items, j)
                                 && items[Original(items, j)].data == m'[t]
      {
        if items[n - 1] == Tag(t) && !IsFirst(items, n - 1) {
          assert items[Original(items, n - 1)].data == m'[t];
        }
      }
    }
  }

  /** If no tag is defined twice, the replacement is one that preserves every run. */
  lemma {:induction false} ReplacementIsValid(items: Items)
    requires DistinctTags(items) && NoSelf(items)
    ensures ValidReplacement(items, ReplacementFor(items, |items|))
    ensures forall p: nat :: p < |items| && items[p].Tag? ==>
      (items[p].data in ReplacementFor(items, |items|) <==> !IsFirst(items, p))
  {
    var m := ReplacementFor(items, |items|);
    ReplacementFrom(items, |items|);
    forall p: nat | p < |items| && items[p].Tag?
      ensures items[p].data in m <==> !IsFirst(items, p)
    {
    }
    forall t | t in m
      ensures exists j: nat, i: nat :: Merges(items, m, j, i) && items[j].data == t
    {
      var j: nat :| j < |items| && items[j] == Tag(t) && !IsFirst(items, j)
                    && items[Original(items, j)].data == m[t];
      assert Merges(items, m, j, Original(items, j));
    }
  }

  /** The items after one round. */
  ghost function AfterRound(items: Items): Items { ReplacedItems(ReplacementFor(items, |items|), items) }

  lemma {:induction false} RoundIsValid(items: Items, first: Items, rounds: seq<Round>)
    requires DistinctTags(items) && NoSelf(items) && AllReal(items) && Rounds(rounds, first, items)
    ensures var items' := AfterRound(items);
      && DistinctTags(items') && NoSelf(items') && AllReal(items')
      && Rounds(rounds + [Round(items, ReplacementFor(items, |items|))], first, items')
  {
    var round := Round(items, ReplacementFor(items, |items|));
    ReplacementIsValid(items);
    StillDistinct(items, round.replacement);
    assert (rounds + [round])[..|rounds|] == rounds;
  }

  /** A round that changes something shortens the reach of the pushed tags; otherwise the program is reduced. */
  lemma {:induction false} RoundEnds(items: Items, changed: bool)
    requires DistinctTags(items) && NoSelf(items)
    requires changed <==>
      exists k :: 0 <= k < |items| && items[k].PushTag? && items[k].data in ReplacementFor(items, |items|)
    ensures changed ==> Reach(AfterRound(items), |items|) < Reach(items, |items|)
    ensures !changed ==> AfterRound(items) == items && Reduced(items)
  {
    ReplacementIsValid(items);
    ReachFalls(items, ReplacementFor(items, |items|), |items|);
  }

  class BlockDeduplicator {
    const items: array<AssemblyItem>

    constructor (a: array<AssemblyItem>)
      ensures items == a
    {
      items := a;
    }

    /** Pushes the new tags instead of the old ones. */
    method Apply(m: Replacement) returns (changed: bool)
      modifies items
      ensures items[..] == ReplacedItems(m, old(items[..]))
      ensures changed <==>
        exists k :: 0 <= k < |old(items[..])| && old(items[..])[k].PushTag? && old(items[..])[k].data in m
    {
      ghost var before := items[..];
      changed := false;
      for i := 0 to items.Length
        invariant forall k :: 0 <= k < i ==> items[k] == ReplacedItem(m, before[k])
        invariant forall k :: i <= k < items.Length ==> items[k] == before[k]
        invariant changed <==> exists k :: 0 <= k < i && before[k].PushTag? && before[k].data in m
      {
        if items[i].PushTag? && items[i].data in m {
          changed := true;
          items[i] := PushTag(m[items[i].data]);
        }
      }
      assert items[..] == ReplacedItems(m, before);
    }

    /**
     * Renames pushed tags until every one names the first of the blocks equal to its own. Gives up if the virtual
     * tag is taken.
     */
    method Deduplicate() returns (r: bool, ghost rounds: seq<Round>)
      requires DistinctTags(items[..]) && AllReal(items[..])
      modifies items
      ensures Rounds(rounds, old(items[..]), items[..])
      ensures r <==> rounds != []
      ensures if NoSelf(old(items[..])) then Reduced(items[..]) else rounds == []
    {
      rounds := [];
      r := false;
      for k := 0 to items.Length
        invariant forall j :: 0 <= j < k ==> items[j] != Tag(SELF) && items[j] != PushTag(SELF)
      {
        if items[k] == Tag(SELF) || items[k] == PushTag(SELF) {
          assert old(items[..])[k] == items[k];
          return false, [];
        }
      }
      ghost var first := items[..];
      assert NoSelf(first);
      var changed := true;
      while changed
        invariant DistinctTags(items[..]) && NoSelf(items[..]) && AllReal(items[..])
        invariant Rounds(rounds, first, items[..]) && (r <==> rounds != [])
        invariant !changed ==> Reduced(items[..])
        decreases Reach(items[..], items.Length), changed
      {
        ghost var before := items[..];
        var m := TagReplacement(items[..]);
        changed := Apply(m);
        RoundIsValid(before, first, rounds);
        RoundEnds(before, changed);
        if changed {
          r := true;
          rounds := rounds + [Round(before, m)];
        }
      }
    }
  }

  // ----- a tag that is defined twice -----

  /** A block of one item and a STOP. */
  lemma ShortBlock(items: Items, p: nat, x: AssemblyItem)
    requires p + 2 < |items| && items[p].Tag? && items[p + 1] == x && items[p + 2] == Operation(STOP)
    requires x.Operation? && !Ends(x)
    ensures Norm(items, p) == [x, Operation(STOP)]
  {
    assert Tail(items, p + 1) == [x] + Tail(items, p + 2);
    assert Tail(items, p) == [x, Operation(STOP)];
  }

  const CALLER_ITEM := Operation(CALLER)
  const ORIGIN_ITEM := Operation(ORIGIN)
  const STOP_ITEM := Operation(STOP)

  /** Tags 1 and 2 are defined twice, once for each of two different blocks. */
  function Twice(t: int): Items
  {
    [PushTag(t), Operation(JUMP), Tag(1), CALLER_ITEM, STOP_ITEM, Tag(2), ORIGIN_ITEM, STOP_ITEM,
     Tag(2), CALLER_ITEM, STOP_ITEM, Tag(1), ORIGIN_ITEM, STOP_ITEM]
  }

  lemma TwiceFirsts(items: Items, t: int)
    requires items == Twice(t)
    ensures IsFirst(items, 2) && IsFirst(items, 5) && IsOriginal(items, 8, 2) && IsOriginal(items, 11, 5)
    ensures forall q: nat :: IsOriginal(items, 8, q) ==> q == 2
    ensures forall q: nat :: IsOriginal(items, 11, q) ==> q == 5
  {
    ShortBlock(items, 2, CALLER_ITEM);
    ShortBlock(items, 5, ORIGIN_ITEM);
    ShortBlock(items, 8, CALLER_ITEM);
    ShortBlock(items, 11, ORIGIN_ITEM);
    assert Norm(items, 2)[0] != Norm(items, 5)[0];
    forall q: nat | q < |items| && items[q].Tag?
      ensures q == 2 || q == 5 || q == 8 || q == 11
    {
    }
  }

  lemma {:induction false} TwiceReplacement(items: Items, t: int)
    requires items == Twice(t)
    ensures ReplacementFor(items, |items|) == map[2 := 1, 1 := 2]
  {
    TwiceFirsts(items, t);
    SameReplacement(items, 0, 8);
    SameReplacement(items, 9, 11);
    SameReplacement(items, 12, 14);
    assert ReplacementFor(items, 9) == map[2 := 1];
    assert ReplacementFor(items, 12) == map[2 := 1, 1 := 2];
  }

  lemma {:induction false} SameReplacement(items: Items, m: nat, n: nat)
    requires m <= n <= |items| && forall p: nat :: m <= p < n && items[p].Tag? ==> IsFirst(items, p)
    ensures ReplacementFor(items, m) == ReplacementFor(items, n)
    decreases n
  {
    if m < n {
      SameReplacement(items, m, n - 1);
    }
  }

  /** Without distinct tags the rounds can go on for ever: these two programs turn into each other. */
  lemma RoundsNeverEnd()
    ensures Twice(1) != Twice(2) && AfterRound(Twice(1)) == Twice(2) && AfterRound(Twice(2)) == Twice(1)
  {
    TwiceReplacement(Twice(1), 1);
    TwiceReplacement(Twice(2), 2);
    assert Twice(1)[0] != Twice(2)[0];
  }

  // ----- blocks that contain PC -----

  const PC_ITEM := Operation(PC)

  /** Two equal blocks that push their own position, and a jump to block t. */
  function TwoPlaces(t: int): Items
  {
    [PushTag(t), Operation(JUMP), Tag(1), PC_ITEM, STOP_ITEM, Tag(2), PC_ITEM, STOP_ITEM]
  }

  lemma {:induction false} TwoPlacesMerged(items: Items, t: int)
    requires items == TwoPlaces(t)
    ensures ReplacementFor(items, |items|) == map[2 := 1]
  {
    ShortBlock(items, 2, PC_ITEM);
    ShortBlock(items, 5, PC_ITEM);
    assert IsOriginal(items, 5, 2);
    forall q: nat | q < |items| && items[q].Tag?
      ensures q == 2 || q == 5
    {
    }
    SameReplacement(items, 0, 5);
    SameReplacement(items, 6, 8);
  }

  lemma JumpsToBlock<W>(items: Items, t: int, p: nat, effect: Effect<W>, world: W)
    requires DistinctTags(items) && 1 < p < |items| && items[1] == Operation(JUMP) && items[p] == Tag(t)
    ensures NextOf(items, effect, Config(1, [Label(t)], world)) == At(p, [], world)
  {
    PositionIs(items, t, 0, p);
    assert [Label(t)][..0] == [];
  }

  lemma PcInBlock<W>(items: Items, p: nat, effect: Effect<W>, world: W)
    requires p < |items| - 1 && items[p].Tag? && items[p + 1] == PC_ITEM
    ensures NextOf(items, effect, Config(p, [], world)) == At(p + 2, [Number(effect.address(p + 1))], world)
  {
    assert SkipTags(items, p) == p + 1;
    PcPushes(effect, p + 1, [], world);
    assert [] + [Number(effect.address(p + 1))] == [Number(effect.address(p + 1))];
  }

  lemma {:induction false} ThreeSteps<W>(items: Items, effect: Effect<W>, a: Next<W>, b: Next<W>, c: Next<W>)
    requires a.Go? && b.Go? && c.Go?
    requires NextOf(items, effect, a.config) == b && NextOf(items, effect, b.config) == c
    ensures RunFor(items, effect, 3, a) == NextOf(items, effect, c.config)
  {
    RunFirst(items, effect, 3, a);
    RunFirst(items, effect, 2, b);
    RunFirst(items, effect, 1, c);
    RunEnds(items, effect, 0, NextOf(items, effect, c.config));
  }

  /** A jump to a block that begins with PC pushes its position. */
  lemma {:induction false} PushesPlace<W>(items: Items, t: int, p: nat, effect: Effect<W>, world: W)
    requires DistinctTags(items) && 2 <= p < |items| - 1 && items[0] == PushTag(t) && items[1] == Operation(JUMP)
    requires items[p] == Tag(t) && items[p + 1] == PC_ITEM
    ensures RunFor(items, effect, 3, At(0, [], world)) == At(p + 2, [Number(effect.address(p + 1))], world)
  {
    assert [] + [Label(t)] == [Label(t)];
    JumpsToBlock(items, t, p, effect, world);
    PcInBlock(items, p, effect, world);
    ThreeSteps(items, effect, At(0, [], world), At(1, [Label(t)], world), At(p, [], world));
  }

  lemma PlacesDiffer<W>(m: Replacement, a: Word, b: Word, p: nat, q: nat, world: W)
    ensures SeenSame(m, At(p, [Number(a)], world), At(q, [Number(b)], world)) <==> a == b
  {
    assert [Number(a)][0] == Number(a) && [Number(b)][0] == Number(b);
    assert RenamedStack(m, [Number(a)]) == [Number(a)];
  }

  /** The program has blocks with PC at p and q, the second of which is merged into the first. */
  lemma {:induction false} SeesPlaces<W>(
    items: Items, items': Items, m: Replacement, p: nat, q: nat, effect: Effect<W>, world: W)
    requires DistinctTags(items) && DistinctTags(items') && items' == ReplacedItems(m, items)
    requires 2 <= p < q < |items| - 1 && items[0] == PushTag(2) && items'[0] == PushTag(1)
    requires items[1] == items'[1] == Operation(JUMP) && items'[p] == Tag(1) && items[q] == Tag(2)
    requires items'[p + 1] == items[q + 1] == PC_ITEM
    ensures SeenSameAfter(items, m, effect, 3, At(0, [], world), At(0, [], world)) <==>
      effect.address(p + 1) == effect.address(q + 1)
  {
    PushesPlace(items, 2, q, effect, world);
    PushesPlace(items', 1, p, effect, world);
    PlacesDiffer(m, effect.address(q + 1), effect.address(p + 1), q + 2, p + 2, world);
  }

  lemma {:induction false} RoundOfTwoPlaces()
    ensures DistinctTags(TwoPlaces(2)) && ValidReplacement(TwoPlaces(2), ReplacementFor(TwoPlaces(2), |TwoPlaces(2)|))
    ensures AfterRound(TwoPlaces(2)) == TwoPlaces(1)
  {
    TwoPlacesMerged(TwoPlaces(2), 2);
    ReplacementIsValid(TwoPlaces(2));
  }

  /** Merging blocks that contain PC changes what PC pushes. */
  lemma {:induction false} PcIsMerged<W>(effect: Effect<W>, world: W)
    ensures var m := ReplacementFor(TwoPlaces(2), |TwoPlaces(2)|);
      && ValidReplacement(TwoPlaces(2), m) && AfterRound(TwoPlaces(2)) == TwoPlaces(1)
      && (SeenSameAfter(TwoPlaces(2), m, effect, 3, At(0, [], world), At(0, [], world)) <==>
          effect.address(3) == effect.address(6))
  {
    RoundOfTwoPlaces();
    SeesPlaces(
      TwoPlaces(2), TwoPlaces(1), ReplacementFor(TwoPlaces(2), |TwoPlaces(2)|), 2, 5, effect, world);
  }
}
