/**
 * Replacing a pushed tag by the tag of an earlier block with the same normalised items preserves every run, up
 * to the names of tags on the stack.
 */
module Deduplication {
  import opened Results
  import opened Words
  import opened Evm
  import opened Blocks
  import opened LabelMachine

  type Replacement = map<int, int>

  function Replaced(m: Replacement, t: int): int { if t in m then m[t] else t }

  function ReplacedItem(m: Replacement, item: AssemblyItem): AssemblyItem
  {
    if item.PushTag? then PushTag(Replaced(m, item.data)) else item
  }

  function ReplacedItems(m: Replacement, items: Items): (r: Items)
    ensures |r| == |items|
  {
    seq(|items|, k requires 0 <= k < |items| => ReplacedItem(m, items[k]))
  }

  predicate DistinctTags(items: Items)
  {
    forall i, j :: 0 <= i < |items| && 0 <= j < |items| && items[i].Tag? && items[i] == items[j] ==> i == j
  }

  predicate NoSelf(items: Items)
  {
    forall k :: 0 <= k < |items| ==> items[k] != Tag(SELF) && items[k] != PushTag(SELF)
  }

  /** The tag at position j may be replaced by the one at the earlier position i. */
  predicate Merges(items: Items, m: Replacement, j: nat, i: nat)
  {
    && i < j < |items| && items[i].Tag? && items[j].Tag?
    && items[j].data in m && m[items[j].data] == items[i].data && items[i].data !in m
    && Norm(items, i) == Norm(items, j)
  }

  ghost predicate ValidReplacement(items: Items, m: Replacement)
  {
    && DistinctTags(items) && NoSelf(items)
    && forall t :: t in m ==> exists j: nat, i: nat :: Merges(items, m, j, i) && items[j].data == t
  }

  // ----- positions that behave alike -----

  /** The items from p and from q on are the same, up to the tags of the blocks they belong to. */
  predicate AlikeAs(items: Items, m: Replacement, p: nat, q: nat, a: int, b: int)
  {
    Replaced(m, a) == Replaced(m, b) && UnifiedAll(Tail(items, p), a) == UnifiedAll(Tail(items, q), b)
  }

  ghost predicate Alike(items: Items, m: Replacement, p: nat, q: nat) { exists a, b :: AlikeAs(items, m, p, q, a, b) }

  lemma AlikeItself(items: Items, m: Replacement, p: nat)
    ensures Alike(items, m, p, p)
  {
    assert AlikeAs(items, m, p, p, 0, 0);
  }

  lemma {:induction false} TailFromSkip(items: Items, p: nat)
    ensures Tail(items, p) == Tail(items, SkipTags(items, p))
    decreases |items| - p
  {
    if p < |items| && items[p].Tag? {
      TailFromSkip(items, p + 1);
    }
  }

  /** The item the machine executes at p is the first of the tail. */
  lemma TailHead(items: Items, p: nat)
    ensures var q := SkipTags(items, p);
      if q >= |items| then Tail(items, p) == []
      else Tail(items, p) == [items[q]] + (if Ends(items[q]) then [] else Tail(items, q + 1))
  {
    TailFromSkip(items, p);
  }

  lemma UnifiedHead(x: AssemblyItem, y: AssemblyItem, s: Items, t: Items, a: int, b: int)
    requires UnifiedAll([x] + s, a) == UnifiedAll([y] + t, b)
    ensures Unified(x, a) == Unified(y, b) && UnifiedAll(s, a) == UnifiedAll(t, b)
  {
    var u, v := UnifiedAll([x] + s, a), UnifiedAll([y] + t, b);
    assert u[0] == Unified(x, a) && v[0] == Unified(y, b);
    assert u[1..] == UnifiedAll(s, a) && v[1..] == UnifiedAll(t, b);
  }

  lemma UnifiedSame(m: Replacement, x: AssemblyItem, y: AssemblyItem, a: int, b: int)
    requires Unified(x, a) == Unified(y, b) && Replaced(m, a) == Replaced(m, b)
    requires x != PushTag(SELF) && y != PushTag(SELF)
    ensures ReplacedItem(m, x) == ReplacedItem(m, y) && Ends(x) == Ends(y)
  {
  }

  lemma AlikeStepsAs(items: Items, m: Replacement, p: nat, q: nat, a: int, b: int)
    requires AlikeAs(items, m, p, q, a, b) && NoSelf(items)
    ensures var p', q' := SkipTags(items, p), SkipTags(items, q);
      && (p' >= |items| <==> q' >= |items|)
      && (p' < |items| ==>
            && ReplacedItem(m, items[p']) == ReplacedItem(m, items[q'])
            && (Ends(items[p']) || AlikeAs(items, m, p' + 1, q' + 1, a, b)))
  {
    var p', q' := SkipTags(items, p), SkipTags(items, q);
    TailHead(items, p);
    TailHead(items, q);
    assert |UnifiedAll(Tail(items, p), a)| == |Tail(items, p)| && |UnifiedAll(Tail(items, q), b)| == |Tail(items, q)|;
    if p' < |items| {
      var s := if Ends(items[p']) then [] else Tail(items, p' + 1);
      var t := if Ends(items[q']) then [] else Tail(items, q' + 1);
      UnifiedHead(items[p'], items[q'], s, t, a, b);
      UnifiedSame(m, items[p'], items[q'], a, b);
    }
  }

  /** Alike positions execute the same item, or each its own tag, and go on alike. */
  lemma AlikeSteps(items: Items, m: Replacement, p: nat, q: nat)
    requires Alike(items, m, p, q) && NoSelf(items)
    ensures var p', q' := SkipTags(items, p), SkipTags(items, q);
      && (p' >= |items| <==> q' >= |items|)
      && (p' < |items| ==>
            && ReplacedItem(m, items[p']) == ReplacedItem(m, items[q'])
            && (Ends(items[p']) || Alike(items, m, p' + 1, q' + 1)))
  {
    var a, b :| AlikeAs(items, m, p, q, a, b);
    AlikeStepsAs(items, m, p, q, a, b);
  }

  // ----- tags and their positions -----

  lemma {:induction false} PositionIs(items: Items, tag: int, from: nat, j: nat)
    requires DistinctTags(items) && from <= j < |items| && items[j] == Tag(tag)
    ensures Position(items, tag, from) == Some(j)
    decreases |items| - from
  {
    if items[from] != Tag(tag) {
      PositionIs(items, tag, from + 1, j);
    }
  }

  lemma {:induction false} SamePosition(items: Items, m: Replacement, tag: int, from: nat)
    ensures Position(ReplacedItems(m, items), tag, from) == Position(items, tag, from)
    decreases |items| - from
  {
    if from < |items| {
      SamePosition(items, m, tag, from + 1);
    }
  }

  lemma {:induction false} SameSkip(items: Items, m: Replacement, p: nat)
    ensures SkipTags(ReplacedItems(m, items), p) == SkipTags(items, p)
    decreases |items| - p
  {
    if p < |items| {
      SameSkip(items, m, p + 1);
    }
  }

  /** The target of a jump and the target after replacement are both there or not, and alike. */
  lemma {:induction false} JumpsAlike(items: Items, m: Replacement, tag: int)
    requires ValidReplacement(items, m)
    ensures var p, q := Position(items, tag, 0), Position(items, Replaced(m, tag), 0);
      (p.Some? <==> q.Some?) && (p.Some? ==> Alike(items, m, p.value, q.value))
  {
    if tag in m {
      var j: nat, i: nat :| Merges(items, m, j, i) && items[j].data == tag;
      PositionIs(items, tag, 0, j);
      PositionIs(items, m[tag], 0, i);
      assert AlikeAs(items, m, j, i, tag, m[tag]);
    } else {
      var p := Position(items, tag, 0);
      if p.Some? {
        AlikeItself(items, m, p.value);
      }
    }
  }

  // ----- the simulation -----

  function RenamedValue(m: Replacement, v: Value): Value { if v.Label? then Label(Replaced(m, v.tag)) else v }

  function RenamedStack(m: Replacement, stack: seq<Value>): (r: seq<Value>)
    ensures |r| == |stack|
  {
    seq(|stack|, k requires 0 <= k < |stack| => RenamedValue(m, stack[k]))
  }

  ghost predicate Related<W>(items: Items, m: Replacement, c: Config<W>, c': Config<W>)
  {
    Alike(items, m, c.pc, c'.pc) && c'.stack == RenamedStack(m, c.stack) && c'.world == c.world
  }

  ghost predicate RelatedNext<W>(items: Items, m: Replacement, n: Next<W>, n': Next<W>)
  {
    match n
    case Go(c) => n'.Go? && Related(items, m, c, n'.config)
    case _ => n' == n
  }

  /** What can be seen of a machine: its stack up to merged tags, the world, and how it stopped. */
  predicate SeenSame<W(==)>(m: Replacement, n: Next<W>, n': Next<W>)
  {
    match n
    case Go(c) => n'.Go? && n'.config.stack == RenamedStack(m, c.stack) && n'.config.world == c.world
    case _ => n' == n
  }

  /** The items executed next are not PC, or at one place. */
  predicate SamePlaceNext<W>(items: Items, effect: Effect<W>, pc: nat, pc': nat)
  {
    var p, q := SkipTags(items, pc), SkipTags(items, pc');
    p < |items| ==> SamePlace(effect, items[p], p, q)
  }

  lemma JumpSimulates<W>(
    items: Items, m: Replacement, p: nat, q: nat, stack: seq<Value>, world: W, n: nat, taken: bool)
    requires ValidReplacement(items, m) && 0 < n <= |stack| && (!taken ==> Alike(items, m, p + 1, q + 1))
    ensures RelatedNext(items, m, JumpStep(items, p, stack, world, n, taken),
              JumpStep(ReplacedItems(m, items), q, RenamedStack(m, stack), world, n, taken))
  {
    var h, stack' := |stack|, RenamedStack(m, stack);
    assert stack'[..h - n] == RenamedStack(m, stack[..h - n]);
    if taken && stack[h - 1].Label? {
      JumpsAlike(items, m, stack[h - 1].tag);
      SamePosition(items, m, Replaced(m, stack[h - 1].tag), 0);
    }
  }

  lemma NumbersRenamed(m: Replacement, stack: seq<Value>)
    ensures AllNumbers(RenamedStack(m, stack)) <==> AllNumbers(stack)
    ensures AllNumbers(stack) ==> RenamedStack(m, stack) == stack
  {
    if !AllNumbers(stack) {
      var k :| 0 <= k < |stack| && !stack[k].Number?;
      assert !RenamedStack(m, stack)[k].Number?;
    }
  }

  lemma OtherSimulates<W>(
    items: Items, m: Replacement, effect: Effect<W>, item: AssemblyItem, p: nat, q: nat, stack: seq<Value>, world: W)
    requires !IsPc(item) && (Ends(item) || Alike(items, m, p + 1, q + 1))
    ensures RelatedNext(items, m, OtherStep(effect, item, p, stack, world),
              OtherStep(effect, item, q, RenamedStack(m, stack), world))
  {
    var h, n, stack' := |stack|, Arity(item), RenamedStack(m, stack);
    if n <= h {
      assert stack'[h - n..] == RenamedStack(m, stack[h - n..]);
      NumbersRenamed(m, stack[h - n..]);
      if AllNumbers(stack[h - n..]) && !Ends(item) {
        var r := effect.does(item, WordsOf(stack[h - n..]), world);
        if r.Some? {
          RenamedWithNumbers(m, stack[..h - n], r.value.0);
          assert stack'[..h - n] == RenamedStack(m, stack[..h - n]);
        }
      }
    }
  }

  /** PC sees its position. */
  lemma PcSees<W>(
    items: Items, m: Replacement, effect: Effect<W>, p: nat, q: nat, stack: seq<Value>, world: W)
    requires Alike(items, m, p + 1, q + 1)
    ensures var x := Plain(effect, Operation(PC), p, stack, world);
      var y := Plain(effect, Operation(PC), q, RenamedStack(m, stack), world);
      && (effect.address(p) == effect.address(q) <==> SeenSame(m, x, y))
      && (effect.address(p) == effect.address(q) <==> RelatedNext(items, m, x, y))
  {
    PcPushes(effect, p, stack, world);
    PcPushes(effect, q, RenamedStack(m, stack), world);
    RenamedAppend(m, stack, Number(effect.address(p)));
    var h := |stack|;
    assert (RenamedStack(m, stack) + [Number(effect.address(p))])[h] == Number(effect.address(p));
    assert (RenamedStack(m, stack) + [Number(effect.address(q))])[h] == Number(effect.address(q));
  }

  lemma RenamedWithNumbers(m: Replacement, stack: seq<Value>, words: seq<Word>)
    ensures RenamedStack(m, stack + Numbers(words)) == RenamedStack(m, stack) + Numbers(words)
  {
  }

  lemma RenamedAppend(m: Replacement, stack: seq<Value>, v: Value)
    ensures RenamedStack(m, stack + [v]) == RenamedStack(m, stack) + [RenamedValue(m, v)]
  {
  }

  lemma RenamedSwap(m: Replacement, stack: seq<Value>, n: nat)
    requires n < |stack|
    ensures RenamedStack(m, Swapping(stack, n)) == Swapping(RenamedStack(m, stack), n)
  {
  }

  lemma JumpItemSimulates<W>(
    items: Items, m: Replacement, x: AssemblyItem, p: nat, q: nat, stack: seq<Value>, world: W)
    requires ValidReplacement(items, m) && IsJump(x) && (Ends(x) || Alike(items, m, p + 1, q + 1))
    ensures RelatedNext(items, m, Jumping(items, x, p, stack, world),
              Jumping(ReplacedItems(m, items), x, q, RenamedStack(m, stack), world))
  {
    var h := |stack|;
    if x == Operation(JUMP) {
      if h >= 1 {
        JumpSimulates(items, m, p, q, stack, world, 1, true);
      }
    } else if h >= 2 && stack[h - 2].Number? {
      JumpSimulates(items, m, p, q, stack, world, 2, stack[h - 2].word != 0);
    }
  }

  lemma ArrangedRenamed(m: Replacement, i: Instruction, stack: seq<Value>)
    requires i.DUP? || i.SWAP? || i == POP
    ensures Arranged(i, RenamedStack(m, stack)) ==
      if Arranged(i, stack).None? then None else Some(RenamedStack(m, Arranged(i, stack).value))
  {
    var h := |stack|;
    if i.DUP? {
      if 1 <= i.depth <= h {
        RenamedAppend(m, stack, stack[h - i.depth]);
      }
    } else if i.SWAP? {
      if i.depth < h {
        RenamedSwap(m, stack, i.depth);
      }
    } else if 1 <= h {
      assert RenamedStack(m, stack)[..h - 1] == RenamedStack(m, stack[..h - 1]);
    }
  }

  lemma PlainSimulates<W>(
    items: Items, m: Replacement, effect: Effect<W>, x: AssemblyItem, y: AssemblyItem, p: nat, q: nat,
    stack: seq<Value>, world: W)
    requires ReplacedItem(m, x) == ReplacedItem(m, y) && !IsPc(x) && (Ends(x) || Alike(items, m, p + 1, q + 1))
    ensures RelatedNext(items, m, Plain(effect, x, p, stack, world),
              Plain(effect, ReplacedItem(m, y), q, RenamedStack(m, stack), world))
  {
    if x.PushTag? {
      RenamedAppend(m, stack, Label(x.data));
    } else if MovesStack(x) {
      ArrangedRenamed(m, x.instruction, stack);
    } else if !x.UndefinedItem? {
      OtherSimulates(items, m, effect, x, p, q, stack, world);
    }
  }

  lemma ExecuteSimulates<W>(
    items: Items, m: Replacement, effect: Effect<W>, x: AssemblyItem, y: AssemblyItem, p: nat, q: nat,
    stack: seq<Value>, world: W)
    requires ValidReplacement(items, m) && ReplacedItem(m, x) == ReplacedItem(m, y)
    requires Ends(x) || Alike(items, m, p + 1, q + 1)
    ensures var n := Execute(items, effect, x, p, stack, world);
      var n' := Execute(ReplacedItems(m, items), effect, ReplacedItem(m, y), q, RenamedStack(m, stack), world);
      && (SamePlace(effect, x, p, q) <==> SeenSame(m, n, n'))
      && (SamePlace(effect, x, p, q) <==> RelatedNext(items, m, n, n'))
  {
    if IsJump(x) {
      JumpItemSimulates(items, m, x, p, q, stack, world);
    } else if IsPc(x) {
      PcSees(items, m, effect, p, q, stack, world);
    } else {
      PlainSimulates(items, m, effect, x, y, p, q, stack, world);
    }
  }

  /**
   * One step of the program and of the program with replaced tags: what can be seen stays the same exactly if no PC
   * is executed at two places.
   */
  lemma StepSimulates<W>(items: Items, m: Replacement, effect: Effect<W>, c: Config<W>, c': Config<W>)
    requires ValidReplacement(items, m) && Related(items, m, c, c')
    ensures var n, n' := NextOf(items, effect, c), NextOf(ReplacedItems(m, items), effect, c');
      && (SamePlaceNext(items, effect, c.pc, c'.pc) <==> SeenSame(m, n, n'))
      && (SamePlaceNext(items, effect, c.pc, c'.pc) <==> RelatedNext(items, m, n, n'))
  {
    var p, q := SkipTags(items, c.pc), SkipTags(items, c'.pc);
    SameSkip(items, m, c'.pc);
    AlikeSteps(items, m, c.pc, c'.pc);
    if p < |items| {
      ExecuteSimulates(items, m, effect, items[p], items[q], p, q, c.stack, c.world);
    }
  }

  /** After k steps what can be seen is the same. */
  predicate SeenSameAfter<W(==)>(
    items: Items, m: Replacement, effect: Effect<W>, k: nat, next: Next<W>, next': Next<W>)
  {
    SeenSame(m, RunFor(items, effect, k, next), RunFor(ReplacedItems(m, items), effect, k, next'))
  }

  /** The step after the first k executes no PC, or both programs do so at one place. */
  predicate SamePlaceAfter<W>(
    items: Items, m: Replacement, effect: Effect<W>, k: nat, next: Next<W>, next': Next<W>)
  {
    var n, n' := RunFor(items, effect, k, next), RunFor(ReplacedItems(m, items), effect, k, next');
    n.Go? && n'.Go? ==> SamePlaceNext(items, effect, n.config.pc, n'.config.pc)
  }

  /**
   * A run of the program and of the program with replaced tags: what can be seen is the same all the time exactly if
   * no PC is executed at two places on the way.
   */
  lemma {:induction false} RunSimulates<W>(
    items: Items, m: Replacement, effect: Effect<W>, n: nat, next: Next<W>, next': Next<W>)
    requires ValidReplacement(items, m) && RelatedNext(items, m, next, next')
    ensures (forall k: nat :: k <= n ==> SeenSameAfter(items, m, effect, k, next, next'))
       <==> (forall k: nat :: k < n ==> SamePlaceAfter(items, m, effect, k, next, next'))
    ensures (forall k: nat :: k < n ==> SamePlaceAfter(items, m, effect, k, next, next')) ==>
      RelatedNext(items, m, RunFor(items, effect, n, next), RunFor(ReplacedItems(m, items), effect, n, next'))
  {
    var items' := ReplacedItems(m, items);
    if n == 0 {
      RunEnds(items, effect, 0, next);
      RunEnds(items', effect, 0, next');
      assert SeenSameAfter(items, m, effect, 0, next, next');
    } else {
      RunSimulates(items, m, effect, n - 1, next, next');
      if forall k: nat :: k < n - 1 ==> SamePlaceAfter(items, m, effect, k, next, next') {
        OneMoreStep(items, m, effect, n, next, next');
      }
    }
  }

  lemma {:induction false} OneMoreStep<W>(
    items: Items, m: Replacement, effect: Effect<W>, n: nat, next: Next<W>, next': Next<W>)
    requires ValidReplacement(items, m) && n > 0
    requires RelatedNext(
               items, m, RunFor(items, effect, n - 1, next), RunFor(ReplacedItems(m, items), effect, n - 1, next'))
    ensures SamePlaceAfter(items, m, effect, n - 1, next, next') <==> SeenSameAfter(items, m, effect, n, next, next')
    ensures SamePlaceAfter(items, m, effect, n - 1, next, next') ==> RelatedNext(
        items, m, RunFor(items, effect, n, next), RunFor(ReplacedItems(m, items), effect, n, next'))
  {
    var items' := ReplacedItems(m, items);
    RunLast(items, effect, n, next);
    RunLast(items', effect, n, next');
    var r, r' := RunFor(items, effect, n - 1, next), RunFor(items', effect, n - 1, next');
    if r.Go? {
      StepSimulates(items, m, effect, r.config, r'.config);
    }
  }

  // ----- PC outside merged blocks -----

  /** No merged block contains PC. */
  ghost predicate KeepsPc(items: Items, m: Replacement)
  {
    forall j: nat, i: nat :: Merges(items, m, j, i) ==> NoPc(Tail(items, j))
  }

  /** What is executed from p on is executed in place, or contains no PC. */
  predicate Unmoved(items: Items, p: nat, q: nat) { p == q || NoPc(Tail(items, p)) }

  predicate UnmovedNext<W>(items: Items, n: Next<W>, n': Next<W>)
  {
    n.Go? && n'.Go? ==> Unmoved(items, n.config.pc, n'.config.pc)
  }

  lemma NoPcLater(items: Items, p: nat)
    requires NoPc(Tail(items, p))
    ensures var q := SkipTags(items, p);
      q < |items| ==> !IsPc(items[q]) && (Ends(items[q]) || NoPc(Tail(items, q + 1)))
  {
    TailHead(items, p);
    var q := SkipTags(items, p);
    if q < |items| {
      var rest := if Ends(items[q]) then [] else Tail(items, q + 1);
      assert Tail(items, p)[0] == items[q];
      forall k | 0 <= k < |rest|
        ensures !IsPc(rest[k])
      {
        assert Tail(items, p)[k + 1] == rest[k];
      }
    }
  }

  lemma {:induction false} JumpsUnmoved(items: Items, m: Replacement, tag: int)
    requires ValidReplacement(items, m) && KeepsPc(items, m)
    ensures var p, q := Position(items, tag, 0), Position(items, Replaced(m, tag), 0);
      p.Some? && q.Some? ==> Unmoved(items, p.value, q.value)
  {
    if tag in m {
      var j: nat, i: nat :| Merges(items, m, j, i) && items[j].data == tag;
      PositionIs(items, tag, 0, j);
    }
  }

  lemma JumpStepUnmoved<W>(
    items: Items, m: Replacement, p: nat, q: nat, stack: seq<Value>, world: W, n: nat, taken: bool)
    requires ValidReplacement(items, m) && KeepsPc(items, m) && 0 < n <= |stack|
    requires !taken ==> Unmoved(items, p + 1, q + 1)
    ensures UnmovedNext(items, JumpStep(items, p, stack, world, n, taken),
              JumpStep(ReplacedItems(m, items), q, RenamedStack(m, stack), world, n, taken))
  {
    var h := |stack|;
    if taken && stack[h - 1].Label? {
      JumpsUnmoved(items, m, stack[h - 1].tag);
      SamePosition(items, m, Replaced(m, stack[h - 1].tag), 0);
    }
  }

  lemma ExecuteUnmoved<W>(
    items: Items, m: Replacement, effect: Effect<W>, x: AssemblyItem, y: AssemblyItem, p: nat, q: nat,
    stack: seq<Value>, world: W)
    requires ValidReplacement(items, m) && KeepsPc(items, m) && ReplacedItem(m, x) == ReplacedItem(m, y)
    requires Ends(x) || Unmoved(items, p + 1, q + 1)
    ensures UnmovedNext(items, Execute(items, effect, x, p, stack, world),
              Execute(ReplacedItems(m, items), effect, ReplacedItem(m, y), q, RenamedStack(m, stack), world))
  {
    var h := |stack|;
    if x == Operation(JUMP) {
      if h >= 1 {
        JumpStepUnmoved(items, m, p, q, stack, world, 1, true);
      }
    } else if x == Operation(JUMPI) {
      if h >= 2 && stack[h - 2].Number? {
        JumpStepUnmoved(items, m, p, q, stack, world, 2, stack[h - 2].word != 0);
      }
    } else {
      PlainAnywhere(effect, x, p, p, stack, world);
      PlainAnywhere(effect, ReplacedItem(m, y), q, q, RenamedStack(m, stack), world);
    }
  }

  /** If no merged block contains PC, no PC is executed at two places. */
  lemma StepUnmoved<W>(items: Items, m: Replacement, effect: Effect<W>, c: Config<W>, c': Config<W>)
    requires ValidReplacement(items, m) && KeepsPc(items, m)
    requires Related(items, m, c, c') && Unmoved(items, c.pc, c'.pc)
    ensures SamePlaceNext(items, effect, c.pc, c'.pc)
    ensures UnmovedNext(items, NextOf(items, effect, c), NextOf(ReplacedItems(m, items), effect, c'))
  {
    var p, q := SkipTags(items, c.pc), SkipTags(items, c'.pc);
    SameSkip(items, m, c'.pc);
    AlikeSteps(items, m, c.pc, c'.pc);
    if p < |items| {
      if c.pc != c'.pc {
        NoPcLater(items, c.pc);
      }
      ExecuteUnmoved(items, m, effect, items[p], items[q], p, q, c.stack, c.world);
    }
  }

  /** Any number of steps. */
  lemma {:induction false} RunUnmoved<W>(
    items: Items, m: Replacement, effect: Effect<W>, n: nat, next: Next<W>, next': Next<W>)
    requires ValidReplacement(items, m) && KeepsPc(items, m)
    requires RelatedNext(items, m, next, next') && UnmovedNext(items, next, next')
    ensures var r, r' := RunFor(items, effect, n, next), RunFor(ReplacedItems(m, items), effect, n, next');
      RelatedNext(items, m, r, r') && UnmovedNext(items, r, r')
  {
    if n == 0 || !next.Go? {
      RunEnds(items, effect, n, next);
      RunEnds(ReplacedItems(m, items), effect, n, next');
    } else {
      StepSimulates(items, m, effect, next.config, next'.config);
      StepUnmoved(items, m, effect, next.config, next'.config);
      RunFirst(items, effect, n, next);
      RunFirst(ReplacedItems(m, items), effect, n, next');
      RunUnmoved(items, m, effect, n - 1,
        NextOf(items, effect, next.config), NextOf(ReplacedItems(m, items), effect, next'.config));
    }
  }

  /** From no tag on the code runs into PC. */
  predicate NoPcInBlocks(items: Items)
  {
    forall p: nat :: p < |items| && items[p].Tag? ==> NoPc(Tail(items, p))
  }

  lemma {:induction false} TailReplaced(items: Items, m: Replacement, p: nat)
    ensures Tail(ReplacedItems(m, items), p) == ReplacedItems(m, Tail(items, p))
    decreases |items| - p
  {
    if p < |items| {
      TailReplaced(items, m, p + 1);
    }
  }

  lemma NoPcStill(items: Items, m: Replacement)
    requires NoPcInBlocks(items)
    ensures KeepsPc(items, m) && NoPcInBlocks(ReplacedItems(m, items))
  {
    var items' := ReplacedItems(m, items);
    forall p: nat | p < |items'| && items'[p].Tag?
      ensures NoPc(Tail(items', p))
    {
      assert items[p].Tag?;
      TailReplaced(items, m, p);
    }
  }

  // ----- several rounds -----

  datatype Round = Round(items: Items, replacement: Replacement)

  /** Rounds of replacement that lead from one program to another. */
  ghost predicate Rounds(rounds: seq<Round>, items: Items, items': Items)
  {
    if rounds == [] then items == items'
    else
      var last := rounds[|rounds| - 1];
      && Rounds(rounds[..|rounds| - 1], items, last.items)
      && ValidReplacement(last.items, last.replacement) && items' == ReplacedItems(last.replacement, last.items)
  }

  /** No round merges blocks that contain PC. */
  ghost predicate AllKeepPc(rounds: seq<Round>)
  {
    forall k :: 0 <= k < |rounds| ==> KeepsPc(rounds[k].items, rounds[k].replacement)
  }

  /** If no block contains PC, no round merges one that does. */
  lemma {:induction false} NoPcToMerge(rounds: seq<Round>, items: Items, items': Items)
    requires Rounds(rounds, items, items') && NoPcInBlocks(items)
    ensures AllKeepPc(rounds) && NoPcInBlocks(items')
  {
    if rounds != [] {
      var before, last := rounds[..|rounds| - 1], rounds[|rounds| - 1];
      NoPcToMerge(before, items, last.items);
      NoPcStill(last.items, last.replacement);
      forall k | 0 <= k < |rounds|
        ensures KeepsPc(rounds[k].items, rounds[k].replacement)
      {
        assert k < |before| ==> rounds[k] == before[k];
      }
    }
  }

  /** The name a tag has after all rounds. */
  function FinalTag(rounds: seq<Round>, t: int): int
  {
    if rounds == [] then t
    else Replaced(rounds[|rounds| - 1].replacement, FinalTag(rounds[..|rounds| - 1], t))
  }

  function FinalStack(rounds: seq<Round>, stack: seq<Value>): (r: seq<Value>)
    ensures |r| == |stack|
  {
    seq(|stack|, k requires 0 <= k < |stack| =>
      if stack[k].Label? then Label(FinalTag(rounds, stack[k].tag)) else stack[k])
  }

  /** The same can be seen of both machines, up to tags merged in any of the rounds. */
  ghost predicate SameView<W>(rounds: seq<Round>, n: Next<W>, n': Next<W>)
  {
    match n
    case Go(c) => n'.Go? && n'.config.stack == FinalStack(rounds, c.stack) && n'.config.world == c.world
    case _ => n' == n
  }

  lemma FinalStackStep(rounds: seq<Round>, stack: seq<Value>)
    requires rounds != []
    ensures FinalStack(rounds, stack)
         == RenamedStack(rounds[|rounds| - 1].replacement, FinalStack(rounds[..|rounds| - 1], stack))
  {
  }

  /**
   * Deduplication preserves behaviour if no merged block contains PC: after any number of steps from the beginning,
   * both programs have the same stack up to merged tags and the same world, or have stopped in the same way.
   */
  lemma {:induction false} DeduplicationPreserves<W>(
    rounds: seq<Round>, items: Items, items': Items, effect: Effect<W>, n: nat, stack: seq<Value>, world: W)
    requires Rounds(rounds, items, items') && AllKeepPc(rounds)
    ensures SameView(rounds,
              RunFor(items, effect, n, Go(Config(0, stack, world))),
              RunFor(items', effect, n, Go(Config(0, FinalStack(rounds, stack), world))))
  {
    if rounds == [] {
      assert FinalStack(rounds, stack) == stack;
      var r := RunFor(items, effect, n, Go(Config(0, stack, world)));
      if r.Go? {
        assert FinalStack(rounds, r.config.stack) == r.config.stack;
      }
    } else {
      var before, last := rounds[..|rounds| - 1], rounds[|rounds| - 1];
      forall k | 0 <= k < |before|
        ensures KeepsPc(before[k].items, before[k].replacement)
      {
        assert before[k] == rounds[k];
      }
      DeduplicationPreserves(before, items, last.items, effect, n, stack, world);
      var c := Config(0, FinalStack(before, stack), world);
      var c' := Config(0, FinalStack(rounds, stack), world);
      FinalStackStep(rounds, stack);
      AlikeItself(last.items, last.replacement, 0);
      RunUnmoved(last.items, last.replacement, effect, n, Go(c), Go(c'));
      var r := RunFor(items, effect, n, Go(Config(0, stack, world)));
      if r.Go? {
        FinalStackStep(rounds, r.config.stack);
      }
    }
  }

  // ----- termination -----

  function Points(items: Items, item: AssemblyItem): nat
  {
    if item.PushTag? && Position(items, item.data, 0).Some? then Position(items, item.data, 0).value else 0
  }

  /** How far into the program the first k items' pushed tags point, all together. */
  function Reach(items: Items, k: nat): nat
    requires k <= |items|
  {
    if k == 0 then 0 else Reach(items, k - 1) + Points(items, items[k - 1])
  }

  /** A replaced tag points to an earlier position. */
  lemma PointsEarlier(items: Items, m: Replacement, item: AssemblyItem)
    requires ValidReplacement(items, m)
    ensures Points(items, ReplacedItem(m, item)) <= Points(items, item)
    ensures item.PushTag? && item.data in m ==> Points(items, ReplacedItem(m, item)) < Points(items, item)
  {
    if item.PushTag? && item.data in m {
      var j: nat, i: nat :| Merges(items, m, j, i) && items[j].data == item.data;
      PositionIs(items, item.data, 0, j);
      PositionIs(items, m[item.data], 0, i);
    }
  }

  lemma {:induction false} ReachFalls(items: Items, m: Replacement, k: nat)
    requires ValidReplacement(items, m) && k <= |items|
    ensures Reach(ReplacedItems(m, items), k) <= Reach(items, k)
    ensures (exists j :: 0 <= j < k && items[j].PushTag? && items[j].data in m) ==>
      Reach(ReplacedItems(m, items), k) < Reach(items, k)
  {
    if k > 0 {
      ReachFalls(items, m, k - 1);
      PointsEarlier(items, m, items[k - 1]);
      var item := ReplacedItem(m, items[k - 1]);
      if item.PushTag? {
        SamePosition(items, m, item.data, 0);
      }
    }
  }

  /** Replacement keeps the program in shape for the next round. */
  lemma StillDistinct(items: Items, m: Replacement)
    requires ValidReplacement(items, m)
    ensures DistinctTags(ReplacedItems(m, items)) && NoSelf(ReplacedItems(m, items))
  {
    var items' := ReplacedItems(m, items);
    forall k | 0 <= k < |items'|
      ensures items'[k] != Tag(SELF) && items'[k] != PushTag(SELF)
    {
      if items[k].PushTag? && items[k].data in m {
        var j: nat, i: nat :| Merges(items, m, j, i) && items[j].data == items[k].data;
        assert items[i] != Tag(SELF);
      }
    }
  }

  /** No earlier block has the same normalised items. */
  predicate IsFirst(items: Items, p: nat)
  {
    forall q: nat :: q < p && q < |items| && items[q].Tag? ==> Norm(items, q) != Norm(items, p)
  }

  /** Every pushed tag that exists names the first of all blocks that are equal to its own. */
  predicate Reduced(items: Items)
  {
    forall k, p :: 0 <= k < |items| && 0 <= p < |items| && items[k].PushTag? && items[p] == Tag(items[k].data) ==>
      IsFirst(items, p)
  }
}
