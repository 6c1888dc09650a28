/**
 * A machine for whole programs of assembly items whose tags are opaque: a pushed tag can be moved around on the
 * stack and jumped to, but is no number. Everything else about an instruction is given from outside; only PC sees
 * where in the code it is.
 */
module LabelMachine {
  import opened Results
  import opened Words
  import opened Evm
  import opened Blocks

  datatype Value = Number(word: Word) | Label(tag: int)

  datatype Config<W> = Config(pc: nat, stack: seq<Value>, world: W)

  datatype Next<W> =
    | Go(config: Config<W>)
    | Halted(item: AssemblyItem, args: seq<Word>, world: W)
    | Stuck

  /**
   * What an instruction with the given arguments pushes, and does to the world, or None if it fails; and the address
   * in the assembled code of the item at a position, which is what PC pushes.
   */
  datatype Effect<!W> = Effect(
    does: (AssemblyItem, seq<Word>, W) -> Option<(seq<Word>, W)>,
    address: nat -> Word)

  predicate IsPc(item: AssemblyItem) { item == Operation(PC) }

  predicate NoPc(items: Items) { forall k :: 0 <= k < |items| ==> !IsPc(items[k]) }

  /** What the item at position p does. */
  function Done<W>(effect: Effect<W>, item: AssemblyItem, p: nat, args: seq<Word>, world: W): Option<(seq<Word>, W)>
  {
    if IsPc(item) then Some(([effect.address(p)], world)) else effect.does(item, args, world)
  }

  /** Tags do nothing. */
  function SkipTags(items: Items, p: nat): (q: nat)
    ensures p <= |items| ==> p <= q <= |items|
    ensures q < |items| ==> !items[q].Tag?
    decreases |items| - p
  {
    if p < |items| && items[p].Tag? then SkipTags(items, p + 1) else p
  }

  function Position(items: Items, tag: int, from: nat): (r: Option<nat>)
    ensures r.Some? ==> from <= r.value < |items| && items[r.value] == Tag(tag)
    decreases |items| - from
  {
    if from >= |items| then None
    else if items[from] == Tag(tag) then Some(from)
    else Position(items, tag, from + 1)
  }

  predicate AllNumbers(stack: seq<Value>) { forall k :: 0 <= k < |stack| ==> stack[k].Number? }

  function WordsOf(stack: seq<Value>): seq<Word>
    requires AllNumbers(stack)
  {
    seq(|stack|, k requires 0 <= k < |stack| => stack[k].word)
  }

  function Numbers(words: seq<Word>): seq<Value>
  {
    seq(|words|, k requires 0 <= k < |words| => Number(words[k]))
  }

  function Arity(item: AssemblyItem): nat { if item.Operation? then Info(item.instruction).args else 0 }

  function Swapping(stack: seq<Value>, n: nat): seq<Value>
    requires n < |stack|
  {
    var top := |stack| - 1;
    stack[top := stack[top - n]][top - n := stack[top]]
  }

  /** A jump to the topmost element, if taken; the jump takes n elements from the stack. */
  function JumpStep<W>(items: Items, p: nat, stack: seq<Value>, world: W, n: nat, taken: bool): Next<W>
    requires 0 < n <= |stack|
  {
    var h, rest := |stack|, stack[..|stack| - n];
    if !taken then Go(Config(p + 1, rest, world))
    else if stack[h - 1].Number? || Position(items, stack[h - 1].tag, 0).None? then Stuck
    else Go(Config(Position(items, stack[h - 1].tag, 0).value, rest, world))
  }

  function At<W>(p: nat, stack: seq<Value>, world: W): Next<W> { Go(Config(p, stack, world)) }

  predicate MovesStack(item: AssemblyItem)
  {
    item.Operation? && (item.instruction.DUP? || item.instruction.SWAP? || item.instruction == POP)
  }

  /** The stack after a DUP, SWAP or POP. */
  function Arranged(i: Instruction, stack: seq<Value>): Option<seq<Value>>
  {
    var h := |stack|;
    if i.DUP? then (if 1 <= i.depth <= h then Some(stack + [stack[h - i.depth]]) else None)
    else if i.SWAP? then (if i.depth < h then Some(Swapping(stack, i.depth)) else None)
    else if 1 <= h then Some(stack[..h - 1])
    else None
  }

  function OtherStep<W>(effect: Effect<W>, item: AssemblyItem, p: nat, stack: seq<Value>, world: W): Next<W>
  {
    var h, n := |stack|, Arity(item);
    if n > h || !AllNumbers(stack[h - n..]) then Stuck
    else
      var args := WordsOf(stack[h - n..]);
      if Ends(item) then Halted(item, args, world)
      else
        var r := Done(effect, item, p, args, world);
        if r.None? then Stuck else At(p + 1, stack[..h - n] + Numbers(r.value.0), r.value.1)
  }

  /** An item at position p that does not jump. */
  function Plain<W>(effect: Effect<W>, item: AssemblyItem, p: nat, stack: seq<Value>, world: W): Next<W>
  {
    if item.UndefinedItem? then Stuck
    else if item.PushTag? then At(p + 1, stack + [Label(item.data)], world)
    else if MovesStack(item) then
      var r := Arranged(item.instruction, stack);
      if r.None? then Stuck else At(p + 1, r.value, world)
    else OtherStep(effect, item, p, stack, world)
  }

  predicate IsJump(item: AssemblyItem) { item == Operation(JUMP) || item == Operation(JUMPI) }

  function Jumping<W>(items: Items, item: AssemblyItem, p: nat, stack: seq<Value>, world: W): Next<W>
  {
    var h := |stack|;
    if item == Operation(JUMP) then (if h < 1 then Stuck else JumpStep(items, p, stack, world, 1, true))
    else if h < 2 || stack[h - 2].Label? then Stuck
    else JumpStep(items, p, stack, world, 2, stack[h - 2].word != 0)
  }

  /** The item at position p. */
  function Execute<W>(items: Items, effect: Effect<W>, item: AssemblyItem, p: nat, stack: seq<Value>, world: W): Next<W>
  {
    if IsJump(item) then Jumping(items, item, p, stack, world) else Plain(effect, item, p, stack, world)
  }

  /** Does the item see the same place at both positions? */
  predicate SamePlace<W>(effect: Effect<W>, item: AssemblyItem, p: nat, q: nat)
  {
    IsPc(item) ==> effect.address(p) == effect.address(q)
  }

  /** What another position makes of a step. */
  function Elsewhere<W>(next: Next<W>, q: nat): Next<W>
  {
    if next.Go? then At(q, next.config.stack, next.config.world) else next
  }

  /** The outcomes are the same, apart from the position in the code. */
  predicate Same<W(==)>(x: Next<W>, y: Next<W>)
  {
    if x.Go? then y.Go? && x.config.stack == y.config.stack && x.config.world == y.config.world else x == y
  }

  lemma PcPushes<W>(effect: Effect<W>, p: nat, stack: seq<Value>, world: W)
    ensures Plain(effect, Operation(PC), p, stack, world) == At(p + 1, stack + [Number(effect.address(p))], world)
  {
    assert stack[|stack|..] == [] && stack[..|stack|] == stack;
    assert Numbers([effect.address(p)]) == [Number(effect.address(p))];
  }

  /** An item that does not jump does the same at two positions exactly if it is not PC, or they are one place. */
  lemma PlainAnywhere<W>(effect: Effect<W>, item: AssemblyItem, p: nat, q: nat, stack: seq<Value>, world: W)
    ensures var x, y := Plain(effect, item, p, stack, world), Plain(effect, item, q, stack, world);
      && (x.Go? ==> x.config.pc == p + 1)
      && (SamePlace(effect, item, p, q) <==> Same(x, y))
      && (SamePlace(effect, item, p, q) <==> y == Elsewhere(x, q + 1))
  {
    if IsPc(item) {
      PcPushes(effect, p, stack, world);
      PcPushes(effect, q, stack, world);
      assert (stack + [Number(effect.address(p))])[|stack|] == Number(effect.address(p));
      assert (stack + [Number(effect.address(q))])[|stack|] == Number(effect.address(q));
    }
  }

  /** At the end of the code the machine stops. */
  function NextOf<W>(items: Items, effect: Effect<W>, c: Config<W>): Next<W>
  {
    var p := SkipTags(items, c.pc);
    if p >= |items| then Halted(Operation(STOP), [], c.world)
    else Execute(items, effect, items[p], p, c.stack, c.world)
  }

  function Iterated<W>(step: Config<W> -> Next<W>, n: nat, next: Next<W>): Next<W>
  {
    if n == 0 || !next.Go? then next else Iterated(step, n - 1, step(next.config))
  }

  function Stepping<W>(items: Items, effect: Effect<W>): Config<W> -> Next<W>
  {
    (c: Config<W>) => NextOf(items, effect, c)
  }

  function RunFor<W>(items: Items, effect: Effect<W>, n: nat, next: Next<W>): Next<W>
  {
    Iterated(Stepping(items, effect), n, next)
  }

  lemma {:induction false} IteratedSplit<W>(step: Config<W> -> Next<W>, n: nat, m: nat, next: Next<W>)
    ensures Iterated(step, n + m, next) == Iterated(step, m, Iterated(step, n, next))
    decreases n
  {
    if n > 0 && next.Go? {
      IteratedSplit(step, n - 1, m, step(next.config));
    }
  }

  lemma IteratedOnce<W>(step: Config<W> -> Next<W>, n: nat, next: Next<W>)
    requires n > 0 && next.Go?
    ensures Iterated(step, n, next) == Iterated(step, n - 1, step(next.config))
  {
  }

  lemma {:induction false} IteratedEnds<W>(step: Config<W> -> Next<W>, n: nat, next: Next<W>)
    requires n == 0 || !next.Go?
    ensures Iterated(step, n, next) == next
  {
  }

  lemma {:induction false} NextAt<W>(items: Items, effect: Effect<W>, pc: nat, p: nat, stack: seq<Value>, world: W)
    requires p == SkipTags(items, pc) < |items|
    ensures NextOf(items, effect, Config(pc, stack, world)) == Execute(items, effect, items[p], p, stack, world)
  {
  }

  lemma RunFirst<W>(items: Items, effect: Effect<W>, n: nat, next: Next<W>)
    requires n > 0 && next.Go?
    ensures RunFor(items, effect, n, next) == RunFor(items, effect, n - 1, NextOf(items, effect, next.config))
  {
    IteratedOnce(Stepping(items, effect), n, next);
  }

  lemma RunLast<W>(items: Items, effect: Effect<W>, n: nat, next: Next<W>)
    requires n > 0
    ensures var r := RunFor(items, effect, n - 1, next);
      RunFor(items, effect, n, next) == if r.Go? then NextOf(items, effect, r.config) else r
  {
    var r := RunFor(items, effect, n - 1, next);
    IteratedSplit(Stepping(items, effect), n - 1, 1, next);
    if r.Go? {
      IteratedOnce(Stepping(items, effect), 1, r);
      IteratedEnds(Stepping(items, effect), 0, NextOf(items, effect, r.config));
    } else {
      IteratedEnds(Stepping(items, effect), 1, r);
    }
  }

  lemma RunEnds<W>(items: Items, effect: Effect<W>, n: nat, next: Next<W>)
    requires n == 0 || !next.Go?
    ensures RunFor(items, effect, n, next) == next
  {
    IteratedEnds(Stepping(items, effect), n, next);
  }

  // ----- addresses -----

  /** A program without PC does not see addresses. */
  lemma {:induction false} AddressesUnseen<W>(
    items: Items, effect: Effect<W>, address: nat -> Word, n: nat, next: Next<W>)
    requires NoPc(items)
    ensures RunFor(items, effect.(address := address), n, next) == RunFor(items, effect, n, next)
    decreases n
  {
    var effect' := effect.(address := address);
    if n == 0 || !next.Go? {
      RunEnds(items, effect, n, next);
      RunEnds(items, effect', n, next);
    } else {
      RunFirst(items, effect, n, next);
      RunFirst(items, effect', n, next);
      var p := SkipTags(items, next.config.pc);
      if p < |items| {
        assert !IsPc(items[p]);
      }
      assert NextOf(items, effect', next.config) == NextOf(items, effect, next.config);
      AddressesUnseen(items, effect, address, n - 1, NextOf(items, effect, next.config));
    }
  }
}
