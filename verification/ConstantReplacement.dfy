/**
 * Replacing every push of a constant by a routine that does the same preserves every run of the program.
 */
module ConstantReplacement {
  import opened Results
  import opened Words
  import opened Evm
  import opened Blocks
  import opened LabelMachine

  // ----- straight-line routines -----

  datatype Local<W> = Local(stack: seq<Value>, world: W)

  predicate IsStraight(item: AssemblyItem)
  {
    !item.Tag? && !Ends(item) && item != Operation(JUMPI) && !IsPc(item)
  }

  predicate AllStraight(routine: Items) { forall i :: 0 <= i < |routine| ==> IsStraight(routine[i]) }

  /** The effect of a routine, wherever in the code it is. */
  function Straight<W>(routine: Items, effect: Effect<W>, s: Local<W>): Option<Local<W>>
  {
    if routine == [] then Some(s)
    else
      match Plain(effect, routine[0], 0, s.stack, s.world)
      case Go(c) => Straight(routine[1..], effect, Local(c.stack, c.world))
      case _ => None
  }

  lemma {:induction false} StraightAppend<W>(routine: Items, more: Items, effect: Effect<W>, s: Local<W>)
    ensures Straight(routine + more, effect, s) ==
            (if Straight(routine, effect, s).None? then None
             else Straight(more, effect, Straight(routine, effect, s).value))
  {
    if routine == [] {
      assert routine + more == more;
    } else {
      assert (routine + more)[1..] == routine[1..] + more;
      match Plain(effect, routine[0], 0, s.stack, s.world)
      case Go(c) => StraightAppend(routine[1..], more, effect, Local(c.stack, c.world));
      case _ =>
    }
  }

  function From<W>(pc: nat, s: Local<W>): Next<W> { At(pc, s.stack, s.world) }

  lemma RunSplit<W>(code: Items, effect: Effect<W>, n: nat, m: nat, next: Next<W>)
    ensures RunFor(code, effect, n + m, next) == RunFor(code, effect, m, RunFor(code, effect, n, next))
  {
    IteratedSplit(Stepping(code, effect), n, m, next);
  }

  /** Tags in front do not matter. */
  lemma {:induction false} RunSkips<W>(code: Items, effect: Effect<W>, n: nat, pc: nat, p: nat, s: Local<W>)
    requires n > 0 && p == SkipTags(code, pc) < |code|
    ensures RunFor(code, effect, n, From(pc, s))
         == RunFor(code, effect, n - 1, Execute(code, effect, code[p], p, s.stack, s.world))
  {
    RunFirst(code, effect, n, From(pc, s));
    NextAt(code, effect, pc, p, s.stack, s.world);
  }

  lemma {:induction false} RunStraight<W>(code: Items, o: nat, routine: Items, effect: Effect<W>, s: Local<W>)
    requires o + |routine| <= |code| && code[o..o + |routine|] == routine && AllStraight(routine)
    requires Straight(routine, effect, s).Some?
    ensures RunFor(code, effect, |routine|, From(o, s)) == From(o + |routine|, Straight(routine, effect, s).value)
    decreases |routine|
  {
    if routine != [] {
      assert code[o] == routine[0] && IsStraight(routine[0]);
      RunSkips(code, effect, |routine|, o, o, s);
      PlainAnywhere(effect, routine[0], 0, o, s.stack, s.world);
      var c := Plain(effect, routine[0], 0, s.stack, s.world).config;
      assert code[o + 1..o + 1 + |routine[1..]|] == routine[1..];
      RunStraight(code, o + 1, routine[1..], effect, Local(c.stack, c.world));
    } else {
      RunEnds(code, effect, 0, From(o, s));
    }
  }

  // ----- the program with all pushes of a constant replaced -----

  function Piece(item: AssemblyItem, v: Word, routine: Items): Items
  {
    if item == Push(v) then routine else [item]
  }

  function Expanded(items: Items, v: Word, routine: Items): Items
  {
    if items == [] then []
    else
      var last := |items| - 1;
      Expanded(items[..last], v, routine) + Piece(items[last], v, routine)
  }

  /** Where the item at position i ends up. */
  function Moved(items: Items, v: Word, routine: Items, i: nat): nat
    requires i <= |items|
  {
    |Expanded(items[..i], v, routine)|
  }

  lemma {:induction false} ExpandedSnoc(items: Items, v: Word, routine: Items, i: nat)
    requires i < |items|
    ensures Expanded(items[..i + 1], v, routine) == Expanded(items[..i], v, routine) + Piece(items[i], v, routine)
    ensures Moved(items, v, routine, i + 1) == Moved(items, v, routine, i) + |Piece(items[i], v, routine)|
  {
    assert items[..i + 1][..i] == items[..i];
  }

  lemma {:induction false} ExpandedPrefix(items: Items, v: Word, routine: Items, i: nat, j: nat)
    requires i <= j <= |items|
    ensures Moved(items, v, routine, i) <= Moved(items, v, routine, j)
    ensures Expanded(items[..i], v, routine) <= Expanded(items[..j], v, routine)
    decreases j
  {
    if i < j {
      ExpandedPrefix(items, v, routine, i, j - 1);
      ExpandedSnoc(items, v, routine, j - 1);
    }
  }

  lemma SliceOfPrefix(front: Items, piece: Items, whole: Items)
    requires front + piece <= whole
    ensures |front| + |piece| <= |whole| && whole[|front|..|front| + |piece|] == piece
  {
    assert whole[..|front| + |piece|] == front + piece;
  }

  /** The piece for an item is where it should be. */
  lemma {:induction false} PieceAt(items: Items, v: Word, routine: Items, i: nat)
    requires i < |items|
    ensures var p, q := Moved(items, v, routine, i), Moved(items, v, routine, i + 1);
      p <= q <= |Expanded(items, v, routine)| && Expanded(items, v, routine)[p..q] == Piece(items[i], v, routine)
  {
    ExpandedSnoc(items, v, routine, i);
    ExpandedPrefix(items, v, routine, i + 1, |items|);
    assert items[..|items|] == items;
    SliceOfPrefix(Expanded(items[..i], v, routine), Piece(items[i], v, routine), Expanded(items, v, routine));
  }

  lemma {:induction false} MovedEnd(items: Items, v: Word, routine: Items)
    ensures Moved(items, v, routine, |items|) == |Expanded(items, v, routine)|
  {
    assert items[..|items|] == items;
  }

  // ----- tags -----

  lemma {:induction false} TagAt(items: Items, v: Word, routine: Items, i: nat)
    requires i < |items| && items[i] != Push(v)
    ensures var p := Moved(items, v, routine, i);
      && p < |Expanded(items, v, routine)| && Expanded(items, v, routine)[p] == items[i]
      && Moved(items, v, routine, i + 1) == p + 1
  {
    PieceAt(items, v, routine, i);
    ExpandedSnoc(items, v, routine, i);
    var p := Moved(items, v, routine, i);
    assert Expanded(items, v, routine)[p] == Expanded(items, v, routine)[p..p + 1][0];
  }

  lemma {:induction false} RoutineStart(items: Items, v: Word, routine: Items, i: nat)
    requires i < |items| && items[i] == Push(v) && routine != [] && AllStraight(routine)
    ensures var p := Moved(items, v, routine, i);
      p < |Expanded(items, v, routine)| && !Expanded(items, v, routine)[p].Tag?
  {
    PieceAt(items, v, routine, i);
    var p, q := Moved(items, v, routine, i), Moved(items, v, routine, i + 1);
    assert Expanded(items, v, routine)[p] == Expanded(items, v, routine)[p..q][0];
  }

  lemma {:induction false} SkipMoved(items: Items, v: Word, routine: Items, i: nat)
    requires i <= |items| && routine != [] && AllStraight(routine)
    ensures SkipTags(Expanded(items, v, routine), Moved(items, v, routine, i))
      == Moved(items, v, routine, SkipTags(items, i))
    decreases |items| - i
  {
    MovedEnd(items, v, routine);
    if i < |items| {
      if items[i] == Push(v) {
        RoutineStart(items, v, routine, i);
      } else {
        TagAt(items, v, routine, i);
        if items[i].Tag? {
          SkipMoved(items, v, routine, i + 1);
        }
      }
    }
  }

  lemma {:induction false} NoTagBetween(code: Items, tag: int, p: nat, q: nat)
    requires p <= q <= |code| && forall k :: p <= k < q ==> !code[k].Tag?
    ensures Position(code, tag, p) == Position(code, tag, q)
    decreases q - p
  {
    if p < q {
      NoTagBetween(code, tag, p + 1, q);
    }
  }

  function MovedPosition(items: Items, v: Word, routine: Items, r: Option<nat>): Option<nat>
    requires r.Some? ==> r.value <= |items|
  {
    if r.None? then None else Some(Moved(items, v, routine, r.value))
  }

  lemma NoTagInSlice(code: Items, p: nat, q: nat, k: nat)
    requires p <= k < q <= |code| && AllStraight(code[p..q])
    ensures !code[k].Tag?
  {
    assert IsStraight(code[p..q][k - p]);
  }

  lemma {:induction false} NoTagInRoutine(items: Items, v: Word, routine: Items, i: nat)
    requires i < |items| && items[i] == Push(v) && AllStraight(routine)
    ensures var p, q := Moved(items, v, routine, i), Moved(items, v, routine, i + 1);
      p <= q <= |Expanded(items, v, routine)| && forall k :: p <= k < q ==> !Expanded(items, v, routine)[k].Tag?
  {
    PieceAt(items, v, routine, i);
    var code := Expanded(items, v, routine);
    var p, q := Moved(items, v, routine, i), Moved(items, v, routine, i + 1);
    assert AllStraight(code[p..q]);
    forall k | p <= k < q
      ensures !code[k].Tag?
    {
      NoTagInSlice(code, p, q, k);
    }
  }

  lemma {:induction false} PositionMoved(items: Items, v: Word, routine: Items, tag: int, i: nat)
    requires i <= |items| && AllStraight(routine)
    ensures Position(Expanded(items, v, routine), tag, Moved(items, v, routine, i))
      == MovedPosition(items, v, routine, Position(items, tag, i))
    decreases |items| - i
  {
    if i == |items| {
      MovedEnd(items, v, routine);
    } else {
      PositionMoved(items, v, routine, tag, i + 1);
      var code, p, q := Expanded(items, v, routine), Moved(items, v, routine, i), Moved(items, v, routine, i + 1);
      if items[i] == Push(v) {
        NoTagInRoutine(items, v, routine, i);
        NoTagBetween(code, tag, p, q);
      } else {
        TagAt(items, v, routine, i);
        PositionStep(code, tag, p);
      }
    }
  }

  lemma PositionStep(code: Items, tag: int, p: nat)
    requires p < |code|
    ensures Position(code, tag, p) == if code[p] == Tag(tag) then Some(p) else Position(code, tag, p + 1)
  {
  }

  // ----- runs -----

  ghost predicate ActsLikePushAt<W>(routine: Items, v: Word, effect: Effect<W>, s: Local<W>)
  {
    && effect.does(Push(v), [], s.world) == Some(([v], s.world))
    && Straight(routine, effect, s) == Some(Local(s.stack + [Number(v)], s.world))
  }

  /** The routine does exactly what pushing the value does. */
  ghost predicate ActsLikePush<W(!new)>(routine: Items, v: Word, effect: Effect<W>)
  {
    routine != [] && AllStraight(routine) && forall s: Local<W> :: ActsLikePushAt(routine, v, effect, s)
  }

  predicate Within<W>(items: Items, next: Next<W>) { next.Go? ==> next.config.pc <= |items| }

  function MovedBy<W>(move: nat -> nat, next: Next<W>): Next<W>
  {
    if next.Go? then At(move(next.config.pc), next.config.stack, next.config.world) else next
  }

  // The program's code is moved around: each position has a new one, and jumps go there.

  ghost predicate TargetMoves(items: Items, code: Items, move: nat -> nat, tag: int)
  {
    Position(code, tag, 0) == match Position(items, tag, 0) case None => None case Some(p) => Some(move(p))
  }

  lemma JumpMoves<W>(
    items: Items, code: Items, move: nat -> nat, p: nat, stack: seq<Value>, world: W, n: nat, taken: bool)
    requires p < |items| && 0 < n <= |stack| && move(p + 1) == move(p) + 1
    requires stack[|stack| - 1].Label? ==> TargetMoves(items, code, move, stack[|stack| - 1].tag)
    ensures Within(items, JumpStep(items, p, stack, world, n, taken))
    ensures JumpStep(code, move(p), stack, world, n, taken) == MovedBy(move, JumpStep(items, p, stack, world, n, taken))
  {
  }

  lemma JumpingMoves<W>(
    items: Items, code: Items, move: nat -> nat, item: AssemblyItem, p: nat, stack: seq<Value>, world: W)
    requires p < |items| && move(p + 1) == move(p) + 1
    requires stack != [] && stack[|stack| - 1].Label? ==> TargetMoves(items, code, move, stack[|stack| - 1].tag)
    ensures Within(items, Jumping(items, item, p, stack, world))
    ensures Jumping(code, item, move(p), stack, world) == MovedBy(move, Jumping(items, item, p, stack, world))
  {
    var h := |stack|;
    if item == Operation(JUMP) {
      if h >= 1 {
        JumpMoves(items, code, move, p, stack, world, 1, true);
      }
    } else if h >= 2 && stack[h - 2].Number? {
      JumpMoves(items, code, move, p, stack, world, 2, stack[h - 2].word != 0);
    }
  }

  /** An item does the same at its new position exactly if it is not PC, or the address is the same. */
  lemma ExecuteMoves<W>(
    items: Items, code: Items, move: nat -> nat, effect: Effect<W>, item: AssemblyItem, p: nat, s: Local<W>)
    requires p < |items| && move(p + 1) == move(p) + 1
    requires s.stack != [] && s.stack[|s.stack| - 1].Label? ==>
      TargetMoves(items, code, move, s.stack[|s.stack| - 1].tag)
    ensures Within(items, Execute(items, effect, item, p, s.stack, s.world))
    ensures SamePlace(effect, item, p, move(p)) <==>
      Execute(code, effect, item, move(p), s.stack, s.world)
         == MovedBy(move, Execute(items, effect, item, p, s.stack, s.world))
  {
    if IsJump(item) {
      JumpingMoves(items, code, move, item, p, s.stack, s.world);
    } else {
      PlainAnywhere(effect, item, p, move(p), s.stack, s.world);
    }
  }

  /** One step of the program is k steps of the moved one. */
  ghost predicate StepMovesBy<W>(
    items: Items, code: Items, move: nat -> nat, effect: Effect<W>, pc: nat, s: Local<W>, k: nat)
  {
    var next := NextOf(items, effect, Config(pc, s.stack, s.world));
    k >= 1 && Within(items, next) && RunFor(code, effect, k, From(move(pc), s)) == MovedBy(move, next)
  }

  ghost predicate StepMoves<W>(items: Items, code: Items, move: nat -> nat, effect: Effect<W>, pc: nat, s: Local<W>)
  {
    exists k: nat :: StepMovesBy(items, code, move, effect, pc, s, k)
  }

  ghost predicate AllStepsMove<W(!new)>(items: Items, code: Items, move: nat -> nat, effect: Effect<W>)
  {
    forall pc: nat, s: Local<W> :: pc <= |items| ==> StepMoves(items, code, move, effect, pc, s)
  }

  lemma RunJoined<W>(code: Items, effect: Effect<W>, n: nat, m: nat, next: Next<W>, next': Next<W>)
    requires RunFor(code, effect, n, next) == next'
    ensures RunFor(code, effect, n + m, next) == RunFor(code, effect, m, next')
  {
    RunSplit(code, effect, n, m, next);
  }

  /** If each step of a program is some steps of the moved one, so is each run. */
  lemma {:induction false} RunMoves<W(!new)>(
    items: Items, code: Items, move: nat -> nat, effect: Effect<W>, n: nat, next: Next<W>) returns (k: nat)
    requires AllStepsMove(items, code, move, effect) && Within(items, next)
    ensures k >= n && Within(items, RunFor(items, effect, n, next))
    ensures RunFor(code, effect, k, MovedBy(move, next)) == MovedBy(move, RunFor(items, effect, n, next))
    decreases n
  {
    if n == 0 || !next.Go? {
      k := n;
      RunEnds(items, effect, n, next);
      RunEnds(code, effect, k, MovedBy(move, next));
    } else {
      var next' := NextOf(items, effect, next.config);
      var first := FirstMoves(items, code, move, effect, next.config);
      var rest := RunMoves(items, code, move, effect, n - 1, next');
      k := first + rest;
      RunMovesOn(items, code, move, effect, n, next, next', first, rest);
    }
  }

  lemma RunMovesOn<W>(
    items: Items, code: Items, move: nat -> nat, effect: Effect<W>, n: nat, next: Next<W>, next': Next<W>,
    first: nat, rest: nat)
    requires n > 0 && next.Go? && next' == NextOf(items, effect, next.config)
    requires RunFor(code, effect, first, MovedBy(move, next)) == MovedBy(move, next')
    requires RunFor(code, effect, rest, MovedBy(move, next')) == MovedBy(move, RunFor(items, effect, n - 1, next'))
    ensures RunFor(items, effect, n, next) == RunFor(items, effect, n - 1, next')
    ensures RunFor(code, effect, first + rest, MovedBy(move, next)) == MovedBy(move, RunFor(items, effect, n, next))
  {
    RunFirst(items, effect, n, next);
    RunJoined(code, effect, first, rest, MovedBy(move, next), MovedBy(move, next'));
  }

  lemma FirstMoves<W(!new)>(items: Items, code: Items, move: nat -> nat, effect: Effect<W>, c: Config<W>)
    returns (k: nat)
    requires AllStepsMove(items, code, move, effect) && c.pc <= |items|
    ensures k >= 1 && Within(items, NextOf(items, effect, c))
    ensures RunFor(code, effect, k, MovedBy(move, Go(c))) == MovedBy(move, NextOf(items, effect, c))
  {
    var s := Local(c.stack, c.world);
    assert StepMoves(items, code, move, effect, c.pc, s);
    k :| StepMovesBy(items, code, move, effect, c.pc, s, k);
    assert From(move(c.pc), s) == MovedBy(move, Go(c));
  }

  // ----- runs of the expanded program -----

  function Move(items: Items, v: Word, routine: Items): nat -> nat
  {
    (i: nat) => if i <= |items| then Moved(items, v, routine, i) else 0
  }

  lemma {:induction false} SkipTwice(code: Items, p: nat)
    ensures SkipTags(code, SkipTags(code, p)) == SkipTags(code, p)
    decreases |code| - p
  {
  }

  lemma PushOnly<W(!new)>(items: Items, v: Word, effect: Effect<W>, p: nat, s: Local<W>)
    requires effect.does(Push(v), [], s.world) == Some(([v], s.world))
    ensures Execute(items, effect, Push(v), p, s.stack, s.world) == From(p + 1, Local(s.stack + [Number(v)], s.world))
  {
    assert s.stack[|s.stack|..] == [] && s.stack[..|s.stack|] == s.stack;
    assert WordsOf([]) == [];
    assert Numbers([v]) == [Number(v)];
  }

  lemma {:induction false} RoutineRuns<W(!new)>(
    items: Items, v: Word, routine: Items, effect: Effect<W>, p: nat, s: Local<W>)
    requires p < |items| && items[p] == Push(v) && AllStraight(routine)
    requires Straight(routine, effect, s).Some?
    ensures RunFor(Expanded(items, v, routine), effect, |routine|, From(Moved(items, v, routine, p), s))
         == From(Moved(items, v, routine, p + 1), Straight(routine, effect, s).value)
  {
    PieceAt(items, v, routine, p);
    ExpandedSnoc(items, v, routine, p);
    RunStraight(Expanded(items, v, routine), Moved(items, v, routine, p), routine, effect, s);
  }

  /** A routine that acts like the push leads to where the push leads. */
  lemma {:induction false} RoutinePushes<W(!new)>(
    items: Items, v: Word, routine: Items, effect: Effect<W>, p: nat, s: Local<W>, move: nat -> nat)
    requires p < |items| && items[p] == Push(v) && AllStraight(routine) && move == Move(items, v, routine)
    requires ActsLikePushAt(routine, v, effect, s)
    ensures RunFor(Expanded(items, v, routine), effect, |routine|, From(move(p), s))
         == From(move(p + 1), Local(s.stack + [Number(v)], s.world))
  {
    RoutineRuns(items, v, routine, effect, p, s);
  }

  lemma {:induction false} TargetMoved(items: Items, v: Word, routine: Items, tag: int)
    requires AllStraight(routine)
    ensures TargetMoves(items, Expanded(items, v, routine), Move(items, v, routine), tag)
  {
    assert Moved(items, v, routine, 0) == 0 by { assert items[..0] == []; }
    PositionMoved(items, v, routine, tag, 0);
  }

  lemma {:induction false} SameFromSkip<W>(code: Items, effect: Effect<W>, k: nat, pc: nat, p: nat, s: Local<W>)
    requires k >= 1 && p == SkipTags(code, pc) < |code|
    ensures RunFor(code, effect, k, From(pc, s)) == RunFor(code, effect, k, From(p, s))
  {
    SkipTwice(code, pc);
    RunSkips(code, effect, k, pc, p, s);
    RunSkips(code, effect, k, p, p, s);
  }

  lemma {:induction false} MovesByRoutine<W>(
    items: Items, code: Items, move: nat -> nat, effect: Effect<W>, pc: nat, p: nat, k: nat, s: Local<W>, s': Local<W>)
    requires p < |items| && k >= 1 && SkipTags(code, move(pc)) == move(p) < |code|
    requires NextOf(items, effect, Config(pc, s.stack, s.world)) == From(p + 1, s')
    requires RunFor(code, effect, k, From(move(p), s)) == From(move(p + 1), s')
    ensures StepMovesBy(items, code, move, effect, pc, s, k)
  {
    SameFromSkip(code, effect, k, move(pc), move(p), s);
  }

  lemma {:induction false} PushNext<W(!new)>(items: Items, v: Word, effect: Effect<W>, pc: nat, p: nat, s: Local<W>)
    requires p == SkipTags(items, pc) < |items| && items[p] == Push(v)
    requires effect.does(Push(v), [], s.world) == Some(([v], s.world))
    ensures NextOf(items, effect, Config(pc, s.stack, s.world)) == From(p + 1, Local(s.stack + [Number(v)], s.world))
  {
    NextAt(items, effect, pc, p, s.stack, s.world);
    PushOnly(items, v, effect, p, s);
  }

  lemma {:induction false} PushMoved<W(!new)>(
    items: Items, v: Word, routine: Items, effect: Effect<W>, pc: nat, p: nat, s: Local<W>)
    requires pc <= |items| && p == SkipTags(items, pc) < |items| && items[p] == Push(v)
    requires routine != [] && AllStraight(routine) && ActsLikePushAt(routine, v, effect, s)
    ensures StepMovesBy(items, Expanded(items, v, routine), Move(items, v, routine), effect, pc, s, |routine|)
  {
    var move, s' := Move(items, v, routine), Local(s.stack + [Number(v)], s.world);
    SkipMoved(items, v, routine, pc);
    RoutineStart(items, v, routine, p);
    PushNext(items, v, effect, pc, p, s);
    RoutinePushes(items, v, routine, effect, p, s, move);
    MovesByRoutine(items, Expanded(items, v, routine), move, effect, pc, p, |routine|, s, s');
  }

  lemma {:induction false} OtherMoved<W(!new)>(
    items: Items, v: Word, routine: Items, effect: Effect<W>, pc: nat, p: nat, s: Local<W>)
    requires pc <= |items| && p == SkipTags(items, pc) < |items| && items[p] != Push(v) && !IsPc(items[p])
    requires routine != [] && AllStraight(routine)
    ensures StepMovesBy(items, Expanded(items, v, routine), Move(items, v, routine), effect, pc, s, 1)
  {
    var code, move := Expanded(items, v, routine), Move(items, v, routine);
    SkipMoved(items, v, routine, pc);
    TagAt(items, v, routine, p);
    if s.stack != [] && s.stack[|s.stack| - 1].Label? {
      TargetMoved(items, v, routine, s.stack[|s.stack| - 1].tag);
    }
    ExecuteMoves(items, code, move, effect, items[p], p, s);
    NextAt(items, effect, pc, p, s.stack, s.world);
    RunSkips(code, effect, 1, move(pc), move(p), s);
    RunEnds(code, effect, 0, Execute(code, effect, items[p], move(p), s.stack, s.world));
  }

  lemma {:induction false} EndMoved<W>(items: Items, v: Word, routine: Items, effect: Effect<W>, pc: nat, s: Local<W>)
    requires pc <= |items| && SkipTags(items, pc) >= |items|
    requires routine != [] && AllStraight(routine)
    ensures StepMovesBy(items, Expanded(items, v, routine), Move(items, v, routine), effect, pc, s, 1)
  {
    var code, move := Expanded(items, v, routine), Move(items, v, routine);
    SkipMoved(items, v, routine, pc);
    MovedEnd(items, v, routine);
    RunFirst(code, effect, 1, From(move(pc), s));
    RunEnds(code, effect, 0, NextOf(code, effect, Config(move(pc), s.stack, s.world)));
  }

  /** One step of the program is one or several steps of the expanded one. */
  lemma {:induction false} StepMoved<W(!new)>(
    items: Items, v: Word, routine: Items, effect: Effect<W>, pc: nat, s: Local<W>)
    requires pc <= |items| && ActsLikePush(routine, v, effect) && NoPc(items)
    ensures StepMoves(items, Expanded(items, v, routine), Move(items, v, routine), effect, pc, s)
  {
    var p := SkipTags(items, pc);
    if p >= |items| {
      EndMoved(items, v, routine, effect, pc, s);
    } else if items[p] == Push(v) {
      assert ActsLikePushAt(routine, v, effect, s);
      PushMoved(items, v, routine, effect, pc, p, s);
    } else {
      OtherMoved(items, v, routine, effect, pc, p, s);
    }
  }

  // ----- programs that do the same -----

  function RunFrom<W>(items: Items, effect: Effect<W>, n: nat, s: Local<W>): Next<W>
  {
    RunFor(items, effect, n, From(0, s))
  }

  /** What the first program has done after n steps the second one has done after that many steps or more. */
  ghost predicate Follows<W>(items: Items, items': Items, effect: Effect<W>, n: nat, s: Local<W>)
  {
    exists k: nat :: k >= n && Same(RunFrom(items, effect, n, s), RunFrom(items', effect, k, s))
  }

  /** Each run of the first program is one of the second. */
  ghost predicate Simulates<W(!new)>(items: Items, items': Items, effect: Effect<W>)
  {
    forall n: nat, s: Local<W> :: Follows(items, items', effect, n, s)
  }

  lemma SimulatesItself<W(!new)>(items: Items, effect: Effect<W>)
    ensures Simulates(items, items, effect)
  {
    forall n: nat, s: Local<W>
      ensures Follows(items, items, effect, n, s)
    {
      assert Same(RunFrom(items, effect, n, s), RunFrom(items, effect, n, s));
    }
  }

  lemma SimulatesTransitively<W(!new)>(a: Items, b: Items, c: Items, effect: Effect<W>)
    requires Simulates(a, b, effect) && Simulates(b, c, effect)
    ensures Simulates(a, c, effect)
  {
    forall n: nat, s: Local<W>
      ensures Follows(a, c, effect, n, s)
    {
      assert Follows(a, b, effect, n, s);
      var k: nat :| k >= n && Same(RunFrom(a, effect, n, s), RunFrom(b, effect, k, s));
      assert Follows(b, c, effect, k, s);
      var l: nat :| l >= k && Same(RunFrom(b, effect, k, s), RunFrom(c, effect, l, s));
      assert Same(RunFrom(a, effect, n, s), RunFrom(c, effect, l, s));
    }
  }

  lemma {:induction false} NoPcAfter(items: Items, v: Word, routine: Items)
    requires NoPc(items) && AllStraight(routine)
    ensures NoPc(Expanded(items, v, routine))
  {
    if items != [] {
      var last := |items| - 1;
      NoPcAfter(items[..last], v, routine);
      var piece := Piece(items[last], v, routine);
      assert forall k :: 0 <= k < |routine| ==> IsStraight(routine[k]);
    }
  }

  /** A program without PC and the one with a constant replaced do the same. */
  lemma {:induction false} ReplacementPreserves<W(!new)>(items: Items, v: Word, routine: Items, effect: Effect<W>)
    requires ActsLikePush(routine, v, effect) && NoPc(items)
    ensures Simulates(items, Expanded(items, v, routine), effect)
  {
    var code, move := Expanded(items, v, routine), Move(items, v, routine);
    assert move(0) == 0 by { assert items[..0] == []; }
    forall pc: nat, s: Local<W> | pc <= |items|
      ensures StepMoves(items, code, move, effect, pc, s)
    {
      StepMoved(items, v, routine, effect, pc, s);
    }
    forall n: nat, s: Local<W>
      ensures Follows(items, code, effect, n, s)
    {
      var k := RunMoves(items, code, move, effect, n, From(0, s));
      assert Same(RunFrom(items, effect, n, s), RunFrom(code, effect, k, s));
    }
  }

  lemma {:induction false} PieceBeforePc(v: Word, routine: Items)
    requires AllStraight(routine)
    ensures Expanded([Push(v), Operation(PC)], v, routine) == routine + [Operation(PC)]
  {
    var items := [Push(v), Operation(PC)];
    ExpandedSnoc(items, v, routine, 0);
    ExpandedSnoc(items, v, routine, 1);
    assert items[..2] == items && items[..0] == [];
  }

  lemma {:induction false} PcAfter<W>(code: Items, effect: Effect<W>, n: nat, k: nat, s: Local<W>, s': Local<W>)
    requires k < |code| && code[k] == Operation(PC) && RunFor(code, effect, n, From(0, s)) == From(k, s')
    ensures RunFrom(code, effect, n + 1, s) == From(k + 1, Local(s'.stack + [Number(effect.address(k))], s'.world))
  {
    RunLast(code, effect, n + 1, From(0, s));
    NextAt(code, effect, k, k, s'.stack, s'.world);
    PcPushes(effect, k, s'.stack, s'.world);
  }

  /** A PC behind a constant that becomes a longer routine pushes another address. */
  lemma {:induction false} PcIsMoved<W(!new)>(v: Word, routine: Items, effect: Effect<W>, s: Local<W>)
    requires ActsLikePush(routine, v, effect)
    ensures var items := [Push(v), Operation(PC)];
      Same(RunFrom(items, effect, 2, s), RunFrom(Expanded(items, v, routine), effect, |routine| + 1, s)) <==>
      effect.address(1) == effect.address(|routine|)
  {
    var items, code, n := [Push(v), Operation(PC)], routine + [Operation(PC)], |routine|;
    var s' := Local(s.stack + [Number(v)], s.world);
    PieceBeforePc(v, routine);
    assert ActsLikePushAt(routine, v, effect, s);
    RunFirst(items, effect, 1, From(0, s));
    PushNext(items, v, effect, 0, 0, s);
    RunEnds(items, effect, 0, From(1, s'));
    PcAfter(items, effect, 1, 1, s, s');
    RunStraight(code, 0, routine, effect, s);
    PcAfter(code, effect, n, n, s, s');
    var h := |s'.stack|;
    assert (s'.stack + [Number(effect.address(1))])[h] == Number(effect.address(1));
    assert (s'.stack + [Number(effect.address(n))])[h] == Number(effect.address(n));
  }
}
