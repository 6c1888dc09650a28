/**
 * The two routines that replace a constant, on a machine with memory and code: the computed one pushes what is
 * computed, the copying one pushes the constant and leaves memory as it was.
 */
module ConstantRoutines {
  import opened Results
  import opened Words
  import opened BigEndian
  import opened Evm
  import opened Blocks
  import opened LabelMachine
  import opened ConstantReplacement
  import Decomposition

  /** Storage and memory, and whatever else instructions depend on. */
  datatype World<X> = World(store: Store, rest: X)

  predicate IsCovered(item: AssemblyItem)
  {
    || (IsPush(item) && !item.PushTag?)
    || (item.Operation? && (IsBinary(item.instruction) || item.instruction in {NOT, MLOAD, MSTORE, CODECOPY}))
  }

  function Args(item: AssemblyItem): nat
    requires IsCovered(item)
  {
    if IsPush(item) then 0
    else if item.instruction == CODECOPY then 3
    else if item.instruction == NOT || item.instruction == MLOAD then 1
    else 2
  }

  lemma ArgsAreTaken(item: AssemblyItem)
    requires IsCovered(item)
    ensures Args(item) == Arity(item)
  {
  }

  /** What the items used in routines do; the last argument is the topmost one. */
  ghost function Meaning<X>(env: Env, code: Memory, item: AssemblyItem, args: seq<Word>, w: World<X>)
    : Option<(seq<Word>, World<X>)>
    requires IsCovered(item) && |args| == Args(item)
  {
    if IsPush(item) then Some(([Pushed(env, item)], w))
    else if item == Operation(NOT) then Some(([Not(args[0])], w))
    else if item == Operation(MLOAD) then Some(([Mload(w.store.memory, args[0])], w))
    else if item == Operation(MSTORE) then Some(([], WithMemory(w, Mstore(w.store.memory, args[1], args[0]))))
    else if item == Operation(CODECOPY) then
      Some(([], WithMemory(w, WithBytes(w.store.memory, args[2], Bytes(code, args[1], args[0])))))
    else Some(([Binary(item.instruction, args[1], args[0])], w))
  }

  ghost predicate Means<X>(
    env: Env, code: Memory, item: AssemblyItem, args: seq<Word>, w: World<X>, result: seq<Word>, w': World<X>)
  {
    IsCovered(item) && |args| == Args(item) && Meaning(env, code, item, args, w) == Some((result, w'))
  }

  ghost function WithMemory<X>(w: World<X>, memory: Memory): World<X> { w.(store := w.store.(memory := memory)) }

  ghost predicate MeansAt<X>(
    effect: Effect<World<X>>, env: Env, code: Memory, item: AssemblyItem, args: seq<Word>, w: World<X>)
    requires IsCovered(item) && |args| == Args(item)
  {
    effect.does(item, args, w) == Meaning(env, code, item, args, w)
  }

  /** The machine gives the covered items their meaning; nothing is said about any other. */
  ghost predicate Faithful<X(!new)>(effect: Effect<World<X>>, env: Env, code: Memory)
  {
    forall item, args, w :: IsCovered(item) && |args| == Args(item) ==> MeansAt(effect, env, code, item, args, w)
  }

  // ----- single items -----

  lemma CoveredExecutes<W>(effect: Effect<W>, item: AssemblyItem, s: Local<W>)
    requires IsCovered(item)
    ensures Plain(effect, item, 0, s.stack, s.world) == OtherStep(effect, item, 0, s.stack, s.world)
  {
    assert !MovesStack(item) && !IsPc(item);
  }

  lemma CoveredStraight(item: AssemblyItem)
    requires IsCovered(item)
    ensures IsStraight(item)
  {
  }

  lemma EffectOnTop<W>(effect: Effect<W>, item: AssemblyItem, base: seq<Value>, args: seq<Word>, w: W)
    requires !Ends(item) && !IsPc(item) && |args| == Arity(item) && effect.does(item, args, w).Some?
    ensures var r := effect.does(item, args, w).value;
      OtherStep(effect, item, 0, base + Numbers(args), w) == At(1, base + Numbers(r.0), r.1)
  {
    var stack := base + Numbers(args);
    var h, n := |stack|, |args|;
    assert stack[h - n..] == Numbers(args) && stack[..h - n] == base;
    assert WordsOf(Numbers(args)) == args;
  }

  lemma {:induction false} StraightOne<W>(effect: Effect<W>, item: AssemblyItem, s: Local<W>)
    ensures Straight([item], effect, s) ==
      match Plain(effect, item, 0, s.stack, s.world)
      case Go(c) => Some(Local(c.stack, c.world))
      case _ => None
  {
    assert [item][1..] == [];
  }

  lemma {:induction false} OneItem<X(!new)>(
    effect: Effect<World<X>>, env: Env, code: Memory, item: AssemblyItem, base: seq<Value>, args: seq<Word>,
    w: World<X>)
    requires Faithful(effect, env, code) && IsCovered(item) && |args| == Args(item)
    ensures Meaning(env, code, item, args, w).Some?
    ensures var r := Meaning(env, code, item, args, w).value;
      Straight([item], effect, Local(base + Numbers(args), w)) == Some(Local(base + Numbers(r.0), r.1))
  {
    assert MeansAt(effect, env, code, item, args, w);
    var s := Local(base + Numbers(args), w);
    CoveredExecutes(effect, item, s);
    CoveredStraight(item);
    ArgsAreTaken(item);
    EffectOnTop(effect, item, base, args, w);
    StraightOne(effect, item, s);
  }

  lemma {:induction false} OnePush<X(!new)>(
    effect: Effect<World<X>>, env: Env, code: Memory, item: AssemblyItem, s: Local<World<X>>)
    requires Faithful(effect, env, code) && IsPush(item) && !item.PushTag?
    ensures Straight([item], effect, s) == Some(Local(s.stack + [Number(Pushed(env, item))], s.world))
  {
    OneItem(effect, env, code, item, s.stack, [], s.world);
    assert s.stack + Numbers([]) == s.stack;
    assert Numbers([Pushed(env, item)]) == [Number(Pushed(env, item))];
  }

  lemma {:induction false} OneBinary<X(!new)>(
    effect: Effect<World<X>>, env: Env, code: Memory, i: Instruction, base: seq<Value>, a: Word, b: Word, w: World<X>)
    requires Faithful(effect, env, code) && IsBinary(i)
    ensures Straight([Operation(i)], effect, Local(base + [Number(b), Number(a)], w))
      == Some(Local(base + [Number(Binary(i, a, b))], w))
  {
    OneItem(effect, env, code, Operation(i), base, [b, a], w);
    assert Numbers([b, a]) == [Number(b), Number(a)];
    assert Numbers([Binary(i, a, b)]) == [Number(Binary(i, a, b))];
  }

  lemma {:induction false} OneNot<X(!new)>(
    effect: Effect<World<X>>, env: Env, code: Memory, base: seq<Value>, a: Word, w: World<X>)
    requires Faithful(effect, env, code)
    ensures Straight([Operation(NOT)], effect, Local(base + [Number(a)], w)) == Some(Local(base + [Number(Not(a))], w))
  {
    OneItem(effect, env, code, Operation(NOT), base, [a], w);
    assert Numbers([a]) == [Number(a)];
    assert Numbers([Not(a)]) == [Number(Not(a))];
  }

  // ----- routines that compute -----

  /** The items push the word and do nothing else. */
  ghost predicate Pushes<W>(items: Items, effect: Effect<W>, s: Local<W>, w: int)
  {
    0 <= w < MODULUS && Straight(items, effect, s) == Some(Local(s.stack + [Number(w)], s.world))
  }

  lemma {:induction false} PowerOfTwo(n: nat)
    ensures Power(2, n) == Pow2(n)
  {
    if n > 0 {
      PowerOfTwo(n - 1);
    }
  }

  /** One routine after the other, and the topmost two words combined. */
  lemma PushesBinary<X(!new)>(
    effect: Effect<World<X>>, env: Env, code: Memory, i: Instruction, first: Items, second: Items, s: Local<World<X>>,
    b: Word, a: Word)
    requires Faithful(effect, env, code) && IsBinary(i)
    requires Pushes(first, effect, s, b) && Pushes(second, effect, Local(s.stack + [Number(b)], s.world), a)
    ensures Pushes(first + second + [Operation(i)], effect, s, Binary(i, a, b))
  {
    StraightAppend(first, second, effect, s);
    assert s.stack + [Number(b)] + [Number(a)] == s.stack + [Number(b), Number(a)];
    OneBinary(effect, env, code, i, s.stack, a, b, s.world);
    StraightAppend(first + second, [Operation(i)], effect, s);
  }

  lemma {:induction false} BinaryExp(bits: nat)
    requires bits < 256 && Pow2(bits) < MODULUS
    ensures Binary(EXP, 2, bits) == Pow2(bits)
  {
    PowerOfTwo(bits);
  }

  lemma PushesLiteral<X(!new)>(effect: Effect<World<X>>, env: Env, code: Memory, v: Word, s: Local<World<X>>)
    requires Faithful(effect, env, code)
    ensures Pushes([Push(v)], effect, s, v)
  {
    OnePush(effect, env, code, Push(v), s);
  }

  lemma {:induction false} PushesPower<X(!new)>(
    effect: Effect<World<X>>, env: Env, code: Memory, bits: nat, s: Local<World<X>>)
    requires Faithful(effect, env, code) && bits < 256 && Pow2(bits) < MODULUS
    ensures Pushes([Push(bits), Push(2), Operation(EXP)], effect, s, Pow2(bits))
  {
    PushesLiteral(effect, env, code, bits, s);
    PushesLiteral(effect, env, code, 2, Local(s.stack + [Number(bits)], s.world));
    PushesBinary(effect, env, code, EXP, [Push(bits)], [Push(2)], s, bits, 2);
    BinaryExp(bits);
    assert [Push(bits)] + [Push(2)] + [Operation(EXP)] == [Push(bits), Push(2), Operation(EXP)];
  }

  /** The number computed out of the parts is what remains on the stack. */
  lemma {:induction false} RoutineComputes<X(!new)>(
    effect: Effect<World<X>>, env: Env, code: Memory, gas: Decomposition.Gas, v: Word, s: Local<World<X>>)
    requires Faithful(effect, env, code)
    ensures Pushes(Decomposition.Representation(gas, v), effect, s, Decomposition.Computed(gas, v))
    decreases v, 1
  {
    if v < 0x10000 {
      OnePush(effect, env, code, Push(v), s);
    } else if Decomposition.Negated(v) {
      Decomposition.NegatedIsLarge(v);
      RoutineComputes(effect, env, code, gas, Not(v), s);
      var inner, w := Decomposition.Representation(gas, Not(v)), Decomposition.Computed(gas, Not(v));
      OneNot(effect, env, code, s.stack, w, s.world);
      StraightAppend(inner, [Operation(NOT)], effect, s);
    } else if Decomposition.Choice(gas, v, 9) == 0 {
      OnePush(effect, env, code, Push(v), s);
    } else {
      SplitComputes(effect, env, code, gas, v, Decomposition.Choice(gas, v, 9), s);
    }
  }

  lemma {:induction false} HighPartComputes<X(!new)>(
    effect: Effect<World<X>>, env: Env, code: Memory, gas: Decomposition.Gas, bits: nat, a: Word, s: Local<World<X>>)
    requires Faithful(effect, env, code) && bits < 256 && Pow2(bits) < MODULUS
    requires 0 <= Decomposition.HighNumber(a, Decomposition.Computed(gas, a), Pow2(bits)) < MODULUS
    ensures Pushes(Decomposition.HighPart(gas, bits, a), effect, s,
                   Decomposition.HighNumber(a, Decomposition.Computed(gas, a), Pow2(bits)))
    decreases a, 2
  {
    PushesPower(effect, env, code, bits, s);
    if a > 1 {
      var p, x := Pow2(bits), Decomposition.Computed(gas, a);
      RoutineComputes(effect, env, code, gas, a, Local(s.stack + [Number(p)], s.world));
      PushesBinary(
        effect, env, code, MUL, [Push(bits), Push(2), Operation(EXP)], Decomposition.Representation(gas, a), s, p, x);
      assert Binary(MUL, x, p) == x * p;
    }
  }

  lemma {:induction false} SplitComputes<X(!new)>(
    effect: Effect<World<X>>, env: Env, code: Memory, gas: Decomposition.Gas, v: Word, bits: nat, s: Local<World<X>>)
    requires Faithful(effect, env, code)
    requires v >= 0x10000 && !Decomposition.Negated(v) && bits == Decomposition.Choice(gas, v, 9) != 0
    ensures Pushes(Decomposition.RoutineFor(gas, v, bits), effect, s, Decomposition.Computed(gas, v))
    decreases v, 0
  {
    Decomposition.NothingOverflows(gas, v, bits);
    var a, b := Decomposition.Upper(v, bits), Decomposition.Lower(v, bits);
    if b == 0 {
      HighPartComputes(effect, env, code, gas, bits, a, s);
    } else {
      var low, high := Decomposition.Representation(gas, Abs(b)), Decomposition.HighPart(gas, bits, a);
      var x := Decomposition.Computed(gas, Abs(b));
      var y := Decomposition.HighNumber(a, Decomposition.Computed(gas, a), Pow2(bits));
      RoutineComputes(effect, env, code, gas, Abs(b), s);
      HighPartComputes(effect, env, code, gas, bits, a, Local(s.stack + [Number(x)], s.world));
      PushesBinary(effect, env, code, if b > 0 then ADD else SUB, low, high, s, x, y);
    }
  }

  lemma {:induction false} RoutineIsStraight(gas: Decomposition.Gas, v: Word)
    ensures Decomposition.Representation(gas, v) != [] && AllStraight(Decomposition.Representation(gas, v))
    decreases v, 1
  {
    if v >= 0x10000 {
      if Decomposition.Negated(v) {
        Decomposition.NegatedIsLarge(v);
        RoutineIsStraight(gas, Not(v));
      } else if Decomposition.Choice(gas, v, 9) != 0 {
        SplitIsStraight(gas, v, Decomposition.Choice(gas, v, 9));
      }
    }
  }

  lemma {:induction false} SplitIsStraight(gas: Decomposition.Gas, v: Word, bits: nat)
    requires v >= 0x10000 && Decomposition.IsSplit(v, bits)
    ensures Decomposition.RoutineFor(gas, v, bits) != [] && AllStraight(Decomposition.RoutineFor(gas, v, bits))
    decreases v, 0
  {
    Decomposition.Smaller(v, bits);
    var a, b := Decomposition.Upper(v, bits), Decomposition.Lower(v, bits);
    if a > 1 {
      RoutineIsStraight(gas, a);
    }
    var high := Decomposition.HighPart(gas, bits, a);
    assert high != [] && AllStraight(high);
    if b != 0 {
      RoutineIsStraight(gas, Abs(b));
    }
  }

  /** The computed routine can stand for the constant everywhere if no carry is lost in it. */
  lemma {:induction false} ComputedRoutineActs<X(!new)>(
    effect: Effect<World<X>>, env: Env, code: Memory, gas: Decomposition.Gas, v: Word)
    requires Faithful(effect, env, code) && !Decomposition.LosesCarry(gas, v)
    ensures ActsLikePush(Decomposition.Representation(gas, v), v, effect)
  {
    RoutineIsStraight(gas, v);
    forall s: Local<World<X>>
      ensures ActsLikePushAt(Decomposition.Representation(gas, v), v, effect, s)
    {
      ComputedRoutineActsAt(effect, env, code, gas, v, s);
    }
  }

  /** It does so for a stack exactly if no carry is lost. */
  lemma {:induction false} ComputedRoutineActsAt<X(!new)>(
    effect: Effect<World<X>>, env: Env, code: Memory, gas: Decomposition.Gas, v: Word, s: Local<World<X>>)
    requires Faithful(effect, env, code)
    ensures ActsLikePushAt(Decomposition.Representation(gas, v), v, effect, s) <==> !Decomposition.LosesCarry(gas, v)
  {
    RoutineComputes(effect, env, code, gas, v, s);
    Pow2Values();
    Decomposition.ExactUnlessCarryLost(gas, v, 256);
    assert MeansAt(effect, env, code, Push(v), [], s.world);
    var w := Decomposition.Computed(gas, v);
    assert (s.stack + [Number(v)])[|s.stack|] == Number(v) && (s.stack + [Number(w)])[|s.stack|] == Number(w);
  }

  // ----- the routine that copies -----

  /** Copies 32 bytes of data through the first word of memory, which is backed up. */
  function CopyRoutine(data: int): Items
  {
    [Push(0), Operation(DUP(1)), Operation(MLOAD), Push(32), PushData(data), Operation(DUP(4)), Operation(CODECOPY),
     Operation(DUP(2)), Operation(MLOAD), Operation(SWAP(2)), Operation(MSTORE)]
  }

  lemma {:induction false} CopiedWord(memory: Memory, z: Word, v: Word)
    ensures Mload(WithBytes(memory, z, ToBigEndian(v, 32)), z) == v
  {
    LoadStored(memory, z, v);
  }

  lemma MemoryRestored(memory: Memory, z: Word, bytes: seq<Byte>)
    requires |bytes| == 32
    ensures Mstore(WithBytes(memory, z, bytes), z, Mload(memory, z)) == memory
  {
    WordOfBytes(Bytes(memory, z, 32));
    var backup := Bytes(memory, z, 32);
    assert forall x: int :: x in WithBytes(WithBytes(memory, z, bytes), z, backup) && x in memory;
    forall x: int
      ensures WithBytes(WithBytes(memory, z, bytes), z, backup)[x] == memory[x]
    {
    }
  }

  ghost predicate HasOnTop<X>(t: Local<World<X>>, base: seq<Value>, ws: seq<Word>, w: World<X>)
  {
    t == Local(base + Numbers(ws), w)
  }

  /** The items lead from some words on top of the stack to others. */
  ghost predicate Leads<X(!new)>(
    items: Items, effect: Effect<World<X>>, base: seq<Value>, ws: seq<Word>, w: World<X>, ws': seq<Word>, w': World<X>)
  {
    forall t :: HasOnTop(t, base, ws, w) ==>
      Straight(items, effect, t).Some? && HasOnTop(Straight(items, effect, t).value, base, ws', w')
  }

  lemma LeadsOn<X(!new)>(
    items: Items, more: Items, effect: Effect<World<X>>, base: seq<Value>, ws: seq<Word>, w: World<X>, ws': seq<Word>,
    w': World<X>, ws'': seq<Word>, w'': World<X>)
    requires Leads(items, effect, base, ws, w, ws', w') && Leads(more, effect, base, ws', w', ws'', w'')
    ensures Leads(items + more, effect, base, ws, w, ws'', w'')
  {
    forall t | HasOnTop(t, base, ws, w)
      ensures Straight(items + more, effect, t).Some?
      ensures HasOnTop(Straight(items + more, effect, t).value, base, ws'', w'')
    {
      StraightAppend(items, more, effect, t);
    }
  }

  lemma LeadsOver<X(!new)>(
    effect: Effect<World<X>>, env: Env, code: Memory, item: AssemblyItem, base: seq<Value>, front: seq<Word>,
    args: seq<Word>, ws: seq<Word>, w: World<X>, ws': seq<Word>)
    requires Faithful(effect, env, code) && IsCovered(item) && |args| == Args(item) && ws == front + args
    requires Meaning(env, code, item, args, w).Some? && ws' == front + Meaning(env, code, item, args, w).value.0
    ensures Leads([item], effect, base, ws, w, ws', Meaning(env, code, item, args, w).value.1)
  {
    var result := Meaning(env, code, item, args, w).value.0;
    NumbersJoin(base, front, args);
    NumbersJoin(base, front, result);
    OneItem(effect, env, code, item, base + Numbers(front), args, w);
  }

  lemma NumbersJoin(base: seq<Value>, front: seq<Word>, words: seq<Word>)
    ensures base + Numbers(front) + Numbers(words) == base + Numbers(front + words)
  {
  }

  lemma LeadsPush<X(!new)>(
    effect: Effect<World<X>>, env: Env, code: Memory, item: AssemblyItem, base: seq<Value>, ws: seq<Word>, w: World<X>,
    ws': seq<Word>)
    requires Faithful(effect, env, code) && IsPush(item) && !item.PushTag? && ws' == ws + [Pushed(env, item)]
    ensures Leads([item], effect, base, ws, w, ws', w)
  {
    LeadsOver(effect, env, code, item, base, ws, [], ws, w, ws');
  }

  lemma LeadsDup<X(!new)>(
    effect: Effect<World<X>>, n: nat, base: seq<Value>, ws: seq<Word>, w: World<X>, ws': seq<Word>)
    requires 1 <= n <= |ws| && ws' == ws + [ws[|ws| - n]]
    ensures Leads([Operation(DUP(n))], effect, base, ws, w, ws', w)
  {
    StraightOne(effect, Operation(DUP(n)), Local(base + Numbers(ws), w));
    var stack := base + Numbers(ws);
    assert stack + [stack[|stack| - n]] == base + Numbers(ws');
  }

  lemma LeadsSwap<X(!new)>(effect: Effect<World<X>>, base: seq<Value>, ws: seq<Word>, w: World<X>, ws': seq<Word>)
    requires |ws| == 3 && ws' == [ws[2], ws[1], ws[0]]
    ensures Leads([Operation(SWAP(2))], effect, base, ws, w, ws', w)
  {
    StraightOne(effect, Operation(SWAP(2)), Local(base + Numbers(ws), w));
    assert Swapping(base + Numbers(ws), 2) == base + Numbers(ws');
  }

  /** After the word has been copied into memory it can be read, and memory can be restored. */
  ghost predicate IsCopied<X>(
    env: Env, code: Memory, z: Word, offset: Word, w: World<X>, w': World<X>, m: Word, v: Word)
  {
    && Means(env, code, Operation(CODECOPY), [32, offset, z], w, [], w')
    && Means(env, code, Operation(MLOAD), [z], w', [v], w')
    && Means(env, code, Operation(MSTORE), [m, z], w', [], w)
  }

  lemma {:induction false} CopyMeans<X>(
    env: Env, code: Memory, z: Word, offset: Word, w: World<X>, w': World<X>, v: Word)
    requires Bytes(code, offset, 32) == ToBigEndian(v, 32)
    requires w' == WithMemory(w, WithBytes(w.store.memory, z, ToBigEndian(v, 32)))
    ensures IsCopied(env, code, z, offset, w, w', Mload(w.store.memory, z), v)
  {
    CopiedWord(w.store.memory, z, v);
    MemoryRestored(w.store.memory, z, ToBigEndian(v, 32));
    MeansCopy(env, code, z, offset, 32, w);
    MeansLoad(env, code, z, w');
    MeansStore(env, code, Mload(w.store.memory, z), z, w');
  }

  lemma {:induction false} MeansCopy<X>(env: Env, code: Memory, z: Word, offset: Word, n: Word, w: World<X>)
    ensures Means(env, code, Operation(CODECOPY), [n, offset, z], w, [],
                  WithMemory(w, WithBytes(w.store.memory, z, Bytes(code, offset, n))))
  {
    var item, args := Operation(CODECOPY), [n, offset, z];
    assert IsCovered(item) && !IsPush(item) && Args(item) == |args|;
    assert args[0] == n && args[1] == offset && args[2] == z;
  }

  lemma MeansLoad<X>(env: Env, code: Memory, z: Word, w: World<X>)
    ensures Means(env, code, Operation(MLOAD), [z], w, [Mload(w.store.memory, z)], w)
  {
  }

  lemma MeansStore<X>(env: Env, code: Memory, m: Word, z: Word, w: World<X>)
    ensures Means(env, code, Operation(MSTORE), [m, z], w, [], WithMemory(w, Mstore(w.store.memory, z, m)))
  {
  }

  /** An item that replaces the topmost words by its result. */
  lemma LeadsTo<X(!new)>(
    effect: Effect<World<X>>, env: Env, code: Memory, item: AssemblyItem, base: seq<Value>, front: seq<Word>,
    args: seq<Word>, result: seq<Word>, w: World<X>, w': World<X>, ws: seq<Word>, ws': seq<Word>)
    requires Faithful(effect, env, code) && Means(env, code, item, args, w, result, w')
    requires ws == front + args && ws' == front + result
    ensures Leads([item], effect, base, ws, w, ws', w')
  {
    LeadsOver(effect, env, code, item, base, front, args, ws, w, ws');
  }

  lemma CopyBacksUp<X(!new)>(
    effect: Effect<World<X>>, env: Env, code: Memory, z: Word, base: seq<Value>, w: World<X>, m: Word)
    requires Faithful(effect, env, code) && m == Mload(w.store.memory, z)
    ensures Leads([Push(z)] + [Operation(DUP(1))] + [Operation(MLOAD)], effect, base, [], w, [z, m], w)
  {
    LeadsPush(effect, env, code, Push(z), base, [], w, [z]);
    LeadsDup(effect, 1, base, [z], w, [z, z]);
    MeansLoad(env, code, z, w);
    LeadsTo(effect, env, code, Operation(MLOAD), base, [z], [z], [m], w, w, [z, z], [z, m]);
    LeadsOn([Push(z)], [Operation(DUP(1))], effect, base, [], w, [z], w, [z, z], w);
    LeadsOn([Push(z)] + [Operation(DUP(1))], [Operation(MLOAD)], effect, base, [], w, [z, z], w, [z, m], w);
  }

  lemma CopyPrepares<X(!new)>(
    effect: Effect<World<X>>, env: Env, code: Memory, z: Word, item: AssemblyItem, base: seq<Value>, w: World<X>,
    m: Word, offset: Word)
    requires Faithful(effect, env, code) && item.PushData? && offset == env.pushed(item)
    ensures Leads([Push(32)] + [item] + [Operation(DUP(4))], effect, base, [z, m], w, [z, m, 32, offset, z], w)
  {
    LeadsPush(effect, env, code, Push(32), base, [z, m], w, [z, m, 32]);
    LeadsPush(effect, env, code, item, base, [z, m, 32], w, [z, m, 32, offset]);
    LeadsOn([Push(32)], [item], effect, base, [z, m], w, [z, m, 32], w, [z, m, 32, offset], w);
    LeadsDup(effect, 4, base, [z, m, 32, offset], w, [z, m, 32, offset, z]);
    LeadsOn(
      [Push(32)] + [item], [Operation(DUP(4))], effect, base, [z, m], w, [z, m, 32, offset], w, [z, m, 32, offset, z],
      w);
  }

  lemma LeadsCopy<X(!new)>(
    effect: Effect<World<X>>, env: Env, code: Memory, z: Word, base: seq<Value>, w: World<X>, w': World<X>, m: Word,
    offset: Word)
    requires Faithful(effect, env, code) && Means(env, code, Operation(CODECOPY), [32, offset, z], w, [], w')
    ensures Leads([Operation(CODECOPY)], effect, base, [z, m, 32, offset, z], w, [z, m], w')
  {
    LeadsTo(
      effect, env, code, Operation(CODECOPY), base, [z, m], [32, offset, z], [], w, w', [z, m, 32, offset, z], [z, m]);
  }

  lemma LeadsRead<X(!new)>(
    effect: Effect<World<X>>, env: Env, code: Memory, z: Word, base: seq<Value>, w: World<X>, m: Word, v: Word)
    requires Faithful(effect, env, code) && Means(env, code, Operation(MLOAD), [z], w, [v], w)
    ensures Leads([Operation(MLOAD)], effect, base, [z, m, z], w, [z, m, v], w)
  {
    LeadsTo(effect, env, code, Operation(MLOAD), base, [z, m], [z], [v], w, w, [z, m, z], [z, m, v]);
  }

  lemma LeadsRestore<X(!new)>(
    effect: Effect<World<X>>, env: Env, code: Memory, z: Word, base: seq<Value>, w: World<X>, w': World<X>, m: Word,
    v: Word)
    requires Faithful(effect, env, code) && Means(env, code, Operation(MSTORE), [m, z], w', [], w)
    ensures Leads([Operation(MSTORE)], effect, base, [v, m, z], w', [v], w)
  {
    LeadsTo(effect, env, code, Operation(MSTORE), base, [v], [m, z], [], w', w, [v, m, z], [v]);
  }

  lemma CopyReads<X(!new)>(
    effect: Effect<World<X>>, z: Word, base: seq<Value>, w: World<X>, w': World<X>, m: Word, offset: Word, v: Word)
    requires Leads([Operation(CODECOPY)], effect, base, [z, m, 32, offset, z], w, [z, m], w')
    requires Leads([Operation(MLOAD)], effect, base, [z, m, z], w', [z, m, v], w')
    ensures Leads(
      [Operation(CODECOPY)] + [Operation(DUP(2))] + [Operation(MLOAD)], effect, base, [z, m, 32, offset, z], w,
      [z, m, v], w')
  {
    LeadsDup(effect, 2, base, [z, m], w', [z, m, z]);
    LeadsOn(
      [Operation(CODECOPY)], [Operation(DUP(2))], effect, base, [z, m, 32, offset, z], w, [z, m], w', [z, m, z], w');
    LeadsOn(
      [Operation(CODECOPY)] + [Operation(DUP(2))], [Operation(MLOAD)], effect, base, [z, m, 32, offset, z], w,
      [z, m, z], w', [z, m, v], w');
  }

  lemma CopyRestores<X(!new)>(
    effect: Effect<World<X>>, z: Word, base: seq<Value>, w: World<X>, w': World<X>, m: Word, v: Word)
    requires Leads([Operation(MSTORE)], effect, base, [v, m, z], w', [v], w)
    ensures Leads([Operation(SWAP(2))] + [Operation(MSTORE)], effect, base, [z, m, v], w', [v], w)
  {
    LeadsSwap(effect, base, [z, m, v], w', [v, m, z]);
    LeadsOn([Operation(SWAP(2))], [Operation(MSTORE)], effect, base, [z, m, v], w', [v, m, z], w', [v], w);
  }

  lemma JoinCopy<X(!new)>(
    r1: Items, r2: Items, r3: Items, r4: Items, effect: Effect<World<X>>, base: seq<Value>, w: World<X>, ws1: seq<Word>,
    ws2: seq<Word>, ws3: seq<Word>, w': World<X>, ws4: seq<Word>)
    requires Leads(r1, effect, base, [], w, ws1, w) && Leads(r2, effect, base, ws1, w, ws2, w)
    requires Leads(r3, effect, base, ws2, w, ws3, w') && Leads(r4, effect, base, ws3, w', ws4, w)
    ensures Leads(r1 + r2 + r3 + r4, effect, base, [], w, ws4, w)
  {
    LeadsOn(r1, r2, effect, base, [], w, ws1, w, ws2, w);
    LeadsOn(r1 + r2, r3, effect, base, [], w, ws2, w, ws3, w');
    LeadsOn(r1 + r2 + r3, r4, effect, base, [], w, ws3, w', ws4, w);
  }

  lemma {:induction false} CopyRuns<X(!new)>(
    effect: Effect<World<X>>, env: Env, code: Memory, z: Word, data: int, base: seq<Value>, w: World<X>, v: Word)
    requires Faithful(effect, env, code) && Bytes(code, env.pushed(PushData(data)), 32) == ToBigEndian(v, 32) && z == 0
    ensures Leads(CopyRoutine(data), effect, base, [], w, [v], w)
  {
    var item, m, offset := PushData(data), Mload(w.store.memory, z), env.pushed(PushData(data));
    var w' := WithMemory(w, WithBytes(w.store.memory, z, ToBigEndian(v, 32)));
    CopyMeans(env, code, z, offset, w, w', v);
    CopyBacksUp(effect, env, code, z, base, w, m);
    CopyPrepares(effect, env, code, z, item, base, w, m, offset);
    LeadsCopy(effect, env, code, z, base, w, w', m, offset);
    LeadsRead(effect, env, code, z, base, w', m, v);
    LeadsRestore(effect, env, code, z, base, w, w', m, v);
    CopyReads(effect, z, base, w, w', m, offset, v);
    CopyRestores(effect, z, base, w, w', m, v);
    JoinCopy([Push(z)] + [Operation(DUP(1))] + [Operation(MLOAD)], [Push(32)] + [item] + [Operation(DUP(4))],
             [Operation(CODECOPY)] + [Operation(DUP(2))] + [Operation(MLOAD)],
             [Operation(SWAP(2))] + [Operation(MSTORE)],
             effect, base, w, [z, m], [z, m, 32, offset, z], [z, m, v], w', [v]);
    CopyRoutineJoined(data);
  }

  lemma CopyRoutineJoined(data: int)
    ensures CopyRoutine(data) ==
      ([Push(0)] + [Operation(DUP(1))] + [Operation(MLOAD)]) + ([Push(32)] + [PushData(data)] + [Operation(DUP(4))])
      + ([Operation(CODECOPY)] + [Operation(DUP(2))] + [Operation(MLOAD)])
      + ([Operation(SWAP(2))] + [Operation(MSTORE)])
  {
  }

  /** The copying routine can stand for the constant if its bytes are where the data reference points to. */
  lemma {:induction false} CopyRoutineActs<X(!new)>(
    effect: Effect<World<X>>, env: Env, code: Memory, data: int, v: Word)
    requires Faithful(effect, env, code) && Bytes(code, env.pushed(PushData(data)), 32) == ToBigEndian(v, 32)
    ensures ActsLikePush(CopyRoutine(data), v, effect)
  {
    var r := CopyRoutine(data);
    forall s: Local<World<X>>
      ensures ActsLikePushAt(r, v, effect, s)
    {
      assert MeansAt(effect, env, code, Push(v), [], s.world);
      CopyRuns(effect, env, code, 0, data, s.stack, s.world, v);
      assert HasOnTop(s, s.stack, [], s.world) by { assert s.stack + Numbers([]) == s.stack; }
      assert Numbers([v]) == [Number(v)];
    }
  }
}
