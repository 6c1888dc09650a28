/**
 * What the items generated so far do to a machine, in terms of a symbolic stack of classes. Each way of
 * extending the items keeps the symbolic stack and the machine in step.
 */
module Generation {
  import opened Words
  import opened Evm
  import opened Classes
  import opened Knowledge
  import opened StoreHistory

  /** A concrete start: the words classes stand for, the writes of the block, and where height zero is on the stack. */
  datatype Setting = Setting(env: Env, val: Values, writes: seq<Access>, origin: int, base: int, start: Machine)

  /** Items, the symbolic stack they lead to from height base on, and the writes they have carried out. */
  datatype Generated = Generated(items: seq<AssemblyItem>, stack: map<int, Id>, height: int, done: set<nat>)

  ghost predicate Contiguous(stack: map<int, Id>, base: int, height: int)
  {
    base <= height + 1 && forall h :: h in stack <==> base <= h <= height
  }

  /** The words above the base are those of the symbolic stack; those below are the initial ones. */
  ghost predicate StackIs(s: Setting, stack: map<int, Id>, height: int, words: seq<Word>)
  {
    && 0 <= s.origin + s.base <= |s.start.stack| && s.base <= height + 1 && |words| == s.origin + height + 1
    && (forall p :: 0 <= p < s.origin + s.base ==> words[p] == s.start.stack[p])
    && (forall h :: h in stack ==> ElementHolds(stack, s.val, s.origin, words, h))
  }

  ghost predicate Reached(s: Setting, g: Generated, m: Machine)
  {
    StackIs(s, g.stack, g.height, m.stack) && m.store == After(s.writes, g.done, |s.writes|, s.start.store)
  }

  ghost predicate Yields(s: Setting, g: Generated)
  {
    AllRunnable(g.items) ==>
      var m := Run(g.items, s.env, s.start);
      m.Some? && Reached(s, g, m.value)
  }

  lemma NothingGenerated(s: Setting, g: Generated)
    requires g.items == [] && g.done == {} && StackIs(s, g.stack, g.height, s.start.stack)
    ensures Yields(s, g)
  {
    NothingLater(s.writes, {}, 0, |s.writes|, s.start.store);
  }

  lemma AllRunnableAppend(items: seq<AssemblyItem>, item: AssemblyItem)
    ensures AllRunnable(items + [item]) <==> AllRunnable(items) && Runnable(item)
  {
    var more := items + [item];
    assert more[|items|] == item;
    assert forall k :: 0 <= k < |items| ==> more[k] == items[k];
  }

  /** One more item, given what it does to every machine that could have been reached. */
  lemma Extended(s: Setting, g: Generated, item: AssemblyItem, g': Generated)
    requires Yields(s, g) && g'.items == g.items + [item]
    requires Runnable(item) ==> forall m: Machine :: Reached(s, g, m) ==>
      Step(item, s.env, m).Some? && Reached(s, g', Step(item, s.env, m).value)
    ensures Yields(s, g')
  {
    AllRunnableAppend(g.items, item);
    if AllRunnable(g'.items) {
      RunSnoc(g.items, item, s.env, s.start);
      assert Reached(s, g, Run(g.items, s.env, s.start).value);
    }
  }

  // ----- the symbolic stack and the machine's stack -----

  /** The n topmost elements replaced by one of class c. */
  function ReplaceTop(stack: map<int, Id>, height: int, n: nat, c: Id): map<int, Id>
  {
    Below(stack, height - n)[height - n + 1 := c]
  }

  function Exchange(stack: map<int, Id>, height: int, p: int): map<int, Id>
    requires height in stack && p in stack
  {
    stack[height := stack[p]][p := stack[height]]
  }

  lemma StackReplaced(s: Setting, stack: map<int, Id>, height: int, n: nat, c: Id, words: seq<Word>)
    requires Contiguous(stack, s.base, height) && StackIs(s, stack, height, words) && s.base <= height - n + 1
    ensures n <= |words|
    ensures Contiguous(ReplaceTop(stack, height, n, c), s.base, height - n + 1)
    ensures StackIs(s, ReplaceTop(stack, height, n, c), height - n + 1, words[..|words| - n] + [s.val(c)])
  {
    var stack', words' := ReplaceTop(stack, height, n, c), words[..|words| - n] + [s.val(c)];
    forall h | h in stack'
      ensures ElementHolds(stack', s.val, s.origin, words', h)
    {
      if h <= height - n {
        assert ElementHolds(stack, s.val, s.origin, words, h);
      }
    }
  }

  lemma StackRemoved(s: Setting, stack: map<int, Id>, height: int, n: nat, words: seq<Word>)
    requires Contiguous(stack, s.base, height) && StackIs(s, stack, height, words) && s.base <= height - n + 1
    ensures n <= |words|
    ensures Contiguous(Below(stack, height - n), s.base, height - n)
    ensures StackIs(s, Below(stack, height - n), height - n, words[..|words| - n])
  {
    var stack', words' := Below(stack, height - n), words[..|words| - n];
    forall h | h in stack'
      ensures ElementHolds(stack', s.val, s.origin, words', h)
    {
      assert ElementHolds(stack, s.val, s.origin, words, h);
    }
  }

  lemma StackExchanged(s: Setting, stack: map<int, Id>, height: int, p: int, words: seq<Word>)
    requires Contiguous(stack, s.base, height) && StackIs(s, stack, height, words) && p in stack && p < height
    ensures height in stack && height - p < |words|
    ensures Contiguous(Exchange(stack, height, p), s.base, height)
    ensures StackIs(s, Exchange(stack, height, p), height, SwapTop(words, height - p))
  {
    assert height in stack;
    assert ElementHolds(stack, s.val, s.origin, words, height) && ElementHolds(stack, s.val, s.origin, words, p);
    var stack', words' := Exchange(stack, height, p), SwapTop(words, height - p);
    forall h | h in stack'
      ensures ElementHolds(stack', s.val, s.origin, words', h)
    {
      assert ElementHolds(stack, s.val, s.origin, words, h);
      SwapTopAt(words, height - p, s.origin + h);
    }
    forall q | 0 <= q < s.origin + s.base
      ensures words'[q] == s.start.stack[q]
    {
      SwapTopAt(words, height - p, q);
    }
  }

  /** The class at height - i has the word i below the top. */
  lemma WordAt(s: Setting, stack: map<int, Id>, height: int, words: seq<Word>, i: nat)
    requires StackIs(s, stack, height, words) && (height - i) in stack
    ensures i < |words| && words[|words| - 1 - i] == s.val(stack[height - i])
  {
    assert ElementHolds(stack, s.val, s.origin, words, height - i);
  }

  // ----- the items -----

  lemma DupYields(s: Setting, g: Generated, p: int)
    requires Yields(s, g) && Contiguous(g.stack, s.base, g.height) && p in g.stack && 1 + g.height - p <= 16
    ensures Yields(s, Generated(
      g.items + [Operation(DUP(1 + g.height - p))], ReplaceTop(g.stack, g.height, 0, g.stack[p]), g.height + 1, g.done))
  {
    var n := 1 + g.height - p;
    var g' := Generated(
      g.items + [Operation(DUP(n))], ReplaceTop(g.stack, g.height, 0, g.stack[p]), g.height + 1, g.done);
    forall m: Machine | Reached(s, g, m)
      ensures Step(Operation(DUP(n)), s.env, m).Some? && Reached(s, g', Step(Operation(DUP(n)), s.env, m).value)
    {
      WordAt(s, g.stack, g.height, m.stack, n - 1);
      StepDup(n, s.env, m);
      StackReplaced(s, g.stack, g.height, 0, g.stack[p], m.stack);
      assert m.stack[..|m.stack|] == m.stack;
    }
    Extended(s, g, Operation(DUP(n)), g');
  }

  lemma SwapYields(s: Setting, g: Generated, p: int)
    requires Yields(s, g) && Contiguous(g.stack, s.base, g.height) && p in g.stack && p < g.height <= p + 16
    ensures g.height in g.stack
    ensures Yields(s, g.(items := g.items + [Operation(SWAP(g.height - p))], stack := Exchange(g.stack, g.height, p)))
  {
    assert g.height in g.stack;
    var n := g.height - p;
    var g' := g.(items := g.items + [Operation(SWAP(n))], stack := Exchange(g.stack, g.height, p));
    forall m: Machine | Reached(s, g, m)
      ensures Step(Operation(SWAP(n)), s.env, m).Some? && Reached(s, g', Step(Operation(SWAP(n)), s.env, m).value)
    {
      StepSwap(n, s.env, m);
      StackExchanged(s, g.stack, g.height, p, m.stack);
    }
    Extended(s, g, Operation(SWAP(n)), g');
  }

  lemma SwapTwice(words: seq<Word>, n: nat)
    requires 0 < n < |words|
    ensures |SwapTop(words, n)| == |words| && SwapTop(SwapTop(words, n), n) == words
  {
  }

  /** The same exchange twice in a row: both items can go. */
  lemma SwapRemoved(s: Setting, g: Generated, p: int)
    requires Yields(s, g) && Contiguous(g.stack, s.base, g.height) && p in g.stack && p < g.height <= p + 16
    requires g.items != [] && g.items[|g.items| - 1] == Operation(SWAP(g.height - p))
    ensures g.height in g.stack
    ensures Yields(s, g.(items := g.items[..|g.items| - 1], stack := Exchange(g.stack, g.height, p)))
  {
    assert g.height in g.stack;
    var rest, item := g.items[..|g.items| - 1], Operation(SWAP(g.height - p));
    assert g.items == rest + [item];
    AllRunnableAppend(rest, item);
    if AllRunnable(rest) {
      RunSnoc(rest, item, s.env, s.start);
      var m := Run(rest, s.env, s.start).value;
      StepSwap(g.height - p, s.env, m);
      SwapTwice(m.stack, g.height - p);
      StackExchanged(s, g.stack, g.height, p, Run(g.items, s.env, s.start).value.stack);
    }
  }

  lemma PopYields(s: Setting, g: Generated)
    requires Yields(s, g) && Contiguous(g.stack, s.base, g.height) && s.base <= g.height
    ensures Yields(s, Generated(g.items + [Operation(POP)], Below(g.stack, g.height - 1), g.height - 1, g.done))
  {
    var g' := Generated(g.items + [Operation(POP)], Below(g.stack, g.height - 1), g.height - 1, g.done);
    forall m: Machine | Reached(s, g, m)
      ensures Step(Operation(POP), s.env, m).Some? && Reached(s, g', Step(Operation(POP), s.env, m).value)
    {
      StepPop(s.env, m);
      StackRemoved(s, g.stack, g.height, 1, m.stack);
    }
    Extended(s, g, Operation(POP), g');
  }

  predicate OnTop(stack: map<int, Id>, height: int, args: seq<Id>)
  {
    forall i :: 0 <= i < |args| ==> (height - i) in stack && stack[height - i] == args[i]
  }

  lemma ArgumentWords(s: Setting, stack: map<int, Id>, height: int, words: seq<Word>, args: seq<Id>)
    requires StackIs(s, stack, height, words) && OnTop(stack, height, args) && |args| <= |words|
    ensures TopWords(words, |args|) == seq(|args|, i requires 0 <= i < |args| => s.val(args[i]))
  {
    forall i | 0 <= i < |args|
      ensures TopWords(words, |args|)[i] == s.val(args[i])
    {
      var c := args[i];
      assert (height - i) in stack && stack[height - i] == c;
      WordAt(s, stack, height, words, i);
    }
  }

  /** g with one more item, its arguments replaced by an element of class c. */
  function Computed(g: Generated, item: AssemblyItem, n: nat, c: Id): Generated
  {
    Generated(g.items + [item], ReplaceTop(g.stack, g.height, n, c), g.height - n + 1, g.done)
  }

  lemma PlainYields(s: Setting, g: Generated, i: Instruction, args: seq<Id>, c: Id)
    requires Yields(s, g) && Contiguous(g.stack, s.base, g.height) && OnTop(g.stack, g.height, args)
    requires IsPlain(i) && |args| == Info(i).args && s.base <= g.height - |args| + 1
    requires s.val(c) == Eval(s.env, i, seq(|args|, k requires 0 <= k < |args| => s.val(args[k])))
    ensures Yields(s, Computed(g, Operation(i), |args|, c))
  {
    var g' := Computed(g, Operation(i), |args|, c);
    forall m: Machine | Reached(s, g, m)
      ensures Step(Operation(i), s.env, m).Some? && Reached(s, g', Step(Operation(i), s.env, m).value)
    {
      StackReplaced(s, g.stack, g.height, |args|, c, m.stack);
      ArgumentWords(s, g.stack, g.height, m.stack, args);
      StepPlain(i, s.env, m);
    }
    Extended(s, g, Operation(i), g');
  }

  lemma PushYields(s: Setting, g: Generated, item: AssemblyItem, c: Id)
    requires Yields(s, g) && Contiguous(g.stack, s.base, g.height)
    requires IsPush(item) && s.val(c) == Pushed(s.env, item)
    ensures Yields(s, Computed(g, item, 0, c))
  {
    var g' := Computed(g, item, 0, c);
    forall m: Machine | Reached(s, g, m)
      ensures Step(item, s.env, m).Some? && Reached(s, g', Step(item, s.env, m).value)
    {
      StackReplaced(s, g.stack, g.height, 0, c, m.stack);
      assert m.stack[..|m.stack|] == m.stack;
    }
    Extended(s, g, item, g');
  }

  lemma LoadReaches(s: Setting, g: Generated, t: Target, slot: Id, c: Id, m: Machine)
    requires Contiguous(g.stack, s.base, g.height) && OnTop(g.stack, g.height, [slot]) && s.base <= g.height
    requires s.val(c) == Load(LoadInstruction(t), After(s.writes, g.done, |s.writes|, s.start.store), s.val(slot))
    requires Reached(s, g, m)
    ensures 1 <= |m.stack|
    ensures Reached(s, Computed(g, Operation(LoadInstruction(t)), 1, c), LoadOnStack(LoadInstruction(t), m))
  {
    var args := [slot];
    assert args[0] == slot;
    WordAt(s, g.stack, g.height, m.stack, 0);
    StackReplaced(s, g.stack, g.height, 1, c, m.stack);
  }

  lemma LoadYields(s: Setting, g: Generated, t: Target, slot: Id, c: Id)
    requires Yields(s, g) && Contiguous(g.stack, s.base, g.height) && OnTop(g.stack, g.height, [slot])
    requires s.base <= g.height
    requires s.val(c) == Load(LoadInstruction(t), After(s.writes, g.done, |s.writes|, s.start.store), s.val(slot))
    ensures Yields(s, Computed(g, Operation(LoadInstruction(t)), 1, c))
  {
    var i := LoadInstruction(t);
    var g' := Computed(g, Operation(i), 1, c);
    forall m: Machine | Reached(s, g, m)
      ensures Step(Operation(i), s.env, m).Some? && Reached(s, g', Step(Operation(i), s.env, m).value)
    {
      LoadReaches(s, g, t, slot, c, m);
      StepLoad(i, s.env, m);
    }
    Extended(s, g, Operation(i), g');
  }

  /** g with write j carried out. */
  function Written(g: Generated, t: Target, j: nat): Generated
  {
    Generated(g.items + [Operation(StoreInstruction(t))], Below(g.stack, g.height - 2), g.height - 2, g.done + {j})
  }

  lemma StoreMatches(
    s: Setting, stack: map<int, Id>, height: int, t: Target, slot: Id, value: Id, w: Access, m: Machine)
    requires StackIs(s, stack, height, m.stack) && OnTop(stack, height, [slot, value])
    requires w == Access(t, slot, s.val(slot), s.val(value))
    ensures 2 <= |m.stack|
    ensures StoreFromStack(StoreInstruction(t), m) == Machine(m.stack[..|m.stack| - 2], Do(w, m.store))
  {
    var args := [slot, value];
    assert args[0] == slot && args[1] == value;
    WordAt(s, stack, height, m.stack, 0);
    WordAt(s, stack, height, m.stack, 1);
  }

  lemma StoreReaches(s: Setting, g: Generated, t: Target, slot: Id, value: Id, j: nat, m: Machine)
    requires Contiguous(g.stack, s.base, g.height) && OnTop(g.stack, g.height, [slot, value]) && s.base <= g.height - 1
    requires j < |s.writes| && s.writes[j] == Access(t, slot, s.val(slot), s.val(value))
    requires forall i :: i in g.done ==> i < j
    requires Reached(s, g, m)
    ensures 2 <= |m.stack| && Reached(s, Written(g, t, j), StoreFromStack(StoreInstruction(t), m))
  {
    StoreMatches(s, g.stack, g.height, t, slot, value, s.writes[j], m);
    OneMore(s.writes, g.done, j, s.start.store);
    StackRemoved(s, g.stack, g.height, 2, m.stack);
  }

  lemma StoreYields(s: Setting, g: Generated, t: Target, slot: Id, value: Id, j: nat)
    requires Yields(s, g) && Contiguous(g.stack, s.base, g.height) && OnTop(g.stack, g.height, [slot, value])
    requires s.base <= g.height - 1
    requires j < |s.writes| && s.writes[j] == Access(t, slot, s.val(slot), s.val(value))
    requires forall i :: i in g.done ==> i < j
    ensures Yields(s, Written(g, t, j))
  {
    var i, g' := StoreInstruction(t), Written(g, t, j);
    forall m: Machine | Reached(s, g, m)
      ensures Step(Operation(i), s.env, m).Some? && Reached(s, g', Step(Operation(i), s.env, m).value)
    {
      StoreReaches(s, g, t, slot, value, j, m);
      StepStore(i, s.env, m);
    }
    Extended(s, g, Operation(i), g');
  }
}
