/**
 * What the analysis knows about the machine at one instruction, as values: when such knowledge is true of a
 * concrete machine, and why each way of updating it stays true after the machine's step.
 * A class is only a name here; val gives the word it stands for.
 */
module Knowledge {
  import opened Words
  import opened Evm
  import opened Classes

  /** Stack heights are relative and can be negative; elements below the known ones are the initial ones. */
  datatype Knowledge = Knowledge(
    height: int, elements: map<int, Id>, sequenceNumber: nat, storage: map<Id, Id>, memory: map<Id, Id>)

  datatype Target = ToMemory | ToStorage

  datatype StoreOperation =
    | NoStore
    | StoreOperation(target: Target, slot: Id, sequenceNumber: nat, expression: Id)

  function LoadInstruction(t: Target): Instruction { if t == ToStorage then SLOAD else MLOAD }

  function StoreInstruction(t: Target): Instruction { if t == ToStorage then SSTORE else MSTORE }

  function Other(t: Target): Target { if t == ToStorage then ToMemory else ToStorage }

  function Content(k: Knowledge, t: Target): map<Id, Id> { if t == ToStorage then k.storage else k.memory }

  function WithContent(k: Knowledge, t: Target, content: map<Id, Id>): Knowledge
  {
    if t == ToStorage then k.(storage := content) else k.(memory := content)
  }

  // ----- knowledge against a concrete machine; origin is the position of height zero on its stack -----

  ghost predicate ElementHolds(elements: map<int, Id>, val: Values, origin: int, stack: seq<Word>, h: int)
    requires h in elements
  {
    0 <= origin + h < |stack| && stack[origin + h] == val(elements[h])
  }

  ghost predicate StackHolds(
    elements: map<int, Id>, height: int, val: Values, leaf: int -> Word, origin: int, stack: seq<Word>)
  {
    && |stack| == origin + height + 1
    && (forall h :: h in elements ==> ElementHolds(elements, val, origin, stack, h))
    && (forall h :: 0 <= origin + h < |stack| && h !in elements ==> stack[origin + h] == leaf(h))
  }

  ghost predicate ContentHolds(t: Target, content: map<Id, Id>, val: Values, store: Store)
  {
    forall s :: s in content ==> Load(LoadInstruction(t), store, val(s)) == val(content[s])
  }

  ghost predicate Holds(k: Knowledge, val: Values, leaf: int -> Word, origin: int, m: Machine)
  {
    && StackHolds(k.elements, k.height, val, leaf, origin, m.stack)
    && ContentHolds(ToStorage, k.storage, val, m.store)
    && ContentHolds(ToMemory, k.memory, val, m.store)
  }

  /** The classes k speaks about. */
  ghost predicate Mentions(k: Knowledge, c: Id)
  {
    || (exists h :: h in k.elements && k.elements[h] == c)
    || (exists s :: s in k.storage && (s == c || k.storage[s] == c))
    || (exists s :: s in k.memory && (s == c || k.memory[s] == c))
  }

  lemma HoldsForSameValues(
    k: Knowledge, val: Values, val': Values, leaf: int -> Word, origin: int, m: Machine)
    requires Holds(k, val, leaf, origin, m)
    requires forall c :: Mentions(k, c) ==> val(c) == val'(c)
    ensures Holds(k, val', leaf, origin, m)
  {
    forall h | h in k.elements
      ensures ElementHolds(k.elements, val', origin, m.stack, h)
    {
      assert ElementHolds(k.elements, val, origin, m.stack, h);
      assert Mentions(k, k.elements[h]);
    }
    forall s | s in k.storage
      ensures Load(SLOAD, m.store, val'(s)) == val'(k.storage[s])
    {
      assert Mentions(k, s) && Mentions(k, k.storage[s]);
    }
    forall s | s in k.memory
      ensures Load(MLOAD, m.store, val'(s)) == val'(k.memory[s])
    {
      assert Mentions(k, s) && Mentions(k, k.memory[s]);
    }
  }

  // ----- the stack -----

  /** Forgets everything above the given height. */
  function Below(elements: map<int, Id>, height: int): (r: map<int, Id>)
    ensures forall h :: h in r <==> h in elements && h <= height
    ensures forall h :: h in r ==> r[h] == elements[h]
  {
    map h | h in elements && h <= height :: elements[h]
  }

  /** k with its n topmost elements replaced by one of class c. */
  function Replaced(k: Knowledge, n: nat, c: Id): Knowledge
  {
    k.(height := k.height - n + 1, elements := Below(k.elements[k.height - n + 1 := c], k.height - n + 1))
  }

  function Popped(k: Knowledge, n: nat): Knowledge
  {
    k.(height := k.height - n, elements := Below(k.elements, k.height - n))
  }

  function Exchanged(k: Knowledge, n: nat): Knowledge
    requires k.height in k.elements && (k.height - n) in k.elements
  {
    k.(elements := k.elements[k.height := k.elements[k.height - n]][k.height - n := k.elements[k.height]])
  }

  /** An element nothing is known about is the initial one at its height. */
  lemma ElementRevealed(
    k: Knowledge, h: int, c: Id, val: Values, leaf: int -> Word, origin: int, m: Machine)
    requires Holds(k, val, leaf, origin, m)
    requires h !in k.elements && 0 <= origin + h && h <= k.height && val(c) == leaf(h)
    ensures Holds(k.(elements := k.elements[h := c]), val, leaf, origin, m)
  {
    var elements' := k.elements[h := c];
    forall h' | h' in elements'
      ensures ElementHolds(elements', val, origin, m.stack, h')
    {
      if h' != h {
        assert ElementHolds(k.elements, val, origin, m.stack, h');
      }
    }
  }

  /** Popping n words and pushing w, whose class is c. */
  lemma ReplacedHolds(
    k: Knowledge, n: nat, c: Id, w: Word, val: Values, leaf: int -> Word, origin: int, m: Machine)
    requires Holds(k, val, leaf, origin, m) && n <= |m.stack| && val(c) == w
    ensures Holds(Replaced(k, n, c), val, leaf, origin, m.(stack := m.stack[..|m.stack| - n] + [w]))
  {
    var elements', stack' := Replaced(k, n, c).elements, m.stack[..|m.stack| - n] + [w];
    forall h | h in elements'
      ensures ElementHolds(elements', val, origin, stack', h)
    {
      if h <= k.height - n {
        assert ElementHolds(k.elements, val, origin, m.stack, h);
      }
    }
  }

  lemma PoppedHolds(k: Knowledge, n: nat, val: Values, leaf: int -> Word, origin: int, m: Machine)
    requires Holds(k, val, leaf, origin, m) && n <= |m.stack|
    ensures Holds(Popped(k, n), val, leaf, origin, m.(stack := m.stack[..|m.stack| - n]))
  {
    var elements', stack' := Popped(k, n).elements, m.stack[..|m.stack| - n];
    forall h | h in elements'
      ensures ElementHolds(elements', val, origin, stack', h)
    {
      assert ElementHolds(k.elements, val, origin, m.stack, h);
    }
  }

  lemma ExchangedHolds(k: Knowledge, n: nat, val: Values, leaf: int -> Word, origin: int, m: Machine)
    requires Holds(k, val, leaf, origin, m) && 0 < n < |m.stack|
    requires k.height in k.elements && (k.height - n) in k.elements
    ensures Holds(Exchanged(k, n), val, leaf, origin, m.(stack := SwapTop(m.stack, n)))
  {
    var elements', stack' := Exchanged(k, n).elements, SwapTop(m.stack, n);
    assert ElementHolds(k.elements, val, origin, m.stack, k.height);
    assert ElementHolds(k.elements, val, origin, m.stack, k.height - n);
    forall h | h in elements'
      ensures ElementHolds(elements', val, origin, stack', h)
    {
      assert h in k.elements;
      assert ElementHolds(k.elements, val, origin, m.stack, h);
      SwapTopAt(m.stack, n, origin + h);
    }
    forall h | 0 <= origin + h < |stack'| && h !in elements'
      ensures stack'[origin + h] == leaf(h)
    {
      SwapTopAt(m.stack, n, origin + h);
    }
  }

  // ----- arguments on top of the stack -----

  predicate TopClass(k: Knowledge, i: nat, c: Id) { (k.height - i) in k.elements && k.elements[k.height - i] == c }

  predicate TopClasses(k: Knowledge, args: seq<Id>) { forall i :: 0 <= i < |args| ==> TopClass(k, i, args[i]) }

  lemma TopWordsAre(k: Knowledge, args: seq<Id>, val: Values, leaf: int -> Word, origin: int, m: Machine)
    requires Holds(k, val, leaf, origin, m) && TopClasses(k, args) && |args| <= |m.stack|
    ensures forall i :: 0 <= i < |args| ==> m.stack[|m.stack| - 1 - i] == val(args[i])
  {
    forall i | 0 <= i < |args|
      ensures m.stack[|m.stack| - 1 - i] == val(args[i])
    {
      assert TopClass(k, i, args[i]);
      assert ElementHolds(k.elements, val, origin, m.stack, k.height - i);
    }
  }

  // ----- storage and memory -----

  predicate Submap(m: map<Id, Id>, m': map<Id, Id>) { forall c :: c in m ==> c in m' && m[c] == m'[c] }

  lemma ReadBack(t: Target, store: Store, a: Word, w: Word)
    ensures Load(LoadInstruction(t), Write(StoreInstruction(t), store, a, w), a) == w
    ensures Load(LoadInstruction(t), store, a) == w ==> Write(StoreInstruction(t), store, a, w) == store
  {
    if t == ToStorage {
      SloadSstore(store.storage, a, w, a);
    } else {
      LoadStored(store.memory, a, w);
      if Mload(store.memory, a) == w {
        StoreSameWord(store.memory, a, w);
      }
    }
  }

  /** A write is invisible where the slot differs, in memory by 32, or where storage had that value already. */
  predicate Survives(t: Target, a: Word, w: Word, b: Word, x: Word)
  {
    if t == ToStorage then b != a || x == w else Apart(b, a)
  }

  lemma ReadAfterWrite(t: Target, store: Store, a: Word, w: Word, b: Word, x: Word)
    requires Load(LoadInstruction(t), store, b) == x && Survives(t, a, w, b, x)
    ensures Load(LoadInstruction(t), Write(StoreInstruction(t), store, a, w), b) == x
  {
    if t == ToStorage {
      SloadSstore(store.storage, a, w, b);
    } else {
      LoadElsewhere(store.memory, a, w, b);
    }
  }

  lemma OtherContent(t: Target, store: Store, a: Word, w: Word, b: Word)
    ensures Load(LoadInstruction(Other(t)), Write(StoreInstruction(t), store, a, w), b)
         == Load(LoadInstruction(Other(t)), store, b)
  {
  }

  lemma ContentWritten(
    t: Target, content: map<Id, Id>, kept: map<Id, Id>, slot: Id, value: Id, val: Values, store: Store)
    requires ContentHolds(t, content, val, store) && Submap(kept, content)
    requires forall s :: s in kept ==> Survives(t, val(slot), val(value), val(s), val(kept[s]))
    ensures ContentHolds(t, kept[slot := value], val, Write(StoreInstruction(t), store, val(slot), val(value)))
  {
    var content' := kept[slot := value];
    forall s | s in content'
      ensures Load(LoadInstruction(t), Write(StoreInstruction(t), store, val(slot), val(value)), val(s))
           == val(content'[s])
    {
      if s == slot {
        ReadBack(t, store, val(slot), val(value));
      } else {
        ReadAfterWrite(t, store, val(slot), val(value), val(s), val(kept[s]));
      }
    }
  }

  lemma OtherContentWritten(t: Target, content: map<Id, Id>, val: Values, store: Store, a: Word, w: Word)
    requires ContentHolds(Other(t), content, val, store)
    ensures ContentHolds(Other(t), content, val, Write(StoreInstruction(t), store, a, w))
  {
    forall s | s in content
      ensures Load(LoadInstruction(Other(t)), Write(StoreInstruction(t), store, a, w), val(s)) == val(content[s])
    {
      OtherContent(t, store, a, w, val(s));
    }
  }

  lemma StoreChanged(
    k: Knowledge, t: Target, content': map<Id, Id>,
    val: Values, leaf: int -> Word, origin: int, stack: seq<Word>, m': Machine)
    requires StackHolds(k.elements, k.height, val, leaf, origin, stack) && m'.stack == stack
    requires ContentHolds(t, content', val, m'.store) && ContentHolds(Other(t), Content(k, Other(t)), val, m'.store)
    ensures Holds(WithContent(k, t, content'), val, leaf, origin, m')
  {
  }

  lemma ContentOf(k: Knowledge, t: Target, val: Values, leaf: int -> Word, origin: int, m: Machine)
    requires Holds(k, val, leaf, origin, m)
    ensures ContentHolds(t, Content(k, t), val, m.store)
  {
  }

  lemma TopIsSlot(k: Knowledge, slot: Id, val: Values, leaf: int -> Word, origin: int, m: Machine)
    requires Holds(k, val, leaf, origin, m) && TopClasses(k, [slot]) && 1 <= |m.stack|
    ensures m.stack[|m.stack| - 1] == val(slot)
  {
    TopWordsAre(k, [slot], val, leaf, origin, m);
    assert [slot][0] == slot;
  }

  lemma TopIsSlotAndValue(k: Knowledge, slot: Id, value: Id, val: Values, leaf: int -> Word, origin: int, m: Machine)
    requires Holds(k, val, leaf, origin, m) && TopClasses(k, [slot, value]) && 2 <= |m.stack|
    ensures m.stack[|m.stack| - 1] == val(slot) && m.stack[|m.stack| - 2] == val(value)
  {
    TopWordsAre(k, [slot, value], val, leaf, origin, m);
    assert [slot, value][0] == slot && [slot, value][1] == value;
  }

  /** A load of class c, with what the analysis then knows about storage or memory. */
  lemma LoadHolds(
    k: Knowledge, t: Target, slot: Id, content': map<Id, Id>, c: Id,
    val: Values, leaf: int -> Word, origin: int, m: Machine)
    requires Holds(k, val, leaf, origin, m) && TopClasses(k, [slot]) && 1 <= |m.stack|
    requires ContentHolds(t, content', val, m.store)
    requires val(c) == Load(LoadInstruction(t), m.store, val(slot))
    ensures Holds(WithContent(Replaced(k, 1, c), t, content'), val, leaf, origin, LoadOnStack(LoadInstruction(t), m))
  {
    TopIsSlot(k, slot, val, leaf, origin, m);
    ReplacedHolds(k, 1, c, val(c), val, leaf, origin, m);
    ContentOf(k, Other(t), val, leaf, origin, m);
    var k', m' := Replaced(k, 1, c), LoadOnStack(LoadInstruction(t), m);
    StoreChanged(k', t, content', val, leaf, origin, m.stack[..|m.stack| - 1] + [val(c)], m');
  }

  lemma StoreHolds(
    k: Knowledge, t: Target, slot: Id, value: Id, content': map<Id, Id>,
    val: Values, leaf: int -> Word, origin: int, m: Machine)
    requires Holds(k, val, leaf, origin, m) && TopClasses(k, [slot, value]) && 2 <= |m.stack|
    requires ContentHolds(t, content', val, Write(StoreInstruction(t), m.store, val(slot), val(value)))
    ensures StoreFromStack(StoreInstruction(t), m).store == Write(StoreInstruction(t), m.store, val(slot), val(value))
    ensures Holds(WithContent(Popped(k, 2), t, content'), val, leaf, origin, StoreFromStack(StoreInstruction(t), m))
  {
    TopIsSlotAndValue(k, slot, value, val, leaf, origin, m);
    PoppedHolds(k, 2, val, leaf, origin, m);
    ContentOf(k, Other(t), val, leaf, origin, m);
    OtherContentWritten(t, Content(k, Other(t)), val, m.store, val(slot), val(value));
    StoreChanged(
      Popped(k, 2), t, content', val, leaf, origin, m.stack[..|m.stack| - 2], StoreFromStack(StoreInstruction(t), m));
  }

  /** Whatever happened to a part of the store, knowledge about the rest stays true. */
  lemma ForgottenHolds(
    k: Knowledge, k': Knowledge, val: Values, leaf: int -> Word, origin: int, m: Machine, m': Machine)
    requires Holds(k, val, leaf, origin, m) && m'.stack == m.stack
    requires k'.height == k.height && k'.elements == k.elements
    requires k'.storage == map[] || (k'.storage == k.storage && m'.store.storage == m.store.storage)
    requires k'.memory == map[] || (k'.memory == k.memory && m'.store.memory == m.store.memory)
    ensures Holds(k', val, leaf, origin, m')
  {
    forall s | s in k'.storage
      ensures Load(SLOAD, m'.store, val(s)) == val(k'.storage[s])
    {
      assert Load(SLOAD, m.store, val(s)) == val(k.storage[s]);
    }
    forall s | s in k'.memory
      ensures Load(MLOAD, m'.store, val(s)) == val(k'.memory[s])
    {
      assert Load(MLOAD, m.store, val(s)) == val(k.memory[s]);
    }
  }

  // ----- bounds on the part of the stack the analysis has touched -----

  /** Nothing is known about the elements below the bound, and they have not been touched. */
  ghost predicate LowerBound(k: Knowledge, bound: int)
  {
    bound <= k.height + 1 && forall h :: h in k.elements ==> bound <= h
  }

  ghost predicate LowerBoundsKept(k: Knowledge, k': Knowledge)
  {
    forall bound: int :: LowerBound(k', bound) ==> LowerBound(k, bound)
  }

  /** What is known up to the new height stays known, and what was pushed is known. */
  ghost predicate KeepsElements(k: Knowledge, k': Knowledge)
  {
    && (forall h :: h in k.elements && h <= k'.height ==> h in k'.elements)
    && (k'.height > k.height ==> (k.height + 1) in k'.elements)
  }

  lemma LowerBoundsOfChange(k: Knowledge, k': Knowledge)
    requires KeepsElements(k, k')
    ensures LowerBoundsKept(k, k')
  {
  }

  lemma AllKeepElements(k: Knowledge, n: nat, c: Id)
    ensures KeepsElements(k, Replaced(k, n, c)) && KeepsElements(k, Popped(k, n))
    ensures k.height in k.elements && (k.height - n) in k.elements ==> KeepsElements(k, Exchanged(k, n))
  {
  }

  lemma ChangesCommute(k: Knowledge, n: nat, c: Id, t: Target, content: map<Id, Id>, number: nat)
    ensures Replaced(WithContent(k, t, content), n, c) == WithContent(Replaced(k, n, c), t, content)
    ensures Popped(WithContent(k, t, content).(sequenceNumber := number), n)
         == WithContent(Popped(k, n), t, content).(sequenceNumber := number)
  {
  }
}
