/**
 * Knowledge over the classes of an expression container: feeding an item is a sound abstract step if, for
 * every valuation and every machine the knowledge described, the new knowledge describes the machine's step.
 */
module Tracking {
  import opened Words
  import opened Evm
  import opened SemanticInformation
  import opened Classes
  import opened Expressions
  import opened Knowledge

  ghost function ValuesOf(reps: seq<Expression>, v: Valuation): Values
    requires ValidClasses(reps)
  {
    (c: Id) => if c < |reps| then ClassValue(reps, c, v) else 0
  }

  /** A class that exists and depends on no access after n. */
  ghost predicate Settled(reps: seq<Expression>, c: Id, n: nat)
    requires ValidClasses(reps)
  {
    c < |reps| && SettledBy(reps, c, n)
  }

  ghost predicate ContentSettled(content: map<Id, Id>, reps: seq<Expression>, n: nat)
    requires ValidClasses(reps)
  {
    forall s :: s in content ==> Settled(reps, s, n) && Settled(reps, content[s], n)
  }

  ghost predicate ElementsSettled(elements: map<int, Id>, reps: seq<Expression>, n: nat)
    requires ValidClasses(reps)
  {
    forall h :: h in elements ==> Settled(reps, elements[h], n)
  }

  /** Reads happen at odd sequence numbers, writes at even ones; nothing known depends on a later access. */
  ghost predicate ValidKnowledge(k: Knowledge, reps: seq<Expression>)
  {
    && ValidClasses(reps)
    && k.sequenceNumber % 2 == 1
    && (forall h :: h in k.elements ==> h <= k.height)
    && ElementsSettled(k.elements, reps, k.sequenceNumber)
    && ContentSettled(k.storage, reps, k.sequenceNumber)
    && ContentSettled(k.memory, reps, k.sequenceNumber)
  }

  /** Under valuation v, everything k says is true of machine m. */
  ghost predicate Fits(k: Knowledge, reps: seq<Expression>, v: Valuation, origin: int, m: Machine)
    requires ValidClasses(reps)
  {
    Holds(k, ValuesOf(reps, v), v.leaf, origin, m)
  }

  /** Besides, v tells the present store, and whatever is asked from now on is asked in its era. */
  ghost predicate Describes(k: Knowledge, reps: seq<Expression>, v: Valuation, origin: int, m: Machine)
    requires ValidClasses(reps)
  {
    Fits(k, reps, v, origin, m) && v.history(k.sequenceNumber) == m.store && v.era <= |reps|
  }

  // ----- growing the classes -----

  lemma SettledStill(reps: seq<Expression>, reps': seq<Expression>, c: Id, n: nat, n': nat)
    requires ValidClasses(reps) && ValidClasses(reps') && reps <= reps' && Settled(reps, c, n) && n <= n'
    ensures Settled(reps', c, n')
  {
    PrefixClass(reps, reps', c);
    SettledLater(reps', c, n, n');
  }

  lemma ContentStill(content: map<Id, Id>, reps: seq<Expression>, reps': seq<Expression>, n: nat, n': nat)
    requires ValidClasses(reps) && ValidClasses(reps') && reps <= reps' && ContentSettled(content, reps, n) && n <= n'
    ensures ContentSettled(content, reps', n')
  {
    forall s | s in content
      ensures Settled(reps', s, n') && Settled(reps', content[s], n')
    {
      SettledStill(reps, reps', s, n, n');
      SettledStill(reps, reps', content[s], n, n');
    }
  }

  lemma ElementsStill(elements: map<int, Id>, reps: seq<Expression>, reps': seq<Expression>, n: nat, n': nat)
    requires ValidClasses(reps) && ValidClasses(reps') && reps <= reps' && ElementsSettled(elements, reps, n) && n <= n'
    ensures ElementsSettled(elements, reps', n')
  {
    forall h | h in elements
      ensures Settled(reps', elements[h], n')
    {
      SettledStill(reps, reps', elements[h], n, n');
    }
  }

  lemma StillValid(k: Knowledge, reps: seq<Expression>, reps': seq<Expression>)
    requires ValidKnowledge(k, reps) && ValidClasses(reps') && reps <= reps'
    ensures ValidKnowledge(k, reps')
  {
    ElementsStill(k.elements, reps, reps', k.sequenceNumber, k.sequenceNumber);
    ContentStill(k.storage, reps, reps', k.sequenceNumber, k.sequenceNumber);
    ContentStill(k.memory, reps, reps', k.sequenceNumber, k.sequenceNumber);
  }

  lemma SameValueStill(reps: seq<Expression>, reps': seq<Expression>, c: Id, v: Valuation)
    requires ValidClasses(reps) && ValidClasses(reps') && reps <= reps' && c < |reps|
    ensures ValuesOf(reps, v)(c) == ValuesOf(reps', v)(c)
  {
    PrefixClass(reps, reps', c);
    assert ClassValue(reps, c, v) == ClassValue(reps', c, v);
  }

  lemma MentionedExists(k: Knowledge, reps: seq<Expression>, c: Id)
    requires ValidKnowledge(k, reps) && Mentions(k, c)
    ensures Settled(reps, c, k.sequenceNumber)
  {
  }

  lemma StillDescribes(
    k: Knowledge, reps: seq<Expression>, reps': seq<Expression>, v: Valuation, origin: int, m: Machine)
    requires ValidKnowledge(k, reps) && ValidClasses(reps') && reps <= reps' && Describes(k, reps, v, origin, m)
    ensures Describes(k, reps', v, origin, m)
  {
    StillFits(k, reps, reps', v, origin, m);
  }

  lemma StillFits(
    k: Knowledge, reps: seq<Expression>, reps': seq<Expression>, v: Valuation, origin: int, m: Machine)
    requires ValidKnowledge(k, reps) && ValidClasses(reps') && reps <= reps' && Fits(k, reps, v, origin, m)
    ensures Fits(k, reps', v, origin, m)
  {
    forall c | Mentions(k, c)
      ensures ValuesOf(reps, v)(c) == ValuesOf(reps', v)(c)
    {
      MentionedExists(k, reps, c);
      SameValueStill(reps, reps', c, v);
    }
    HoldsForSameValues(k, ValuesOf(reps, v), ValuesOf(reps', v), v.leaf, origin, m);
  }

  /** What is known does not depend on the store at later sequence numbers. */
  lemma DescribesOtherFuture(k: Knowledge, reps: seq<Expression>, v: Valuation, v': Valuation, origin: int, m: Machine)
    requires ValidKnowledge(k, reps) && Describes(k, reps, v, origin, m) && SameUpTo(v, v', k.sequenceNumber)
    ensures Describes(k, reps, v', origin, m)
  {
    forall c | Mentions(k, c)
      ensures ValuesOf(reps, v)(c) == ValuesOf(reps, v')(c)
    {
      MentionedExists(k, reps, c);
      SettledValue(reps, c, k.sequenceNumber, v, v');
    }
    HoldsForSameValues(k, ValuesOf(reps, v), ValuesOf(reps, v'), v.leaf, origin, m);
  }

  // ----- what one store operation does -----

  ghost predicate ValidStore(reps: seq<Expression>, op: StoreOperation)
  {
    && ValidClasses(reps)
    && op.StoreOperation?
    && op.expression < |reps|
    && reps[op.expression].item == Operation(StoreInstruction(op.target))
    && |reps[op.expression].arguments| == 2
    && reps[op.expression].arguments[0] == op.slot < |reps|
    && reps[op.expression].arguments[1] < |reps|
    && reps[op.expression].sequenceNumber == op.sequenceNumber
  }

  /** What is stored, and where, was known before the write. */
  ghost predicate SettledStore(reps: seq<Expression>, op: StoreOperation)
  {
    && ValidStore(reps, op) && op.sequenceNumber > 0 && op.sequenceNumber % 2 == 0
    && Settled(reps, op.slot, op.sequenceNumber) && Settled(reps, StoredValue(reps, op), op.sequenceNumber)
  }

  function StoredValue(reps: seq<Expression>, op: StoreOperation): Id
    requires op.StoreOperation? && op.expression < |reps| && |reps[op.expression].arguments| == 2
  {
    reps[op.expression].arguments[1]
  }

  /** The store after the operation, if there is one. */
  ghost function Effect(reps: seq<Expression>, op: StoreOperation, v: Valuation, store: Store): Store
    requires ValidClasses(reps) && (op.StoreOperation? ==> ValidStore(reps, op))
  {
    if op.NoStore? then store
    else Write(StoreInstruction(op.target), store, ValuesOf(reps, v)(op.slot), ValuesOf(reps, v)(StoredValue(reps, op)))
  }

  // ----- sound steps -----

  /** Whatever machine k described, k' describes it after the item, which has the effect op tells. */
  ghost predicate SoundStep(
    k: Knowledge, reps: seq<Expression>, item: AssemblyItem, op: StoreOperation, k': Knowledge, reps': seq<Expression>)
    requires ValidClasses(reps) && ValidClasses(reps') && (op.StoreOperation? ==> ValidStore(reps', op))
  {
    forall v: Valuation, origin: int, m: Machine ::
      Describes(k, reps, v, origin, m) && Step(item, v.env, m).Some? ==>
        var m' := Step(item, v.env, m).value;
        && m'.store == Effect(reps', op, v, m.store)
        && (v.history(k'.sequenceNumber) == m'.store ==> Describes(k', reps', v, origin, m'))
  }

  /** k1 describes every machine k describes, provided the item can run on it. */
  ghost predicate Refines(
    k: Knowledge, reps: seq<Expression>, item: AssemblyItem, k1: Knowledge, reps1: seq<Expression>)
    requires ValidClasses(reps) && ValidClasses(reps1)
  {
    forall v: Valuation, origin: int, m: Machine ::
      Describes(k, reps, v, origin, m) && Step(item, v.env, m).Some? ==> Describes(k1, reps1, v, origin, m)
  }

  lemma RefinedStep(
    k: Knowledge, reps: seq<Expression>, item: AssemblyItem, op: StoreOperation,
    k1: Knowledge, reps1: seq<Expression>, k': Knowledge, reps': seq<Expression>)
    requires ValidClasses(reps) && ValidClasses(reps1) && ValidClasses(reps')
    requires op.StoreOperation? ==> ValidStore(reps', op)
    requires Refines(k, reps, item, k1, reps1) && SoundStep(k1, reps1, item, op, k', reps')
    ensures SoundStep(k, reps, item, op, k', reps')
  {
  }

  /** The words of the topmost elements are the values of their classes. */
  lemma ArgumentsOnTop(k: Knowledge, reps: seq<Expression>, args: seq<Id>, v: Valuation, origin: int, m: Machine)
    requires ValidClasses(reps) && Describes(k, reps, v, origin, m) && TopClasses(k, args) && |args| <= |m.stack|
    requires forall i :: 0 <= i < |args| ==> args[i] < |reps|
    ensures TopWords(m.stack, |args|) == ArgumentValues(reps, args, v)
  {
    TopWordsAre(k, args, ValuesOf(reps, v), v.leaf, origin, m);
  }

  lemma PushedDescribed(k: Knowledge, reps: seq<Expression>, c: Id, w: Word, v: Valuation, origin: int, m: Machine)
    requires ValidClasses(reps) && Describes(k, reps, v, origin, m) && ValuesOf(reps, v)(c) == w
    ensures Describes(Replaced(k, 0, c), reps, v, origin, PushWord(m, w))
  {
    ReplacedHolds(k, 0, c, w, ValuesOf(reps, v), v.leaf, origin, m);
    assert m.stack[..|m.stack|] == m.stack;
  }

  lemma PushStep(k: Knowledge, reps: seq<Expression>, item: AssemblyItem, c: Id)
    requires ValidClasses(reps) && IsPush(item) && c < |reps| && reps[c] == Expression(item, [], 0)
    ensures SoundStep(k, reps, item, NoStore, Replaced(k, 0, c), reps)
  {
    forall v: Valuation, origin: int, m: Machine
      | Describes(k, reps, v, origin, m) && Step(item, v.env, m).Some?
      ensures Describes(Replaced(k, 0, c), reps, v, origin, Step(item, v.env, m).value)
      ensures Step(item, v.env, m).value.store == m.store
    {
      ClassValueIs(reps, c, v);
      PushedDescribed(k, reps, c, ClassValue(reps, c, v), v, origin, m);
    }
  }

  lemma DupAt(k: Knowledge, reps: seq<Expression>, n: nat, c: Id, v: Valuation, origin: int, m: Machine)
    requires ValidClasses(reps) && 1 <= n <= |m.stack|
    requires (k.height - n + 1) in k.elements && k.elements[k.height - n + 1] == c
    requires Describes(k, reps, v, origin, m)
    ensures Describes(Replaced(k, 0, c), reps, v, origin, PushWord(m, m.stack[|m.stack| - n]))
  {
    assert ElementHolds(k.elements, ValuesOf(reps, v), origin, m.stack, k.height - n + 1);
    PushedDescribed(k, reps, c, m.stack[|m.stack| - n], v, origin, m);
  }

  lemma DupStep(k: Knowledge, reps: seq<Expression>, n: nat, c: Id)
    requires ValidClasses(reps) && 1 <= n <= 16
    requires (k.height - n + 1) in k.elements && k.elements[k.height - n + 1] == c
    ensures SoundStep(k, reps, Operation(DUP(n)), NoStore, Replaced(k, 0, c), reps)
  {
    var item := Operation(DUP(n));
    forall v: Valuation, origin: int, m: Machine
      | Describes(k, reps, v, origin, m) && Step(item, v.env, m).Some?
      ensures Describes(Replaced(k, 0, c), reps, v, origin, Step(item, v.env, m).value)
      ensures Step(item, v.env, m).value.store == m.store
    {
      StepDup(n, v.env, m);
      DupAt(k, reps, n, c, v, origin, m);
    }
  }

  lemma SwapStep(k: Knowledge, reps: seq<Expression>, n: nat)
    requires ValidClasses(reps) && 1 <= n <= 16 && k.height in k.elements && (k.height - n) in k.elements
    ensures SoundStep(k, reps, Operation(SWAP(n)), NoStore, Exchanged(k, n), reps)
  {
    var item := Operation(SWAP(n));
    forall v: Valuation, origin: int, m: Machine
      | Describes(k, reps, v, origin, m) && Step(item, v.env, m).Some?
      ensures Describes(Exchanged(k, n), reps, v, origin, Step(item, v.env, m).value)
      ensures Step(item, v.env, m).value.store == m.store
    {
      StepSwap(n, v.env, m);
      ExchangedHolds(k, n, ValuesOf(reps, v), v.leaf, origin, m);
    }
  }

  lemma PopAt(k: Knowledge, reps: seq<Expression>, v: Valuation, origin: int, m: Machine)
    requires ValidClasses(reps) && Describes(k, reps, v, origin, m) && 1 <= |m.stack|
    ensures Describes(Popped(k, 1), reps, v, origin, m.(stack := m.stack[..|m.stack| - 1]))
  {
    PoppedHolds(k, 1, ValuesOf(reps, v), v.leaf, origin, m);
  }

  lemma PopStep(k: Knowledge, reps: seq<Expression>)
    requires ValidClasses(reps)
    ensures SoundStep(k, reps, Operation(POP), NoStore, Popped(k, 1), reps)
  {
    forall v: Valuation, origin: int, m: Machine
      | Describes(k, reps, v, origin, m) && Step(Operation(POP), v.env, m).Some?
      ensures Describes(Popped(k, 1), reps, v, origin, Step(Operation(POP), v.env, m).value)
      ensures Step(Operation(POP), v.env, m).value.store == m.store
    {
      StepPop(v.env, m);
      PopAt(k, reps, v, origin, m);
    }
  }

  // ----- access to storage and memory -----

  /** New entries are true wherever the old ones were, and class c is what a load from the slot reads. */
  ghost predicate LoadSound(
    t: Target, reps: seq<Expression>, content: map<Id, Id>, n: nat,
    reps': seq<Expression>, content': map<Id, Id>, slot: Id, c: Id)
    requires ValidClasses(reps) && ValidClasses(reps')
  {
    forall v: Valuation :: ContentHolds(t, content, ValuesOf(reps, v), v.history(n)) ==>
      && ContentHolds(t, content', ValuesOf(reps', v), v.history(n))
      && ValuesOf(reps', v)(c) == Load(LoadInstruction(t), v.history(n), ValuesOf(reps', v)(slot))
  }

  lemma LoadAt(
    k: Knowledge, reps: seq<Expression>, reps': seq<Expression>, t: Target, slot: Id, content': map<Id, Id>, c: Id,
    v: Valuation, origin: int, m: Machine)
    requires ValidKnowledge(k, reps) && ValidClasses(reps') && reps <= reps' && TopClasses(k, [slot])
    requires LoadSound(t, reps, Content(k, t), k.sequenceNumber, reps', content', slot, c)
    requires Describes(k, reps, v, origin, m) && 1 <= |m.stack|
    ensures Describes(WithContent(Replaced(k, 1, c), t, content'), reps', v, origin, LoadOnStack(LoadInstruction(t), m))
  {
    ContentOf(k, t, ValuesOf(reps, v), v.leaf, origin, m);
    StillDescribes(k, reps, reps', v, origin, m);
    LoadHolds(k, t, slot, content', c, ValuesOf(reps', v), v.leaf, origin, m);
  }

  lemma LoadStep(
    k: Knowledge, reps: seq<Expression>, reps': seq<Expression>, t: Target, slot: Id, content': map<Id, Id>, c: Id)
    requires ValidKnowledge(k, reps) && ValidClasses(reps') && reps <= reps' && TopClasses(k, [slot])
    requires LoadSound(t, reps, Content(k, t), k.sequenceNumber, reps', content', slot, c)
    ensures SoundStep(
      k, reps, Operation(LoadInstruction(t)), NoStore, WithContent(Replaced(k, 1, c), t, content'), reps')
  {
    var item := Operation(LoadInstruction(t));
    forall v: Valuation, origin: int, m: Machine
      | Describes(k, reps, v, origin, m) && Step(item, v.env, m).Some?
      ensures Describes(WithContent(Replaced(k, 1, c), t, content'), reps', v, origin, Step(item, v.env, m).value)
      ensures Step(item, v.env, m).value.store == m.store
    {
      StepLoad(LoadInstruction(t), v.env, m);
      LoadAt(k, reps, reps', t, slot, content', c, v, origin, m);
    }
  }

  /** The entries after a write are true of the store after it. */
  ghost predicate StoreSound(
    t: Target, reps: seq<Expression>, content: map<Id, Id>, op: StoreOperation,
    reps': seq<Expression>, content': map<Id, Id>, slot: Id, value: Id)
    requires ValidClasses(reps) && ValidClasses(reps') && (op.StoreOperation? ==> ValidStore(reps', op))
  {
    forall v: Valuation, store: Store :: ContentHolds(t, content, ValuesOf(reps, v), store) ==>
      && Effect(reps', op, v, store) ==
           Write(StoreInstruction(t), store, ValuesOf(reps', v)(slot), ValuesOf(reps', v)(value))
      && ContentHolds(t, content', ValuesOf(reps', v), Effect(reps', op, v, store))
  }

  lemma StoreAt(
    k: Knowledge, reps: seq<Expression>, reps': seq<Expression>, t: Target, slot: Id, value: Id,
    op: StoreOperation, content': map<Id, Id>, n': nat, v: Valuation, origin: int, m: Machine)
    requires ValidKnowledge(k, reps) && ValidClasses(reps') && reps <= reps' && TopClasses(k, [slot, value])
    requires op.StoreOperation? ==> ValidStore(reps', op)
    requires StoreSound(t, reps, Content(k, t), op, reps', content', slot, value)
    requires Describes(k, reps, v, origin, m) && 2 <= |m.stack|
    ensures StoreFromStack(StoreInstruction(t), m).store == Effect(reps', op, v, m.store)
    ensures v.history(n') == StoreFromStack(StoreInstruction(t), m).store ==> Describes(
      WithContent(Popped(k, 2), t, content').(sequenceNumber := n'), reps', v, origin,
      StoreFromStack(StoreInstruction(t), m))
  {
    ContentOf(k, t, ValuesOf(reps, v), v.leaf, origin, m);
    StillDescribes(k, reps, reps', v, origin, m);
    StoreHolds(k, t, slot, value, content', ValuesOf(reps', v), v.leaf, origin, m);
    var k' := WithContent(Popped(k, 2), t, content');
    SameKnowledgeLater(k', n', ValuesOf(reps', v), v.leaf, origin, StoreFromStack(StoreInstruction(t), m));
  }

  lemma SameKnowledgeLater(k: Knowledge, n: nat, val: Values, leaf: int -> Word, origin: int, m: Machine)
    requires Holds(k, val, leaf, origin, m)
    ensures Holds(k.(sequenceNumber := n), val, leaf, origin, m)
  {
  }

  lemma StoreStep(
    k: Knowledge, reps: seq<Expression>, reps': seq<Expression>, t: Target, slot: Id, value: Id,
    op: StoreOperation, content': map<Id, Id>, n': nat)
    requires ValidKnowledge(k, reps) && ValidClasses(reps') && reps <= reps' && TopClasses(k, [slot, value])
    requires op.StoreOperation? ==> ValidStore(reps', op)
    requires StoreSound(t, reps, Content(k, t), op, reps', content', slot, value)
    ensures SoundStep(k, reps, Operation(StoreInstruction(t)), op,
              WithContent(Popped(k, 2), t, content').(sequenceNumber := n'), reps')
  {
    var item, k' := Operation(StoreInstruction(t)), WithContent(Popped(k, 2), t, content').(sequenceNumber := n');
    forall v: Valuation, origin: int, m: Machine
      | Describes(k, reps, v, origin, m) && Step(item, v.env, m).Some?
      ensures Step(item, v.env, m).value.store == Effect(reps', op, v, m.store)
      ensures v.history(n') == Step(item, v.env, m).value.store ==>
        Describes(k', reps', v, origin, Step(item, v.env, m).value)
    {
      StepStore(StoreInstruction(t), v.env, m);
      StoreAt(k, reps, reps', t, slot, value, op, content', n', v, origin, m);
    }
  }

  /** What a write leaves alone, under every valuation. */
  ghost predicate AlwaysSurvives(t: Target, reps: seq<Expression>, slot: Id, value: Id, s: Id, x: Id)
    requires ValidClasses(reps)
  {
    forall v: Valuation ::
      Survives(t, ValuesOf(reps, v)(slot), ValuesOf(reps, v)(value), ValuesOf(reps, v)(s), ValuesOf(reps, v)(x))
  }

  ghost predicate AllSurvive(t: Target, reps: seq<Expression>, slot: Id, value: Id, kept: map<Id, Id>)
    requires ValidClasses(reps)
  {
    forall s :: s in kept ==> AlwaysSurvives(t, reps, slot, value, s, kept[s])
  }

  lemma AllStillSurvive(
    t: Target, reps: seq<Expression>, reps': seq<Expression>, slot: Id, value: Id, kept: map<Id, Id>)
    requires ValidClasses(reps) && ValidClasses(reps') && reps <= reps' && slot < |reps| && value < |reps|
    requires forall s :: s in kept ==> s < |reps| && kept[s] < |reps|
    requires AllSurvive(t, reps, slot, value, kept)
    ensures AllSurvive(t, reps', slot, value, kept)
  {
    forall s | s in kept
      ensures AlwaysSurvives(t, reps', slot, value, s, kept[s])
    {
      assert AlwaysSurvives(t, reps, slot, value, s, kept[s]);
      forall v: Valuation
        ensures Survives(
          t, ValuesOf(reps', v)(slot), ValuesOf(reps', v)(value), ValuesOf(reps', v)(s), ValuesOf(reps', v)(kept[s]))
      {
        SameValueStill(reps, reps', slot, v);
        SameValueStill(reps, reps', value, v);
        SameValueStill(reps, reps', s, v);
        SameValueStill(reps, reps', kept[s], v);
      }
    }
  }

  lemma StillContentHolds(
    t: Target, content: map<Id, Id>, reps: seq<Expression>, reps': seq<Expression>, n: nat, v: Valuation, store: Store)
    requires ValidClasses(reps) && ValidClasses(reps') && reps <= reps' && ContentSettled(content, reps, n)
    requires ContentHolds(t, content, ValuesOf(reps, v), store)
    ensures ContentHolds(t, content, ValuesOf(reps', v), store)
  {
    forall s | s in content
      ensures Load(LoadInstruction(t), store, ValuesOf(reps', v)(s)) == ValuesOf(reps', v)(content[s])
    {
      SameValueStill(reps, reps', s, v);
      SameValueStill(reps, reps', content[s], v);
    }
  }

  /** Nothing has to be stored where the value is known to be there already. */
  lemma RedundantStore(t: Target, reps: seq<Expression>, content: map<Id, Id>, slot: Id, value: Id)
    requires ValidClasses(reps) && slot in content && content[slot] == value
    ensures StoreSound(t, reps, content, NoStore, reps, content, slot, value)
  {
    forall v: Valuation, store: Store | ContentHolds(t, content, ValuesOf(reps, v), store)
      ensures Write(StoreInstruction(t), store, ValuesOf(reps, v)(slot), ValuesOf(reps, v)(value)) == store
    {
      ReadBack(t, store, ValuesOf(reps, v)(slot), ValuesOf(reps, v)(value));
    }
  }

  lemma NewStore(
    t: Target, reps: seq<Expression>, content: map<Id, Id>, n: nat, op: StoreOperation,
    reps': seq<Expression>, kept: map<Id, Id>, slot: Id, value: Id)
    requires ValidClasses(reps) && reps <= reps' && ContentSettled(content, reps, n)
    requires ValidStore(reps', op) && op.target == t && op.slot == slot && StoredValue(reps', op) == value
    requires Submap(kept, content) && AllSurvive(t, reps', slot, value, kept)
    ensures StoreSound(t, reps, content, op, reps', kept[slot := value], slot, value)
  {
    forall v: Valuation, store: Store | ContentHolds(t, content, ValuesOf(reps, v), store)
      ensures ContentHolds(t, kept[slot := value], ValuesOf(reps', v), Effect(reps', op, v, store))
    {
      StillContentHolds(t, content, reps, reps', n, v, store);
      forall s | s in kept
        ensures Survives(
          t, ValuesOf(reps', v)(slot), ValuesOf(reps', v)(value), ValuesOf(reps', v)(s), ValuesOf(reps', v)(kept[s]))
      {
        assert AlwaysSurvives(t, reps', slot, value, s, kept[s]);
      }
      ContentWritten(t, content, kept, slot, value, ValuesOf(reps', v), store);
    }
  }

  /** What is already known about a slot needs no load. */
  lemma KnownLoad(t: Target, reps: seq<Expression>, content: map<Id, Id>, n: nat, slot: Id)
    requires ValidClasses(reps) && slot in content
    ensures LoadSound(t, reps, content, n, reps, content, slot, content[slot])
  {
  }

  lemma NewLoad(
    t: Target, reps: seq<Expression>, content: map<Id, Id>, n: nat, reps': seq<Expression>, slot: Id, c: Id)
    requires ValidClasses(reps) && ValidClasses(reps') && reps <= reps' && ContentSettled(content, reps, n)
    requires slot !in content && slot < |reps| && c < |reps'|
    requires reps'[c] == Expression(Operation(LoadInstruction(t)), [slot], n)
    ensures LoadSound(t, reps, content, n, reps', content[slot := c], slot, c)
  {
    forall v: Valuation | ContentHolds(t, content, ValuesOf(reps, v), v.history(n))
      ensures ContentHolds(t, content[slot := c], ValuesOf(reps', v), v.history(n))
      ensures ValuesOf(reps', v)(c) == Load(LoadInstruction(t), v.history(n), ValuesOf(reps', v)(slot))
    {
      StillContentHolds(t, content, reps, reps', n, v, v.history(n));
      ClassValueIs(reps', c, v);
      LoadedValue(reps', LoadInstruction(t), slot, n, v);
    }
  }

  // ----- instructions that are not tracked: what they do to the store is unknown -----

  /** The item pops its arguments, pushes result if it has one, and touches only what it may invalidate. */
  ghost predicate OpaqueEffect(i: Instruction, result: Word, m: Machine, m': Machine)
  {
    && Info(i).args <= |m.stack|
    && m'.stack == m.stack[..|m.stack| - Info(i).args] + (if Info(i).ret == 1 then [result] else [])
    && (InvalidatesStorage(i) || m'.store.storage == m.store.storage)
    && (InvalidatesMemory(i) || m'.store.memory == m.store.memory)
  }

  /** k without what instruction i may invalidate; two numbers are skipped, as i can read and write. */
  function Reset(k: Knowledge, i: Instruction): Knowledge
  {
    k.(
      storage := if InvalidatesStorage(i) then map[] else k.storage,
      memory := if InvalidatesMemory(i) then map[] else k.memory,
      sequenceNumber := k.sequenceNumber + if InvalidatesStorage(i) || InvalidatesMemory(i) then 2 else 0)
  }

  /** k after instruction i, which pushes class c if it pushes anything. */
  function Forgotten(k: Knowledge, i: Instruction, c: Id): Knowledge
  {
    Reset(if Info(i).ret == 1 then Replaced(k, Info(i).args, c) else Popped(k, Info(i).args), i)
  }

  /** The item may lead from m to m', leaving w on the stack if it leaves anything there. */
  ghost predicate MayLead(i: Instruction, env: Env, w: Word, m: Machine, m': Machine)
  {
    && Info(i).args <= |m.stack| && OpaqueEffect(i, w, m, m')
    && (IsIndeterminate(Operation(i)) || w == Eval(env, i, TopWords(m.stack, Info(i).args)))
  }

  /** The valuation foresees the result, which is on top. */
  ghost predicate Foreseen(i: Instruction, k': Knowledge, v: Valuation, w: Word)
  {
    IsIndeterminate(Operation(i)) ==> k'.height in k'.elements && v.outcome(k'.elements[k'.height]) == w
  }

  ghost predicate SoundOpaqueStep(
    k: Knowledge, reps: seq<Expression>, i: Instruction, k': Knowledge, reps': seq<Expression>)
    requires ValidClasses(reps) && ValidClasses(reps')
  {
    forall v: Valuation, origin: int, w: Word, m: Machine, m': Machine ::
      Describes(k, reps, v, origin, m) && MayLead(i, v.env, w, m, m') && Foreseen(i, k', v, w)
      && v.history(k'.sequenceNumber) == m'.store ==>
        Describes(k', reps', v, origin, m')
  }

  /** An instruction whose result cannot be foreseen leaves a new class on top. */
  predicate FreshResult(item: AssemblyItem, reps: seq<Expression>, k': Knowledge)
  {
    IsIndeterminate(item) ==> k'.height in k'.elements && k'.elements[k'.height] >= |reps|
  }

  lemma ResultAt(
    k: Knowledge, reps: seq<Expression>, i: Instruction, args: seq<Id>, c: Id, v: Valuation, origin: int, m: Machine)
    requires ValidClasses(reps) && TopClasses(k, args) && |args| == Info(i).args <= |m.stack| && !IsLoad(i)
    requires Represents(reps, Expression(Operation(i), args, 0), c)
    requires Describes(k, reps, v, origin, m) && !IsRecorded(Operation(i), c, v.era)
    ensures ValuesOf(reps, v)(c) == Eval(v.env, i, TopWords(m.stack, |args|))
  {
    var e := Expression(Operation(i), args, 0);
    ArgumentsOnTop(k, reps, args, v, origin, m);
    HeadValue(reps, e, v);
    if IsQuery(i) {
      ClassValueIs(reps, c, v);
    } else {
      assert ExpressionValue(reps, e, v) == ClassValue(reps, c, v);
    }
  }

  /** The class of the result has its value. */
  lemma ResultForeseen(
    k: Knowledge, reps: seq<Expression>, i: Instruction, args: seq<Id>, c: Id,
    v: Valuation, origin: int, w: Word, m: Machine, m': Machine)
    requires ValidClasses(reps) && TopClasses(k, args) && |args| == Info(i).args && !IsLoad(i) && Info(i).ret == 1
    requires Represents(reps, Expression(Operation(i), args, 0), c)
    requires Describes(k, reps, v, origin, m) && MayLead(i, v.env, w, m, m') && Foreseen(i, Forgotten(k, i, c), v, w)
    requires IsQuery(i) ==> v.era <= c
    ensures ValuesOf(reps, v)(c) == w
  {
    if IsIndeterminate(Operation(i)) {
      ResultOnTop(k, i, c);
      OutcomeIs(reps, i, args, c, v);
    } else {
      ResultAt(k, reps, i, args, c, v, origin, m);
    }
  }

  lemma ResultOnTop(k: Knowledge, i: Instruction, c: Id)
    requires Info(i).ret == 1
    ensures var k' := Forgotten(k, i, c);
      k'.height in k'.elements && k'.elements[k'.height] == c
  {
  }

  lemma {:induction false} OutcomeIs(reps: seq<Expression>, i: Instruction, args: seq<Id>, c: Id, v: Valuation)
    requires ValidClasses(reps) && IsIndeterminate(Operation(i))
    requires Represents(reps, Expression(Operation(i), args, 0), c)
    ensures ClassValue(reps, c, v) == v.outcome(c)
  {
  }

  lemma OpaqueAt(
    k: Knowledge, reps: seq<Expression>, i: Instruction, args: seq<Id>, c: Id,
    v: Valuation, origin: int, w: Word, m: Machine, m': Machine)
    requires ValidClasses(reps) && TopClasses(k, args) && |args| == Info(i).args && !IsLoad(i)
    requires Info(i).ret == 1 ==> Represents(reps, Expression(Operation(i), args, 0), c)
    requires Describes(k, reps, v, origin, m) && MayLead(i, v.env, w, m, m') && Foreseen(i, Forgotten(k, i, c), v, w)
    requires IsQuery(i) ==> v.era <= c
    ensures Holds(Forgotten(k, i, c), ValuesOf(reps, v), v.leaf, origin, m')
  {
    var rest := m.stack[..|m.stack| - |args|];
    if Info(i).ret == 1 {
      ResultForeseen(k, reps, i, args, c, v, origin, w, m, m');
      ReplacedHolds(k, |args|, c, w, ValuesOf(reps, v), v.leaf, origin, m);
      ResetHolds(Replaced(k, |args|, c), i, ValuesOf(reps, v), v.leaf, origin, m.(stack := rest + [w]), m');
    } else {
      PoppedHolds(k, |args|, ValuesOf(reps, v), v.leaf, origin, m);
      ResetHolds(Popped(k, |args|), i, ValuesOf(reps, v), v.leaf, origin, m.(stack := rest), m');
    }
  }

  lemma ResetHolds(
    k: Knowledge, i: Instruction, val: Values, leaf: int -> Word, origin: int, m: Machine, m': Machine)
    requires Holds(k, val, leaf, origin, m) && m'.stack == m.stack
    requires InvalidatesStorage(i) || m'.store.storage == m.store.storage
    requires InvalidatesMemory(i) || m'.store.memory == m.store.memory
    ensures Holds(Reset(k, i), val, leaf, origin, m')
  {
    var k' := Reset(k, i);
    assert k'.storage == map[] || (k'.storage == k.storage && !InvalidatesStorage(i));
    assert k'.memory == map[] || (k'.memory == k.memory && !InvalidatesMemory(i));
    ForgottenHolds(k, k', val, leaf, origin, m, m');
  }

  /** An instruction whose effect is unknown except for what it cannot touch; what is asked has a class of its own. */
  lemma OpaqueStep(
    k: Knowledge, reps: seq<Expression>, i: Instruction, args: seq<Id>, c: Id, reps': seq<Expression>)
    requires ValidKnowledge(k, reps) && ValidClasses(reps') && reps <= reps'
    requires TopClasses(k, args) && |args| == Info(i).args && !IsLoad(i)
    requires Info(i).ret == 1 ==> Represents(reps', Expression(Operation(i), args, 0), c)
    requires IsQuery(i) ==> c >= |reps|
    ensures SoundOpaqueStep(k, reps, i, Forgotten(k, i, c), reps')
  {
    forall v: Valuation, origin: int, w: Word, m: Machine, m': Machine
      | Describes(k, reps, v, origin, m) && MayLead(i, v.env, w, m, m') && Foreseen(i, Forgotten(k, i, c), v, w)
        && v.history(Forgotten(k, i, c).sequenceNumber) == m'.store
      ensures Describes(Forgotten(k, i, c), reps', v, origin, m')
    {
      StillDescribes(k, reps, reps', v, origin, m);
      OpaqueAt(k, reps', i, args, c, v, origin, w, m, m');
    }
  }

  // ----- knowledge stays valid -----

  lemma ReplacedValid(k: Knowledge, n: nat, c: Id, reps: seq<Expression>)
    requires ValidKnowledge(k, reps) && Settled(reps, c, k.sequenceNumber)
    ensures ValidKnowledge(Replaced(k, n, c), reps)
  {
  }

  lemma AllBelow(k: Knowledge, reps: seq<Expression>)
    requires ValidKnowledge(k, reps)
    ensures Below(k.elements, k.height) == k.elements
  {
  }

  lemma ExchangedValid(k: Knowledge, n: nat, reps: seq<Expression>)
    requires ValidKnowledge(k, reps) && k.height in k.elements && (k.height - n) in k.elements
    ensures ValidKnowledge(Exchanged(k, n), reps)
  {
  }

  lemma ForgottenValid(k: Knowledge, i: Instruction, c: Id, reps: seq<Expression>)
    requires ValidKnowledge(k, reps) && (Info(i).ret == 1 ==> Settled(reps, c, k.sequenceNumber))
    ensures ValidKnowledge(Forgotten(k, i, c), reps)
  {
    var args := Info(i).args;
    if Info(i).ret == 1 {
      ReplacedValid(k, args, c, reps);
      ResetValid(Replaced(k, args, c), i, reps);
    } else {
      PoppedValid(k, args, reps);
      ResetValid(Popped(k, args), i, reps);
    }
  }

  lemma PoppedValid(k: Knowledge, n: nat, reps: seq<Expression>)
    requires ValidKnowledge(k, reps)
    ensures ValidKnowledge(Popped(k, n), reps)
  {
  }

  lemma ResetValid(k: Knowledge, i: Instruction, reps: seq<Expression>)
    requires ValidKnowledge(k, reps)
    ensures ValidKnowledge(Reset(k, i), reps)
  {
    var n := Reset(k, i).sequenceNumber;
    ElementsStill(k.elements, reps, reps, k.sequenceNumber, n);
    ContentStill(k.storage, reps, reps, k.sequenceNumber, n);
    ContentStill(k.memory, reps, reps, k.sequenceNumber, n);
  }

  // ----- one item fed to the analysis -----

  predicate IsOpaque(i: Instruction)
  {
    !i.DUP? && !i.SWAP? && i !in {POP, SLOAD, SSTORE, MLOAD, MSTORE}
  }

  /** The item may change storage or memory in a way that is not tracked. */
  predicate Invalidates(item: AssemblyItem)
  {
    item.Operation? && IsOpaque(item.instruction)
    && (InvalidatesStorage(item.instruction) || InvalidatesMemory(item.instruction))
  }

  /** The sequence numbers around an operation: reads at odd ones, and the write in between. */
  ghost predicate NumbersFollow(n: nat, item: AssemblyItem, op: StoreOperation, n': nat, reps': seq<Expression>)
    requires ValidClasses(reps')
  {
    if op.NoStore? then
      && n <= n' && (BreaksCSEAnalysisBlock(item) || n' == n)
      && (Invalidates(item) ==> n < n')
    else
      && SettledStore(reps', op) && op.sequenceNumber == n + 1 && n' == n + 2
  }

  ghost predicate Fed(
    k: Knowledge, reps: seq<Expression>, item: AssemblyItem, op: StoreOperation, k': Knowledge, reps': seq<Expression>)
  {
    && ValidKnowledge(k, reps) && ValidKnowledge(k', reps') && reps <= reps'
    && k'.height == k.height + Deposit(item)
    && NumbersFollow(k.sequenceNumber, item, op, k'.sequenceNumber, reps')
    && LowerBoundsKept(k, k') && FreshResult(item, reps, k')
    && SoundStep(k, reps, item, op, k', reps')
    && (item.Operation? && IsOpaque(item.instruction) ==> SoundOpaqueStep(k, reps, item.instruction, k', reps'))
  }

  /** k1 adds elements that have always been there. */
  ghost predicate MoreKnown(k: Knowledge, k1: Knowledge)
  {
    && k1 == k.(elements := k1.elements)
    && forall h :: h in k.elements ==> h in k1.elements && k1.elements[h] == k.elements[h]
  }

  /** k1 is true of every machine that k is true of and that has at least n stack elements. */
  ghost predicate Deepened(k: Knowledge, reps: seq<Expression>, n: nat, k1: Knowledge, reps1: seq<Expression>)
    requires ValidClasses(reps) && ValidClasses(reps1)
  {
    && MoreKnown(k, k1) && reps <= reps1
    && forall v: Valuation, origin: int, m: Machine ::
         Fits(k, reps, v, origin, m) && n <= |m.stack| ==> Fits(k1, reps1, v, origin, m)
  }

  lemma DeepenedFrom(
    k: Knowledge, reps: seq<Expression>, n: nat, k1: Knowledge, reps1: seq<Expression>,
    n': nat, k2: Knowledge, reps2: seq<Expression>)
    requires ValidClasses(reps) && ValidClasses(reps1) && ValidClasses(reps2)
    requires Deepened(k, reps, n, k1, reps1) && Deepened(k1, reps1, n', k2, reps2) && n <= n'
    ensures Deepened(k, reps, n', k2, reps2)
  {
  }

  lemma DeepenedDescribes(
    k: Knowledge, reps: seq<Expression>, n: nat, k1: Knowledge, reps1: seq<Expression>,
    v: Valuation, origin: int, m: Machine)
    requires ValidClasses(reps) && ValidClasses(reps1) && Deepened(k, reps, n, k1, reps1)
    requires Describes(k, reps, v, origin, m) && n <= |m.stack|
    ensures Describes(k1, reps1, v, origin, m)
  {
  }

  lemma OneMoreOnTop(k: Knowledge, k1: Knowledge, args: seq<Id>, c: Id)
    requires TopClasses(k, args) && MoreKnown(k, k1)
    requires (k.height - |args|) in k1.elements && k1.elements[k.height - |args|] == c
    ensures TopClasses(k1, args + [c])
  {
    var more := args + [c];
    forall i | 0 <= i < |more|
      ensures TopClass(k1, i, more[i])
    {
      assert i < |args| ==> TopClass(k, i, args[i]);
    }
  }

  lemma Revealed(k: Knowledge, reps: seq<Expression>, height: int, c: Id, reps1: seq<Expression>)
    requires ValidKnowledge(k, reps) && ValidClasses(reps1) && reps <= reps1 && height <= k.height
    requires height !in k.elements && c < |reps1| && reps1[c] == Expression(UndefinedItem(height), [], 0)
    ensures Deepened(k, reps, k.height - height + 1, k.(elements := k.elements[height := c]), reps1)
  {
    forall v: Valuation, origin: int, m: Machine
      | Fits(k, reps, v, origin, m) && k.height - height + 1 <= |m.stack|
      ensures Fits(k.(elements := k.elements[height := c]), reps1, v, origin, m)
    {
      StillFits(k, reps, reps1, v, origin, m);
      ClassValueIs(reps1, c, v);
      ElementRevealed(k, height, c, ValuesOf(reps1, v), v.leaf, origin, m);
    }
  }

  /** The class of an element that was not known yet. */
  lemma NewElement(k: Knowledge, reps: seq<Expression>, height: int, c: Id, reps1: seq<Expression>)
    requires ValidKnowledge(k, reps) && ValidClasses(reps1) && reps <= reps1 && height <= k.height
    requires height !in k.elements && Represents(reps1, Expression(UndefinedItem(height), [], 0), c)
    ensures ValidKnowledge(k.(elements := k.elements[height := c]), reps1)
    ensures Deepened(k, reps, k.height - height + 1, k.(elements := k.elements[height := c]), reps1)
  {
    StillValid(k, reps, reps1);
    NoAccess(reps1, c, k.sequenceNumber);
    Revealed(k, reps, height, c, reps1);
  }

  lemma DeepenedLater(
    k: Knowledge, reps: seq<Expression>, n: nat, k1: Knowledge, reps1: seq<Expression>, reps2: seq<Expression>)
    requires ValidClasses(reps) && ValidKnowledge(k1, reps1) && ValidClasses(reps2) && reps1 <= reps2
    requires Deepened(k, reps, n, k1, reps1)
    ensures Deepened(k, reps, n, k1, reps2)
  {
    forall v: Valuation, origin: int, m: Machine
      | Fits(k, reps, v, origin, m) && n <= |m.stack|
      ensures Fits(k1, reps2, v, origin, m)
    {
      StillFits(k1, reps1, reps2, v, origin, m);
    }
  }

  lemma OnlyPlainRuns(i: Instruction, env: Env, m: Machine)
    requires IsOpaque(i) && Step(Operation(i), env, m).Some?
    ensures IsPlain(i)
  {
  }

  /** A plain instruction has the effect any instruction could have. */
  lemma PlainMayLead(i: Instruction, env: Env, m: Machine)
    requires IsPlain(i) && Step(Operation(i), env, m).Some?
    ensures Info(i).args <= |m.stack| && Step(Operation(i), env, m).value.store == m.store
    ensures MayLead(i, env, Eval(env, i, TopWords(m.stack, Info(i).args)), m, Step(Operation(i), env, m).value)
    ensures !IsIndeterminate(Operation(i))
  {
    StepPlain(i, env, m);
  }

  /** The instructions that are not plain do not run here. */
  lemma OpaqueIsSound(k: Knowledge, reps: seq<Expression>, i: Instruction, k': Knowledge, reps': seq<Expression>)
    requires ValidClasses(reps) && ValidClasses(reps') && IsOpaque(i) && SoundOpaqueStep(k, reps, i, k', reps')
    ensures SoundStep(k, reps, Operation(i), NoStore, k', reps')
  {
    forall v: Valuation, origin: int, m: Machine
      | Describes(k, reps, v, origin, m) && Step(Operation(i), v.env, m).Some?
      ensures Step(Operation(i), v.env, m).value.store == m.store
      ensures v.history(k'.sequenceNumber) == m.store ==>
        Describes(k', reps', v, origin, Step(Operation(i), v.env, m).value)
    {
      OnlyPlainRuns(i, v.env, m);
      PlainMayLead(i, v.env, m);
      assert Foreseen(i, k', v, Eval(v.env, i, TopWords(m.stack, Info(i).args)));
    }
  }

  lemma DeepenedRefines(
    k: Knowledge, reps: seq<Expression>, i: Instruction, n: nat, k1: Knowledge, reps1: seq<Expression>)
    requires ValidClasses(reps) && ValidClasses(reps1) && n <= Info(i).args && Deepened(k, reps, n, k1, reps1)
    ensures Refines(k, reps, Operation(i), k1, reps1)
  {
    forall v: Valuation, origin: int, m: Machine
      | Describes(k, reps, v, origin, m) && Step(Operation(i), v.env, m).Some?
      ensures Describes(k1, reps1, v, origin, m)
    {
      StepNeeds(i, v.env, m);
      DeepenedDescribes(k, reps, n, k1, reps1, v, origin, m);
    }
  }

  lemma DeepenedOpaque(
    k: Knowledge, reps: seq<Expression>, i: Instruction, n: nat, k1: Knowledge, reps1: seq<Expression>,
    k': Knowledge, reps': seq<Expression>)
    requires ValidClasses(reps) && ValidClasses(reps1) && ValidClasses(reps')
    requires n <= Info(i).args && Deepened(k, reps, n, k1, reps1) && SoundOpaqueStep(k1, reps1, i, k', reps')
    ensures SoundOpaqueStep(k, reps, i, k', reps')
  {
    forall v: Valuation, origin: int, w: Word, m: Machine, m': Machine
      | Describes(k, reps, v, origin, m) && MayLead(i, v.env, w, m, m') && Foreseen(i, k', v, w)
        && v.history(k'.sequenceNumber) == m'.store
      ensures Describes(k', reps', v, origin, m')
    {
      DeepenedDescribes(k, reps, n, k1, reps1, v, origin, m);
    }
  }

  lemma EarlierKnown(
    k: Knowledge, k1: Knowledge, item: AssemblyItem, op: StoreOperation, k': Knowledge, reps': seq<Expression>)
    requires ValidClasses(reps') && MoreKnown(k, k1) && KeepsElements(k1, k')
    requires NumbersFollow(k1.sequenceNumber, item, op, k'.sequenceNumber, reps')
    ensures NumbersFollow(k.sequenceNumber, item, op, k'.sequenceNumber, reps') && LowerBoundsKept(k, k')
  {
    assert KeepsElements(k, k');
    LowerBoundsOfChange(k, k');
  }

  /** An item fed once the elements it takes from the stack are known. */
  lemma FedFrom(
    k: Knowledge, reps: seq<Expression>, i: Instruction, op: StoreOperation,
    n: nat, k1: Knowledge, reps1: seq<Expression>, k': Knowledge, reps': seq<Expression>)
    requires ValidKnowledge(k, reps) && ValidClasses(reps1) && ValidKnowledge(k', reps') && reps1 <= reps'
    requires n <= Info(i).args && Deepened(k, reps, n, k1, reps1)
    requires NumbersFollow(k1.sequenceNumber, Operation(i), op, k'.sequenceNumber, reps')
    requires k'.height == k.height + Deposit(Operation(i))
    requires SoundStep(k1, reps1, Operation(i), op, k', reps')
    requires IsOpaque(i) ==> SoundOpaqueStep(k1, reps1, i, k', reps')
    requires KeepsElements(k1, k') && FreshResult(Operation(i), reps, k')
    ensures Fed(k, reps, Operation(i), op, k', reps')
  {
    EarlierKnown(k, k1, Operation(i), op, k', reps');
    DeepenedRefines(k, reps, i, n, k1, reps1);
    if IsOpaque(i) {
      DeepenedOpaque(k, reps, i, n, k1, reps1, k', reps');
    }
    RefinedStep(k, reps, Operation(i), op, k1, reps1, k', reps');
  }

  // ----- storage and memory after an access -----

  ghost predicate Stored(
    k: Knowledge, reps: seq<Expression>, t: Target, slot: Id, value: Id,
    op: StoreOperation, k': Knowledge, reps': seq<Expression>)
  {
    && ValidClasses(reps) && ValidKnowledge(k', reps') && reps <= reps'
    && k' == WithContent(k, t, Content(k', t)).(sequenceNumber := k'.sequenceNumber)
    && NumbersFollow(k.sequenceNumber, Operation(StoreInstruction(t)), op, k'.sequenceNumber, reps')
    && StoreSound(t, reps, Content(k, t), op, reps', Content(k', t), slot, value)
  }

  ghost predicate Loaded(
    k: Knowledge, reps: seq<Expression>, t: Target, slot: Id, c: Id, k': Knowledge, reps': seq<Expression>)
  {
    && ValidClasses(reps) && ValidKnowledge(k', reps') && reps <= reps' && Settled(reps', c, k.sequenceNumber)
    && k' == WithContent(k, t, Content(k', t))
    && LoadSound(t, reps, Content(k, t), k.sequenceNumber, reps', Content(k', t), slot, c)
  }

  /**
   * A write of what is known to be there is none. Otherwise it has the next sequence number, and of what was known
   * only entries that are the same as before stay; in storage, all those that hold the value.
   */
  ghost predicate StoredExactly(k: Knowledge, t: Target, slot: Id, value: Id, op: StoreOperation, k': Knowledge)
  {
    var content, content' := Content(k, t), Content(k', t);
    if slot in content && content[slot] == value then op.NoStore? && k' == k
    else
      && op.StoreOperation? && op.target == t && op.slot == slot && op.sequenceNumber == k.sequenceNumber + 1
      && k'.sequenceNumber == k.sequenceNumber + 2 && slot in content' && content'[slot] == value
      && (forall s :: s in content' && s != slot ==> s in content && content'[s] == content[s])
      && (t == ToStorage ==> forall s :: s in content && content[s] == value ==> s in content')
  }

  /** What is known to be there, or else a new load of it, which is known from then on. */
  ghost predicate LoadedExactly(k: Knowledge, t: Target, slot: Id, c: Id, k': Knowledge, reps': seq<Expression>)
    requires ValidClasses(reps')
  {
    if slot in Content(k, t) then c == Content(k, t)[slot] && k' == k
    else
      && k' == WithContent(k, t, Content(k, t)[slot := c])
      && Represents(reps', Expression(Operation(LoadInstruction(t)), [slot], k.sequenceNumber), c)
  }

  lemma KeptExactly(k: Knowledge, kept: map<Id, Id>, op: StoreOperation, value: Id)
    requires op.StoreOperation? && op.sequenceNumber == k.sequenceNumber + 1 && Submap(kept, Content(k, op.target))
    requires !(op.slot in Content(k, op.target) && Content(k, op.target)[op.slot] == value)
    requires op.target == ToStorage ==>
      forall s :: s in Content(k, op.target) && Content(k, op.target)[s] == value ==> s in kept
    ensures StoredExactly(k, op.target, op.slot, value, op,
              WithContent(k, op.target, kept[op.slot := value]).(sequenceNumber := k.sequenceNumber + 2))
  {
  }

  /** The store expression that was just found. */
  lemma IsStore(reps: seq<Expression>, op: StoreOperation, value: Id)
    requires ValidClasses(reps) && op.StoreOperation?
    requires Represents(
      reps, Expression(Operation(StoreInstruction(op.target)), [op.slot, value], op.sequenceNumber), op.expression)
    ensures ValidStore(reps, op) && StoredValue(reps, op) == value
  {
  }

  lemma IsSettledStore(reps: seq<Expression>, reps': seq<Expression>, op: StoreOperation, value: Id, n: nat)
    requires ValidClasses(reps) && ValidClasses(reps') && reps <= reps'
    requires ValidStore(reps', op) && StoredValue(reps', op) == value
    requires Settled(reps, op.slot, n) && Settled(reps, value, n) && n % 2 == 1 && op.sequenceNumber == n + 1
    ensures SettledStore(reps', op)
  {
    SettledStill(reps, reps', op.slot, n, n + 1);
    SettledStill(reps, reps', value, n, n + 1);
  }

  lemma StoredIs(
    k: Knowledge, reps: seq<Expression>, kept: map<Id, Id>, reps1: seq<Expression>,
    op: StoreOperation, value: Id, reps': seq<Expression>)
    requires ValidKnowledge(k, reps) && ValidClasses(reps1) && ValidClasses(reps') && reps <= reps1 <= reps'
    requires op.StoreOperation? && op.sequenceNumber == k.sequenceNumber + 1
    requires Settled(reps, op.slot, k.sequenceNumber) && Settled(reps, value, k.sequenceNumber)
    requires Represents(
      reps', Expression(Operation(StoreInstruction(op.target)), [op.slot, value], op.sequenceNumber), op.expression)
    requires Submap(kept, Content(k, op.target)) && AllSurvive(op.target, reps1, op.slot, value, kept)
    ensures Stored(k, reps, op.target, op.slot, value, op,
              WithContent(k, op.target, kept[op.slot := value]).(sequenceNumber := k.sequenceNumber + 2), reps')
  {
    var n := k.sequenceNumber;
    IsStore(reps', op, value);
    IsSettledStore(reps, reps', op, value, n);
    StoreLeaves(k, reps, kept, reps1, op, value, reps');
    ContentStored(k, reps, kept, op.target, op.slot, value, reps');
    ContentReplaced(k, op.target, kept[op.slot := value], n + 2);
    StoreNumbers(n, op, reps');
  }

  lemma StoreLeaves(
    k: Knowledge, reps: seq<Expression>, kept: map<Id, Id>, reps1: seq<Expression>,
    op: StoreOperation, value: Id, reps': seq<Expression>)
    requires ValidKnowledge(k, reps) && ValidClasses(reps1) && reps <= reps1 <= reps'
    requires ValidStore(reps', op) && StoredValue(reps', op) == value && op.slot < |reps| && value < |reps|
    requires Submap(kept, Content(k, op.target)) && AllSurvive(op.target, reps1, op.slot, value, kept)
    ensures StoreSound(
      op.target, reps, Content(k, op.target), op, reps', kept[op.slot := value], op.slot, value)
  {
    AllStillSurvive(op.target, reps1, reps', op.slot, value, kept);
    NewStore(op.target, reps, Content(k, op.target), k.sequenceNumber, op, reps', kept, op.slot, value);
  }

  lemma ContentReplaced(k: Knowledge, t: Target, content: map<Id, Id>, n: nat)
    ensures var k' := WithContent(k, t, content).(sequenceNumber := n);
      Content(k', t) == content && k' == WithContent(k, t, Content(k', t)).(sequenceNumber := k'.sequenceNumber)
  {
  }

  lemma StoreNumbers(n: nat, op: StoreOperation, reps: seq<Expression>)
    requires ValidClasses(reps) && op.StoreOperation? && SettledStore(reps, op) && op.sequenceNumber == n + 1
    ensures NumbersFollow(n, Operation(StoreInstruction(op.target)), op, n + 2, reps)
  {
  }

  lemma EntryStored(content: map<Id, Id>, kept: map<Id, Id>, slot: Id, value: Id, reps: seq<Expression>, n: nat)
    requires ValidClasses(reps) && ContentSettled(content, reps, n) && Submap(kept, content)
    requires Settled(reps, slot, n) && Settled(reps, value, n)
    ensures ContentSettled(kept[slot := value], reps, n)
  {
  }

  lemma ContentStored(
    k: Knowledge, reps: seq<Expression>, kept: map<Id, Id>, t: Target, slot: Id, value: Id, reps': seq<Expression>)
    requires ValidKnowledge(k, reps) && ValidClasses(reps') && reps <= reps'
    requires Settled(reps', slot, k.sequenceNumber + 1) && Settled(reps', value, k.sequenceNumber + 1)
    requires Submap(kept, Content(k, t))
    ensures ValidKnowledge(WithContent(k, t, kept[slot := value]).(sequenceNumber := k.sequenceNumber + 2), reps')
  {
    var n, n' := k.sequenceNumber, k.sequenceNumber + 2;
    ElementsStill(k.elements, reps, reps', n, n');
    ContentStill(k.storage, reps, reps', n, n');
    ContentStill(k.memory, reps, reps', n, n');
    SettledStill(reps', reps', slot, n + 1, n');
    SettledStill(reps', reps', value, n + 1, n');
    EntryStored(Content(k, t), kept, slot, value, reps', n');
  }

  /** One entry that a write leaves alone. */
  lemma OneKept(
    t: Target, content: map<Id, Id>, kept: map<Id, Id>, reps: seq<Expression>, n: nat, reps': seq<Expression>,
    slot: Id, value: Id, s: Id)
    requires ValidClasses(reps) && ValidClasses(reps') && reps <= reps' && ContentSettled(content, reps, n)
    requires slot < |reps| && value < |reps| && s in content
    requires Submap(kept, content) && AllSurvive(t, reps, slot, value, kept)
    ensures AllSurvive(t, reps', slot, value, kept)
    ensures AlwaysSurvives(t, reps', slot, value, s, content[s]) ==>
      Submap(kept[s := content[s]], content) && AllSurvive(t, reps', slot, value, kept[s := content[s]])
  {
    AllStillSurvive(t, reps, reps', slot, value, kept);
  }

  lemma {:induction false} SurvivesBy(t: Target, reps: seq<Expression>, slot: Id, value: Id, s: Id, x: Id)
    requires ValidClasses(reps) && slot < |reps| && value < |reps| && s < |reps| && x < |reps|
    requires t == ToMemory ==> forall v: Valuation :: Apart(ClassValue(reps, s, v), ClassValue(reps, slot, v))
    requires t == ToStorage ==>
      x == value || forall v: Valuation :: ClassValue(reps, s, v) != ClassValue(reps, slot, v)
    ensures AlwaysSurvives(t, reps, slot, value, s, x)
  {
    forall v: Valuation
      ensures Survives(t, ValuesOf(reps, v)(slot), ValuesOf(reps, v)(value), ValuesOf(reps, v)(s), ValuesOf(reps, v)(x))
    {
      assert t == ToMemory ==> Apart(ClassValue(reps, s, v), ClassValue(reps, slot, v));
      assert t == ToStorage ==> x == value || ClassValue(reps, s, v) != ClassValue(reps, slot, v);
    }
  }

  lemma NothingStored(k: Knowledge, reps: seq<Expression>, t: Target, slot: Id, value: Id)
    requires ValidKnowledge(k, reps) && slot in Content(k, t) && Content(k, t)[slot] == value
    ensures Stored(k, reps, t, slot, value, NoStore, k, reps)
  {
    RedundantStore(t, reps, Content(k, t), slot, value);
  }

  lemma NothingLoaded(k: Knowledge, reps: seq<Expression>, t: Target, slot: Id)
    requires ValidKnowledge(k, reps) && slot in Content(k, t)
    ensures Loaded(k, reps, t, slot, Content(k, t)[slot], k, reps)
    ensures LoadedExactly(k, t, slot, Content(k, t)[slot], k, reps)
  {
    KnownLoad(t, reps, Content(k, t), k.sequenceNumber, slot);
  }

  /** The load expression that was just found. */
  lemma {:induction false} IsNewLoad(
    reps: seq<Expression>, t: Target, slot: Id, n: nat, c: Id, reps': seq<Expression>)
    requires ValidClasses(reps) && ValidClasses(reps') && reps <= reps' && Settled(reps, slot, n) && n % 2 == 1
    requires Represents(reps', Expression(Operation(LoadInstruction(t)), [slot], n), c)
    ensures Settled(reps', slot, n) && Settled(reps', c, n)
    ensures reps'[c] == Expression(Operation(LoadInstruction(t)), [slot], n)
  {
    SettledStill(reps, reps', slot, n, n);
    assert ExpressionSettledBy(reps', Expression(Operation(LoadInstruction(t)), [slot], n), n);
  }

  lemma EntryLoaded(k: Knowledge, reps: seq<Expression>, t: Target, slot: Id, c: Id)
    requires ValidKnowledge(k, reps) && Settled(reps, slot, k.sequenceNumber) && Settled(reps, c, k.sequenceNumber)
    ensures ValidKnowledge(WithContent(k, t, Content(k, t)[slot := c]), reps)
  {
  }

  lemma LoadedIs(k: Knowledge, reps: seq<Expression>, t: Target, slot: Id, c: Id, reps': seq<Expression>)
    requires ValidKnowledge(k, reps) && ValidClasses(reps') && reps <= reps' && slot !in Content(k, t)
    requires Settled(reps, slot, k.sequenceNumber)
    requires Represents(reps', Expression(Operation(LoadInstruction(t)), [slot], k.sequenceNumber), c)
    ensures Loaded(k, reps, t, slot, c, WithContent(k, t, Content(k, t)[slot := c]), reps')
    ensures LoadedExactly(k, t, slot, c, WithContent(k, t, Content(k, t)[slot := c]), reps')
  {
    IsNewLoad(reps, t, slot, k.sequenceNumber, c, reps');
    StillValid(k, reps, reps');
    EntryLoaded(k, reps', t, slot, c);
    NewLoad(t, reps, Content(k, t), k.sequenceNumber, reps', slot, c);
  }

  lemma NoAccess(reps: seq<Expression>, c: Id, n: nat)
    requires ValidClasses(reps) && c < |reps| && reps[c].arguments == [] && IsValue(reps[c])
    ensures Settled(reps, c, n)
  {
  }

  // ----- every kind of item, fed -----

  lemma FedPush(k: Knowledge, reps: seq<Expression>, item: AssemblyItem, c: Id, reps': seq<Expression>)
    requires ValidKnowledge(k, reps) && ValidClasses(reps') && reps <= reps' && IsPush(item)
    requires c < |reps'| && reps'[c] == Expression(item, [], 0)
    ensures Fed(k, reps, item, NoStore, Replaced(k, 0, c), reps')
  {
    StillValid(k, reps, reps');
    NoAccess(reps', c, k.sequenceNumber);
    ReplacedValid(k, 0, c, reps');
    PushStep(k, reps', item, c);
    AllKeepElements(k, 0, c);
    LowerBoundsOfChange(k, Replaced(k, 0, c));
    forall v: Valuation, origin: int, m: Machine | Describes(k, reps, v, origin, m)
      ensures Describes(k, reps', v, origin, m)
    {
      StillDescribes(k, reps, reps', v, origin, m);
    }
    RefinedStep(k, reps, item, NoStore, k, reps', Replaced(k, 0, c), reps');
  }

  lemma FedTag(k: Knowledge, reps: seq<Expression>, item: AssemblyItem)
    requires ValidKnowledge(k, reps) && item.Tag?
    ensures Fed(k, reps, item, NoStore, k, reps)
  {
  }

  lemma ArgumentsOf(n: nat)
    ensures Info(DUP(n)).args == n && Deposit(Operation(DUP(n))) == 1
    ensures Info(SWAP(n)).args == n + 1 && Deposit(Operation(SWAP(n))) == 0
    ensures Info(POP).args == 1 && Deposit(Operation(POP)) == -1
  {
  }

  lemma ArgumentsOfAccess(t: Target)
    ensures Info(LoadInstruction(t)).args == 1 && Deposit(Operation(LoadInstruction(t))) == 0
    ensures Info(StoreInstruction(t)).args == 2 && Deposit(Operation(StoreInstruction(t))) == -2
  {
    if t == ToStorage {
      assert LoadInstruction(t) == SLOAD && StoreInstruction(t) == SSTORE;
    } else {
      assert LoadInstruction(t) == MLOAD && StoreInstruction(t) == MSTORE;
    }
  }

  lemma FedDup(k: Knowledge, reps: seq<Expression>, n: nat, k1: Knowledge, reps1: seq<Expression>, c: Id)
    requires ValidKnowledge(k, reps) && ValidKnowledge(k1, reps1) && 1 <= n <= 16
    requires Deepened(k, reps, n, k1, reps1)
    requires (k1.height - n + 1) in k1.elements && k1.elements[k1.height - n + 1] == c
    ensures Fed(k, reps, Operation(DUP(n)), NoStore, Replaced(k1, 0, c), reps1)
  {
    ReplacedValid(k1, 0, c, reps1);
    DupStep(k1, reps1, n, c);
    AllKeepElements(k1, 0, c);
    ArgumentsOf(n);
    FedFrom(k, reps, DUP(n), NoStore, n, k1, reps1, Replaced(k1, 0, c), reps1);
  }

  lemma FedSwap(k: Knowledge, reps: seq<Expression>, n: nat, k1: Knowledge, reps1: seq<Expression>)
    requires ValidKnowledge(k, reps) && ValidKnowledge(k1, reps1) && 1 <= n <= 16
    requires Deepened(k, reps, n + 1, k1, reps1)
    requires k1.height in k1.elements && (k1.height - n) in k1.elements
    ensures Fed(k, reps, Operation(SWAP(n)), NoStore, Exchanged(k1, n), reps1)
  {
    ExchangedValid(k1, n, reps1);
    SwapStep(k1, reps1, n);
    AllKeepElements(k1, n, 0);
    ArgumentsOf(n);
    FedFrom(k, reps, SWAP(n), NoStore, n + 1, k1, reps1, Exchanged(k1, n), reps1);
  }

  lemma FedPop(k: Knowledge, reps: seq<Expression>)
    requires ValidKnowledge(k, reps)
    ensures Fed(k, reps, Operation(POP), NoStore, Popped(k, 1), reps)
  {
    ArgumentsOf(0);
    PopStep(k, reps);
    AllKeepElements(k, 1, 0);
    FedFrom(k, reps, POP, NoStore, 0, k, reps, Popped(k, 1), reps);
  }

  lemma FedLoad(
    k: Knowledge, reps: seq<Expression>, t: Target, k1: Knowledge, reps1: seq<Expression>,
    slot: Id, c: Id, k2: Knowledge, reps2: seq<Expression>)
    requires ValidKnowledge(k, reps) && ValidKnowledge(k1, reps1) && Deepened(k, reps, 1, k1, reps1)
    requires TopClasses(k1, [slot]) && Loaded(k1, reps1, t, slot, c, k2, reps2)
    ensures Fed(k, reps, Operation(LoadInstruction(t)), NoStore, Replaced(k2, 1, c), reps2)
  {
    ReplacedValid(k2, 1, c, reps2);
    LoadStep(k1, reps1, reps2, t, slot, Content(k2, t), c);
    ChangesCommute(k1, 1, c, t, Content(k2, t), 0);
    AllKeepElements(k2, 1, c);
    ArgumentsOfAccess(t);
    FedFrom(k, reps, LoadInstruction(t), NoStore, 1, k1, reps1, Replaced(k2, 1, c), reps2);
  }

  lemma FedStore(
    k: Knowledge, reps: seq<Expression>, t: Target, k1: Knowledge, reps1: seq<Expression>,
    slot: Id, value: Id, op: StoreOperation, k2: Knowledge, reps2: seq<Expression>)
    requires ValidKnowledge(k, reps) && ValidKnowledge(k1, reps1) && Deepened(k, reps, 2, k1, reps1)
    requires TopClasses(k1, [slot, value]) && Stored(k1, reps1, t, slot, value, op, k2, reps2)
    ensures Fed(k, reps, Operation(StoreInstruction(t)), op, Popped(k2, 2), reps2)
  {
    StoreStep(k1, reps1, reps2, t, slot, value, op, Content(k2, t), k2.sequenceNumber);
    ChangesCommute(k1, 2, 0, t, Content(k2, t), k2.sequenceNumber);
    AllKeepElements(k2, 2, 0);
    ArgumentsOfAccess(t);
    FedFrom(k, reps, StoreInstruction(t), op, 2, k1, reps1, Popped(k2, 2), reps2);
  }

  lemma ResultSettled(
    reps1: seq<Expression>, reps2: seq<Expression>, i: Instruction, args: seq<Id>, c: Id, n: nat)
    requires ValidClasses(reps1) && ValidClasses(reps2) && reps1 <= reps2 && IsOpaque(i) && Info(i).ret == 1
    requires forall j :: 0 <= j < |args| ==> Settled(reps1, args[j], n)
    requires Represents(reps2, Expression(Operation(i), args, 0), c)
    ensures Settled(reps2, c, n)
  {
    forall j | 0 <= j < |args|
      ensures Settled(reps2, args[j], n)
    {
      SettledStill(reps1, reps2, args[j], n, n);
    }
    assert ExpressionSettledBy(reps2, Expression(Operation(i), args, 0), n);
  }

  lemma ResultFresh(k1: Knowledge, reps: seq<Expression>, i: Instruction, c: Id)
    requires IsIndeterminate(Operation(i)) ==> c >= |reps|
    ensures FreshResult(Operation(i), reps, Forgotten(k1, i, c))
  {
  }

  lemma ForgottenNumbers(k1: Knowledge, reps: seq<Expression>, i: Instruction, c: Id)
    requires ValidClasses(reps) && IsOpaque(i)
    ensures NumbersFollow(
      k1.sequenceNumber, Operation(i), NoStore, Forgotten(k1, i, c).sequenceNumber, reps)
  {
    OnlyBreakingForget(i);
  }

  lemma FedOther(
    k: Knowledge, reps: seq<Expression>, i: Instruction, k1: Knowledge, reps1: seq<Expression>,
    args: seq<Id>, c: Id, reps2: seq<Expression>)
    requires ValidKnowledge(k, reps) && ValidKnowledge(k1, reps1) && IsOpaque(i) && Info(i).ret <= 1
    requires Deepened(k, reps, Info(i).args, k1, reps1) && ValidClasses(reps2) && reps1 <= reps2
    requires |args| == Info(i).args && TopClasses(k1, args)
    requires forall j :: 0 <= j < |args| ==> Settled(reps1, args[j], k1.sequenceNumber)
    requires Info(i).ret == 1 ==> Represents(reps2, Expression(Operation(i), args, 0), c)
    requires !IsDeterministic(Operation(i)) ==> c >= |reps1|
    ensures Fed(k, reps, Operation(i), NoStore, Forgotten(k1, i, c), reps2)
  {
    if Info(i).ret == 1 {
      ResultSettled(reps1, reps2, i, args, c, k1.sequenceNumber);
    }
    StillValid(k1, reps1, reps2);
    ForgottenValid(k1, i, c, reps2);
    OpaqueStep(k1, reps1, i, args, c, reps2);
    OpaqueIsSound(k1, reps1, i, Forgotten(k1, i, c), reps2);
    ForgottenNumbers(k1, reps2, i, c);
    ResultFresh(k1, reps, i, c);
    AllKeepElements(k1, Info(i).args, c);
    FedFrom(k, reps, i, NoStore, Info(i).args, k1, reps1, Forgotten(k1, i, c), reps2);
  }

  lemma ForgottenIs(k: Knowledge, i: Instruction, c: Id, elements: map<int, Id>, height: int)
    requires IsOpaque(i) && Info(i).ret <= 1 && height == k.height + Deposit(Operation(i))
    requires elements == Below(if Info(i).ret == 1 then k.elements[height := c] else k.elements, height)
    ensures Reset(k, i).(height := height, elements := elements) == Forgotten(k, i, c)
  {
  }

  lemma OnlyBreakingForget(i: Instruction)
    requires IsOpaque(i)
    ensures InvalidatesStorage(i) || InvalidatesMemory(i) ==> BreaksCSEAnalysisBlock(Operation(i))
  {
  }
}
