/**
 * The state of the analysis. Feeding an item is an abstract step of the machine: knowledge that described the
 * machine before the item describes it afterwards, whatever the machine was.
 */
module KnownState {
  import opened Results
  import opened Evm
  import opened SemanticInformation
  import opened Classes
  import opened Expressions
  import opened ExpressionClasses
  import opened Knowledge
  import opened Tracking

  /** If it leaves one word on the stack, that may have a class. */
  predicate ResultAdmitted(item: AssemblyItem, a: Admission)
  {
    item.Operation? && Info(item.instruction).ret == 1 ==> Admitted(item, a)
  }

  class KnownState {
    var stackHeight: int
    var stackElements: map<int, Id>
    var sequenceNumber: nat
    var storageContent: map<Id, Id>
    var memoryContent: map<Id, Id>
    const classes: ExpressionClasses

    constructor (expressionClasses: ExpressionClasses)
      ensures classes == expressionClasses
      ensures Known() == Knowledge(0, map[], 1, map[], map[])
    {
      stackHeight, stackElements, sequenceNumber := 0, map[], 1;
      storageContent, memoryContent := map[], map[];
      classes := expressionClasses;
    }

    constructor Copy(other: KnownState)
      ensures classes == other.classes && Known() == other.Known()
    {
      stackHeight, stackElements, sequenceNumber := other.stackHeight, other.stackElements, other.sequenceNumber;
      storageContent, memoryContent := other.storageContent, other.memoryContent;
      classes := other.classes;
    }

    ghost function Known(): Knowledge
      reads this
    {
      Knowledge(stackHeight, stackElements, sequenceNumber, storageContent, memoryContent)
    }

    ghost function Reps(): seq<Expression>
      reads classes
    {
      classes.representatives
    }

    ghost predicate Valid()
      reads this, classes
    {
      classes.Valid() && ValidKnowledge(Known(), Reps())
    }

    // ----- the stack -----

    /** The class of a stack element; an element that is not known yet gets the class of the initial one there. */
    method StackElement(height: int) returns (c: Id)
      requires Valid() && height <= stackHeight
      modifies this`stackElements, classes`representatives, classes`expressions
      ensures Valid()
      ensures Deepened(old(Known()), old(Reps()), stackHeight - height + 1, Known(), Reps())
      ensures stackElements == old(stackElements)[height := c]
    {
      if height in stackElements {
        c := stackElements[height];
      } else {
        c := classes.Find(UndefinedItem(height), [], 0);
        NewElement(Known(), old(Reps()), height, c, Reps());
        stackElements := stackElements[height := c];
      }
    }

    /** The classes of the topmost elements, topmost first. */
    method Arguments(n: nat) returns (args: seq<Id>)
      requires Valid()
      modifies this`stackElements, classes`representatives, classes`expressions
      ensures Valid()
      ensures |args| == n && TopClasses(Known(), args)
      ensures forall i :: 0 <= i < n ==> Settled(Reps(), args[i], sequenceNumber)
      ensures Deepened(old(Known()), old(Reps()), n, Known(), Reps())
    {
      args := [];
      for i := 0 to n
        invariant Valid() && |args| == i && TopClasses(Known(), args)
        invariant Deepened(old(Known()), old(Reps()), i, Known(), Reps())
      {
        ghost var before, k := Reps(), Known();
        var c := StackElement(stackHeight - i);
        DeepenedFrom(old(Known()), old(Reps()), i, k, before, i + 1, Known(), Reps());
        OneMoreOnTop(k, Known(), args, c);
        args := args + [c];
      }
      forall i | 0 <= i < n
        ensures Settled(Reps(), args[i], sequenceNumber)
      {
        assert TopClass(Known(), i, args[i]);
      }
    }

    method Slot() returns (slot: Id)
      requires Valid()
      modifies this`stackElements, classes`representatives, classes`expressions
      ensures Valid() && TopClasses(Known(), [slot]) && Settled(Reps(), slot, sequenceNumber)
      ensures Deepened(old(Known()), old(Reps()), 1, Known(), Reps())
    {
      var args := Arguments(1);
      assert args == [args[0]];
      slot := args[0];
    }

    method SlotAndValue() returns (slot: Id, value: Id)
      requires Valid()
      modifies this`stackElements, classes`representatives, classes`expressions
      ensures Valid() && TopClasses(Known(), [slot, value])
      ensures Settled(Reps(), slot, sequenceNumber) && Settled(Reps(), value, sequenceNumber)
      ensures Deepened(old(Known()), old(Reps()), 2, Known(), Reps())
    {
      var args := Arguments(2);
      assert args == [args[0], args[1]];
      slot, value := args[0], args[1];
    }

    method SetStackElement(height: int, c: Id)
      modifies this`stackElements
      ensures stackElements == old(stackElements)[height := c]
    {
      stackElements := stackElements[height := c];
    }

    /** Drops everything above the new stack height. */
    method ChangeHeight(deposit: int)
      modifies this`stackHeight, this`stackElements
      ensures stackHeight == old(stackHeight) + deposit
      ensures stackElements == Below(old(stackElements), stackHeight)
    {
      stackHeight := stackHeight + deposit;
      stackElements := Below(stackElements, stackHeight);
    }

    /** The classes of the top and of the element n below it. */
    method TopAndBelow(n: nat) returns (a: Id, b: Id)
      requires Valid() && n > 0
      modifies this`stackElements, classes`representatives, classes`expressions
      ensures Valid() && Deepened(old(Known()), old(Reps()), n + 1, Known(), Reps())
      ensures stackHeight in stackElements && stackElements[stackHeight] == a
      ensures (stackHeight - n) in stackElements && stackElements[stackHeight - n] == b
    {
      a := StackElement(stackHeight);
      ghost var k, before := Known(), Reps();
      b := StackElement(stackHeight - n);
      DeepenedFrom(old(Known()), old(Reps()), 1, k, before, n + 1, Known(), Reps());
    }

    method SwapStackElements(n: nat) returns (ghost k1: Knowledge)
      requires Valid() && n > 0
      modifies this`stackElements, classes`representatives, classes`expressions
      ensures Valid()
      ensures Deepened(old(Known()), old(Reps()), n + 1, k1, Reps()) && ValidKnowledge(k1, Reps())
      ensures k1.height in k1.elements && (k1.height - n) in k1.elements && Known() == Exchanged(k1, n)
    {
      var a, b := TopAndBelow(n);
      k1 := Known();
      ExchangedValid(k1, n, Reps());
      SetTwo(stackHeight, b, stackHeight - n, a);
    }

    method SetTwo(height: int, c: Id, height': int, c': Id)
      modifies this`stackElements
      ensures stackElements == old(stackElements)[height := c][height' := c']
    {
      stackElements := stackElements[height := c][height' := c'];
    }

    // ----- storage and memory -----

    /** Whether a write of value to slot is known to leave the entry of storage true. */
    method EntrySurvives(s: Id, slot: Id, value: Id) returns (r: bool)
      requires classes.Valid() && s in storageContent && slot < |Reps()| && value < |Reps()|
      requires s < |Reps()| && storageContent[s] < |Reps()|
      modifies classes`representatives, classes`expressions
      ensures classes.Valid() && old(Reps()) <= Reps()
      ensures r ==> AlwaysSurvives(ToStorage, Reps(), slot, value, s, storageContent[s])
      ensures storageContent[s] == value ==> r
    {
      var different := classes.KnownToBeDifferent(s, slot);
      r := different || storageContent[s] == value;
      if r {
        SurvivesBy(ToStorage, Reps(), slot, value, s, storageContent[s]);
      }
    }

    /** The part of the known storage that a write of value to slot leaves true. */
    method StorageKept(slot: Id, value: Id, ghost n: nat) returns (kept: map<Id, Id>)
      requires classes.Valid() && ContentSettled(storageContent, Reps(), n) && slot < |Reps()| && value < |Reps()|
      modifies classes`representatives, classes`expressions
      ensures classes.Valid() && old(Reps()) <= Reps()
      ensures Submap(kept, storageContent) && AllSurvive(ToStorage, Reps(), slot, value, kept)
      ensures forall s :: s in storageContent && storageContent[s] == value ==> s in kept
    {
      kept := map[];
      var todo := storageContent.Keys;
      while todo != {}
        invariant classes.Valid() && old(Reps()) <= Reps() && ContentSettled(storageContent, Reps(), n)
        invariant todo <= storageContent.Keys
        invariant Submap(kept, storageContent) && AllSurvive(ToStorage, Reps(), slot, value, kept)
        invariant forall s :: s in storageContent && s !in todo && storageContent[s] == value ==> s in kept
      {
        var s :| s in todo;
        todo := todo - {s};
        ghost var before := Reps();
        var survives := EntrySurvives(s, slot, value);
        OneKept(ToStorage, storageContent, kept, before, n, Reps(), slot, value, s);
        ContentStill(storageContent, before, Reps(), n, n);
        if survives {
          kept := kept[s := storageContent[s]];
        }
      }
    }

    /** The part of the known memory that a write to slot leaves true. */
    method MemoryKept(slot: Id, value: Id, ghost n: nat) returns (kept: map<Id, Id>)
      requires classes.Valid() && ContentSettled(memoryContent, Reps(), n) && slot < |Reps()| && value < |Reps()|
      modifies classes`representatives, classes`expressions
      ensures classes.Valid() && old(Reps()) <= Reps()
      ensures Submap(kept, memoryContent) && AllSurvive(ToMemory, Reps(), slot, value, kept)
    {
      kept := map[];
      var todo := memoryContent.Keys;
      while todo != {}
        invariant classes.Valid() && old(Reps()) <= Reps() && ContentSettled(memoryContent, Reps(), n)
        invariant todo <= memoryContent.Keys
        invariant Submap(kept, memoryContent) && AllSurvive(ToMemory, Reps(), slot, value, kept)
      {
        var s :| s in todo;
        todo := todo - {s};
        ghost var before := Reps();
        var different := classes.KnownToBeDifferentBy32(s, slot);
        OneKept(ToMemory, memoryContent, kept, before, n, Reps(), slot, value, s);
        ContentStill(memoryContent, before, Reps(), n, n);
        if different {
          SurvivesBy(ToMemory, Reps(), slot, value, s, memoryContent[s]);
          kept := kept[s := memoryContent[s]];
        }
      }
    }

    /** A new write to the slot, at the next sequence number. */
    method NewStoreOperation(t: Target, slot: Id, value: Id) returns (op: StoreOperation)
      requires classes.Valid() && slot < |Reps()| && value < |Reps()|
      modifies classes`representatives, classes`expressions
      ensures classes.Valid() && old(Reps()) <= Reps()
      ensures op.StoreOperation? && op == StoreOperation(t, slot, sequenceNumber, op.expression)
      ensures Represents(
        Reps(), Expression(Operation(StoreInstruction(t)), [slot, value], sequenceNumber), op.expression)
    {
      var id := classes.Find(Operation(StoreInstruction(t)), [slot, value], sequenceNumber);
      op := StoreOperation(t, slot, sequenceNumber, id);
    }

    method StoreInStorage(slot: Id, value: Id) returns (op: StoreOperation)
      requires Valid() && Settled(Reps(), slot, sequenceNumber) && Settled(Reps(), value, sequenceNumber)
      modifies this`storageContent, this`sequenceNumber, classes`representatives, classes`expressions
      ensures Valid() && Stored(old(Known()), old(Reps()), ToStorage, slot, value, op, Known(), Reps())
      ensures StoredExactly(old(Known()), ToStorage, slot, value, op, Known())
    {
      if slot in storageContent && storageContent[slot] == value {
        NothingStored(Known(), Reps(), ToStorage, slot, value);
        return NoStore;
      }
      ghost var k, before := Known(), Reps();
      sequenceNumber := sequenceNumber + 1;
      var kept := StorageKept(slot, value, k.sequenceNumber);
      ghost var between := Reps();
      op := NewStoreOperation(ToStorage, slot, value);
      storageContent := kept[slot := value];
      sequenceNumber := sequenceNumber + 1;
      StoredIs(k, before, kept, between, op, value, Reps());
      KeptExactly(k, kept, op, value);
      assert Known() == WithContent(k, ToStorage, kept[slot := value]).(sequenceNumber := k.sequenceNumber + 2);
    }

    method StoreInMemory(slot: Id, value: Id) returns (op: StoreOperation)
      requires Valid() && Settled(Reps(), slot, sequenceNumber) && Settled(Reps(), value, sequenceNumber)
      modifies this`memoryContent, this`sequenceNumber, classes`representatives, classes`expressions
      ensures Valid() && Stored(old(Known()), old(Reps()), ToMemory, slot, value, op, Known(), Reps())
      ensures StoredExactly(old(Known()), ToMemory, slot, value, op, Known())
    {
      if slot in memoryContent && memoryContent[slot] == value {
        NothingStored(Known(), Reps(), ToMemory, slot, value);
        return NoStore;
      }
      ghost var k, before := Known(), Reps();
      sequenceNumber := sequenceNumber + 1;
      var kept := MemoryKept(slot, value, k.sequenceNumber);
      ghost var between := Reps();
      op := NewStoreOperation(ToMemory, slot, value);
      memoryContent := kept[slot := value];
      sequenceNumber := sequenceNumber + 1;
      StoredIs(k, before, kept, between, op, value, Reps());
      KeptExactly(k, kept, op, value);
      assert Known() == WithContent(k, ToMemory, kept[slot := value]).(sequenceNumber := k.sequenceNumber + 2);
    }

    method StoreIn(t: Target, slot: Id, value: Id) returns (op: StoreOperation)
      requires Valid() && Settled(Reps(), slot, sequenceNumber) && Settled(Reps(), value, sequenceNumber)
      modifies this, classes`representatives, classes`expressions
      ensures Valid() && Stored(old(Known()), old(Reps()), t, slot, value, op, Known(), Reps())
    {
      if t == ToStorage {
        op := StoreInStorage(slot, value);
      } else {
        op := StoreInMemory(slot, value);
      }
    }

    /** A new load from the slot, at the present number. */
    method FindLoad(t: Target, slot: Id) returns (c: Id)
      requires Valid() && Settled(Reps(), slot, sequenceNumber) && slot !in Content(Known(), t)
      modifies classes`representatives, classes`expressions
      ensures classes.Valid()
      ensures var k' := WithContent(Known(), t, Content(Known(), t)[slot := c]);
        && Loaded(Known(), old(Reps()), t, slot, c, k', Reps()) && LoadedExactly(Known(), t, slot, c, k', Reps())
    {
      c := classes.Find(Operation(LoadInstruction(t)), [slot], sequenceNumber);
      LoadedIs(Known(), old(Reps()), t, slot, c, Reps());
    }

    method RecordInStorage(slot: Id, c: Id)
      modifies this`storageContent
      ensures Known() == WithContent(old(Known()), ToStorage, old(storageContent)[slot := c])
    {
      storageContent := storageContent[slot := c];
    }

    method RecordInMemory(slot: Id, c: Id)
      modifies this`memoryContent
      ensures Known() == WithContent(old(Known()), ToMemory, old(memoryContent)[slot := c])
    {
      memoryContent := memoryContent[slot := c];
    }

    method LoadFromStorage(slot: Id) returns (c: Id)
      requires Valid() && Settled(Reps(), slot, sequenceNumber)
      modifies this`storageContent, classes`representatives, classes`expressions
      ensures Valid() && Loaded(old(Known()), old(Reps()), ToStorage, slot, c, Known(), Reps())
      ensures LoadedExactly(old(Known()), ToStorage, slot, c, Known(), Reps())
    {
      if slot in storageContent {
        NothingLoaded(Known(), Reps(), ToStorage, slot);
        c := storageContent[slot];
      } else {
        c := FindLoad(ToStorage, slot);
        RecordInStorage(slot, c);
      }
    }

    method LoadFromMemory(slot: Id) returns (c: Id)
      requires Valid() && Settled(Reps(), slot, sequenceNumber)
      modifies this`memoryContent, classes`representatives, classes`expressions
      ensures Valid() && Loaded(old(Known()), old(Reps()), ToMemory, slot, c, Known(), Reps())
      ensures LoadedExactly(old(Known()), ToMemory, slot, c, Known(), Reps())
    {
      if slot in memoryContent {
        NothingLoaded(Known(), Reps(), ToMemory, slot);
        c := memoryContent[slot];
      } else {
        c := FindLoad(ToMemory, slot);
        RecordInMemory(slot, c);
      }
    }

    method LoadFrom(t: Target, slot: Id) returns (c: Id)
      requires Valid() && Settled(Reps(), slot, sequenceNumber)
      modifies this, classes`representatives, classes`expressions
      ensures Valid() && Loaded(old(Known()), old(Reps()), t, slot, c, Known(), Reps())
    {
      if t == ToStorage {
        c := LoadFromStorage(slot);
      } else {
        c := LoadFromMemory(slot);
      }
    }

    // ----- feeding items -----

    /** The topmost n elements make room for a class. */
    method Replace(n: nat, c: Id)
      modifies this`stackHeight, this`stackElements
      ensures Known() == Replaced(old(Known()), n, c)
    {
      SetStackElement(stackHeight - n + 1, c);
      ChangeHeight(1 - n);
    }

    method FeedPush(item: AssemblyItem)
      requires Valid() && IsPush(item)
      modifies this, classes`representatives, classes`expressions
      ensures Valid() && Fed(old(Known()), old(Reps()), item, NoStore, Known(), Reps())
    {
      var c := classes.Find(item, [], 0);
      FedPush(Known(), old(Reps()), item, c, Reps());
      Replace(0, c);
    }

    method FeedDup(n: nat)
      requires Valid() && 1 <= n <= 16
      modifies this, classes`representatives, classes`expressions
      ensures Valid() && Fed(old(Known()), old(Reps()), Operation(DUP(n)), NoStore, Known(), Reps())
    {
      var c := StackElement(stackHeight - n + 1);
      FedDup(old(Known()), old(Reps()), n, Known(), Reps(), c);
      Replace(0, c);
    }

    method FeedSwap(n: nat)
      requires Valid() && 1 <= n <= 16
      modifies this, classes`representatives, classes`expressions
      ensures Valid() && Fed(old(Known()), old(Reps()), Operation(SWAP(n)), NoStore, Known(), Reps())
    {
      ghost var k1 := SwapStackElements(n);
      FedSwap(old(Known()), old(Reps()), n, k1, Reps());
      AllBelow(Known(), Reps());
      ChangeHeight(0);
    }

    method FeedPop()
      requires Valid()
      modifies this
      ensures Valid() && Fed(old(Known()), old(Reps()), Operation(POP), NoStore, Known(), Reps())
    {
      FedPop(Known(), Reps());
      ChangeHeight(-1);
    }

    method FeedLoad(t: Target)
      requires Valid()
      modifies this, classes`representatives, classes`expressions
      ensures Valid() && Fed(old(Known()), old(Reps()), Operation(LoadInstruction(t)), NoStore, Known(), Reps())
    {
      var slot := Slot();
      ghost var k1, reps1 := Known(), Reps();
      var c := LoadFrom(t, slot);
      ghost var k2 := Known();
      FedLoad(old(Known()), old(Reps()), t, k1, reps1, slot, c, k2, Reps());
      Replace(1, c);
    }

    method FeedStore(t: Target) returns (op: StoreOperation)
      requires Valid()
      modifies this, classes`representatives, classes`expressions
      ensures Valid() && Fed(old(Known()), old(Reps()), Operation(StoreInstruction(t)), op, Known(), Reps())
    {
      var slot, value := SlotAndValue();
      ghost var k1, reps1 := Known(), Reps();
      op := StoreIn(t, slot, value);
      ghost var k2 := Known();
      FedStore(old(Known()), old(Reps()), t, k1, reps1, slot, value, op, k2, Reps());
      ChangeHeight(-2);
      assert Known() == Popped(k2, 2);
    }

    method ResetFor(i: Instruction)
      modifies this`memoryContent, this`storageContent, this`sequenceNumber
      ensures Known() == Reset(old(Known()), i)
    {
      var invMem, invStor := InvalidatesMemory(i), InvalidatesStorage(i);
      if invMem {
        memoryContent := map[];
      }
      if invStor {
        storageContent := map[];
      }
      if invMem || invStor {
        sequenceNumber := sequenceNumber + 2;
      }
    }

    /** The class of the result, if the instruction has one. */
    method FindResult(i: Instruction, args: seq<Id>) returns (c: Id)
      requires classes.Valid() && ValidExpression(Expression(Operation(i), args, 0), |Reps()|)
      requires ResultAdmitted(Operation(i), classes.admission)
      modifies classes`representatives, classes`expressions
      ensures classes.Valid() && old(Reps()) <= Reps()
      ensures Info(i).ret == 1 ==> Represents(Reps(), Expression(Operation(i), args, 0), c)
      ensures Info(i).ret == 1 && !IsDeterministic(Operation(i)) ==> c >= |old(Reps())|
    {
      c := 0;
      if Info(i).ret == 1 {
        c := classes.Find(Operation(i), args, 0);
      }
    }

    /** Drops the arguments from the stack and puts the class of the result there, if there is one. */
    method PutResult(i: Instruction, c: Id)
      modifies this`stackElements, this`stackHeight
      ensures stackHeight == old(stackHeight) + Deposit(Operation(i))
      ensures stackElements ==
        Below(if Info(i).ret == 1 then old(stackElements)[stackHeight := c] else old(stackElements), stackHeight)
    {
      if Info(i).ret == 1 {
        SetStackElement(stackHeight + Deposit(Operation(i)), c);
      }
      ChangeHeight(Deposit(Operation(i)));
    }

    /** The class of the result, the arguments being looked up. */
    method FindOther(i: Instruction) returns (c: Id)
      requires Valid() && IsOpaque(i) && Info(i).ret <= 1 && ResultAdmitted(Operation(i), classes.admission)
      modifies this`stackElements, classes`representatives, classes`expressions
      ensures Valid()
      ensures Fed(old(Known()), old(Reps()), Operation(i), NoStore, Forgotten(Known(), i, c), Reps())
    {
      var args := Arguments(Info(i).args);
      ghost var k1, reps1 := Known(), Reps();
      c := FindResult(i, args);
      StillValid(k1, reps1, Reps());
      FedOther(old(Known()), old(Reps()), i, k1, reps1, args, c, Reps());
    }

    /** All other instructions: only their arguments, and what they may invalidate, are known. */
    method FeedOther(i: Instruction)
      requires Valid() && IsOpaque(i) && Info(i).ret <= 1 && ResultAdmitted(Operation(i), classes.admission)
      modifies this, classes`representatives, classes`expressions
      ensures Valid() && Fed(old(Known()), old(Reps()), Operation(i), NoStore, Known(), Reps())
    {
      var c := FindOther(i);
      ghost var k1 := Known();
      ResetFor(i);
      PutResult(i, c);
      ForgottenIs(k1, i, c, stackElements, stackHeight);
    }

    method FeedArrangement(i: Instruction)
      requires Valid() && InSet(i) && (i.DUP? || i.SWAP? || i == POP)
      modifies this, classes`representatives, classes`expressions
      ensures Valid() && Fed(old(Known()), old(Reps()), Operation(i), NoStore, Known(), Reps())
    {
      if i.DUP? {
        FeedDup(i.depth);
      } else if i.SWAP? {
        FeedSwap(i.depth);
      } else {
        FeedPop();
      }
    }

    method FeedAccess(i: Instruction) returns (op: StoreOperation)
      requires Valid() && i in {SSTORE, SLOAD, MSTORE, MLOAD}
      modifies this, classes`representatives, classes`expressions
      ensures Valid() && Fed(old(Known()), old(Reps()), Operation(i), op, Known(), Reps())
      ensures op.StoreOperation? ==> i == SSTORE || i == MSTORE
    {
      op := NoStore;
      if i == SSTORE {
        op := FeedStore(ToStorage);
      } else if i == SLOAD {
        FeedLoad(ToStorage);
      } else if i == MSTORE {
        op := FeedStore(ToMemory);
      } else {
        FeedLoad(ToMemory);
      }
    }

    /** Feeds one item; an item that stands for an unknown value is an error. */
    method FeedItem(item: AssemblyItem) returns (r: Result<StoreOperation>)
      requires Valid()
      requires item.Operation? ==> InSet(item.instruction) && item.instruction != SHA3
      requires ResultAdmitted(item, classes.admission)
      modifies this, classes`representatives, classes`expressions
      ensures Valid() && r.Ok? == !item.UndefinedItem? && (r.Err? ==> r.error == OptimizerFailure)
      ensures r.Ok? ==> Fed(old(Known()), old(Reps()), item, r.value, Known(), Reps())
      ensures r.Ok? && r.value.StoreOperation? ==> item == Operation(SSTORE) || item == Operation(MSTORE)
    {
      var op := NoStore;
      if item.UndefinedItem? {
        return Err(OptimizerFailure);
      } else if item.Tag? {
        FedTag(Known(), Reps(), item);
      } else if !item.Operation? {
        FeedPush(item);
      } else if item.instruction.DUP? || item.instruction.SWAP? || item.instruction == POP {
        FeedArrangement(item.instruction);
      } else if item.instruction in {SSTORE, SLOAD, MSTORE, MLOAD} {
        op := FeedAccess(item.instruction);
      } else {
        FeedOther(item.instruction);
      }
      return Ok(op);
    }
  }
}
