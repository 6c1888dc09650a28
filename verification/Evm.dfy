/**
 * Instructions, assembly items and a machine that runs straight-line items.
 * The meaning of an opcode follows Appendix H.2 of the Ethereum Yellow Paper.
 */
module Evm {
  import opened Results
  import opened Words
  import opened BigEndian

  datatype Instruction =
    | STOP | ADD | MUL | SUB | DIV | SDIV | MOD | SMOD | ADDMOD | MULMOD | EXP | SIGNEXTEND
    | LT | GT | SLT | SGT | EQ | ISZERO | AND | OR | XOR | NOT | BYTE | SHA3
    | ADDRESS | BALANCE | ORIGIN | CALLER | CALLVALUE | CALLDATALOAD | CALLDATASIZE | CALLDATACOPY
    | CODESIZE | CODECOPY | GASPRICE | EXTCODESIZE | EXTCODECOPY
    | BLOCKHASH | COINBASE | TIMESTAMP | NUMBER | DIFFICULTY | GASLIMIT
    | POP | MLOAD | MSTORE | MSTORE8 | SLOAD | SSTORE | JUMP | JUMPI | PC | MSIZE | GAS | JUMPDEST
    | PUSH(bytes: nat) | DUP(depth: nat) | SWAP(depth: nat) | LOG(topics: nat)
    | CREATE | CALL | CALLCODE | RETURN | DELEGATECALL | SUICIDE

  datatype InstructionInfo = InstructionInfo(args: nat, ret: nat, sideEffects: bool)

  function Info(i: Instruction): InstructionInfo
  {
    match i
    case STOP => InstructionInfo(0, 0, true)
    case NOT | ISZERO => InstructionInfo(1, 1, false)
    case ADDMOD | MULMOD => InstructionInfo(3, 1, false)
    case ADD | MUL | SUB | DIV | SDIV | MOD | SMOD | EXP | SIGNEXTEND => InstructionInfo(2, 1, false)
    case LT | GT | SLT | SGT | EQ | AND | OR | XOR | BYTE | SHA3 =>
      InstructionInfo(2, 1, false)
    case BALANCE | CALLDATALOAD | EXTCODESIZE | BLOCKHASH | MLOAD | SLOAD => InstructionInfo(1, 1, false)
    case CALLDATACOPY | CODECOPY => InstructionInfo(3, 0, true)
    case EXTCODECOPY => InstructionInfo(4, 0, true)
    case POP => InstructionInfo(1, 0, false)
    case MSTORE | MSTORE8 | SSTORE | JUMPI | RETURN => InstructionInfo(2, 0, true)
    case JUMP | SUICIDE => InstructionInfo(1, 0, true)
    case JUMPDEST => InstructionInfo(0, 0, true)
    case PUSH(_) => InstructionInfo(0, 1, false)
    case DUP(n) => InstructionInfo(n, n + 1, false)
    case SWAP(n) => InstructionInfo(n + 1, n + 1, false)
    case LOG(n) => InstructionInfo(n + 2, 0, true)
    case CREATE => InstructionInfo(3, 1, true)
    case CALL | CALLCODE => InstructionInfo(7, 1, true)
    case DELEGATECALL => InstructionInfo(6, 1, true)
    case _ => InstructionInfo(0, 1, false)
  }

  /** UndefinedItem(h) stands for the unknown value at stack height h. */
  datatype AssemblyItem =
    | UndefinedItem(data: int)
    | Operation(instruction: Instruction)
    | Push(value: Word)
    | PushString(data: int)
    | PushTag(data: int)
    | PushSub(data: int)
    | PushSubSize(data: int)
    | PushProgramSize(data: int)
    | Tag(data: int)
    | PushData(data: int)
    | PushLibraryAddress(data: int)

  function Deposit(item: AssemblyItem): int
  {
    match item
    case Operation(i) => Info(i).ret - Info(i).args
    case Tag(_) => 0
    case UndefinedItem(_) => 0
    case _ => 1
  }

  // ----- the part of the machine that a block can change -----

  datatype Cell = Cell(word: Word)
  type Storage = s: imap<int, Cell> | forall k: int :: k in s ghost witness imap k: int :: Cell(0)
  type Memory = m: imap<int, Byte> | forall a: int :: a in m ghost witness imap a: int :: ZERO_BYTE

  datatype Store = Store(storage: Storage, memory: Memory)
  datatype Machine = Machine(stack: seq<Word>, store: Store)

  /** What is neither stack nor store: values fixed at assembly time, the transaction, and other accounts. */
  datatype Env = Env(pushed: AssemblyItem -> Word, query: (Instruction, seq<Word>) -> Word)

  lemma Pow256Word()
    ensures Pow256(32) == MODULUS
  {
    Pow256Double(4, 0x1_0000_0000);
    Pow256Double(8, 0x1_0000_0000_0000_0000);
    Pow256Double(16, 0x1_0000_0000_0000_0000_0000_0000_0000_0000);
  }

  // ----- memory -----

  ghost function Bytes(memory: Memory, a: int, n: nat): (r: seq<Byte>)
    ensures |r| == n && forall i :: 0 <= i < n ==> r[i] == memory[a + i]
    decreases n, a
  {
    if n == 0 then [] else Bytes(memory, a, n - 1) + [memory[a + n - 1]]
  }

  ghost function WithBytes(memory: Memory, a: int, bytes: seq<Byte>): Memory
  {
    imap x: int :: if a <= x < a + |bytes| then bytes[x - a] else memory[x]
  }

  ghost function Mload(memory: Memory, a: Word): Word
  {
    WordOfBytes(Bytes(memory, a, 32)); Pow256Word();
    FromBigEndian(Bytes(memory, a, 32))
  }

  ghost function Mstore(memory: Memory, a: Word, v: Word): Memory
  {
    WithBytes(memory, a, ToBigEndian(v, 32))
  }

  ghost function Sload(storage: Storage, k: Word): Word
  {
    storage[k].word
  }

  ghost function Sstore(storage: Storage, k: Word, v: Word): Storage
  {
    storage[k := Cell(v)]
  }

  /** Storage is a map from words to words. */
  lemma SloadSstore(storage: Storage, k: Word, w: Word, k': Word)
    ensures Sload(Sstore(storage, k, w), k') == if k' == k then w else Sload(storage, k')
    ensures Sload(storage, k) == w ==> Sstore(storage, k, w) == storage
  {
  }

  /** A stored word reads back. */
  lemma LoadStored(memory: Memory, a: Word, v: Word)
    ensures Mload(Mstore(memory, a, v), a) == v
  {
    var bytes := ToBigEndian(v, 32);
    Pow256Word();
    BytesOfWord(v, 32);
    BytesWritten(memory, a, bytes);
  }

  lemma {:induction false} BytesWritten(memory: Memory, a: int, bytes: seq<Byte>)
    ensures Bytes(WithBytes(memory, a, bytes), a, |bytes|) == bytes
  {
  }

  /** A store leaves every word alone whose 32 bytes do not overlap it. */
  lemma LoadElsewhere(memory: Memory, a: Word, v: Word, b: Word)
    requires a + 32 <= b || b + 32 <= a
    ensures Mload(Mstore(memory, a, v), b) == Mload(memory, b)
  {
    BytesElsewhere(memory, a, ToBigEndian(v, 32), b, 32);
  }

  lemma {:induction false} BytesElsewhere(memory: Memory, a: int, bytes: seq<Byte>, b: int, n: nat)
    requires a + |bytes| <= b || b + n <= a
    ensures Bytes(WithBytes(memory, a, bytes), b, n) == Bytes(memory, b, n)
  {
  }

  lemma {:induction false} BytesThemselves(memory: Memory, a: int, n: nat)
    ensures WithBytes(memory, a, Bytes(memory, a, n)) == memory
  {
  }

  /** Storing the word that is already there changes no byte. */
  lemma StoreSameWord(memory: Memory, a: Word, v: Word)
    requires Mload(memory, a) == v
    ensures Mstore(memory, a, v) == memory
  {
    WordOfBytes(Bytes(memory, a, 32));
    BytesThemselves(memory, a, 32);
  }

  // ----- opcodes -----

  function FromBool(b: bool): Word { if b then 1 else 0 }

  /** Sign extension of the lowest k + 1 bytes of x. */
  function SignExtend(k: Word, x: Word): Word
  {
    if k >= 31 then x
    else
      var t := 8 * k + 7;
      Pow2Values(); Pow2Increasing(t + 1, 256);
      var low := x % Pow2(t + 1);
      if low >= Pow2(t) then MODULUS - Pow2(t + 1) + low else low
  }

  function SignedDiv(a: Word, b: Word): Word
  {
    if b == 0 then 0
    else
      TruncBounds(ToSigned(a), ToSigned(b));
      FromSigned(TruncDiv(ToSigned(a), ToSigned(b)))
  }

  function SignedMod(a: Word, b: Word): Word
  {
    if b == 0 then 0
    else
      TruncBounds(ToSigned(a), ToSigned(b));
      FromSigned(TruncMod(ToSigned(a), ToSigned(b)))
  }

  predicate IsBinary(i: Instruction)
  {
    i in {ADD, MUL, SUB, DIV, SDIV, MOD, SMOD, EXP, SIGNEXTEND, LT, GT, SLT, SGT, EQ, AND, OR, XOR, BYTE}
  }

  /** a is the topmost stack element. */
  function Binary(i: Instruction, a: Word, b: Word): Word
    requires IsBinary(i)
  {
    match i
    case ADD => Add(a, b)
    case MUL => Mul(a, b)
    case SUB => Sub(a, b)
    case DIV => if b == 0 then 0 else (DivShrinks(a, b); a / b)
    case SDIV => SignedDiv(a, b)
    case MOD => if b == 0 then 0 else a % b
    case SMOD => SignedMod(a, b)
    case EXP => Power(a, b) % MODULUS
    case SIGNEXTEND => SignExtend(a, b)
    case LT => FromBool(a < b)
    case GT => FromBool(a > b)
    case SLT => FromBool(ToSigned(a) < ToSigned(b))
    case SGT => FromBool(ToSigned(a) > ToSigned(b))
    case EQ => FromBool(a == b)
    case AND => And(a, b)
    case OR => Or(a, b)
    case XOR => Xor(a, b)
    case BYTE => if a >= 32 then 0 else (b / Pow2(8 * (31 - a))) % 256
  }

  /** The word an operation without side effects leaves on the stack. */
  function Eval(env: Env, i: Instruction, args: seq<Word>): Word
  {
    if |args| == 1 && i == NOT then Not(args[0])
    else if |args| == 1 && i == ISZERO then FromBool(args[0] == 0)
    else if |args| == 2 && IsBinary(i) then Binary(i, args[0], args[1])
    else if |args| == 3 && i == ADDMOD then (if args[2] == 0 then 0 else (args[0] + args[1]) % args[2])
    else if |args| == 3 && i == MULMOD then (if args[2] == 0 then 0 else (args[0] * args[1]) % args[2])
    else env.query(i, args)
  }

  /** Operations whose whole effect is to replace their arguments by one word. */
  predicate IsPlain(i: Instruction)
  {
    && Info(i).ret == 1 && !Info(i).sideEffects
    && !i.PUSH? && !i.DUP? && !i.SWAP?
    && i !in {SLOAD, MLOAD, SHA3, GAS, PC, MSIZE}
  }

  predicate IsPush(item: AssemblyItem) { !item.UndefinedItem? && !item.Operation? && !item.Tag? }

  function Pushed(env: Env, item: AssemblyItem): Word { if item.Push? then item.value else env.pushed(item) }

  // ----- running items -----

  function PushWord(m: Machine, w: Word): Machine { m.(stack := m.stack + [w]) }

  /** The topmost n elements, topmost first. */
  function TopWords(stack: seq<Word>, n: nat): (r: seq<Word>)
    requires n <= |stack|
    ensures |r| == n
  {
    seq(n, i requires 0 <= i < n => stack[|stack| - 1 - i])
  }

  function SwapTop(stack: seq<Word>, n: nat): seq<Word>
    requires 0 < n < |stack|
  {
    var top := |stack| - 1;
    stack[top := stack[top - n]][top - n := stack[top]]
  }

  lemma SwapTopAt(stack: seq<Word>, n: nat, i: nat)
    requires 0 < n < |stack| && i < |stack|
    ensures SwapTop(stack, n)[i] ==
      if i == |stack| - 1 then stack[|stack| - 1 - n] else if i == |stack| - 1 - n then stack[|stack| - 1] else stack[i]
  {
  }

  /** None: the item is outside the straight-line fragment, or the stack underflows. */
  ghost function Step(item: AssemblyItem, env: Env, m: Machine): Option<Machine>
  {
    match item
    case UndefinedItem(_) => None
    case Tag(_) => Some(m)
    case Push(w) => Some(PushWord(m, w))
    case Operation(i) => StepOperation(i, env, m)
    case _ => Some(PushWord(m, env.pushed(item)))
  }

  ghost function StepOperation(i: Instruction, env: Env, m: Machine): Option<Machine>
  {
    if IsPlain(i) then (if Info(i).args <= |m.stack| then Some(Applied(i, env, m)) else None)
    else StepSpecial(i, m)
  }

  /** Stack manipulation, and access to storage and memory. */
  ghost function StepSpecial(i: Instruction, m: Machine): Option<Machine>
  {
    var h := |m.stack|;
    if i.DUP? then
      if 1 <= i.depth <= 16 && i.depth <= h then Some(PushWord(m, m.stack[h - i.depth])) else None
    else if i.SWAP? then
      if 1 <= i.depth <= 16 && i.depth < h then Some(m.(stack := SwapTop(m.stack, i.depth))) else None
    else if i == POP then
      if 1 <= h then Some(m.(stack := m.stack[..h - 1])) else None
    else if i == SLOAD || i == MLOAD then
      if 1 <= h then Some(m.(stack := m.stack[..h - 1] + [Load(i, m.store, m.stack[h - 1])])) else None
    else if i == SSTORE || i == MSTORE then
      if 2 <= h then Some(Machine(m.stack[..h - 2], Write(i, m.store, m.stack[h - 1], m.stack[h - 2]))) else None
    else None
  }

  /** The arguments of a plain operation replaced by its result. */
  function Applied(i: Instruction, env: Env, m: Machine): Machine
    requires Info(i).args <= |m.stack|
  {
    var n := Info(i).args;
    m.(stack := m.stack[..|m.stack| - n] + [Eval(env, i, TopWords(m.stack, n))])
  }

  /** What SLOAD, and otherwise MLOAD, reads at the given slot. */
  ghost function Load(i: Instruction, store: Store, slot: Word): Word
  {
    if i == SLOAD then Sload(store.storage, slot) else Mload(store.memory, slot)
  }

  /** What SSTORE, and otherwise MSTORE, makes of the store. */
  ghost function Write(i: Instruction, store: Store, slot: Word, value: Word): Store
  {
    if i == SSTORE then store.(storage := Sstore(store.storage, slot, value))
    else store.(memory := Mstore(store.memory, slot, value))
  }

  // ----- the steps of StepSpecial, one by one -----

  lemma StepPop(env: Env, m: Machine)
    ensures Step(Operation(POP), env, m) == if |m.stack| < 1 then None else Some(m.(stack := m.stack[..|m.stack| - 1]))
  {
  }

  lemma StepDup(n: nat, env: Env, m: Machine)
    requires 1 <= n <= 16
    ensures Step(Operation(DUP(n)), env, m) ==
      if |m.stack| < n then None else Some(PushWord(m, m.stack[|m.stack| - n]))
  {
  }

  lemma StepSwap(n: nat, env: Env, m: Machine)
    requires 1 <= n <= 16
    ensures Step(Operation(SWAP(n)), env, m) ==
      if |m.stack| <= n then None else Some(m.(stack := SwapTop(m.stack, n)))
  {
  }

  /** The machine after a load. */
  ghost function LoadOnStack(i: Instruction, m: Machine): Machine
    requires 1 <= |m.stack|
  {
    m.(stack := m.stack[..|m.stack| - 1] + [Load(i, m.store, m.stack[|m.stack| - 1])])
  }

  lemma StepLoad(i: Instruction, env: Env, m: Machine)
    requires i == SLOAD || i == MLOAD
    ensures Step(Operation(i), env, m) == if |m.stack| < 1 then None else Some(LoadOnStack(i, m))
  {
  }

  /** The machine after a store. */
  ghost function StoreFromStack(i: Instruction, m: Machine): Machine
    requires 2 <= |m.stack|
  {
    var h := |m.stack|;
    Machine(m.stack[..h - 2], Write(i, m.store, m.stack[h - 1], m.stack[h - 2]))
  }

  lemma StepStore(i: Instruction, env: Env, m: Machine)
    requires i == SSTORE || i == MSTORE
    ensures Step(Operation(i), env, m) == if |m.stack| < 2 then None else Some(StoreFromStack(i, m))
  {
    StoreNotPlain(i);
    StepSpecialStore(i, m);
  }

  lemma StoreNotPlain(i: Instruction)
    requires i == SSTORE || i == MSTORE
    ensures !IsPlain(i)
  {
  }

  lemma StepSpecialStore(i: Instruction, m: Machine)
    requires i == SSTORE || i == MSTORE
    ensures StepSpecial(i, m) == if |m.stack| < 2 then None else Some(StoreFromStack(i, m))
  {
  }

  lemma StepPlain(i: Instruction, env: Env, m: Machine)
    requires IsPlain(i)
    ensures Step(Operation(i), env, m) == if |m.stack| < Info(i).args then None else Some(Applied(i, env, m))
  {
  }

  /** The instructions that exist: the families DUP, SWAP, PUSH and LOG have finitely many members. */
  predicate InSet(i: Instruction)
  {
    match i
    case DUP(n) => 1 <= n <= 16
    case SWAP(n) => 1 <= n <= 16
    case PUSH(n) => 1 <= n <= 32
    case LOG(n) => n <= 4
    case _ => true
  }

  /** Items the straight-line machine can run. */
  predicate Runnable(item: AssemblyItem)
  {
    match item
    case UndefinedItem(_) => false
    case Operation(i) => InSet(i) && (IsPlain(i) || i.DUP? || i.SWAP? || i in {POP, SLOAD, MLOAD, SSTORE, MSTORE})
    case _ => true
  }

  /** Control goes to another contract, which may do anything to other accounts and come back. */
  predicate IsCall(i: Instruction) { match i case CALL | CALLCODE | DELEGATECALL | CREATE => true case _ => false }

  /** Another result for each instruction run. */
  predicate IsCounter(i: Instruction) { match i case GAS | PC | MSIZE => true case _ => false }

  /** What is asked about another account, which may have changed after a call. */
  predicate IsQuery(i: Instruction) { match i case BALANCE | EXTCODESIZE => true case _ => false }

  /** Execution does not just go on. */
  predicate IsFlow(item: AssemblyItem)
  {
    match item
    case Operation(JUMP) | Operation(JUMPI) | Operation(RETURN) | Operation(STOP) => true
    case _ => false
  }

  predicate NoFlow(items: seq<AssemblyItem>) { forall k :: 0 <= k < |items| ==> !IsFlow(items[k]) }

  /** What the item does is left open: execution goes on from some machine, or does not. */
  predicate IsAsking(item: AssemblyItem) { !Runnable(item) && !IsFlow(item) }

  predicate AllRunnable(items: seq<AssemblyItem>) { forall k :: 0 <= k < |items| ==> Runnable(items[k]) }

  lemma SpecialNeeds(i: Instruction, m: Machine)
    requires StepSpecial(i, m).Some?
    ensures Info(i).args <= |m.stack|
  {
    match i
    case DUP(_) =>
    case SWAP(_) =>
    case POP =>
    case SLOAD =>
    case MLOAD =>
    case SSTORE =>
    case MSTORE =>
    case _ => assert false;
  }

  lemma StepNeeds(i: Instruction, env: Env, m: Machine)
    requires Step(Operation(i), env, m).Some?
    ensures Info(i).args <= |m.stack|
  {
    if !IsPlain(i) {
      SpecialNeeds(i, m);
    }
  }

  ghost function Run(items: seq<AssemblyItem>, env: Env, m: Machine): Option<Machine>
  {
    if items == [] then Some(m)
    else
      var next := Step(items[0], env, m);
      if next.None? then None else Run(items[1..], env, next.value)
  }

  lemma {:induction false} RunAppend(items: seq<AssemblyItem>, more: seq<AssemblyItem>, env: Env, m: Machine)
    ensures Run(items + more, env, m) ==
            (if Run(items, env, m).None? then None else Run(more, env, Run(items, env, m).value))
  {
    if items == [] {
      assert items + more == more;
    } else {
      assert (items + more)[1..] == items[1..] + more;
      var next := Step(items[0], env, m);
      if next.Some? {
        RunAppend(items[1..], more, env, next.value);
      }
    }
  }

  lemma {:induction false} RunOne(item: AssemblyItem, env: Env, m: Machine)
    ensures Run([item], env, m) == Step(item, env, m)
  {
  }

  lemma {:induction false} RunSnoc(items: seq<AssemblyItem>, item: AssemblyItem, env: Env, m: Machine)
    ensures Run(items + [item], env, m) ==
            (if Run(items, env, m).None? then None else Step(item, env, Run(items, env, m).value))
  {
    RunAppend(items, [item], env, m);
    if Run(items, env, m).Some? {
      RunOne(item, env, Run(items, env, m).value);
    }
  }
}
