/** The byte of each instruction. */
module Opcodes {
  import opened Results
  import opened Evm

  function Code(i: Instruction): int
  {
    match i
    case STOP => 0x00 case ADD => 0x01 case MUL => 0x02 case SUB => 0x03 case DIV => 0x04 case SDIV => 0x05
    case MOD => 0x06 case SMOD => 0x07 case ADDMOD => 0x08 case MULMOD => 0x09 case EXP => 0x0a case SIGNEXTEND => 0x0b
    case LT => 0x10 case GT => 0x11 case SLT => 0x12 case SGT => 0x13 case EQ => 0x14 case ISZERO => 0x15
    case AND => 0x16 case OR => 0x17 case XOR => 0x18 case NOT => 0x19 case BYTE => 0x1a case SHA3 => 0x20
    case ADDRESS => 0x30 case BALANCE => 0x31 case ORIGIN => 0x32 case CALLER => 0x33 case CALLVALUE => 0x34
    case CALLDATALOAD => 0x35 case CALLDATASIZE => 0x36 case CALLDATACOPY => 0x37 case CODESIZE => 0x38
    case CODECOPY => 0x39 case GASPRICE => 0x3a case EXTCODESIZE => 0x3b case EXTCODECOPY => 0x3c
    case BLOCKHASH => 0x40 case COINBASE => 0x41 case TIMESTAMP => 0x42 case NUMBER => 0x43
    case DIFFICULTY => 0x44 case GASLIMIT => 0x45
    case POP => 0x50 case MLOAD => 0x51 case MSTORE => 0x52 case MSTORE8 => 0x53 case SLOAD => 0x54 case SSTORE => 0x55
    case JUMP => 0x56 case JUMPI => 0x57 case PC => 0x58 case MSIZE => 0x59 case GAS => 0x5a case JUMPDEST => 0x5b
    case PUSH(n) => 0x5f + n
    case DUP(n) => 0x7f + n
    case SWAP(n) => 0x8f + n
    case LOG(n) => 0xa0 + n
    case CREATE => 0xf0 case CALL => 0xf1 case CALLCODE => 0xf2 case RETURN => 0xf3 case DELEGATECALL => 0xf4
    case SUICIDE => 0xff
  }

  function DecodedArithmetic(b: int): Option<Instruction>
  {
    match b
    case 0x00 => Some(STOP) case 0x01 => Some(ADD) case 0x02 => Some(MUL) case 0x03 => Some(SUB)
    case 0x04 => Some(DIV) case 0x05 => Some(SDIV) case 0x06 => Some(MOD) case 0x07 => Some(SMOD)
    case 0x08 => Some(ADDMOD) case 0x09 => Some(MULMOD) case 0x0a => Some(EXP) case 0x0b => Some(SIGNEXTEND)
    case 0x10 => Some(LT) case 0x11 => Some(GT) case 0x12 => Some(SLT) case 0x13 => Some(SGT)
    case 0x14 => Some(EQ) case 0x15 => Some(ISZERO) case 0x16 => Some(AND) case 0x17 => Some(OR)
    case 0x18 => Some(XOR) case 0x19 => Some(NOT) case 0x1a => Some(BYTE) case 0x20 => Some(SHA3)
    case _ => None
  }

  function DecodedQuery(b: int): Option<Instruction>
  {
    match b
    case 0x30 => Some(ADDRESS) case 0x31 => Some(BALANCE) case 0x32 => Some(ORIGIN) case 0x33 => Some(CALLER)
    case 0x34 => Some(CALLVALUE) case 0x35 => Some(CALLDATALOAD) case 0x36 => Some(CALLDATASIZE)
    case 0x37 => Some(CALLDATACOPY) case 0x38 => Some(CODESIZE) case 0x39 => Some(CODECOPY)
    case 0x3a => Some(GASPRICE) case 0x3b => Some(EXTCODESIZE) case 0x3c => Some(EXTCODECOPY)
    case 0x40 => Some(BLOCKHASH) case 0x41 => Some(COINBASE) case 0x42 => Some(TIMESTAMP) case 0x43 => Some(NUMBER)
    case 0x44 => Some(DIFFICULTY) case 0x45 => Some(GASLIMIT)
    case _ => None
  }

  function DecodedFlow(b: int): Option<Instruction>
  {
    match b
    case 0x50 => Some(POP) case 0x51 => Some(MLOAD) case 0x52 => Some(MSTORE) case 0x53 => Some(MSTORE8)
    case 0x54 => Some(SLOAD) case 0x55 => Some(SSTORE) case 0x56 => Some(JUMP) case 0x57 => Some(JUMPI)
    case 0x58 => Some(PC) case 0x59 => Some(MSIZE) case 0x5a => Some(GAS) case 0x5b => Some(JUMPDEST)
    case 0xf0 => Some(CREATE) case 0xf1 => Some(CALL) case 0xf2 => Some(CALLCODE) case 0xf3 => Some(RETURN)
    case 0xf4 => Some(DELEGATECALL) case 0xff => Some(SUICIDE)
    case _ => None
  }

  function Decoded(b: int): Option<Instruction>
  {
    if 0x60 <= b <= 0x7f then Some(PUSH(b - 0x5f))
    else if 0x80 <= b <= 0x8f then Some(DUP(b - 0x7f))
    else if 0x90 <= b <= 0x9f then Some(SWAP(b - 0x8f))
    else if 0xa0 <= b <= 0xa4 then Some(LOG(b - 0xa0))
    else if b <= 0x20 then DecodedArithmetic(b)
    else if b <= 0x45 then DecodedQuery(b)
    else DecodedFlow(b)
  }

  /** Every instruction has its own byte. */
  lemma CodeDecodes(i: Instruction)
    requires InSet(i)
    ensures 0 <= Code(i) < 256 && Decoded(Code(i)) == Some(i)
  {
  }

  lemma CodeInjective(i: Instruction, j: Instruction)
    requires InSet(i) && InSet(j) && Code(i) == Code(j)
    ensures i == j
  {
    CodeDecodes(i);
    CodeDecodes(j);
  }
}
