/** Classification of assembly items, as the optimiser steps use it. */
module SemanticInformation {
  import opened Evm

  predicate BreaksCSEAnalysisBlock(item: AssemblyItem)
  {
    match item
    case UndefinedItem(_) => true
    case Tag(_) => true
    case Operation(i) =>
      if i.SWAP? || i.DUP? then false
      else if i == GAS || i == PC || i == MSIZE then true
      else if i == SSTORE || i == MSTORE then false
      else Info(i).sideEffects || Info(i).args > 2
    case _ => false
  }

  predicate IsCommutativeOperation(item: AssemblyItem)
  {
    item.Operation? && item.instruction in {ADD, MUL, EQ, AND, OR, XOR}
  }

  predicate IsSwapInstruction(item: AssemblyItem)
  {
    item.Operation? && item.instruction.SWAP? && 1 <= item.instruction.depth <= 16
  }

  predicate AltersControlFlow(item: AssemblyItem)
  {
    item.Operation? && item.instruction in {JUMP, JUMPI, RETURN, SUICIDE, STOP}
  }

  predicate IsDeterministic(item: AssemblyItem)
  {
    item.Operation? ==> !IsCall(item.instruction) && !IsCounter(item.instruction) && !IsQuery(item.instruction)
  }

  predicate InvalidatesMemory(i: Instruction)
  {
    i in {CALLDATACOPY, CODECOPY, EXTCODECOPY, MSTORE, MSTORE8, CALL, CALLCODE, DELEGATECALL}
  }

  predicate InvalidatesStorage(i: Instruction)
  {
    i in {CALL, CALLCODE, DELEGATECALL, CREATE, SSTORE}
  }
}
