/** How a chunk ends: the item that breaks it, and what is observable then. */
module BlockEnds {
  import opened Results
  import opened Words
  import opened BigEndian
  import opened Evm

  /** Other: the item, whatever it does, starts from that machine. Stuck: the stack is too short. */
  datatype Exit =
    | Fall(machine: Machine)
    | Jump(destination: Word, machine: Machine)
    | Halt(data: seq<Byte>, storage: Storage)
    | Other(item: AssemblyItem, machine: Machine)
    | Stuck

  function Dropped(m: Machine, n: nat): Machine
    requires n <= |m.stack|
  {
    m.(stack := m.stack[..|m.stack| - n])
  }

  ghost function ExitOf(breaking: Option<AssemblyItem>, m: Machine): Exit
  {
    var h := |m.stack|;
    if breaking.None? then Fall(m)
    else if breaking.value == Operation(JUMP) then
      if h < 1 then Stuck else Jump(m.stack[h - 1], Dropped(m, 1))
    else if breaking.value == Operation(JUMPI) then
      if h < 2 then Stuck
      else if m.stack[h - 2] != 0 then Jump(m.stack[h - 1], Dropped(m, 2))
      else Fall(Dropped(m, 2))
    else if breaking.value == Operation(RETURN) then
      if h < 2 then Stuck else Halt(Bytes(m.store.memory, m.stack[h - 1], m.stack[h - 2]), m.store.storage)
    else if breaking.value == Operation(STOP) then Halt([], m.store.storage)
    else Other(breaking.value, m)
  }

  /** The end of running the items and then the breaking item. */
  ghost function Outcome(items: seq<AssemblyItem>, breaking: Option<AssemblyItem>, env: Env, m: Machine): Exit
  {
    var r := Run(items, env, m);
    if r.None? then Stuck else ExitOf(breaking, r.value)
  }

  lemma {:induction false} RunTwo(items: seq<AssemblyItem>, a: AssemblyItem, b: AssemblyItem, env: Env, m: Machine)
    ensures Run(items + [a, b], env, m) ==
      (if Run(items, env, m).None? then None
       else if Step(a, env, Run(items, env, m).value).None? then None
       else Step(b, env, Step(a, env, Run(items, env, m).value).value))
  {
    assert items + [a, b] == (items + [a]) + [b];
    RunSnoc(items + [a], b, env, m);
    RunSnoc(items, a, env, m);
  }

  /** A conditional jump that is always taken: drop the condition and jump. */
  lemma AlwaysTaken(m: Machine, env: Env)
    requires |m.stack| >= 2 && m.stack[|m.stack| - 2] != 0
    ensures var h := |m.stack|;
      var swapped := m.(stack := SwapTop(m.stack, 1));
      && Step(Operation(SWAP(1)), env, m) == Some(swapped)
      && Step(Operation(POP), env, swapped) == Some(swapped.(stack := swapped.stack[..h - 1]))
      && ExitOf(Some(Operation(JUMP)), swapped.(stack := swapped.stack[..h - 1])) == ExitOf(Some(Operation(JUMPI)), m)
  {
    var h := |m.stack|;
    StepSwap(1, env, m);
    var swapped := m.(stack := SwapTop(m.stack, 1));
    StepPop(env, swapped);
    assert swapped.stack[..h - 1][..h - 2] == m.stack[..h - 2];
  }

  lemma TwoPops(m: Machine, env: Env)
    requires |m.stack| >= 2
    ensures Step(Operation(POP), env, m) == Some(Dropped(m, 1))
    ensures Step(Operation(POP), env, Dropped(m, 1)) == Some(Dropped(m, 2))
  {
    StepPop(env, m);
    StepPop(env, Dropped(m, 1));
    assert m.stack[..|m.stack| - 1][..|m.stack| - 2] == m.stack[..|m.stack| - 2];
  }

  /** What OptimizeBreakingItem may do with a block, given the second element from the top. */
  lemma {:induction false} JumpOutcome(items: seq<AssemblyItem>, env: Env, m: Machine)
    requires Run(items, env, m).Some?
    requires var s := Run(items, env, m).value.stack; |s| >= 2 ==> s[|s| - 2] != 0
    requires Outcome(items, Some(Operation(JUMPI)), env, m) != Stuck
    ensures Outcome(items + [Operation(SWAP(1)), Operation(POP)], Some(Operation(JUMP)), env, m)
         == Outcome(items, Some(Operation(JUMPI)), env, m)
  {
    RunTwo(items, Operation(SWAP(1)), Operation(POP), env, m);
    AlwaysTaken(Run(items, env, m).value, env);
  }

  lemma {:induction false} FallOutcome(items: seq<AssemblyItem>, env: Env, m: Machine)
    requires Run(items, env, m).Some?
    requires var s := Run(items, env, m).value.stack; |s| >= 2 ==> s[|s| - 2] == 0
    requires Outcome(items, Some(Operation(JUMPI)), env, m) != Stuck
    ensures Outcome(items + [Operation(POP), Operation(POP)], None, env, m)
         == Outcome(items, Some(Operation(JUMPI)), env, m)
  {
    RunTwo(items, Operation(POP), Operation(POP), env, m);
    TwoPops(Run(items, env, m).value, env);
  }

  lemma {:induction false} StopOutcome(items: seq<AssemblyItem>, env: Env, m: Machine)
    requires Run(items, env, m).Some?
    requires var s := Run(items, env, m).value.stack; |s| >= 2 ==> s[|s| - 2] == 0
    requires Outcome(items, Some(Operation(RETURN)), env, m) != Stuck
    ensures Outcome(items + [Operation(POP), Operation(POP)], Some(Operation(STOP)), env, m)
         == Outcome(items, Some(Operation(RETURN)), env, m)
  {
    RunTwo(items, Operation(POP), Operation(POP), env, m);
    TwoPops(Run(items, env, m).value, env);
  }
}
