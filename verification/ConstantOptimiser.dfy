/**
 * The constant optimiser: for every constant that is pushed, the cheapest of the literal, a computation, and a
 * copy out of the code takes its place. Any estimate of the costs will do for the results here.
 */
module ConstantOptimiser {
  import opened Results
  import opened Words
  import opened BigEndian
  import opened Evm
  import opened Blocks
  import opened LabelMachine
  import opened ConstantReplacement
  import opened ConstantRoutines

  /** The gas each method needs for a value, or a routine, that occurs so many times. */
  datatype Costs = Costs(literal: (nat, Word) -> int, copy: (nat, Word) -> int, compute: (nat, Items) -> int) {
    function ForRoutines(multiplicity: nat): Decomposition.Gas { (items: Items) => compute(multiplicity, items) }
  }

  function Multiplicity(items: Items, v: Word): nat
  {
    if items == [] then 0
    else Multiplicity(items[..|items| - 1], v) + if items[|items| - 1] == Push(v) then 1 else 0
  }

  datatype Method = Literal | Copy | Compute

  /** A method is chosen if it is strictly cheaper than both others. */
  function Cheapest(literalGas: int, copyGas: int, computeGas: int): (r: Method)
  {
    if copyGas < literalGas && copyGas < computeGas then Copy
    else if computeGas < literalGas && computeGas < copyGas then Compute
    else Literal
  }

  ghost function Decision(costs: Costs, multiplicity: nat, v: Word): Method
  {
    var routine := Decomposition.Representation(costs.ForRoutines(multiplicity), v);
    Cheapest(costs.literal(multiplicity, v), costs.copy(multiplicity, v), costs.compute(multiplicity, routine))
  }

  /** The constants that are worth a look. */
  predicate IsCandidate(items: Items, v: Word) { v >= 0x100 && Push(v) in items }

  datatype Change = Change(value: Word, routine: Items)

  /** The items after some changes in their order. */
  ghost function Changed(items: Items, changes: seq<Change>): Items
  {
    if changes == [] then items
    else
      var last := |changes| - 1;
      Expanded(Changed(items, changes[..last]), changes[last].value, changes[last].routine)
  }

  type Data = map<int, seq<Byte>>

  /** The change follows from the decision for its value, and the data it refers to is there. */
  ghost predicate Justified(costs: Costs, items: Items, data: Data, hash: seq<Byte> -> int, change: Change)
  {
    var multiplicity, bytes := Multiplicity(items, change.value), ToBigEndian(change.value, 32);
    && IsCandidate(items, change.value)
    && match Decision(costs, multiplicity, change.value)
       case Literal => false
       case Compute =>
         change.routine == Decomposition.Representation(costs.ForRoutines(multiplicity), change.value)
       case Copy => change.routine == CopyRoutine(hash(bytes)) && hash(bytes) in data && data[hash(bytes)] == bytes
  }

  /** Data is filed under its hash, which no two byte strings share. */
  ghost predicate Filed(data: Data, hash: seq<Byte> -> int)
  {
    && (forall h :: h in data ==> hash(data[h]) == h)
    && (forall a, b :: hash(a) == hash(b) ==> a == b)
  }

  ghost predicate AllJustified(costs: Costs, items: Items, data: Data, hash: seq<Byte> -> int, changes: seq<Change>)
  {
    forall k :: 0 <= k < |changes| ==> Justified(costs, items, data, hash, changes[k])
  }

  lemma JustifiedStill(
    costs: Costs, items: Items, data: Data, hash: seq<Byte> -> int, changes: seq<Change>, bytes: seq<Byte>)
    requires AllJustified(costs, items, data, hash, changes) && Filed(data, hash)
    ensures AllJustified(costs, items, data[hash(bytes) := bytes], hash, changes)
    ensures Filed(data[hash(bytes) := bytes], hash)
    ensures forall h :: h in data ==> data[hash(bytes) := bytes][h] == data[h]
  {
  }

  lemma {:induction false} ChangedSnoc(items: Items, changes: seq<Change>, c: Change)
    ensures Changed(items, changes + [c]) == Expanded(Changed(items, changes), c.value, c.routine)
  {
    assert (changes + [c])[..|changes|] == changes;
  }

  lemma {:induction false} ExpandedNotEmpty(items: Items, v: Word, routine: Items)
    requires items != [] && routine != []
    ensures Expanded(items, v, routine) != []
  {
  }

  /** A constant that should change and has not. */
  ghost predicate Overlooked(costs: Costs, items: Items, changes: seq<Change>, v: Word)
  {
    && IsCandidate(items, v) && Decision(costs, Multiplicity(items, v), v) != Literal
    && forall k :: 0 <= k < |changes| ==> changes[k].value != v
  }

  /** The state of the optimiser between two constants; it still has to look at the remaining ones. */
  ghost predicate Progress(
    costs: Costs, all: Items, items: Items, data: Data, hash: seq<Byte> -> int, changes: seq<Change>,
    remaining: set<Word>)
  {
    && items == Changed(all, changes) && Filed(data, hash) && AllJustified(costs, all, data, hash, changes)
    && (forall k :: 0 <= k < |changes| ==> changes[k].value !in remaining)
    && (forall j, k :: 0 <= j < k < |changes| ==> changes[j].value != changes[k].value)
    && (forall v :: Overlooked(costs, all, changes, v) ==> v in remaining)
  }

  lemma {:induction false} ProgressSkips(
    costs: Costs, all: Items, items: Items, data: Data, hash: seq<Byte> -> int, changes: seq<Change>,
    remaining: set<Word>, v: Word)
    requires Progress(costs, all, items, data, hash, changes, remaining)
    requires v < 0x100 || Decision(costs, Multiplicity(all, v), v) == Literal
    ensures Progress(costs, all, items, data, hash, changes, remaining - {v})
  {
  }

  lemma {:induction false} ProgressMore(
    costs: Costs, all: Items, items: Items, data: Data, hash: seq<Byte> -> int, changes: seq<Change>,
    remaining: set<Word>, change: Change, items': Items, data': Data)
    requires Progress(costs, all, items, data, hash, changes, remaining) && change.value in remaining
    requires AllJustified(costs, all, data', hash, changes) && Filed(data', hash)
    requires Justified(costs, all, data', hash, change) && items' == Expanded(items, change.value, change.routine)
    ensures Progress(costs, all, items', data', hash, changes + [change], remaining - {change.value})
  {
    ChangedSnoc(all, changes, change);
    var more := changes + [change];
    forall v | Overlooked(costs, all, more, v)
      ensures v in remaining - {change.value}
    {
      assert more[|changes|] == change;
      assert forall k :: 0 <= k < |changes| ==> more[k] == changes[k];
      assert Overlooked(costs, all, changes, v);
    }
  }

  lemma Inhabited(words: set<Word>)
    requires words != {}
    ensures exists v :: v in words
  {
    assert (forall v :: v !in words) ==> words <= {};
  }

  // ----- the optimised program does the same -----

  /** The code has each piece of data where references to it point to. */
  ghost predicate Placed(env: Env, code: Memory, data: Data)
  {
    forall h :: h in data ==> Bytes(code, env.pushed(PushData(h)), |data[h]|) == data[h]
  }

  ghost predicate KeepsCarries(costs: Costs, items: Items, changes: seq<Change>)
  {
    forall k :: 0 <= k < |changes| ==>
      var v := changes[k].value;
      var multiplicity := Multiplicity(items, v);
      Decision(costs, multiplicity, v) == Compute ==> !Decomposition.LosesCarry(costs.ForRoutines(multiplicity), v)
  }

  lemma ChangeActs<X(!new)>(
    effect: Effect<World<X>>, env: Env, code: Memory, costs: Costs, items: Items, data: Data, hash: seq<Byte> -> int,
    c: Change)
    requires Faithful(effect, env, code) && Placed(env, code, data) && Justified(costs, items, data, hash, c)
    requires KeepsCarries(costs, items, [c])
    ensures ActsLikePush(c.routine, c.value, effect)
  {
    var multiplicity, bytes := Multiplicity(items, c.value), ToBigEndian(c.value, 32);
    assert [c][0] == c;
    if Decision(costs, multiplicity, c.value) == Compute {
      ComputedRoutineActs(effect, env, code, costs.ForRoutines(multiplicity), c.value);
    } else {
      CopyRoutineActs(effect, env, code, hash(bytes), c.value);
    }
  }

  /**
   * Every run of a program without PC is one of the optimised program, unless a constant is computed and loses a
   * carry.
   */
  lemma {:induction false} OptimisedSimulates<X(!new)>(
    effect: Effect<World<X>>, env: Env, code: Memory, costs: Costs, items: Items, data: Data, hash: seq<Byte> -> int,
    changes: seq<Change>)
    requires Faithful(effect, env, code) && Placed(env, code, data)
    requires AllJustified(costs, items, data, hash, changes) && KeepsCarries(costs, items, changes) && NoPc(items)
    ensures Simulates(items, Changed(items, changes), effect) && NoPc(Changed(items, changes))
    decreases |changes|
  {
    if changes == [] {
      SimulatesItself(items, effect);
    } else {
      var before, c := changes[..|changes| - 1], changes[|changes| - 1];
      OptimisedSimulates(effect, env, code, costs, items, data, hash, before);
      ChangeActs(effect, env, code, costs, items, data, hash, c);
      ReplacementPreserves(Changed(items, before), c.value, c.routine, effect);
      NoPcAfter(Changed(items, before), c.value, c.routine);
      SimulatesTransitively(items, Changed(items, before), Changed(items, changes), effect);
    }
  }

  /** One item overwritten by the first of the replacement, and the others inserted behind it. */
  function Inserted(s: Items, i: nat, replacement: Items): Items
    requires i < |s| && replacement != []
  {
    var t := s[i := replacement[0]];
    t[..i + 1] + replacement[1..] + t[i + 1..]
  }

  lemma InsertedAt(front: Items, x: AssemblyItem, rest: Items, replacement: Items)
    requires replacement != []
    ensures Inserted(front + ([x] + rest), |front|, replacement) == front + replacement + rest
  {
  }

  /** The items up to the given one expanded, and the others as they are. */
  function Half(items: Items, v: Word, replacement: Items, done: nat): Items
    requires done <= |items|
  {
    Expanded(items[..done], v, replacement) + items[done..]
  }

  lemma HalfStep(items: Items, v: Word, replacement: Items, done: nat)
    requires done < |items| && replacement != []
    ensures var i, j := Moved(items, v, replacement, done), Moved(items, v, replacement, done + 1);
      && i < |Half(items, v, replacement, done)| && Half(items, v, replacement, done)[i] == items[done]
      && (items[done] != Push(v) ==>
           j == i + 1 && Half(items, v, replacement, done + 1) == Half(items, v, replacement, done))
      && (items[done] == Push(v) ==> j == i + |replacement|)
      && (items[done] == Push(v) ==>
            Half(items, v, replacement, done + 1) == Inserted(Half(items, v, replacement, done), i, replacement))
  {
    var front, rest := Expanded(items[..done], v, replacement), items[done + 1..];
    ExpandedSnoc(items, v, replacement, done);
    assert items[done..] == [items[done]] + rest;
    InsertedAt(front, items[done], rest, replacement);
    assert front + ([items[done]] + rest) == front + [items[done]] + rest;
  }

  lemma {:induction false} HalfDone(items: Items, v: Word, replacement: Items, done: nat)
    requires done <= |items|
    ensures Moved(items, v, replacement, done) < |Half(items, v, replacement, done)| <==> done < |items|
    ensures done == |items| ==> Half(items, v, replacement, done) == Expanded(items, v, replacement)
  {
    assert items[..|items|] == items && items[|items|..] == [];
  }

  class Assembly {
    var items: Items
    var data: Data
    const hash: seq<Byte> -> int

    constructor (hash: seq<Byte> -> int)
      ensures items == [] && data == map[] && this.hash == hash
    {
      items, data := [], map[];
      this.hash := hash;
    }

    method NewData(bytes: seq<Byte>) returns (r: AssemblyItem)
      modifies this`data
      ensures data == old(data)[hash(bytes) := bytes] && r == PushData(hash(bytes))
    {
      var h := hash(bytes);
      data := data[h := bytes];
      r := PushData(h);
    }

    method InsertAt(i: nat, replacement: Items)
      requires i < |items| && replacement != []
      modifies this`items
      ensures items == Inserted(old(items), i, replacement)
    {
      items := items[i := replacement[0]];
      items := items[..i + 1] + replacement[1..] + items[i + 1..];
    }

    /** Replaces every push of the constant, going over the items while they grow. */
    method ReplaceConstants(value: Word, replacement: Items) returns (r: Status)
      requires replacement != []
      modifies this`items
      ensures r.Failed? <==> old(items) == []
      ensures items == Expanded(old(items), value, replacement)
    {
      if |items| == 0 {
        return Failed(OptimizerFailure);
      }
      var i := 0;
      ghost var all, done: nat := items, 0;
      assert Half(all, value, replacement, 0) == all by { assert all[..0] == [] && all[0..] == all; }
      while i < |items|
        invariant done <= |all| && i == Moved(all, value, replacement, done)
        invariant items == Half(all, value, replacement, done)
        decreases |all| - done
      {
        HalfDone(all, value, replacement, done);
        HalfStep(all, value, replacement, done);
        if items[i] != Push(value) {
          i := i + 1;
        } else {
          InsertAt(i, replacement);
          i := i + |replacement| - 1;
          i := i + 1;
        }
        done := done + 1;
      }
      HalfDone(all, value, replacement, done);
      return Fine;
    }

    /** How often each constant is pushed. */
    method CountPushes() returns (pushes: map<Word, nat>)
      ensures forall v :: v in pushes <==> Push(v) in items
      ensures forall v :: v in pushes ==> pushes[v] == Multiplicity(items, v)
    {
      pushes := map[];
      for i := 0 to |items|
        invariant forall v :: v in pushes <==> Push(v) in items[..i]
        invariant forall v :: v in pushes ==> pushes[v] == Multiplicity(items[..i], v)
        invariant forall v :: v !in pushes ==> Multiplicity(items[..i], v) == 0
      {
        assert items[..i + 1] == items[..i] + [items[i]] && items[..i + 1][..i] == items[..i];
        if items[i].Push? {
          var v := items[i].value;
          pushes := pushes[v := 1 + if v in pushes then pushes[v] else 0];
        }
      }
      assert items[..|items|] == items;
    }

    /** Decides on one constant, and replaces it if need be. */
    method OptimiseConstant(
      costs: Costs, multiplicity: nat, value: Word) returns (method_: Method, ghost change: Change)
      requires items != []
      modifies this`items, this`data
      ensures method_ == Decision(costs, multiplicity, value) && change.value == value
      ensures method_ == Literal ==> items == old(items)
      ensures method_ != Literal ==> change.routine != []
      ensures method_ != Literal ==> items == Expanded(old(items), value, change.routine)
      ensures method_ == Compute ==>
        change.routine == Decomposition.Representation(costs.ForRoutines(multiplicity), value)
      ensures method_ == Copy ==> change.routine == CopyRoutine(hash(ToBigEndian(value, 32)))
      ensures data
           == if method_ == Copy then old(data)[hash(ToBigEndian(value, 32)) := ToBigEndian(value, 32)] else old(data)
    {
      var routine := Decomposition.FindRepresentation(costs.ForRoutines(multiplicity), value);
      var literalGas, copyGas := costs.literal(multiplicity, value), costs.copy(multiplicity, value);
      method_ := Cheapest(literalGas, copyGas, costs.compute(multiplicity, routine));
      change := Change(value, []);
      if method_ == Copy {
        var item := NewData(ToBigEndian(value, 32));
        change := Change(value, CopyRoutine(item.data));
        var status := ReplaceConstants(value, CopyRoutine(item.data));
      } else if method_ == Compute {
        RoutineIsStraight(costs.ForRoutines(multiplicity), value);
        change := Change(value, routine);
        var status := ReplaceConstants(value, routine);
      }
    }

    /** Goes over the constants, in any order, with the multiplicities they have at first. */
    method OptimiseConstants(costs: Costs) returns (optimisations: nat, ghost changes: seq<Change>)
      requires Filed(data, hash)
      modifies this`items, this`data
      ensures items == Changed(old(items), changes) && optimisations == |changes|
      ensures AllJustified(costs, old(items), data, hash, changes)
      ensures forall v :: IsCandidate(old(items), v) && Decision(costs, Multiplicity(old(items), v), v) != Literal ==>
        exists k :: 0 <= k < |changes| && changes[k].value == v
      ensures forall j, k :: 0 <= j < k < |changes| ==> changes[j].value != changes[k].value
      ensures Filed(data, hash) && forall h :: h in old(data) ==> h in data && data[h] == old(data)[h]
    {
      var pushes := CountPushes();
      var remaining := pushes.Keys;
      ghost var all, known := items, data;
      optimisations, changes := 0, [];
      assert Progress(costs, all, items, data, hash, changes, remaining);
      while remaining != {}
        invariant remaining <= pushes.Keys && (remaining != {} ==> items != []) && optimisations == |changes|
        invariant Progress(costs, all, items, data, hash, changes, remaining)
        invariant forall h :: h in known ==> h in data && data[h] == known[h]
        decreases |remaining|
      {
        Inhabited(remaining);
        var v: Word :| v in remaining;
        if v >= 0x100 {
          ghost var before, bytes := items, ToBigEndian(v, 32);
          ghost var data0 := data;
          var method_, change := OptimiseConstant(costs, pushes[v], v);
          if method_ == Literal {
            ProgressSkips(costs, all, items, data, hash, changes, remaining, v);
          } else {
            JustifiedStill(costs, all, data0, hash, changes, bytes);
            ExpandedNotEmpty(before, v, change.routine);
            ProgressMore(costs, all, before, data0, hash, changes, remaining, change, items, data);
            changes := changes + [change];
            optimisations := optimisations + 1;
          }
        } else {
          ProgressSkips(costs, all, items, data, hash, changes, remaining, v);
        }
        remaining := remaining - {v};
      }
      forall v | IsCandidate(all, v) && Decision(costs, Multiplicity(all, v), v) != Literal
        ensures exists k :: 0 <= k < |changes| && changes[k].value == v
      {
        assert !Overlooked(costs, all, changes, v);
      }
    }
  }
}
