/**
 * Blocks of assembly items as the deduplicator sees them: the items from a position up to the one that ends the
 * control flow, without tags, and with the block's own tag replaced by a virtual one. Blocks are ordered
 * lexicographically by these items.
 */
module Blocks {
  import opened Words
  import opened Evm
  import opened SemanticInformation
  import opened Opcodes

  type Items = seq<AssemblyItem>

  /** The virtual tag that signifies the current block. */
  const SELF: int := MODULUS - 4

  /** Does the control flow stop here, on all branches? */
  predicate Ends(item: AssemblyItem) { AltersControlFlow(item) && item != Operation(JUMPI) }

  /** The items executed from position p on, as long as nothing jumps. */
  function Tail(items: Items, p: nat): Items
    decreases |items| - p
  {
    if p >= |items| then []
    else if items[p].Tag? then Tail(items, p + 1)
    else if Ends(items[p]) then [items[p]]
    else [items[p]] + Tail(items, p + 1)
  }

  function Unified(item: AssemblyItem, own: int): AssemblyItem
  {
    if item == PushTag(own) then PushTag(SELF) else item
  }

  function UnifiedAll(items: Items, own: int): (r: Items)
    ensures |r| == |items|
  {
    seq(|items|, k requires 0 <= k < |items| => Unified(items[k], own))
  }

  /** The tag of the block that starts at p. */
  function Own(items: Items, p: nat): int
  {
    if p < |items| && items[p].Tag? then items[p].data else SELF
  }

  /** The block at p, independent of its own name. */
  function Norm(items: Items, p: nat): Items { UnifiedAll(Tail(items, p), Own(items, p)) }

  // ----- the order of items and of blocks -----

  function Kind(item: AssemblyItem): nat
  {
    match item
    case UndefinedItem(_) => 0
    case Operation(_) => 1
    case Push(_) => 2
    case PushString(_) => 3
    case PushTag(_) => 4
    case PushSub(_) => 5
    case PushSubSize(_) => 6
    case PushProgramSize(_) => 7
    case Tag(_) => 8
    case PushData(_) => 9
    case PushLibraryAddress(_) => 10
  }

  function Data(item: AssemblyItem): int
  {
    match item
    case Operation(i) => Code(i)
    case Push(w) => w
    case UndefinedItem(d) => d
    case PushString(d) => d
    case PushTag(d) => d
    case PushSub(d) => d
    case PushSubSize(d) => d
    case PushProgramSize(d) => d
    case Tag(d) => d
    case PushData(d) => d
    case PushLibraryAddress(d) => d
  }

  /** First by kind, then by data. */
  predicate Less(a: AssemblyItem, b: AssemblyItem)
  {
    Kind(a) < Kind(b) || (Kind(a) == Kind(b) && Data(a) < Data(b))
  }

  predicate Real(item: AssemblyItem) { item.Operation? ==> InSet(item.instruction) }

  predicate AllReal(items: Items) { forall k :: 0 <= k < |items| ==> Real(items[k]) }

  lemma LessTotal(a: AssemblyItem, b: AssemblyItem)
    requires Real(a) && Real(b) && !Less(a, b) && !Less(b, a)
    ensures a == b
  {
    if a.Operation? {
      CodeInjective(a.instruction, b.instruction);
    }
  }

  predicate LexLess(a: Items, b: Items)
  {
    b != [] && (a == [] || Less(a[0], b[0]) || (!Less(b[0], a[0]) && LexLess(a[1..], b[1..])))
  }

  lemma {:induction false} LexIrreflexive(a: Items)
    ensures !LexLess(a, a)
  {
    if a != [] {
      LexIrreflexive(a[1..]);
    }
  }

  /** Blocks that are not ordered either way are the same. */
  lemma {:induction false} LexTotal(a: Items, b: Items)
    requires AllReal(a) && AllReal(b) && !LexLess(a, b) && !LexLess(b, a)
    ensures a == b
  {
    if a != [] && b != [] {
      LessTotal(a[0], b[0]);
      LexTotal(a[1..], b[1..]);
      assert a == [a[0]] + a[1..] && b == [b[0]] + b[1..];
    }
  }

  lemma {:induction false} TailReal(items: Items, p: nat)
    requires AllReal(items)
    ensures AllReal(Tail(items, p))
    decreases |items| - p
  {
    if p < |items| {
      TailReal(items, p + 1);
    }
  }

  lemma NormReal(items: Items, p: nat)
    requires AllReal(items)
    ensures AllReal(Norm(items, p))
  {
    TailReal(items, p);
  }
}
