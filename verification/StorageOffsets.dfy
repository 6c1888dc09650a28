/**
 * Storage layout: the bytes that the members of a struct, the elements of a fixed-size array and everything inside
 * them occupy. A position is counted in bytes, 32 to a slot.
 */
module StorageOffsets {
  import opened Results
  import opened Words

  const SLOT := 32
  const SLOTS: nat := MODULUS

  // ----- a list of members -----

  datatype Item = Item(canBeStored: bool, storageBytes: nat, storageSize: nat) {
    /** Only an item that fills slots may need several of them. */
    predicate Valid()
    {
      storageBytes <= SLOT && storageSize >= 1 && (storageSize > 1 ==> storageBytes == SLOT)
    }

    /** The number of bytes that the item takes up. */
    function Extent(): nat { if storageSize == 1 then storageBytes else SLOT * storageSize }
  }

  datatype Offset = Offset(slot: nat, byte: nat) {
    function Position(): nat { SLOT * slot + byte }

    /** An item that does not fit goes to the next slot. */
    function Aligned(item: Item): Offset
    {
      if byte + item.storageBytes > SLOT then Offset(slot + 1, 0) else this
    }

    function After(item: Item): Offset
    {
      if item.storageSize == 1 && byte + item.storageBytes <= SLOT then Offset(slot, byte + item.storageBytes)
      else Offset(slot + item.storageSize, 0)
    }

    /** The number of slots begun. */
    function Slots(): nat { if byte > 0 then slot + 1 else slot }
  }

  /** Where the first n items end. */
  function Cursor(items: seq<Item>, n: nat): (r: Offset)
    requires n <= |items|
  {
    if n == 0 then Offset(0, 0)
    else
      var before := Cursor(items, n - 1);
      if items[n - 1].canBeStored then before.Aligned(items[n - 1]).After(items[n - 1]) else before
  }

  function OffsetOf(items: seq<Item>, i: nat): Offset
    requires i < |items|
  {
    Cursor(items, i).Aligned(items[i])
  }

  predicate AllValid(items: seq<Item>) { forall i :: 0 <= i < |items| ==> items[i].Valid() }

  /** An item starts where the one before it ends or, only if it does not fit there, with the next slot. */
  lemma {:induction false} Tight(items: seq<Item>, i: nat)
    requires AllValid(items) && i < |items|
    ensures Cursor(items, i).byte <= SLOT
    ensures items[i].canBeStored ==>
      Cursor(items, i + 1).Position() == OffsetOf(items, i).Position() + items[i].Extent()
    ensures OffsetOf(items, i).byte + items[i].storageBytes <= SLOT
    ensures items[i].storageSize > 1 ==> OffsetOf(items, i).byte == 0
    ensures 0 <= OffsetOf(items, i).Position() - Cursor(items, i).Position() < SLOT
  {
    if i > 0 {
      Tight(items, i - 1);
    }
  }

  lemma {:induction false} CursorGrows(items: seq<Item>, i: nat, j: nat)
    requires AllValid(items) && i <= j <= |items|
    ensures Cursor(items, i).Position() <= Cursor(items, j).Position()
    ensures Cursor(items, i).slot <= Cursor(items, j).slot
    decreases j
  {
    if i < j {
      CursorGrows(items, i, j - 1);
      Tight(items, j - 1);
    }
  }

  /** The items lie one behind the other. */
  lemma OneBehindTheOther(items: seq<Item>, i: nat, j: nat)
    requires AllValid(items) && i < j < |items| && items[i].canBeStored
    ensures OffsetOf(items, i).Position() + items[i].Extent() <= OffsetOf(items, j).Position()
  {
    Tight(items, i);
    Tight(items, j);
    CursorGrows(items, i + 1, j);
  }

  /** The items lie in the slots counted, and fewer slots would not do. */
  lemma {:induction false} WithinSize(items: seq<Item>)
    requires AllValid(items)
    ensures forall i :: 0 <= i < |items| && items[i].canBeStored ==>
      OffsetOf(items, i).Position() + items[i].Extent() <= SLOT * Cursor(items, |items|).Slots()
    ensures SLOT * Cursor(items, |items|).Slots() < Cursor(items, |items|).Position() + SLOT
  {
    forall i | 0 <= i < |items| && items[i].canBeStored
      ensures OffsetOf(items, i).Position() + items[i].Extent() <= SLOT * Cursor(items, |items|).Slots()
    {
      Tight(items, i);
      CursorGrows(items, i + 1, |items|);
      LastInSlot(items);
    }
  }

  lemma {:induction false} LastInSlot(items: seq<Item>)
    requires AllValid(items)
    ensures Cursor(items, |items|).byte <= SLOT
  {
    if |items| > 0 {
      Tight(items, |items| - 1);
    }
  }

  /** An item that is out of reach makes the whole list too large. */
  lemma {:induction false} TooFar(items: seq<Item>, i: nat)
    requires AllValid(items) && i < |items| && items[i].canBeStored && OffsetOf(items, i).slot >= SLOTS
    ensures Cursor(items, |items|).Slots() >= SLOTS
  {
    assert Cursor(items, i + 1).slot >= SLOTS;
    CursorGrows(items, i + 1, |items|);
  }

  /** No two items share a byte, none reaches over the end of a slot unless it fills slots, all are in the slots. */
  ghost predicate Separate(items: seq<Item>, offsets: map<nat, Offset>, storageSize: nat)
    requires AllValid(items)
  {
    && (forall i: nat :: i in offsets <==> i < |items| && items[i].canBeStored)
    && (forall i: nat :: i in offsets ==> i < |items| && Fits(items[i], offsets[i], storageSize))
    && (forall i: nat, j: nat :: i in offsets && j in offsets && i < j ==>
      i < |items| && offsets[i].Position() + items[i].Extent() <= offsets[j].Position())
  }

  ghost predicate Fits(item: Item, offset: Offset, storageSize: nat)
  {
    && offset.byte + item.storageBytes <= SLOT && (item.storageSize > 1 ==> offset.byte == 0)
    && offset.slot < SLOTS && offset.Position() + item.Extent() <= SLOT * storageSize
  }

  class StorageOffsets {
    var storageSize: nat
    var offsets: map<nat, Offset>

    constructor ()
      ensures storageSize == 0 && offsets == map[]
    {
      storageSize, offsets := 0, map[];
    }

    /** Lays out the items in their order; the call fails exactly if they need more slots than there are. */
    method ComputeOffsets(types: seq<Item>) returns (r: Status)
      requires AllValid(types)
      modifies this
      ensures r.Failed? ==> storageSize == old(storageSize) && offsets == old(offsets)
      ensures r.Failed? <==> Cursor(types, |types|).Slots() >= SLOTS
      ensures r.Fine? ==> Separate(types, offsets, storageSize) && storageSize == Cursor(types, |types|).Slots()
      ensures r.Fine? ==> forall i :: 0 <= i < |types| && types[i].canBeStored ==> offsets[i] == OffsetOf(types, i)
    {
      var slotOffset: nat, byteOffset: nat := 0, 0;
      var computed: map<nat, Offset> := map[];
      for i := 0 to |types|
        invariant Cursor(types, i) == Offset(slotOffset, byteOffset)
        invariant forall k: nat :: k in computed <==> k < i && types[k].canBeStored
        invariant forall k: nat :: k in computed ==>
          k < i && computed[k] == OffsetOf(types, k) && computed[k].slot < SLOTS
      {
        var type_ := types[i];
        if !type_.canBeStored {
          continue;
        }
        if byteOffset + type_.storageBytes > SLOT {
          slotOffset := slotOffset + 1;
          byteOffset := 0;
        }
        if slotOffset >= SLOTS {
          TooFar(types, i);
          return Failed(TooLargeForStorage);
        }
        computed := computed[i := Offset(slotOffset, byteOffset)];
        if type_.storageSize == 1 && byteOffset + type_.storageBytes <= SLOT {
          byteOffset := byteOffset + type_.storageBytes;
        } else {
          slotOffset := slotOffset + type_.storageSize;
          byteOffset := 0;
        }
      }
      if byteOffset > 0 {
        slotOffset := slotOffset + 1;
      }
      if slotOffset >= SLOTS {
        return Failed(TooLargeForStorage);
      }
      storageSize := slotOffset;
      offsets := computed;
      SeparateNow(types, offsets, storageSize);
      return Fine;
    }
  }

  lemma {:induction false} SeparateNow(items: seq<Item>, offsets: map<nat, Offset>, storageSize: nat)
    requires AllValid(items) && storageSize == Cursor(items, |items|).Slots()
    requires forall i: nat :: i in offsets <==> i < |items| && items[i].canBeStored
    requires forall i: nat :: i in offsets ==>
      i < |items| && offsets[i] == OffsetOf(items, i) && offsets[i].slot < SLOTS
    ensures Separate(items, offsets, storageSize)
  {
    WithinSize(items);
    forall i: nat | i in offsets
      ensures Fits(items[i], offsets[i], storageSize)
    {
      Tight(items, i);
    }
    forall i: nat, j: nat | i in offsets && j in offsets && i < j
      ensures offsets[i].Position() + items[i].Extent() <= offsets[j].Position()
    {
      OneBehindTheOther(items, i, j);
    }
  }

  // ----- types inside types -----

  /** Value types, mappings and dynamically-sized arrays are cells; what the latter two refer to lies elsewhere. */
  datatype Type = Cell(bytes: nat) | FixedArray(base: Type, length: nat) | Struct(members: seq<Type>) {
    predicate Valid()
    {
      match this
      case Cell(_) => 1 <= bytes <= SLOT
      case FixedArray(_, _) => base.Valid()
      case Struct(_) => forall i :: 0 <= i < |members| ==> members[i].Valid()
    }

    function StorageBytes(): (r: nat)
      ensures Valid() ==> 1 <= r <= SLOT
    {
      if Cell? then bytes else SLOT
    }

    /** The number of slots, or none if there are not so many. */
    function StorageSize(): (r: Option<nat>)
      requires Valid()
      ensures r.Some? ==> r.value >= 1
      ensures Cell? ==> r == Some(1)
      decreases this, 1
    {
      match this
      case Cell(_) => Some(1)
      case FixedArray(_, _) =>
        if base.StorageBytes() < SLOT then
          InSlots((length + (ItemsPerSlot() - 1)) / ItemsPerSlot())
        else
          var size :- base.StorageSize();
          InSlots(length * size)
      case Struct(_) =>
        if Members().Some? then InSlots(Cursor(Members().value, |members|).Slots()) else None
    }

    function ItemsPerSlot(): (r: nat)
      requires FixedArray? && Valid()
      ensures r >= 1 && r * base.StorageBytes() <= SLOT
    {
      Quotient(SLOT, base.StorageBytes());
      SLOT / base.StorageBytes()
    }

    /** The members to lay out, unless one of them is too large. */
    function Members(): (r: Option<seq<Item>>)
      requires Struct? && Valid()
      ensures r.Some? ==> |r.value| == |members| && AllValid(r.value)
      ensures r.Some? ==> forall i :: 0 <= i < |members| ==> members[i].StorageSize().Some?
      decreases this, 0
    {
      if forall i :: 0 <= i < |members| ==> members[i].StorageSize().Some? then
        Some(seq(|members|, i requires 0 <= i < |members| =>
          Item(true, members[i].StorageBytes(), members[i].StorageSize().value)))
      else None
    }

    predicate Sized() { Valid() && StorageSize().Some? }

    /** The number of bytes taken up. */
    function Extent(): nat
      requires Sized()
    {
      if Cell? then bytes else SLOT * StorageSize().value
    }

    /** The position is one where a value of the type may lie. */
    predicate MayLieAt(position: nat) { position % SLOT + StorageBytes() <= SLOT }

    // ----- the parts of a type -----

    function Parts(): nat
    {
      match this
      case Cell(_) => 0
      case FixedArray(_, length) => length
      case Struct(members) => |members|
    }

    function Part(i: nat): Type
      requires i < Parts()
    {
      if Struct? then members[i] else base
    }

    /** The position of a member, or of an element as it is computed to access it, from where the type begins. */
    function PartOffset(i: nat): nat
      requires Sized() && i < Parts()
    {
      match this
      case Struct(_) => OffsetOf(Members().value, i).Position()
      case FixedArray(_, _) =>
        if base.StorageBytes() <= 16 then
          PackedElement(ItemsPerSlot(), base.StorageBytes(), i).Position()
        else
          SLOT * (i * base.StorageSize().value)
    }
  }

  function InSlots(size: nat): (r: Option<nat>)
    ensures r.Some? ==> size <= r.value && r.value >= 1
  {
    if size >= SLOTS then None else Some(if size == 0 then 1 else size)
  }

  lemma {:induction false} PartSized(t: Type, i: nat)
    requires t.Sized() && i < t.Parts()
    ensures t.Part(i).Sized()
    ensures t.Struct? ==> t.Members().value[i] == Item(true, t.Part(i).StorageBytes(), t.Part(i).StorageSize().value)
    ensures t.Struct? ==> t.Members().value[i].Extent() == t.Part(i).Extent()
  {
  }

  /** Where the i-th of the elements lies that share slots. */
  function PackedElement(items: nat, bytes: nat, i: nat): Offset
    requires items >= 1
  {
    Times(0, i % items, bytes);
    Offset(i / items, i % items * bytes)
  }

  lemma Times(a: nat, b: nat, c: nat)
    requires a <= b
    ensures a * c <= b * c
  {
  }

  lemma Quotient(n: nat, d: nat)
    requires 1 <= d
    ensures 0 <= n - n / d * d < d && n % d == n - n / d * d
    ensures d <= n ==> n / d >= 1
  {
  }

  /** There is room for one more element behind the first r of a slot. */
  lemma ElementFits(items: nat, bytes: nat, r: nat)
    requires items * bytes <= SLOT && r < items
    ensures r * bytes + bytes <= SLOT
  {
    Times(r + 1, items, bytes);
    assert (r + 1) * bytes == r * bytes + bytes;
  }

  lemma PackedApart(items: nat, bytes: nat, s: nat, r: nat, s': nat, r': nat)
    requires items * bytes <= SLOT && r < items && r' < items && s * items + r < s' * items + r'
    ensures SLOT * s + r * bytes + bytes <= SLOT * s' + r' * bytes
  {
    ElementFits(items, bytes, r);
    if s > s' {
      Times(s' + 1, s, items);
    } else if s == s' {
      Times(r + 1, r', bytes);
      assert (r + 1) * bytes == r * bytes + bytes;
    }
  }

  lemma SlotBegun(items: nat, length: nat, i: nat)
    requires 1 <= items && i < length
    ensures i / items + 1 <= (length + (items - 1)) / items
  {
    var s, s' := i / items, (length + (items - 1)) / items;
    Quotient(i, items);
    Quotient(length + (items - 1), items);
    if s' <= s {
      Times(s', s, items);
    }
  }

  lemma PartWithin(t: Type, i: nat)
    requires t.Sized() && i < t.Parts()
    ensures t.Part(i).Sized() && t.PartOffset(i) + t.Part(i).Extent() <= t.Extent()
  {
    PartSized(t, i);
    if t.Struct? {
      WithinSize(t.Members().value);
    } else if t.base.StorageBytes() <= 16 {
      var items := t.ItemsPerSlot();
      ElementFits(items, t.base.bytes, i % items);
      SlotBegun(items, t.length, i);
    } else if t.base.StorageBytes() < SLOT {
      assert t.ItemsPerSlot() == 1;
    } else {
      var size := t.base.StorageSize().value;
      Times(i + 1, t.length, size);
      assert (i + 1) * size == i * size + size;
    }
  }

  lemma PackedElementsApart(items: nat, bytes: nat, i: nat, j: nat)
    requires items >= 1 && items * bytes <= SLOT && i < j
    ensures PackedElement(items, bytes, i).Position() + bytes <= PackedElement(items, bytes, j).Position()
  {
    Quotient(i, items);
    Quotient(j, items);
    var s, r, s', r' := i / items, i % items, j / items, j % items;
    PackedApart(items, bytes, s, r, s', r');
  }

  lemma PartsApart(t: Type, i: nat, j: nat)
    requires t.Sized() && i < j < t.Parts()
    ensures t.Part(i).Sized() && t.PartOffset(i) + t.Part(i).Extent() <= t.PartOffset(j)
  {
    PartSized(t, i);
    if t.Struct? {
      OneBehindTheOther(t.Members().value, i, j);
    } else if t.base.StorageBytes() <= 16 {
      PackedElementsApart(t.ItemsPerSlot(), t.base.bytes, i, j);
    } else {
      var size := t.base.StorageSize().value;
      Times(i + 1, j, size);
      assert (i + 1) * size == i * size + size;
    }
  }

  lemma PartMayLie(t: Type, i: nat, start: nat)
    requires t.Sized() && i < t.Parts() && t.MayLieAt(start)
    ensures t.Part(i).MayLieAt(start + t.PartOffset(i))
  {
    assert start % SLOT == 0;
    PartSized(t, i);
    if t.Struct? {
      var items := t.Members().value;
      Tight(items, i);
      InSlot(start, OffsetOf(items, i), t.Part(i));
    } else if t.base.StorageBytes() <= 16 {
      var items := t.ItemsPerSlot();
      ElementFits(items, t.base.bytes, i % items);
      InSlot(start, PackedElement(items, t.base.bytes, i), t.base);
    } else {
      InSlot(start, Offset(i * t.base.StorageSize().value, 0), t.base);
    }
  }

  lemma InSlot(start: nat, offset: Offset, t: Type)
    requires start % SLOT == 0 && offset.byte + t.StorageBytes() <= SLOT && t.StorageBytes() >= 1
    ensures t.MayLieAt(start + offset.Position())
  {
    assert (start + offset.Position()) % SLOT == offset.byte;
  }

  // ----- anything inside a type -----

  predicate IsPath(t: Type, path: seq<nat>)
  {
    path == [] || (path[0] < t.Parts() && IsPath(t.Part(path[0]), path[1..]))
  }

  function Inside(t: Type, path: seq<nat>): Type
    requires IsPath(t, path)
  {
    if path == [] then t else Inside(t.Part(path[0]), path[1..])
  }

  function Position(t: Type, path: seq<nat>, start: nat): nat
    requires t.Sized() && IsPath(t, path)
  {
    if path == [] then start
    else
      PartSized(t, path[0]);
      Position(t.Part(path[0]), path[1..], start + t.PartOffset(path[0]))
  }

  /** Whatever is inside a value lies inside its bytes, and no cell reaches over the end of a slot. */
  lemma {:induction false} Contained(t: Type, path: seq<nat>, start: nat)
    requires t.Sized() && IsPath(t, path) && t.MayLieAt(start)
    ensures Inside(t, path).Sized() && start <= Position(t, path, start)
    ensures Position(t, path, start) + Inside(t, path).Extent() <= start + t.Extent()
    ensures Inside(t, path).MayLieAt(Position(t, path, start))
    decreases |path|
  {
    if path != [] {
      PartWithin(t, path[0]);
      PartMayLie(t, path[0], start);
      Contained(t.Part(path[0]), path[1..], start + t.PartOffset(path[0]));
    }
  }

  lemma {:induction false} ContainedInPart(t: Type, path: seq<nat>, start: nat)
    requires t.Sized() && IsPath(t, path) && t.MayLieAt(start) && path != []
    ensures t.Part(path[0]).Sized() && Inside(t, path).Sized()
    ensures start + t.PartOffset(path[0]) <= Position(t, path, start)
    ensures Position(t, path, start) + Inside(t, path).Extent()
      <= start + t.PartOffset(path[0]) + t.Part(path[0]).Extent()
  {
    PartSized(t, path[0]);
    PartMayLie(t, path[0], start);
    Contained(t.Part(path[0]), path[1..], start + t.PartOffset(path[0]));
  }

  ghost predicate Apart(start: nat, extent: nat, start': nat, extent': nat)
  {
    start + extent <= start' || start' + extent' <= start
  }

  lemma {:induction false} InDifferentParts(t: Type, p: seq<nat>, q: seq<nat>, start: nat)
    requires t.Sized() && IsPath(t, p) && IsPath(t, q) && t.MayLieAt(start)
    requires p != [] && q != [] && p[0] < q[0]
    ensures Inside(t, p).Sized() && Inside(t, q).Sized()
    ensures Position(t, p, start) + Inside(t, p).Extent() <= Position(t, q, start)
  {
    PartsApart(t, p[0], q[0]);
    ContainedInPart(t, p, start);
    ContainedInPart(t, q, start);
  }

  /** Two values inside a type share no byte unless one of them is inside the other. */
  lemma {:induction false} Disjoint(t: Type, p: seq<nat>, q: seq<nat>, start: nat)
    requires t.Sized() && IsPath(t, p) && IsPath(t, q) && t.MayLieAt(start)
    requires !(p <= q) && !(q <= p)
    ensures Inside(t, p).Sized() && Inside(t, q).Sized()
    ensures Apart(Position(t, p, start), Inside(t, p).Extent(), Position(t, q, start), Inside(t, q).Extent())
    decreases |p|
  {
    if p[0] < q[0] {
      InDifferentParts(t, p, q, start);
    } else if q[0] < p[0] {
      InDifferentParts(t, q, p, start);
    } else {
      PartSized(t, p[0]);
      PartMayLie(t, p[0], start);
      assert p == [p[0]] + p[1..] && q == [p[0]] + q[1..];
      Disjoint(t.Part(p[0]), p[1..], q[1..], start + t.PartOffset(p[0]));
    }
  }
}
