/**
 * Sequences of writes to storage and memory of which only some are carried out. A place of the store ends up
 * the same if the last write to it was among them, or a later one to the same slot.
 */
module StoreHistory {
  import opened Words
  import opened BigEndian
  import opened Evm
  import opened Classes
  import opened Knowledge

  /** A write; writes to the same slot class have the same address. */
  datatype Access = Access(target: Target, slot: Id, address: Word, word: Word)

  ghost predicate SlotsAgree(ws: seq<Access>)
  {
    forall i, j {:trigger SameSlot(ws[i], ws[j])} ::
      0 <= i < |ws| && 0 <= j < |ws| && SameSlot(ws[i], ws[j]) ==> ws[i].address == ws[j].address
  }

  predicate SameSlot(w: Access, w': Access) { w.target == w'.target && w.slot == w'.slot }

  ghost function Do(w: Access, store: Store): Store
  {
    Write(StoreInstruction(w.target), store, w.address, w.word)
  }

  /** The store after those of the first j writes that are chosen. */
  ghost function After(ws: seq<Access>, chosen: set<nat>, j: nat, store: Store): Store
    requires j <= |ws|
  {
    if j == 0 then store
    else
      var before := After(ws, chosen, j - 1, store);
      if j - 1 in chosen then Do(ws[j - 1], before) else before
  }

  /** The store after all of the first j writes. */
  ghost function AfterAll(ws: seq<Access>, j: nat, store: Store): Store
    requires j <= |ws|
  {
    if j == 0 then store else Do(ws[j - 1], AfterAll(ws, j - 1, store))
  }

  lemma {:induction false} NothingLater(ws: seq<Access>, chosen: set<nat>, j: nat, k: nat, store: Store)
    requires j <= k <= |ws| && forall i :: i in chosen ==> i < j
    ensures After(ws, chosen, k, store) == After(ws, chosen, j, store)
  {
    if j < k {
      NothingLater(ws, chosen, j, k - 1, store);
    }
  }

  lemma {:induction false} EarlierOnly(ws: seq<Access>, chosen: set<nat>, chosen': set<nat>, j: nat, store: Store)
    requires j <= |ws| && forall i :: 0 <= i < j ==> (i in chosen <==> i in chosen')
    ensures After(ws, chosen, j, store) == After(ws, chosen', j, store)
  {
    if j > 0 {
      EarlierOnly(ws, chosen, chosen', j - 1, store);
    }
  }

  /** Carrying out one more write, behind all that have been. */
  lemma {:induction false} OneMore(ws: seq<Access>, chosen: set<nat>, j: nat, store: Store)
    requires j < |ws| && forall i :: i in chosen ==> i < j
    ensures After(ws, chosen + {j}, |ws|, store) == Do(ws[j], After(ws, chosen, |ws|, store))
  {
    NothingLater(ws, chosen, j, |ws|, store);
    NothingLater(ws, chosen + {j}, j + 1, |ws|, store);
    EarlierOnly(ws, chosen, chosen + {j}, j, store);
  }

  // ----- single places -----

  datatype Place = MemoryByte(at: int) | StorageCell(at: int)

  predicate Covers(w: Access, p: Place)
  {
    match p
    case MemoryByte(b) => w.target == ToMemory && w.address <= b < w.address + 32
    case StorageCell(k) => w.target == ToStorage && w.address == k
  }

  datatype Thing = ByteThere(byte: Byte) | CellThere(cell: Cell)

  ghost function At(s: Store, p: Place): Thing
  {
    match p
    case MemoryByte(b) => ByteThere(s.memory[b])
    case StorageCell(k) => CellThere(s.storage[k])
  }

  ghost predicate SameAt(s: Store, s': Store, p: Place) { At(s, p) == At(s', p) }

  lemma WriteElsewhere(w: Access, s: Store, p: Place)
    requires !Covers(w, p)
    ensures SameAt(Do(w, s), s, p)
  {
  }

  lemma WriteBoth(w: Access, s: Store, s': Store, p: Place)
    requires Covers(w, p) || SameAt(s, s', p)
    ensures SameAt(Do(w, s), Do(w, s'), p)
  {
  }

  /** Write i, or a later one before j to the same slot, is carried out. */
  ghost predicate Superseded(ws: seq<Access>, chosen: set<nat>, i: nat, j: nat)
    requires i < j <= |ws|
  {
    exists k :: i <= k < j && k in chosen && SameSlot(ws[i], ws[k])
  }

  ghost predicate AllSuperseded(ws: seq<Access>, chosen: set<nat>, j: nat, p: Place)
    requires j <= |ws|
  {
    forall i {:trigger Superseded(ws, chosen, i, j)} :: 0 <= i < j && Covers(ws[i], p) ==> Superseded(ws, chosen, i, j)
  }

  lemma SupersededBefore(ws: seq<Access>, chosen: set<nat>, i: nat, j: nat, p: Place)
    requires SlotsAgree(ws) && i < j - 1 < |ws| && Superseded(ws, chosen, i, j)
    requires Covers(ws[i], p) && !Covers(ws[j - 1], p)
    ensures Superseded(ws, chosen, i, j - 1)
  {
    var k :| i <= k < j && k in chosen && SameSlot(ws[i], ws[k]);
    assert k != j - 1;
  }

  lemma AllSupersededBefore(ws: seq<Access>, chosen: set<nat>, j: nat, p: Place)
    requires SlotsAgree(ws) && 0 < j <= |ws| && AllSuperseded(ws, chosen, j, p) && !Covers(ws[j - 1], p)
    ensures AllSuperseded(ws, chosen, j - 1, p)
  {
    forall i | 0 <= i < j - 1 && Covers(ws[i], p)
      ensures Superseded(ws, chosen, i, j - 1)
    {
      SupersededBefore(ws, chosen, i, j, p);
    }
  }

  lemma SameStep(ws: seq<Access>, chosen: set<nat>, j: nat, store: Store, p: Place)
    requires j < |ws|
    requires if Covers(ws[j], p) then j in chosen else SameAt(After(ws, chosen, j, store), AfterAll(ws, j, store), p)
    ensures SameAt(After(ws, chosen, j + 1, store), AfterAll(ws, j + 1, store), p)
  {
    var w, s, s' := ws[j], After(ws, chosen, j, store), AfterAll(ws, j, store);
    WriteBoth(w, s, s', p);
    if !Covers(w, p) {
      WriteElsewhere(w, s', p);
    }
  }

  lemma {:induction false} SamePlace(ws: seq<Access>, chosen: set<nat>, j: nat, store: Store, p: Place)
    requires SlotsAgree(ws) && j <= |ws| && AllSuperseded(ws, chosen, j, p)
    ensures SameAt(After(ws, chosen, j, store), AfterAll(ws, j, store), p)
    decreases j
  {
    if j > 0 {
      if Covers(ws[j - 1], p) {
        assert Superseded(ws, chosen, j - 1, j);
      } else {
        AllSupersededBefore(ws, chosen, j, p);
        SamePlace(ws, chosen, j - 1, store, p);
      }
      SameStep(ws, chosen, j - 1, store, p);
    }
  }

  /** The two slots cannot overlap. */
  predicate Independent(t: Target, a: Word, b: Word) { if t == ToStorage then a != b else Apart(a, b) }

  lemma SameWord(m: Memory, m': Memory, a: Word)
    requires forall b :: a <= b < a + 32 ==> m[b] == m'[b]
    ensures Mload(m, a) == Mload(m', a)
  {
    assert Bytes(m, a, 32) == Bytes(m', a, 32);
  }

  /** A load sees the same word if every write it could see has been carried out, or a later one to the same slot. */
  lemma {:induction false} SameLoad(ws: seq<Access>, chosen: set<nat>, j: nat, store: Store, t: Target, a: Word)
    requires SlotsAgree(ws) && j <= |ws|
    requires forall i :: 0 <= i < j && ws[i].target == t && !Independent(t, ws[i].address, a) ==>
      Superseded(ws, chosen, i, j)
    ensures Load(LoadInstruction(t), After(ws, chosen, j, store), a)
         == Load(LoadInstruction(t), AfterAll(ws, j, store), a)
  {
    var s, s' := After(ws, chosen, j, store), AfterAll(ws, j, store);
    if t == ToStorage {
      SamePlace(ws, chosen, j, store, StorageCell(a));
    } else {
      forall b | a <= b < a + 32
        ensures s.memory[b] == s'.memory[b]
      {
        SamePlace(ws, chosen, j, store, MemoryByte(b));
        assert SameAt(s, s', MemoryByte(b));
      }
      SameWord(s.memory, s'.memory, a);
    }
  }

  lemma SameMemory(m: Memory, m': Memory)
    requires forall b: int :: m[b] == m'[b]
    ensures m == m'
  {
    assert forall b: int :: b in m;
    assert forall b: int :: b in m';
    assert m.Keys == m'.Keys;
    assert forall b: int :: b in m ==> m[b] == m'[b];
  }

  lemma SameStorage(s: Storage, s': Storage)
    requires forall k: int :: s[k] == s'[k]
    ensures s == s'
  {
    assert forall k: int :: k in s;
    assert forall k: int :: k in s';
    assert s.Keys == s'.Keys;
    assert forall k: int :: k in s ==> s[k] == s'[k];
  }

  lemma SameEverywhere(s: Store, s': Store)
    requires forall p: Place :: SameAt(s, s', p)
    ensures s == s'
  {
    forall b: int
      ensures s.memory[b] == s'.memory[b]
    {
      assert SameAt(s, s', MemoryByte(b));
    }
    forall k: int
      ensures s.storage[k] == s'.storage[k]
    {
      assert SameAt(s, s', StorageCell(k));
    }
    SameMemory(s.memory, s'.memory);
    SameStorage(s.storage, s'.storage);
  }

  /** The store is the same in the end if the last write to every slot has been carried out. */
  lemma {:induction false} SameStore(ws: seq<Access>, chosen: set<nat>, store: Store)
    requires SlotsAgree(ws)
    requires forall i :: 0 <= i < |ws| ==> Superseded(ws, chosen, i, |ws|)
    ensures After(ws, chosen, |ws|, store) == AfterAll(ws, |ws|, store)
  {
    var s, s' := After(ws, chosen, |ws|, store), AfterAll(ws, |ws|, store);
    forall p: Place
      ensures SameAt(s, s', p)
    {
      SamePlace(ws, chosen, |ws|, store, p);
    }
    SameEverywhere(s, s');
  }
}
