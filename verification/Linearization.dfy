/**
 * Linearisation of base contracts by the C3 merge: the merged list respects the order of every input list, and
 * merging only fails if no order does.
 */
module Linearization {
  import opened Results

  /** The first position of x, or the length if there is none. */
  function IndexOf<T(==)>(order: seq<T>, x: T): (i: nat)
    ensures i <= |order| && (i < |order| ==> order[i] == x)
    ensures x in order <==> i < |order|
  {
    if order == [] then 0 else if order[0] == x then 0 else 1 + IndexOf(order[1..], x)
  }

  predicate NoDuplicates<T(==)>(list: seq<T>)
  {
    forall i, j :: 0 <= i < j < |list| ==> list[i] != list[j]
  }

  /** The elements of the list appear in the order, and in that order. */
  predicate Agrees<T(==)>(list: seq<T>, order: seq<T>)
  {
    && (forall i :: 0 <= i < |list| ==> list[i] in order)
    && (forall i, j :: 0 <= i < j < |list| ==> IndexOf(order, list[i]) < IndexOf(order, list[j]))
  }

  predicate Linearizes<T(==)>(order: seq<T>, lists: seq<seq<T>>)
  {
    NoDuplicates(order) && forall k :: 0 <= k < |lists| ==> Agrees(lists[k], order)
  }

  lemma {:induction false} IndexPrefix<T>(order: seq<T>, more: seq<T>, x: T)
    requires x in order
    ensures IndexOf(order + more, x) == IndexOf(order, x)
  {
    if order[0] != x {
      assert (order + more)[1..] == order[1..] + more;
      IndexPrefix(order[1..], more, x);
    }
  }

  lemma {:induction false} IndexLast<T>(order: seq<T>, x: T)
    requires x !in order
    ensures IndexOf(order + [x], x) == |order|
  {
    if order == [] {
      assert order + [x] == [x];
    } else {
      assert (order + [x])[1..] == order[1..] + [x];
      IndexLast(order[1..], x);
    }
  }

  /** The order can grow at its end. */
  lemma AgreesStill<T>(list: seq<T>, order: seq<T>, x: T)
    requires Agrees(list, order)
    ensures Agrees(list, order + [x])
  {
    forall i | 0 <= i < |list|
      ensures list[i] in order + [x] && IndexOf(order + [x], list[i]) == IndexOf(order, list[i])
    {
      IndexPrefix(order, [x], list[i]);
    }
  }

  lemma AgreesMore<T>(list: seq<T>, order: seq<T>, x: T)
    requires Agrees(list, order) && x !in order
    ensures Agrees(list + [x], order + [x])
  {
    AgreesStill(list, order, x);
    IndexLast(order, x);
    forall i | 0 <= i < |list|
      ensures IndexOf(order + [x], list[i]) < |order|
    {
      IndexPrefix(order, [x], list[i]);
    }
  }

  function NonEmpty<T>(lists: seq<seq<T>>): seq<seq<T>>
  {
    if lists == [] then []
    else
      var last := |lists| - 1;
      NonEmpty(lists[..last]) + (if lists[last] == [] then [] else [lists[last]])
  }

  predicate AllNonEmpty<T>(lists: seq<seq<T>>) { forall k :: 0 <= k < |lists| ==> |lists[k]| > 0 }

  lemma {:induction false} NonEmptyHas<T>(lists: seq<seq<T>>)
    ensures AllNonEmpty(NonEmpty(lists))
    ensures forall l :: l in NonEmpty(lists) <==> l in lists && l != []
  {
    if lists != [] {
      var last := |lists| - 1;
      NonEmptyHas(lists[..last]);
      assert lists == lists[..last] + [lists[last]];
    }
  }

  lemma {:induction false} NonEmptyFrom<T>(lists: seq<seq<T>>, j: nat) returns (k: nat)
    requires j < |NonEmpty(lists)|
    ensures k < |lists| && NonEmpty(lists)[j] == lists[k]
  {
    var last := |lists| - 1;
    if j < |NonEmpty(lists[..last])| {
      k := NonEmptyFrom(lists[..last], j);
    } else {
      k := last;
    }
  }

  function Removed<T(==)>(list: seq<T>, x: T): seq<T>
  {
    if list == [] then [] else if list[0] == x then Removed(list[1..], x) else [list[0]] + Removed(list[1..], x)
  }

  lemma {:induction false} NothingRemoved<T>(list: seq<T>, x: T)
    requires x !in list
    ensures Removed(list, x) == list
  {
    if list != [] {
      NothingRemoved(list[1..], x);
      assert list == [list[0]] + list[1..];
    }
  }

  function RemovedAll<T(==)>(lists: seq<seq<T>>, x: T): (r: seq<seq<T>>)
    ensures |r| == |lists|
  {
    seq(|lists|, k requires 0 <= k < |lists| => Removed(lists[k], x))
  }

  lemma {:induction false} NonEmptySnoc<T>(lists: seq<seq<T>>, l: seq<T>)
    ensures NonEmpty(lists + [l]) == NonEmpty(lists) + (if l == [] then [] else [l])
  {
    assert (lists + [l])[..|lists|] == lists;
  }

  /** Empty lists do not matter. */
  lemma {:induction false} NonEmptyRemoved<T>(lists: seq<seq<T>>, x: T)
    ensures NonEmpty(RemovedAll(NonEmpty(lists), x)) == NonEmpty(RemovedAll(lists, x))
  {
    if lists != [] {
      var last := |lists| - 1;
      var l := lists[last];
      NonEmptyRemoved(lists[..last], x);
      assert RemovedAll(lists, x) == RemovedAll(lists[..last], x) + [Removed(l, x)];
      NonEmptySnoc(RemovedAll(lists[..last], x), Removed(l, x));
      var before := NonEmpty(lists[..last]);
      if l == [] {
        assert NonEmpty(lists) == before;
        assert Removed(l, x) == [];
      } else {
        assert NonEmpty(lists) == before + [l];
        assert RemovedAll(before + [l], x) == RemovedAll(before, x) + [Removed(l, x)];
        NonEmptySnoc(RemovedAll(before, x), Removed(l, x));
      }
    }
  }

  // ----- the operations on the lists -----

  /** The candidate is at most the head of each list. */
  predicate OnlyAtHead<T(==)>(lists: seq<seq<T>>, x: T)
    requires AllNonEmpty(lists)
  {
    forall k :: 0 <= k < |lists| ==> x !in lists[k][1..]
  }

  method AppearsOnlyAtHead<T(==)>(lists: seq<seq<T>>, x: T) returns (r: bool)
    requires AllNonEmpty(lists)
    ensures r <==> OnlyAtHead(lists, x)
  {
    for k := 0 to |lists|
      invariant forall j :: 0 <= j < k ==> x !in lists[j][1..]
    {
      if x in lists[k][1..] {
        return false;
      }
    }
    return true;
  }

  /** The first head of a list that appears nowhere behind a head. */
  method NextCandidate<T(==)>(lists: seq<seq<T>>) returns (r: Option<T>)
    requires AllNonEmpty(lists)
    ensures r.Some? ==> OnlyAtHead(lists, r.value) && exists k :: 0 <= k < |lists| && lists[k][0] == r.value
    ensures r.None? ==> forall k :: 0 <= k < |lists| ==> !OnlyAtHead(lists, lists[k][0])
  {
    for k := 0 to |lists|
      invariant forall j :: 0 <= j < k ==> !OnlyAtHead(lists, lists[j][0])
    {
      var found := AppearsOnlyAtHead(lists, lists[k][0]);
      if found {
        return Some(lists[k][0]);
      }
    }
    return None;
  }

  method RemoveCandidate<T(==)>(lists: seq<seq<T>>, x: T) returns (r: seq<seq<T>>)
    ensures r == NonEmpty(RemovedAll(lists, x))
  {
    r := [];
    for k := 0 to |lists|
      invariant r == NonEmpty(RemovedAll(lists[..k], x))
    {
      var rest := Removed(lists[k], x);
      assert RemovedAll(lists[..k + 1], x) == RemovedAll(lists[..k], x) + [rest];
      NonEmptySnoc(RemovedAll(lists[..k], x), rest);
      if rest != [] {
        r := r + [rest];
      }
    }
    assert lists[..|lists|] == lists;
  }

  // ----- the merge -----

  ghost predicate Taking<T>(lists: seq<seq<T>>, taken: seq<nat>)
  {
    |taken| == |lists| && forall k :: 0 <= k < |lists| ==> taken[k] <= |lists[k]|
  }

  /** What is left of each list after its first elements have been taken. */
  ghost function Rests<T>(lists: seq<seq<T>>, taken: seq<nat>): (r: seq<seq<T>>)
    requires Taking(lists, taken)
    ensures |r| == |lists|
  {
    seq(|lists|, k requires 0 <= k < |lists| => lists[k][taken[k]..])
  }

  /** The result has the taken elements of each list, in their order, and nothing else. */
  ghost predicate Merged<T>(lists: seq<seq<T>>, taken: seq<nat>, result: seq<T>)
  {
    && Taking(lists, taken) && NoDuplicates(result)
    && (forall k :: 0 <= k < |lists| ==> Agrees(lists[k][..taken[k]], result))
    && (forall k, x :: 0 <= k < |lists| && x in result ==> x !in lists[k][taken[k]..])
    && (forall x :: x in result ==> exists k :: 0 <= k < |lists| && x in lists[k])
  }

  /** The candidate is taken from every list that it heads. */
  ghost function Taken<T>(lists: seq<seq<T>>, taken: seq<nat>, x: T): (r: seq<nat>)
    requires Taking(lists, taken)
    ensures Taking(lists, r)
  {
    seq(|lists|, k requires 0 <= k < |lists| =>
      if taken[k] < |lists[k]| && lists[k][taken[k]] == x then taken[k] + 1 else taken[k])
  }

  lemma RestHead<T>(lists: seq<seq<T>>, taken: seq<nat>, x: T, k: nat)
    requires Taking(lists, taken) && k < |lists|
    requires AllNonEmpty(NonEmpty(Rests(lists, taken))) && OnlyAtHead(NonEmpty(Rests(lists, taken)), x)
    ensures x !in lists[k][Taken(lists, taken, x)[k]..]
    ensures Removed(lists[k][taken[k]..], x) == lists[k][Taken(lists, taken, x)[k]..]
  {
    var rests, rest := Rests(lists, taken), lists[k][taken[k]..];
    if rest != [] {
      NonEmptyHas(rests);
      assert rest == rests[k] && rest in NonEmpty(rests);
      var j :| 0 <= j < |NonEmpty(rests)| && NonEmpty(rests)[j] == rest;
      assert x !in rest[1..];
      NothingRemoved(rest[1..], x);
      assert rest[1..] == lists[k][taken[k] + 1..];
      assert rest == [rest[0]] + rest[1..];
    }
  }

  lemma RestsRemoved<T>(lists: seq<seq<T>>, taken: seq<nat>, x: T)
    requires Taking(lists, taken)
    requires AllNonEmpty(NonEmpty(Rests(lists, taken))) && OnlyAtHead(NonEmpty(Rests(lists, taken)), x)
    ensures NonEmpty(RemovedAll(NonEmpty(Rests(lists, taken)), x)) == NonEmpty(Rests(lists, Taken(lists, taken, x)))
  {
    NonEmptyRemoved(Rests(lists, taken), x);
    forall k | 0 <= k < |lists|
      ensures RemovedAll(Rests(lists, taken), x)[k] == Rests(lists, Taken(lists, taken, x))[k]
    {
      RestHead(lists, taken, x, k);
    }
    assert RemovedAll(Rests(lists, taken), x) == Rests(lists, Taken(lists, taken, x));
  }

  lemma MergedMore<T>(lists: seq<seq<T>>, taken: seq<nat>, result: seq<T>, x: T)
    requires Merged(lists, taken, result)
    requires AllNonEmpty(NonEmpty(Rests(lists, taken))) && OnlyAtHead(NonEmpty(Rests(lists, taken)), x)
    requires exists l :: l in NonEmpty(Rests(lists, taken)) && x in l
    ensures x !in result && Merged(lists, Taken(lists, taken, x), result + [x])
  {
    var taken' := Taken(lists, taken, x);
    NonEmptyHas(Rests(lists, taken));
    var l :| l in NonEmpty(Rests(lists, taken)) && x in l;
    var k :| 0 <= k < |lists| && Rests(lists, taken)[k] == l;
    assert x in lists[k][taken[k]..] && x in lists[k];
    forall j | 0 <= j < |lists|
      ensures Agrees(lists[j][..taken'[j]], result + [x])
      ensures forall y :: y in result + [x] ==> y !in lists[j][taken'[j]..]
    {
      RestHead(lists, taken, x, j);
      if taken'[j] == taken[j] {
        AgreesStill(lists[j][..taken[j]], result, x);
      } else {
        AgreesMore(lists[j][..taken[j]], result, x);
        assert lists[j][..taken'[j]] == lists[j][..taken[j]] + [x];
        assert forall y :: y in lists[j][taken'[j]..] ==> y in lists[j][taken[j]..];
      }
    }
  }

  // ----- failure -----

  /** The element of the lists that comes first in the order; it can only be a head. */
  lemma {:induction false} EarliestElement<T>(lists: seq<seq<T>>, order: seq<T>, n: nat) returns (k: nat)
    requires AllNonEmpty(lists) && 0 < n <= |lists| && forall j :: 0 <= j < |lists| ==> lists[j][0] in order
    ensures k < n && forall j :: 0 <= j < n ==> IndexOf(order, lists[k][0]) <= IndexOf(order, lists[j][0])
    decreases n
  {
    if n == 1 {
      k := 0;
    } else {
      k := EarliestElement(lists, order, n - 1);
      if IndexOf(order, lists[n - 1][0]) < IndexOf(order, lists[k][0]) {
        k := n - 1;
      }
    }
  }

  /** The head that comes first in an order that agrees with the lists is behind no other head. */
  lemma EarliestQualifies<T>(lists: seq<seq<T>>, order: seq<T>) returns (k: nat)
    requires AllNonEmpty(lists) && lists != [] && Linearizes(order, lists)
    ensures k < |lists| && OnlyAtHead(lists, lists[k][0])
  {
    assert forall j :: 0 <= j < |lists| ==> Agrees(lists[j], order);
    k := EarliestElement(lists, order, |lists|);
    var x := lists[k][0];
    forall j | 0 <= j < |lists|
      ensures x !in lists[j][1..]
    {
      assert Agrees(lists[j], order);
      forall i | 1 <= i < |lists[j]|
        ensures lists[j][i] != x
      {
        assert IndexOf(order, lists[j][0]) < IndexOf(order, lists[j][i]);
      }
    }
  }

  /** If no head qualifies, no order agrees with what is left of the lists. */
  lemma StuckMeansImpossible<T>(lists: seq<seq<T>>, order: seq<T>)
    requires AllNonEmpty(lists) && lists != [] && forall k :: 0 <= k < |lists| ==> !OnlyAtHead(lists, lists[k][0])
    ensures !Linearizes(order, lists)
  {
    if Linearizes(order, lists) {
      var k := EarliestQualifies(lists, order);
      assert false;
    }
  }

  /** An order that agrees with the lists agrees with what is left of them. */
  lemma RestLinearized<T>(order: seq<T>, lists: seq<seq<T>>, taken: seq<nat>)
    requires Linearizes(order, lists) && Taking(lists, taken)
    ensures Linearizes(order, NonEmpty(Rests(lists, taken)))
  {
    var rests := Rests(lists, taken);
    NonEmptyHas(rests);
    forall j | 0 <= j < |NonEmpty(rests)|
      ensures Agrees(NonEmpty(rests)[j], order)
    {
      var l := NonEmpty(rests)[j];
      var k := NonEmptyFrom(rests, j);
      assert Agrees(lists[k], order);
      forall i | 0 <= i < |l|
        ensures l[i] == lists[k][taken[k] + i]
      {
      }
    }
  }

  ghost function Left<T>(lists: seq<seq<T>>, taken: seq<nat>, n: nat): (r: nat)
    requires Taking(lists, taken) && n <= |lists|
  {
    if n == 0 then 0 else Left(lists, taken, n - 1) + |lists[n - 1]| - taken[n - 1]
  }

  lemma {:induction false} LeftFalls<T>(lists: seq<seq<T>>, taken: seq<nat>, x: T, n: nat)
    requires Taking(lists, taken) && n <= |lists|
    ensures Left(lists, Taken(lists, taken, x), n) <= Left(lists, taken, n)
    ensures (exists k :: 0 <= k < n && taken[k] < |lists[k]| && lists[k][taken[k]] == x) ==>
      Left(lists, Taken(lists, taken, x), n) < Left(lists, taken, n)
  {
    if n > 0 {
      LeftFalls(lists, taken, x, n - 1);
    }
  }

  /**
   * The C3 merge. A result has every element once and respects the order of every list; there is none exactly
   * if no order does, or there is nothing to merge.
   */
  method Merge<T(==)>(lists: seq<seq<T>>) returns (result: seq<T>)
    ensures result != [] ==> Linearizes(result, lists)
    ensures forall x :: x in result ==> exists k :: 0 <= k < |lists| && x in lists[k]
    ensures result == [] ==>
      (forall k :: 0 <= k < |lists| ==> lists[k] == []) || forall order :: !Linearizes(order, lists)
  {
    var toMerge := NonEmpty(lists);
    ghost var taken: seq<nat> := seq(|lists|, _ => 0);
    assert Rests(lists, taken) == lists;
    NonEmptyHas(lists);
    result := [];
    while toMerge != []
      invariant Merged(lists, taken, result) && toMerge == NonEmpty(Rests(lists, taken)) && AllNonEmpty(toMerge)
      invariant result == [] ==> toMerge == NonEmpty(lists)
      decreases Left(lists, taken, |lists|)
    {
      var candidate := NextCandidate(toMerge);
      if candidate.None? {
        forall order
          ensures !Linearizes(order, lists)
        {
          StuckMeansImpossible(toMerge, order);
          if Linearizes(order, lists) {
            RestLinearized(order, lists, taken);
          }
        }
        return [];
      }
      var x := candidate.value;
      var k :| 0 <= k < |toMerge| && toMerge[k][0] == x;
      assert toMerge[k] in toMerge && x in toMerge[k];
      RestsRemoved(lists, taken, x);
      MergedMore(lists, taken, result, x);
      HeadTaken(lists, taken, x);
      LeftFalls(lists, taken, x, |lists|);
      toMerge := RemoveCandidate(toMerge, x);
      result := result + [x];
      taken := Taken(lists, taken, x);
      NonEmptyHas(Rests(lists, taken));
    }
    MergedAll(lists, taken, result);
  }

  lemma HeadTaken<T>(lists: seq<seq<T>>, taken: seq<nat>, x: T)
    requires Taking(lists, taken) && exists l :: l in NonEmpty(Rests(lists, taken)) && l != [] && l[0] == x
    ensures exists k :: 0 <= k < |lists| && taken[k] < |lists[k]| && lists[k][taken[k]] == x
  {
    NonEmptyHas(Rests(lists, taken));
    var l :| l in NonEmpty(Rests(lists, taken)) && l != [] && l[0] == x;
    var k :| 0 <= k < |lists| && Rests(lists, taken)[k] == l;
    assert lists[k][taken[k]] == x;
  }

  lemma HeadListed<T>(list: seq<T>, order: seq<T>)
    requires list != [] && Agrees(list, order)
    ensures order != []
  {
    assert list[0] in order;
  }

  lemma OnlyNothingAgrees<T>(lists: seq<seq<T>>)
    requires Linearizes([], lists)
    ensures forall k :: 0 <= k < |lists| ==> lists[k] == []
  {
    var order: seq<T> := [];
    forall k | 0 <= k < |lists|
      ensures lists[k] == []
    {
      if lists[k] != [] {
        HeadListed(lists[k], order);
      }
    }
  }

  lemma MergedAll<T>(lists: seq<seq<T>>, taken: seq<nat>, result: seq<T>)
    requires Merged(lists, taken, result) && NonEmpty(Rests(lists, taken)) == []
    ensures Linearizes(result, lists)
    ensures result == [] ==> forall k :: 0 <= k < |lists| ==> lists[k] == []
  {
    NonEmptyHas(Rests(lists, taken));
    forall k | 0 <= k < |lists|
      ensures lists[k][..taken[k]] == lists[k]
    {
      var rest := Rests(lists, taken)[k];
      assert rest in Rests(lists, taken) && rest !in NonEmpty(Rests(lists, taken));
    }
    if result == [] {
      OnlyNothingAgrees(lists);
    }
  }

  // ----- the contracts of a source unit, one after the other -----

  lemma {:induction false} AgreesTransitively<T>(a: seq<T>, b: seq<T>, c: seq<T>)
    requires NoDuplicates(b) && Agrees(a, b) && Agrees(b, c)
    ensures Agrees(a, c)
  {
    forall i | 0 <= i < |a|
      ensures a[i] in c && b[IndexOf(b, a[i])] == a[i]
    {
      assert a[i] == b[IndexOf(b, a[i])];
    }
  }

  lemma {:induction false} IndexAt<T>(order: seq<T>, i: nat)
    requires i < |order| && NoDuplicates(order)
    ensures IndexOf(order, order[i]) == i
  {
  }

  lemma AgreesWithItself<T>(order: seq<T>)
    requires NoDuplicates(order)
    ensures Agrees(order, order)
  {
    forall i | 0 <= i < |order|
      ensures IndexOf(order, order[i]) == i
    {
      IndexAt(order, i);
    }
  }

  /**
   * Every linearisation starts with its own contract, lists no contract twice, and respects the linearisation of
   * everything it inherits from.
   */
  ghost predicate Monotonic<T>(linearized: map<T, seq<T>>)
  {
    forall c :: c in linearized ==>
      linearized[c] != [] && linearized[c][0] == c && NoDuplicates(linearized[c]) && Respects(linearized[c], linearized)
  }

  /** The order extends the linearisation of everything in it. */
  ghost predicate Respects<T>(order: seq<T>, linearized: map<T, seq<T>>)
  {
    forall d :: d in order ==> d in linearized && Agrees(linearized[d], order)
  }

  lemma RespectsStill<T>(order: seq<T>, linearized: map<T, seq<T>>, contract: T, list: seq<T>)
    requires Respects(order, linearized) && contract !in linearized
    ensures Respects(order, linearized[contract := list])
  {
  }

  /** The lists to merge: of the bases, the last one first, and then the contract with its bases in that order. */
  function Lists<T>(contract: T, bases: seq<T>, linearized: map<T, seq<T>>): (r: seq<seq<T>>)
    requires forall b :: b in bases ==> b in linearized
    ensures |r| == |bases| + 1 && |r[|bases|]| == |bases| + 1 && r[|bases|][0] == contract
    ensures forall i :: 0 <= i < |bases| ==>
      r[i] == linearized[bases[|bases| - 1 - i]] && r[|bases|][i + 1] == bases[|bases| - 1 - i]
  {
    seq(|bases|, i requires 0 <= i < |bases| => linearized[bases[|bases| - 1 - i]])
    + [[contract] + seq(|bases|, i requires 0 <= i < |bases| => bases[|bases| - 1 - i])]
  }

  ghost predicate ExtendsAll<T>(order: seq<T>, bases: seq<T>, linearized: map<T, seq<T>>)
  {
    forall b :: b in bases ==> b in linearized && Agrees(linearized[b], order)
  }

  ghost predicate FromSome<T>(x: T, bases: seq<T>, linearized: map<T, seq<T>>)
  {
    exists b :: b in bases && b in linearized && x in linearized[b]
  }

  /** What a linearisation of the contract promises. */
  ghost predicate Extends<T>(order: seq<T>, contract: T, bases: seq<T>, linearized: map<T, seq<T>>)
  {
    && order != [] && order[0] == contract && NoDuplicates(order)
    && ExtendsAll(order, bases, linearized)
    && (forall i, j :: 0 <= i < j < |bases| ==> IndexOf(order, bases[j]) < IndexOf(order, bases[i]))
    && (forall x :: x in order ==> x == contract || FromSome(x, bases, linearized))
  }

  /** The first element of an order that agrees with the lists is the contract. */
  lemma ContractFirst<T>(order: seq<T>, contract: T, bases: seq<T>, linearized: map<T, seq<T>>)
    requires forall b :: b in bases ==> b in linearized
    requires Monotonic(linearized) && contract !in linearized
    requires order != [] && Linearizes(order, Lists(contract, bases, linearized))
    requires exists k ::
      0 <= k < |Lists(contract, bases, linearized)| && order[0] in Lists(contract, bases, linearized)[k]
    ensures order[0] == contract
  {
    var lists, n := Lists(contract, bases, linearized), |bases|;
    assert Agrees(lists[n], order);
    var k :| 0 <= k < |lists| && order[0] in lists[k];
    var i :| 0 <= i < |lists[k]| && lists[k][i] == order[0];
    assert Agrees(lists[k], order) && IndexOf(order, order[0]) == 0;
    assert i == 0;
  }

  lemma {:induction false} LaterBasesFirst<T>(
    order: seq<T>, contract: T, bases: seq<T>, linearized: map<T, seq<T>>, i: nat, j: nat)
    requires forall b :: b in bases ==> b in linearized
    requires Linearizes(order, Lists(contract, bases, linearized)) && i < j < |bases|
    ensures IndexOf(order, bases[j]) < IndexOf(order, bases[i])
  {
    var last := Lists(contract, bases, linearized)[|bases|];
    assert Agrees(last, order);
    assert last[|bases| - 1 - i + 1] == bases[i] && last[|bases| - 1 - j + 1] == bases[j];
  }

  lemma BaseAgrees<T>(order: seq<T>, contract: T, bases: seq<T>, linearized: map<T, seq<T>>, b: T)
    requires forall b :: b in bases ==> b in linearized
    requires Linearizes(order, Lists(contract, bases, linearized)) && b in bases
    ensures Agrees(linearized[b], order)
  {
    var i :| 0 <= i < |bases| && bases[i] == b;
    var k := |bases| - 1 - i;
    assert Lists(contract, bases, linearized)[k] == linearized[b];
  }

  /** The element of a list is the contract or inherited. */
  lemma ListedIsInherited<T>(contract: T, bases: seq<T>, linearized: map<T, seq<T>>, k: nat, x: T)
    requires (forall b :: b in bases ==> b in linearized) && Monotonic(linearized)
    requires k <= |bases| && x in Lists(contract, bases, linearized)[k]
    ensures x == contract || FromSome(x, bases, linearized)
  {
    var n := |bases|;
    if k < n {
      assert bases[n - 1 - k] in bases;
    } else {
      var last := Lists(contract, bases, linearized)[n];
      var i :| 0 <= i < |last| && last[i] == x;
      if i > 0 {
        assert last[i - 1 + 1] == bases[n - 1 - (i - 1)];
        assert x in bases && linearized[x][0] == x;
      }
    }
  }

  lemma ResultExtends<T>(order: seq<T>, contract: T, bases: seq<T>, linearized: map<T, seq<T>>)
    requires forall b :: b in bases ==> b in linearized
    requires Monotonic(linearized) && contract !in linearized
    requires order != [] && Linearizes(order, Lists(contract, bases, linearized))
    requires forall x :: x in order ==>
      exists k :: 0 <= k < |Lists(contract, bases, linearized)| && x in Lists(contract, bases, linearized)[k]
    ensures Extends(order, contract, bases, linearized)
  {
    assert order[0] in order;
    ContractFirst(order, contract, bases, linearized);
    forall b | b in bases
      ensures Agrees(linearized[b], order)
    {
      BaseAgrees(order, contract, bases, linearized, b);
    }
    forall i, j | 0 <= i < j < |bases|
      ensures IndexOf(order, bases[j]) < IndexOf(order, bases[i])
    {
      LaterBasesFirst(order, contract, bases, linearized, i, j);
    }
    forall x | x in order
      ensures x == contract || FromSome(x, bases, linearized)
    {
      var k :| 0 <= k < |Lists(contract, bases, linearized)| && x in Lists(contract, bases, linearized)[k];
      ListedIsInherited(contract, bases, linearized, k, x);
    }
  }

  lemma AncestorAgrees<T>(order: seq<T>, bases: seq<T>, linearized: map<T, seq<T>>, d: T)
    requires Monotonic(linearized) && ExtendsAll(order, bases, linearized) && FromSome(d, bases, linearized)
    ensures d in linearized && Agrees(linearized[d], order)
  {
    var b :| b in bases && b in linearized && d in linearized[b];
    assert Respects(linearized[b], linearized);
    AgreesTransitively(linearized[d], linearized[b], order);
  }

  lemma OrderRespects<T>(order: seq<T>, contract: T, bases: seq<T>, linearized: map<T, seq<T>>)
    requires Monotonic(linearized) && contract !in linearized && NoDuplicates(order)
    requires ExtendsAll(order, bases, linearized)
    requires forall x :: x in order ==> x == contract || FromSome(x, bases, linearized)
    ensures Respects(order, linearized[contract := order])
  {
    forall d | d in order
      ensures d == contract || (d in linearized && Agrees(linearized[d], order))
    {
      if d != contract {
        AncestorAgrees(order, bases, linearized, d);
      }
    }
    AgreesWithItself(order);
  }

  /** A linearisation that extends those of its bases extends those of all its ancestors. */
  lemma MonotonicStill<T>(order: seq<T>, contract: T, bases: seq<T>, linearized: map<T, seq<T>>)
    requires forall b :: b in bases ==> b in linearized
    requires Monotonic(linearized) && contract !in linearized && Extends(order, contract, bases, linearized)
    ensures Monotonic(linearized[contract := order])
  {
    OrderRespects(order, contract, bases, linearized);
    forall c | c in linearized
      ensures Respects(linearized[c], linearized[contract := order])
    {
      RespectsStill(linearized[c], linearized, contract, order);
    }
  }

  ghost predicate Defined<T>(bases: seq<Option<T>>, linearized: map<T, seq<T>>)
  {
    forall i :: 0 <= i < |bases| ==> bases[i].Some? && bases[i].value in linearized
  }

  /** The contracts that are named. */
  ghost function Values<T>(bases: seq<Option<T>>): (r: seq<T>)
    requires forall i :: 0 <= i < |bases| ==> bases[i].Some?
    ensures |r| == |bases| && forall i :: 0 <= i < |bases| ==> r[i] == bases[i].value
  {
    seq(|bases|, i requires 0 <= i < |bases| => bases[i].value)
  }

  class NameAndTypeResolver<T(==, !new)> {
    /** The linearisation of every contract seen so far, from derived to base. */
    var linearized: map<T, seq<T>>

    constructor ()
      ensures linearized == map[] && Monotonic(linearized)
    {
      linearized := map[];
    }

    /** The lists to merge for a contract, collected base by base; a base that does not name a contract is None. */
    method CollectLists(contract: T, bases: seq<Option<T>>) returns (r: Result<seq<seq<T>>>)
      ensures r.Ok? <==> Defined(bases, linearized)
      ensures r.Ok? ==> r.value == Lists(contract, Values(bases), linearized)
      ensures r.Err? ==> r.error == ContractExpected || r.error == BaseNotDefined
    {
      var input: seq<seq<T>>, direct: seq<T> := [], [];
      for k := 0 to |bases|
        invariant forall i :: 0 <= i < k ==> bases[i].Some? && bases[i].value in linearized
        invariant |input| == |direct| == k
        invariant forall i :: 0 <= i < k ==> direct[i] == bases[k - 1 - i].value && input[i] == linearized[direct[i]]
      {
        if bases[k].None? {
          return Err(ContractExpected);
        }
        direct := [bases[k].value] + direct;
        if bases[k].value !in linearized {
          return Err(BaseNotDefined);
        }
        input := [linearized[bases[k].value]] + input;
      }
      r := Ok(input + [[contract] + direct]);
      assert r.value[|bases|] == Lists(contract, Values(bases), linearized)[|bases|];
    }

    /**
     * Linearises a contract that has not been linearised before. The new linearisation starts with the contract,
     * extends that of each base, and puts later bases before earlier ones; the call fails only if no order does.
     */
    method LinearizeBaseContracts(contract: T, bases: seq<Option<T>>) returns (r: Status)
      requires Monotonic(linearized) && contract !in linearized
      modifies this
      ensures Monotonic(linearized)
      ensures r.Failed? ==> linearized == old(linearized)
      ensures r.Fine? ==> Defined(bases, old(linearized))
      ensures r.Fine? ==> contract in linearized && linearized == old(linearized)[contract := linearized[contract]]
      ensures r.Fine? ==> Extends(linearized[contract], contract, Values(bases), old(linearized))
      ensures r == Failed(LinearizationImpossible) ==> Defined(bases, old(linearized))
      ensures r == Failed(LinearizationImpossible) ==>
        forall order :: !Linearizes(order, Lists(contract, Values(bases), old(linearized)))
    {
      var lists := CollectLists(contract, bases);
      if lists.Err? {
        return Failed(lists.error);
      }
      ghost var names := Values(bases);
      var order := Merge(lists.value);
      if order == [] {
        assert lists.value[|bases|] != [];
        return Failed(LinearizationImpossible);
      }
      ResultExtends(order, contract, names, linearized);
      MonotonicStill(order, contract, names, linearized);
      linearized := linearized[contract := order];
      return Fine;
    }
  }
}
