/** The index from classes to stack positions: always the exact inverse of the symbolic stack. */
module Layout {
  import opened Classes
  import opened Knowledge
  import opened Generation

  /** The positions of each class; a class that has been computed and removed again keeps an empty entry. */
  type Positions = map<Id, set<int>>

  ghost predicate PositionsOf(stack: map<int, Id>, c: Id, ps: set<int>)
  {
    forall p :: p in ps <==> p in stack && stack[p] == c
  }

  ghost predicate Inverse(stack: map<int, Id>, positions: Positions)
  {
    && (forall c :: c in positions ==> PositionsOf(stack, c, positions[c]))
    && (forall p :: p in stack ==> stack[p] in positions)
  }

  lemma PositionOf(stack: map<int, Id>, c: Id) returns (h: int)
    requires c in ClassesIn(stack)
    ensures h in stack && stack[h] == c
  {
    h :| h in stack && stack[h] == c;
  }

  lemma Inhabited(ps: set<int>)
    requires ps != {}
    ensures exists p :: p in ps
  {
    assert (forall p :: p !in ps) ==> ps <= {};
  }

  method Topmost(ps: set<int>) returns (p: int)
    requires ps != {}
    ensures p in ps && forall q :: q in ps ==> q <= p
  {
    var todo := ps;
    Inhabited(todo);
    p :| p in todo;
    while todo != {}
      invariant todo <= ps && p in ps
      invariant forall q :: q in ps && q !in todo ==> q <= p
    {
      Inhabited(todo);
      var q :| q in todo;
      todo := todo - {q};
      if q > p {
        p := q;
      }
    }
  }

  method Lowest(ps: set<int>) returns (p: int)
    requires ps != {}
    ensures p in ps && forall q :: q in ps ==> p <= q
  {
    var todo := ps;
    Inhabited(todo);
    p :| p in todo;
    while todo != {}
      invariant todo <= ps && p in ps
      invariant forall q :: q in ps && q !in todo ==> p <= q
    {
      Inhabited(todo);
      var q :| q in todo;
      todo := todo - {q};
      if q < p {
        p := q;
      }
    }
  }

  function With(positions: Positions, c: Id, p: int): Positions
  {
    positions[c := (if c in positions then positions[c] else {}) + {p}]
  }

  function Without(positions: Positions, c: Id, p: int): Positions
    requires c in positions
  {
    positions[c := positions[c] - {p}]
  }

  lemma PushedInverse(stack: map<int, Id>, positions: Positions, c: Id, p: int)
    requires Inverse(stack, positions) && p !in stack
    ensures Inverse(stack[p := c], With(positions, c, p))
  {
    forall d | d in With(positions, c, p)
      ensures PositionsOf(stack[p := c], d, With(positions, c, p)[d])
    {
      assert d in positions ==> PositionsOf(stack, d, positions[d]);
    }
  }

  lemma PoppedInverse(stack: map<int, Id>, positions: Positions, p: int)
    requires Inverse(stack, positions) && p in stack
    ensures stack[p] in positions
    ensures Inverse(stack - {p}, Without(positions, stack[p], p))
  {
    forall d | d in Without(positions, stack[p], p)
      ensures PositionsOf(stack - {p}, d, Without(positions, stack[p], p)[d])
    {
      assert PositionsOf(stack, d, positions[d]);
    }
  }

  /** Two elements of different classes change places. */
  function Moved(positions: Positions, a: Id, p: int, b: Id, q: int): Positions
    requires a in positions && b in positions
  {
    var once := positions[a := positions[a] - {p} + {q}];
    once[b := once[b] - {q} + {p}]
  }

  lemma ExchangedInverse(stack: map<int, Id>, positions: Positions, height: int, p: int)
    requires Inverse(stack, positions) && height in stack && p in stack && stack[height] != stack[p]
    ensures Inverse(Exchange(stack, height, p), Moved(positions, stack[height], height, stack[p], p))
  {
    var a, b := stack[height], stack[p];
    var stack', positions' := Exchange(stack, height, p), Moved(positions, a, height, b, p);
    forall d | d in positions'
      ensures PositionsOf(stack', d, positions'[d])
    {
      assert PositionsOf(stack, d, positions[d]);
    }
  }

  lemma PushedTop(stack: map<int, Id>, base: int, height: int, c: Id)
    requires Contiguous(stack, base, height)
    ensures height + 1 !in stack && stack[height + 1 := c] == ReplaceTop(stack, height, 0, c)
    ensures Contiguous(stack[height + 1 := c], base, height + 1)
  {
  }

  lemma PoppedTop(stack: map<int, Id>, base: int, height: int)
    requires Contiguous(stack, base, height) && base <= height
    ensures height in stack && stack - {height} == Below(stack, height - 1)
    ensures Contiguous(stack - {height}, base, height - 1)
  {
    var rest := stack - {height};
    assert forall h :: h in rest <==> h in Below(stack, height - 1);
  }

  lemma ExchangedTop(stack: map<int, Id>, base: int, height: int, p: int)
    requires Contiguous(stack, base, height) && p in stack
    ensures height in stack && Contiguous(Exchange(stack, height, p), base, height)
    ensures stack[height] == stack[p] ==> Exchange(stack, height, p) == stack
  {
  }

  // ----- the part of the target layout that is already in place -----

  /** Up to height t, every element of the target is where it belongs. */
  ghost predicate InPlace(stack: map<int, Id>, height: int, target: map<int, Id>, t: int)
  {
    t <= height && forall h :: h in target && h <= t ==> h in stack && stack[h] == target[h]
  }

  lemma InPlaceExchanged(stack: map<int, Id>, base: int, height: int, target: map<int, Id>, t: int, p: int)
    requires InPlace(stack, height, target, t) && Contiguous(stack, base, height) && p in stack
    requires p == height || t < p
    ensures height in stack && InPlace(Exchange(stack, height, p), height, target, t)
  {
    assert p <= height;
  }

  /** The class has a copy above height t. */
  ghost predicate Above(stack: map<int, Id>, c: Id, t: int)
  {
    exists p :: t < p && p in stack && stack[p] == c
  }

  lemma StillAbove(stack: map<int, Id>, stack': map<int, Id>, height: int, t: int)
    requires height in stack && (height - 1) in stack && stack' == Exchange(stack, height, height - 1) && t < height - 1
    ensures forall c :: Above(stack, c, t) ==> Above(stack', c, t)
  {
    forall c | Above(stack, c, t)
      ensures Above(stack', c, t)
    {
      var p :| t < p && p in stack && stack[p] == c;
      var q := if p == height then height - 1 else if p == height - 1 then height else p;
      assert q in stack' && stack'[q] == c;
    }
  }

  lemma InPlaceUpTo(stack: map<int, Id>, height: int, target: map<int, Id>, t: int, h: int)
    requires InPlace(stack, height, target, t) && h in stack && h <= height && h in target && stack[h] == target[h]
    requires forall p :: p in target && p <= h ==> p <= t || p == h
    ensures InPlace(stack, height, target, h)
  {
  }

  lemma WholeTarget(stack: map<int, Id>, base: int, height: int, target: map<int, Id>)
    requires Contiguous(stack, base, height) && Contiguous(target, base, height)
    requires InPlace(stack, height, target, height)
    ensures stack == target
  {
    assert forall h :: h in stack <==> h in target;
    assert forall h :: h in target ==> stack[h] == target[h];
  }
}
