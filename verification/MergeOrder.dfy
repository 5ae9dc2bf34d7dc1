/** Which FREE regions one merge pass (kernel/allocator.c) takes over, and when: decided by the slot
    numbers alone, read once along each row of adjacent FREE regions in address order. */
module MergeOrder {
  import opened Regions

  lemma NeighboursUnique(rs: Table, ram: Ram, a: int, b: int, c: int)
    requires Tiled(rs, ram)
    requires 0 <= a < |rs| && 0 <= b < |rs| && 0 <= c < |rs|
    ensures Mergeable(rs, a, c) && Mergeable(rs, b, c) ==> a == b
    ensures Mergeable(rs, c, a) && Mergeable(rs, c, b) ==> a == b
  {
    if a != b && rs[a].Live() && rs[b].Live() {
      assert Apart(rs[a], rs[b]);
    }
  }

  /** Absorbing `j` into `i` leaves the pairs clear of both, those ending in `i`, and turns
      `j`'s follower into `i`'s. */
  lemma PairsAfterAbsorb(rs: Table, ram: Ram, i: int, j: int, a: int, b: int)
    requires Tiled(rs, ram)
    requires 0 <= i < |rs| && 0 <= j < |rs| && 0 <= a < |rs| && 0 <= b < |rs|
    requires Mergeable(rs, i, j)
    ensures Mergeable(Absorb(rs, i, j), a, b) <==>
            (a != b && a != j && b != j && Mergeable(rs, if a == i then j else a, b))
  {
    assert WellPlaced(rs[i], ram) && WellPlaced(rs[j], ram);
    if a == i && b == i {
    } else if a == i {
    }
  }

  // ---- when a region is taken over ----

  /** The FREE region just before `y`, or -1. */
  function Before(rs: Table, y: int, a: nat): (r: int)
    requires 0 <= y < |rs| && a <= |rs|
    ensures r == -1 || (a <= r < |rs| && Mergeable(rs, r, y))
    ensures r == -1 ==> forall b :: a <= b < |rs| ==> !Mergeable(rs, b, y)
    decreases |rs| - a
  {
    if a == |rs| then -1 else if Mergeable(rs, a, y) then a else Before(rs, y, a + 1)
  }

  lemma BeforeIs(rs: Table, ram: Ram, a: int, y: int)
    requires Tiled(rs, ram) && 0 <= a < |rs| && 0 <= y < |rs|
    ensures Mergeable(rs, a, y) <==> Before(rs, y, 0) == a
    ensures Before(rs, y, 0) >= 0 ==> Rank(rs, ram, Before(rs, y, 0)) < Rank(rs, ram, y)
  {
    var e := Before(rs, y, 0);
    if e >= 0 {
      assert WellPlaced(rs[e], ram);
      NeighboursUnique(rs, ram, a, e, y);
    }
  }

  /** Regions in address order. */
  ghost function Rank(rs: Table, ram: Ram, y: int): (n: nat)
    requires Tiled(rs, ram) && 0 <= y < |rs|
  {
    if rs[y].Live() then rs[y].start - ram.lo else 0
  }

  /** The slot whose turn in the outer loop takes region `y` over, or `|rs|` if none does. With `e` the
      region before `y`: a region in a higher slot than `e` goes when `e` goes or has its turn, whichever
      is first; so does any other, if `e` is still there at its own turn; and if `e` was taken by `h`
      before that, `y` goes with `h` when `y` is in a higher slot than `h`, and stays otherwise. */
  ghost function Taken(rs: Table, ram: Ram, y: int): (t: int)
    requires Tiled(rs, ram) && 0 <= y < |rs|
    ensures t == |rs| || (0 <= t < |rs| && rs[t].state.Free? && Rank(rs, ram, t) < Rank(rs, ram, y))
    decreases Rank(rs, ram, y)
  {
    BeforeIs(rs, ram, 0, y);
    var e := Before(rs, y, 0);
    if e < 0 then |rs|
    else
      var h := Taken(rs, ram, e);
      if y > e || h > e then (if h < e then h else e)
      else if y > h && h < |rs| then Taken(rs, ram, h)
      else |rs|
  }

  /** A slot that takes others is still there when its turn comes. */
  lemma {:induction false} TakerWaits(rs: Table, ram: Ram, y: int)
    requires Tiled(rs, ram) && 0 <= y < |rs|
    ensures Taken(rs, ram, y) != y
    ensures var t := Taken(rs, ram, y); t < |rs| ==> Taken(rs, ram, t) > t
    decreases Rank(rs, ram, y)
  {
    hide Tiled;
    BeforeIs(rs, ram, 0, y);
    var e := Before(rs, y, 0);
    if e >= 0 {
      TakerWaits(rs, ram, e);
      var h := Taken(rs, ram, e);
      if h < |rs| {
        TakerWaits(rs, ram, h);
      }
    }
  }

  // ---- the table in the middle of the loops ----

  /** Region `y` has been taken over when the outer loop is at `i` and the inner one at `j`. */
  ghost predicate Gone(rs: Table, ram: Ram, i: int, j: int, y: int)
    requires Tiled(rs, ram) && 0 <= y < |rs|
  {
    Taken(rs, ram, y) < i || (Taken(rs, ram, y) == i && y < j)
  }

  /** The region that covers what was region `x`. */
  ghost function Owner(rs: Table, ram: Ram, i: int, j: int, x: int): (o: int)
    requires Tiled(rs, ram) && 0 <= x < |rs| && i <= |rs| && 0 <= j
    ensures 0 <= o < |rs|
    decreases Rank(rs, ram, x)
  {
    var t := Taken(rs, ram, x);
    if Gone(rs, ram, i, j, x) && t < |rs| then Owner(rs, ram, i, j, t) else x
  }

  /** `a` and `b` are adjacent FREE regions at that point. */
  ghost predicate Linked(rs: Table, ram: Ram, i: int, j: int, a: int, b: int)
    requires Tiled(rs, ram) && 0 <= a < |rs| && 0 <= b < |rs| && i <= |rs| && 0 <= j
  {
    && !Gone(rs, ram, i, j, b)
    && Before(rs, b, 0) >= 0
    && Owner(rs, ram, i, j, Before(rs, b, 0)) == a
  }

  /** `cur` is the table at that point of a pass that started from `rs`. */
  ghost predicate Midway(rs: Table, ram: Ram, i: int, j: int, cur: Table)
    requires Tiled(rs, ram) && i <= |rs| && 0 <= j
  {
    && Tiled(cur, ram) && |cur| == |rs|
    && (forall x :: 0 <= x < |rs| ==> (cur[x].state.Free? <==> rs[x].state.Free? && !Gone(rs, ram, i, j, x)))
    && (forall a, b :: 0 <= a < |rs| && 0 <= b < |rs| ==> (Mergeable(cur, a, b) <==> Linked(rs, ram, i, j, a, b)))
  }

  lemma OwnerOfTaken(rs: Table, ram: Ram, i: int, j: int, x: int)
    requires Tiled(rs, ram) && 0 <= x < |rs| && 0 <= i < |rs| && 0 <= j
    requires Taken(rs, ram, i) > i && Taken(rs, ram, x) == i && x < j
    ensures Owner(rs, ram, i, j, x) == i
  {
    assert Owner(rs, ram, i, j, i) == i;
  }

  /** A region that waited for its own turn and then went to `i` at this turn has been passed by `j`. */
  lemma {:induction false} PassedByInner(rs: Table, ram: Ram, i: int, j: int, x: int)
    requires Tiled(rs, ram) && 0 <= x < |rs| && 0 <= i < |rs| && 0 <= j
    requires Taken(rs, ram, x) > x && x != i && Owner(rs, ram, i, j, x) == i
    ensures x < j
    decreases Rank(rs, ram, x)
  {
    hide Tiled;
    var t := Taken(rs, ram, x);
    assert Gone(rs, ram, i, j, x);
    if t < i {
      TakerWaits(rs, ram, x);
      PassedByInner(rs, ram, i, j, t);
    }
  }

  /** While the outer loop is at a waiting `i`, the inner loop finds that `j` follows `i` exactly when
      `i` is to take `j`. */
  lemma FoundWhenTaken(rs: Table, ram: Ram, i: int, j: int)
    requires Tiled(rs, ram) && 0 <= i < |rs| && 0 <= j < |rs| && Taken(rs, ram, i) > i
    ensures Taken(rs, ram, j) == i ==> Linked(rs, ram, i, j, i, j)
  {
    hide Tiled;
    if Taken(rs, ram, j) == i {
      var e := Before(rs, j, 0);
      var h := Taken(rs, ram, e);
      assert Owner(rs, ram, i, j, i) == i;
      if j > e || h > e {
        if h == i {
          OwnerOfTaken(rs, ram, i, j, e);
        }
      } else {
        TakerWaits(rs, ram, e);
        OwnerOfTaken(rs, ram, i, j, h);
      }
    }
  }

  lemma TakenWhenFound(rs: Table, ram: Ram, i: int, j: int)
    requires Tiled(rs, ram) && 0 <= i < |rs| && 0 <= j < |rs| && Taken(rs, ram, i) > i
    requires Linked(rs, ram, i, j, i, j)
    ensures Taken(rs, ram, j) == i
  {
    hide Tiled;
    var e := Before(rs, j, 0);
    var h := Taken(rs, ram, e);
    if e != i {
      assert Gone(rs, ram, i, j, e);
      TakerWaits(rs, ram, e);
      if h < i && j < e && h < e {
        assert Owner(rs, ram, i, j, h) == i;
        PassedByInner(rs, ram, i, j, h);
      }
    }
  }

  // ---- the loops ----

  lemma GoneNext(rs: Table, ram: Ram, i: int, j: int, y: int)
    requires Tiled(rs, ram) && 0 <= y < |rs| && 0 <= j
    ensures Gone(rs, ram, i, j + 1, y) <==> Gone(rs, ram, i, j, y) || (y == j && Taken(rs, ram, j) == i)
  {
  }

  /** Moving the inner loop past `j` hands what `j` covered to `i` if `i` takes `j`. */
  lemma {:induction false} OwnerNext(rs: Table, ram: Ram, i: int, j: int, x: int)
    requires Tiled(rs, ram) && 0 <= x < |rs| && 0 <= i < |rs| && 0 <= j < |rs| && Taken(rs, ram, i) > i
    ensures var o := Owner(rs, ram, i, j, x);
            Owner(rs, ram, i, j + 1, x) == if o == j && Taken(rs, ram, j) == i then i else o
    decreases Rank(rs, ram, x)
  {
    hide Tiled, Taken;
    GoneNext(rs, ram, i, j, x);
    var t := Taken(rs, ram, x);
    if t < |rs| {
      OwnerNext(rs, ram, i, j, t);
      assert Owner(rs, ram, i, j, i) == i && Owner(rs, ram, i, j + 1, i) == i;
    }
  }

  lemma AbsorbStates(cur: Table, i: int, j: int, x: int)
    requires 0 <= i < |cur| && 0 <= j < |cur| && 0 <= x < |cur| && Mergeable(cur, i, j)
    ensures Absorb(cur, i, j)[x].state.Free? <==> cur[x].state.Free? && x != j
  {
  }

  lemma LinkedNext(rs: Table, ram: Ram, i: int, j: int, a: int, b: int)
    requires Tiled(rs, ram) && 0 <= i < |rs| && 0 <= j < |rs| && Taken(rs, ram, i) > i && Taken(rs, ram, j) == i
    requires 0 <= a < |rs| && 0 <= b < |rs| && i != j
    ensures Linked(rs, ram, i, j + 1, a, b) <==>
            b != j && a != j && (Linked(rs, ram, i, j, a, b) || (a == i && Linked(rs, ram, i, j, j, b)))
  {
    hide Tiled, Taken, Gone, Owner;
    GoneNext(rs, ram, i, j, b);
    if Before(rs, b, 0) >= 0 {
      OwnerNext(rs, ram, i, j, Before(rs, b, 0));
    }
  }

  lemma InnerTakes(rs: Table, ram: Ram, i: int, j: int, cur: Table)
    requires Tiled(rs, ram) && 0 <= i < |rs| && 0 <= j < |rs| && Taken(rs, ram, i) > i && Taken(rs, ram, j) == i
    requires Midway(rs, ram, i, j, cur) && Mergeable(cur, i, j)
    ensures Midway(rs, ram, i, j + 1, Absorb(cur, i, j))
  {
    hide Tiled, Taken, Gone, Linked, Absorb, SameMemory, LiveCount;
    var cur1 := Absorb(cur, i, j);
    AbsorbTiled(cur, ram, i, j);
    forall x | 0 <= x < |rs| ensures cur1[x].state.Free? <==> rs[x].state.Free? && !Gone(rs, ram, i, j + 1, x) {
      AbsorbStates(cur, i, j, x);
      GoneNext(rs, ram, i, j, x);
    }
    forall a, b | 0 <= a < |rs| && 0 <= b < |rs|
      ensures Mergeable(cur1, a, b) <==> Linked(rs, ram, i, j + 1, a, b)
    {
      PairsAfterAbsorb(cur, ram, i, j, a, b);
      LinkedNext(rs, ram, i, j, a, b);
      NeighboursUnique(cur, ram, b, j, i);
      NotBothWays(cur, ram, i, j);
      assert Linked(rs, ram, i, j, a, b) <==> Mergeable(cur, a, b);
      assert Linked(rs, ram, i, j, j, b) <==> Mergeable(cur, j, b);
    }
  }

  lemma NotBothWays(rs: Table, ram: Ram, a: int, b: int)
    requires Tiled(rs, ram) && 0 <= a < |rs| && 0 <= b < |rs| && Mergeable(rs, a, b)
    ensures a != b && !Mergeable(rs, b, a)
  {
    assert WellPlaced(rs[a], ram) && WellPlaced(rs[b], ram);
  }

  lemma InnerSkips(rs: Table, ram: Ram, i: int, j: int, cur: Table)
    requires Tiled(rs, ram) && 0 <= i < |rs| && 0 <= j < |rs| && Taken(rs, ram, i) > i && Taken(rs, ram, j) != i
    requires Midway(rs, ram, i, j, cur)
    ensures Midway(rs, ram, i, j + 1, cur)
  {
    hide Tiled, Taken, Gone, Owner;
    forall x | 0 <= x < |rs|
      ensures Gone(rs, ram, i, j + 1, x) == Gone(rs, ram, i, j, x)
      ensures Owner(rs, ram, i, j + 1, x) == Owner(rs, ram, i, j, x)
    {
      GoneNext(rs, ram, i, j, x);
      OwnerNext(rs, ram, i, j, x);
    }
    forall a, b | 0 <= a < |rs| && 0 <= b < |rs|
      ensures Linked(rs, ram, i, j + 1, a, b) <==> Linked(rs, ram, i, j, a, b)
    {
    }
  }

  lemma {:induction false} InnerLoop(rs: Table, ram: Ram, i: int, j: int, cur: Table)
    requires Tiled(rs, ram) && 0 <= i < |rs| && 0 <= j <= |rs| && Taken(rs, ram, i) > i
    requires Midway(rs, ram, i, j, cur)
    ensures Midway(rs, ram, i, |rs|, MergeInto(cur, i, j))
    decreases |rs| - j
  {
    hide Tiled, Taken, Linked, Absorb, Mergeable;
    if j < |rs| {
      assert Mergeable(cur, i, j) <==> Linked(rs, ram, i, j, i, j);
      FoundWhenTaken(rs, ram, i, j);
      if Mergeable(cur, i, j) {
        TakenWhenFound(rs, ram, i, j);
        InnerTakes(rs, ram, i, j, cur);
        InnerLoop(rs, ram, i, j + 1, Absorb(cur, i, j));
      } else {
        InnerSkips(rs, ram, i, j, cur);
        InnerLoop(rs, ram, i, j + 1, cur);
      }
    }
  }

  /** The end of one turn is the start of the next. */
  lemma TurnEnds(rs: Table, ram: Ram, i: int, j: int, cur: Table)
    requires Tiled(rs, ram) && 0 <= i < |rs| && 0 <= j && Midway(rs, ram, i, j, cur)
    requires forall y :: 0 <= y < |rs| ==> Gone(rs, ram, i + 1, 0, y) == Gone(rs, ram, i, j, y)
    ensures Midway(rs, ram, i + 1, 0, cur)
  {
    hide Tiled, Taken, Gone, Owner;
    forall x | 0 <= x < |rs| ensures Owner(rs, ram, i + 1, 0, x) == Owner(rs, ram, i, j, x) {
      SameOwner(rs, ram, i, j, x);
    }
    forall a, b | 0 <= a < |rs| && 0 <= b < |rs|
      ensures Linked(rs, ram, i + 1, 0, a, b) <==> Linked(rs, ram, i, j, a, b)
    {
    }
  }

  lemma {:induction false} SameOwner(rs: Table, ram: Ram, i: int, j: int, x: int)
    requires Tiled(rs, ram) && 0 <= i < |rs| && 0 <= j && 0 <= x < |rs|
    requires forall y :: 0 <= y < |rs| ==> Gone(rs, ram, i + 1, 0, y) == Gone(rs, ram, i, j, y)
    ensures Owner(rs, ram, i + 1, 0, x) == Owner(rs, ram, i, j, x)
    decreases Rank(rs, ram, x)
  {
    hide Tiled, Gone, Taken;
    if Taken(rs, ram, x) < |rs| {
      SameOwner(rs, ram, i, j, Taken(rs, ram, x));
    }
  }

  lemma {:induction false} OuterLoop(rs: Table, ram: Ram, i: nat, cur: Table)
    requires Tiled(rs, ram) && i <= |rs| && Midway(rs, ram, i, 0, cur)
    ensures Midway(rs, ram, |rs|, 0, MergeFrom(cur, i))
    decreases |rs| - i
  {
    hide Tiled, Taken, Linked, MergeInto, Mergeable;
    if i < |rs| {
      TakerWaits(rs, ram, i);
      if cur[i].state.Free? {
        InnerLoop(rs, ram, i, 0, cur);
        TurnEnds(rs, ram, i, |rs|, MergeInto(cur, i, 0));
        OuterLoop(rs, ram, i + 1, MergeInto(cur, i, 0));
      } else {
        forall y | 0 <= y < |rs| ensures Gone(rs, ram, i + 1, 0, y) == Gone(rs, ram, i, 0, y) {
          TakerWaits(rs, ram, y);
        }
        TurnEnds(rs, ram, i, 0, cur);
        OuterLoop(rs, ram, i + 1, cur);
      }
    }
  }

  lemma BeforeFirstTurn(rs: Table, ram: Ram)
    requires Tiled(rs, ram)
    ensures Midway(rs, ram, 0, 0, rs)
  {
    hide Tiled, Taken, Mergeable;
    forall a, b | 0 <= a < |rs| && 0 <= b < |rs| ensures Mergeable(rs, a, b) <==> Linked(rs, ram, 0, 0, a, b) {
      BeforeIs(rs, ram, a, b);
    }
  }

  /** Region `y` follows a FREE region and no turn of the pass takes it. */
  ghost predicate Stays(rs: Table, ram: Ram, y: int)
    requires Tiled(rs, ram) && 0 <= y < |rs|
  {
    Before(rs, y, 0) >= 0 && Taken(rs, ram, y) == |rs|
  }

  /** What one pass does to any table, exactly: it takes over the FREE regions with a finite `Taken`
      and no others; and it leaves adjacent FREE regions if and only if some region that follows a FREE
      one is not taken. */
  lemma PassExactly(rs: Table, ram: Ram)
    requires Tiled(rs, ram)
    ensures forall x :: 0 <= x < |rs| ==>
              (MergePass(rs)[x].state.Free? <==> rs[x].state.Free? && Taken(rs, ram, x) == |rs|)
    ensures HasAdjacent(MergePass(rs)) <==> exists y :: 0 <= y < |rs| && Stays(rs, ram, y)
  {
    hide Tiled, Taken, Mergeable, MergeFrom, Owner;
    BeforeFirstTurn(rs, ram);
    OuterLoop(rs, ram, 0, rs);
    var end := MergePass(rs);
    if a, b :| 0 <= a < |end| && 0 <= b < |end| && Mergeable(end, a, b) {
      assert Linked(rs, ram, |rs|, 0, a, b);
      assert Stays(rs, ram, b);
    }
    if y :| 0 <= y < |rs| && Stays(rs, ram, y) {
      var a := Owner(rs, ram, |rs|, 0, Before(rs, y, 0));
      assert Linked(rs, ram, |rs|, 0, a, y);
      assert Mergeable(end, a, y);
    }
  }
}
