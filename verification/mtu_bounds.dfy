/** How many probes a search for the path MTU takes. */
module MtuBounds {
  import opened Protocol
  import opened MtuDiscovery

  /** How often a range of this many sizes can be halved until it is not worth a probe. */
  function Height(x: int): nat {
    if x <= MAX_MTU_DIFF then 0 else 1 + Height(x / 2)
  }

  function Pow2(k: nat): nat {
    if k == 0 then 1 else 2 * Pow2(k - 1)
  }

  /** The height is the logarithm: a range of less than 21 * 2^k sizes. */
  lemma {:induction false} HeightIsLogarithm(x: int, k: nat)
    ensures Height(x) <= k <==> x < (MAX_MTU_DIFF + 1) * Pow2(k)
  {
    if x > MAX_MTU_DIFF && k > 0 {
      HeightIsLogarithm(x / 2, k - 1);
    } else if x <= MAX_MTU_DIFF {
      PowPositive(k);
    }
  }

  lemma PowPositive(k: nat)
    ensures Pow2(k) >= 1
  {
  }

  lemma {:induction false} Monotone(x: int, y: int)
    requires x <= y
    ensures Height(x) <= Height(y)
    decreases y
  {
    if x > MAX_MTU_DIFF {
      Monotone(x / 2, y / 2);
    }
  }

  /** The height of the sizes strictly between `min` and `s`. */
  function Above(min: int, s: int): nat {
    Height(s - min - 1)
  }

  /** The second largest of the three slots, where an empty slot counts as the largest one. */
  function Second(l: Slots): int {
    if l.c == INVALID_BYTE_COUNT then MaxOf(l) else l.b
  }

  function AtLeast(x: int, y: int): int {
    if x < y then y else x
  }

  /** The heights of the three slots; those of the lost ones are counted as if at most one below the maximum. */
  function Weight(top: int, second: int, first: int): int {
    2 * top + 2 * AtLeast(second, top - 1) + 2 * AtLeast(first, top - 1)
  }

  /** An upper bound on the number of probes that are left. */
  function Potential(min: int, l: Slots, lost: bool): int {
    var top := Above(min, MaxOf(l));
    if Finished(min, l) then 0
    else if lost && l.a == min then Weight(top, top, Above(min, l.b)) + 1
    else
      Weight(top, Above(min, Second(l)), Above(min, l.a)) + (if lost then 1 else 0)
      + (if lost && l.a == min + 1 && Above(min, Second(l)) == top then 1 else 0)
  }

  /** A size halfway is at most as high as one halving less, and anything above it is at least as high. */
  lemma HalfwayHeight(min: int, top: int, size: int)
    requires min <= top && Halfway(min, top, size)
    ensures Above(min, size) <= AtLeast(Above(min, top) - 1, 0)
    ensures forall s :: s > size ==> Above(min, s) >= Above(min, top) - 1
    ensures Above(size, top) == AtLeast(Above(min, top) - 1, 0)
  {
    var x := top - min - 1;
    if x > MAX_MTU_DIFF {
      Monotone(size - min - 1, x / 2);
      assert top - size - 1 == x / 2;
      forall s | s > size
        ensures Above(min, s) >= Above(min, top) - 1
      {
        Monotone(x / 2, s - min - 1);
      }
    } else {
      Monotone(size - min - 1, x);
      Monotone(top - size - 1, x);
    }
  }

  lemma Higher(min: int, s: int, s': int)
    requires s <= s'
    ensures Above(min, s) <= Above(min, s')
  {
    Monotone(s - min - 1, s' - min - 1);
  }

  lemma RaisedMin(min: int, min': int, s: int)
    requires min <= min'
    ensures Above(min', s) <= Above(min, s)
  {
    Monotone(s - min' - 1, s - min - 1);
  }

  lemma SlotHeights(min: int, l: Slots)
    requires Ordered(l)
    ensures Above(min, l.a) <= Above(min, Second(l)) <= Above(min, MaxOf(l))
    ensures l.b != INVALID_BYTE_COUNT ==> Above(min, l.a) <= Above(min, l.b) <= Above(min, MaxOf(l))
    ensures !Finished(min, l) <==> Above(min, MaxOf(l)) > 0
    ensures Above(min, min + 1) == 0
  {
    Higher(min, l.a, Second(l));
    Higher(min, Second(l), MaxOf(l));
    if l.b != INVALID_BYTE_COUNT {
      Higher(min, l.a, l.b);
      Higher(min, l.b, MaxOf(l));
    }
  }

  /** A probe that is lost after one that was not. */
  lemma FirstLoss(min: int, l: Slots, size: int)
    requires Searching(min, l, false) && !Finished(min, l) && Halfway(min, MaxOf(l), size)
    ensures 0 <= Potential(min, Inserted(l, size), true) < Potential(min, l, false)
    ensures Above(min, MaxOf(Inserted(l, size))) <= Above(min, MaxOf(l))
  {
    hide Height;
    var l' := Inserted(l, size);
    SlotHeights(min, l);
    HalfwayHeight(min, MaxOf(l), size);
    assert Ordered(l');
    SlotHeights(min, l');
    Higher(min, MaxOf(l'), MaxOf(l));
  }

  lemma NextLoss(min: int, l: Slots, size: int)
    requires Searching(min, l, true) && !Finished(min, l) && Halfway(min, l.a, size)
    ensures 0 <= Potential(min, Inserted(l, size), true) < Potential(min, l, true)
    ensures Above(min, MaxOf(Inserted(l, size))) <= Above(min, MaxOf(l))
  {
    hide Height;
    var l' := Inserted(l, size);
    SlotHeights(min, l);
    HalfwayHeight(min, l.a, size);
    assert Ordered(l');
    SlotHeights(min, l');
    Higher(min, MaxOf(l'), MaxOf(l));
  }

  lemma FirstAck(min: int, l: Slots, size: int)
    requires Searching(min, l, false) && !Finished(min, l) && Halfway(min, MaxOf(l), size)
    ensures 0 <= Potential(size, Dropped(l, size), false) < Potential(min, l, false)
    ensures Above(size, MaxOf(Dropped(l, size))) == Above(min, MaxOf(l)) - 1
  {
    hide Height;
    var l' := Dropped(l, size);
    SlotHeights(min, l);
    HalfwayHeight(min, MaxOf(l), size);
    assert Ordered(l') && MaxOf(l') == MaxOf(l);
    SlotHeights(size, l');
  }

  lemma AckAfterLoss(min: int, l: Slots, size: int)
    requires Searching(min, l, true) && !Finished(min, l) && Halfway(min, l.a, size)
    ensures 0 <= Potential(size, Dropped(l, size), false) < Potential(min, l, true)
    ensures Above(size, MaxOf(Dropped(l, size))) <= Above(min, MaxOf(l))
  {
    hide Height;
    var l' := Dropped(l, size);
    SlotHeights(min, l);
    assert Ordered(l') && MaxOf(l') == MaxOf(l);
    SlotHeights(size, l');
    RaisedMin(min, size, l.a);
    RaisedMin(min, size, l.b);
    RaisedMin(min, size, MaxOf(l));
  }

  /** What is left of a budget of probes: after every outcome of the probe in flight it is smaller, and it is gone when
      the search is over. The height of the interval falls with every acknowledged probe that follows one that was not
      lost. */
  lemma OutcomeLowers(min: int, l: Slots, lost: bool, size: int, acked: bool)
    requires Searching(min, l, lost) && !Finished(min, l)
    requires Halfway(min, if lost then l.a else MaxOf(l), size)
    ensures var min', l' := if acked then size else min, if acked then Dropped(l, size) else Inserted(l, size);
            && 0 <= Potential(min', l', !acked) < Potential(min, l, lost)
            && Above(min', MaxOf(l')) <= Above(min, MaxOf(l)) - (if acked && !lost then 1 else 0)
            && (acked && !lost ==> Above(min', MaxOf(l')) == Above(min, MaxOf(l)) - 1)
  {
    hide Above, Potential, Dropped, Inserted, Searching, MaxOf, Finished, Halfway;
    if acked && lost {
      AckAfterLoss(min, l, size);
    } else if acked {
      FirstAck(min, l, size);
    } else if lost {
      NextLoss(min, l, size);
    } else {
      FirstLoss(min, l, size);
    }
  }

  /** A new search may take six probes for every halving. */
  lemma FullBudget(start: nat, max: nat)
    ensures var l := Slots(max, INVALID_BYTE_COUNT, INVALID_BYTE_COUNT);
            && Above(start, MaxOf(l)) == Height(max - start - 1)
            && 0 <= Potential(start, l, false) <= 6 * Height(max - start - 1)
  {
  }

  lemma Over(min: int, l: Slots)
    requires Finished(min, l)
    ensures Above(min, MaxOf(l)) == 0
  {
  }
}
