/** Which NEW_CONNECTION_ID frames do harm: they retire a connection ID that is in use, or put one at two places. */
module ConnIdRepeats {
  import opened Protocol
  import opened ConnIdLedger

  /** At how many places a sequence number is in use. */
  ghost function Uses(s: Ledger, n: nat): nat {
    One(n == s.active) + Numbers(s.queue)[n] + PathsWithNumber(s.probing, n)
  }

  /** Nothing is at two places, and nothing in use is retired. */
  ghost predicate Single(s: Ledger) {
    forall n: nat :: Uses(s, n) <= 1 && (n in s.retired ==> Uses(s, n) == 0)
  }

  /** The last connection ID given to a path is still used by it or retired, and what is retired is old. */
  ghost predicate Past(s: Ledger) {
    && (s.highestProbing == 0 || s.highestProbing in s.retired || PathsWithNumber(s.probing, s.highestProbing) > 0)
    && (forall n: nat :: n in s.retired ==> n < s.active || n <= s.highestProbing)
  }

  ghost predicate Tidy(s: Ledger) {
    Kept(s) && Single(s) && Past(s)
  }

  /** The frame has the number of the active connection ID while a path was given a later one, the number of one used
      for a path, or the last number given to a path while the active one is an earlier one. */
  ghost predicate Repeats(s: Ledger, f: NewConnectionId) {
    || f.num == s.active < s.highestProbing
    || PathsWithNumber(s.probing, f.num) > 0
    || f.num == s.highestProbing > s.active
  }

  /** What a frame does if it is handled without an error. */
  ghost predicate Handled(s: Ledger, f: NewConnectionId, s': Ledger) {
    if OutOfDate(s, f) then s' == RetireNew(s, f.num) else !Conflicts(s, f) && Accepts(s, f, s')
  }

  lemma {:induction false} RetainedNumbers(q: seq<Entry>, low: nat, n: nat)
    ensures Numbers(Retained(q, low))[n] == if n >= low then Numbers(q)[n] else 0
  {
    if q != [] {
      RetainedNumbers(q[1..], low, n);
      var rest := Retained(q[1..], low);
      assert ([q[0]] + rest)[1..] == rest && [] + rest == rest;
    }
  }

  lemma {:induction false} InsertedNumbers(q: seq<Entry>, e: Entry, n: nat)
    requires Sorted(q)
    ensures Numbers(Inserted(q, e))[n] == Numbers(q)[n] + One(n == e.num && !HasNumber(q, e.num))
  {
    hide Inserted;
    var i := PlaceOf(q, e.num);
    InsertedOrder(q, e, i, 0);
    if !HasNumber(q, e.num) {
      NumbersInsert(q, i, e);
    }
  }

  lemma SurvivingNumbers(m: Probing, low: nat, n: nat)
    ensures PathsWithNumber(Surviving(m, low), n) == if n >= low then PathsWithNumber(m, n) else 0
  {
    assert UsersOfNumber(Surviving(m, low), n) == if n >= low then UsersOfNumber(m, n) else {};
  }

  lemma {:induction false} CountsNumber(q: seq<Entry>, n: nat)
    ensures Numbers(q)[n] > 0 <==> HasNumber(q, n)
  {
    if q != [] {
      CountsNumber(q[1..], n);
      FrontOrRest(q);
      if HasNumber(q[1..], n) {
        var i :| 0 <= i < |q[1..]| && q[1..][i].num == n;
        assert q[i + 1].num == n;
      }
    }
  }

  /** The frame adds an entry to the queue. */
  ghost predicate Inserts(s: Ledger, f: NewConnectionId) {
    f.num != s.active && !HasNumber(s.queue, f.num)
  }

  /** How a frame that is taken in changes the places of a number. */
  lemma UsesAfter(s: Ledger, f: NewConnectionId, s': Ledger, n: nat)
    requires Kept(s) && Accepts(s, f, s') && f.retirePriorTo <= f.num
    ensures Uses(s', n) <= Uses(s, n) + One(n == f.num && Inserts(s, f))
    ensures Uses(s', f.num) == Uses(s, f.num) + One(Inserts(s, f))
  {
    hide PathsWithNumber, NumbersKept, TokensKept, Numbers, Inserted, Retained, From, Sorted, HasNumber, Surviving;
    assert Sorted(s.queue);
    QueueAfter(s, f, n);
    QueueAfter(s, f, f.num);
    SurvivingNumbers(s.probing, f.retirePriorTo, n);
    SurvivingNumbers(s.probing, f.retirePriorTo, f.num);
    if s.active < f.retirePriorTo {
      var q := NextQueue(s, f);
      FrontNumber(q);
    }
  }

  lemma FrontNumber(q: seq<Entry>)
    requires q != []
    ensures forall n: nat :: Numbers(q)[n] == One(n == q[0].num) + Numbers(q[1..])[n]
  {
  }

  lemma QueueAfter(s: Ledger, f: NewConnectionId, n: nat)
    requires Sorted(s.queue) && f.retirePriorTo <= f.num
    ensures Numbers(NextQueue(s, f))[n] ==
            (if n >= f.retirePriorTo then Numbers(s.queue)[n] else 0) + One(n == f.num && Inserts(s, f))
  {
    hide Numbers, Inserted, Retained, Sorted;
    var q := Retained(s.queue, f.retirePriorTo);
    RetainedNumbers(s.queue, f.retirePriorTo, n);
    RetainedSorted(s.queue, f.retirePriorTo);
    RetainedEntries(s.queue, f.retirePriorTo);
    SameNumber(s.queue, q, EntryOf(f), f.retirePriorTo);
    if f.num != s.active {
      InsertedNumbers(q, EntryOf(f), n);
    }
  }

  /** A frame that was received before, and is taken in again. */
  lemma TakenInTwice(s: Ledger, f: NewConnectionId, s': Ledger)
    requires Kept(s) && Single(s) && Kept(s') && Accepts(s, f, s') && f.retirePriorTo <= f.num
    ensures Single(s') <==> !(Inserts(s, f) && f.num in s.arrived)
  {
    hide PathsWithNumber, Numbers, Ordered, TokensKept, Uses, NextQueue, Surviving;
    forall n: nat
      ensures s.arrived[n] == s.retired[n] + Uses(s, n) && s'.arrived[n] == s'.retired[n] + Uses(s', n)
      ensures Uses(s', n) <= Uses(s, n) + One(n == f.num && Inserts(s, f))
    {
      Accounted(s, n);
      Accounted(s', n);
      UsesAfter(s, f, s', n);
    }
    UsesAfter(s, f, s', f.num);
  }

  lemma Accounted(s: Ledger, n: nat)
    requires Kept(s)
    ensures s.arrived[n] == s.retired[n] + Uses(s, n)
  {
    hide PathsWithNumber, Numbers;
  }

  /** A number that is not out of date was received before exactly if it is active, queued, or the last one given to a
      path. */
  lemma ReceivedBefore(s: Ledger, f: NewConnectionId)
    requires Tidy(s) && !OutOfDate(s, f)
    ensures Inserts(s, f) ==> (f.num in s.arrived <==> f.num == s.highestProbing)
    ensures f.num == s.highestProbing > s.active ==> Inserts(s, f)
    ensures PathsWithNumber(s.probing, f.num) > 0 ==> f.num == s.highestProbing > s.active
  {
    hide PathsWithNumber, Numbers, Sorted, TokensKept;
    Accounted(s, f.num);
    Accounted(s, s.highestProbing);
    CountsNumber(s.queue, f.num);
    PathsBelow(s, f.num);
  }

  lemma PathsBelow(s: Ledger, n: nat)
    requires Kept(s)
    ensures PathsWithNumber(s.probing, n) > 0 ==> n <= s.highestProbing
  {
    hide Numbers, TokensKept, NumbersKept;
    if PathsWithNumber(s.probing, n) > 0 {
      var k :| k in UsersOfNumber(s.probing, n);
    }
  }

  /** Of all the frames handled without an error, exactly those that repeat a number in these ways do harm. */
  lemma RepetitionExactly(s: Ledger, f: NewConnectionId, s': Ledger)
    requires Tidy(s) && f.retirePriorTo <= f.num && Handled(s, f, s') && Kept(s')
    ensures Single(s') <==> !Repeats(s, f)
  {
    hide PathsWithNumber, Numbers, TokensKept, NumbersKept, Uses, Single, Past, HasNumber, Accepts;
    if OutOfDate(s, f) {
      RetiredInUse(s, f);
    } else {
      TakenInTwice(s, f, s');
      ReceivedBefore(s, f);
    }
  }

  /** A frame that is out of date does harm exactly if its number is in use, which a queued one never is. */
  lemma RetiredInUse(s: Ledger, f: NewConnectionId)
    requires Tidy(s) && OutOfDate(s, f)
    ensures Single(RetireNew(s, f.num)) <==> !Repeats(s, f)
  {
    hide PathsWithNumber, Numbers, TokensKept, NumbersKept;
    var s' := RetireNew(s, f.num);
    CountsNumber(s.queue, f.num);
    assert forall n: nat :: Uses(s', n) == Uses(s, n);
    assert forall n: nat :: n in s'.retired <==> n in s.retired || n == f.num;
  }

  // ---- Between such frames the manager stays tidy. ----

  lemma FrameTidy(s: Ledger, f: NewConnectionId, s': Ledger)
    requires Tidy(s) && f.retirePriorTo <= f.num && Handled(s, f, s') && Kept(s')
    ensures Tidy(s') <==> !Repeats(s, f)
  {
    hide Kept, Single, Past, Repeats, Handled;
    RepetitionExactly(s, f, s');
    if !Repeats(s, f) {
      PastAfter(s, f, s');
    }
  }

  lemma PastAfter(s: Ledger, f: NewConnectionId, s': Ledger)
    requires Tidy(s) && f.retirePriorTo <= f.num && Handled(s, f, s') && Kept(s') && !Repeats(s, f)
    ensures Past(s')
  {
    hide PathsWithNumber, Numbers, TokensKept, NumbersKept, Uses, HasNumber, NextQueue, Surviving, Sorted, From;
    if OutOfDate(s, f) {
      assert forall n: nat :: n in RetireNew(s, f.num).retired <==> n in s.retired || n == f.num;
    } else {
      RetirePriorTo(s, f, s');
      forall n: nat
        ensures n in s'.retired ==> n < s'.active || n <= s'.highestProbing
      {
        RetiredAfter(s, f, s', n);
      }
      ProbingAfter(s, f, s');
    }
  }

  /** A number that is newly retired was in use, below Retire Prior To. */
  lemma RetiredAfter(s: Ledger, f: NewConnectionId, s': Ledger, n: nat)
    requires Tidy(s) && f.retirePriorTo <= f.num && !OutOfDate(s, f) && Accepts(s, f, s') && Kept(s')
    requires s'.active >= f.retirePriorTo && s'.active >= s.active
    ensures n in s'.retired ==> n < s'.active || n <= s'.highestProbing
  {
    hide PathsWithNumber, Numbers, TokensKept, NumbersKept, NextQueue, Surviving, Sorted, From, HasNumber;
    Accounted(s, n);
    Accounted(s', n);
    UsesAfter(s, f, s', n);
    if n >= f.retirePriorTo {
      UsesUnchanged(s, f, s', n);
    }
  }

  lemma UsesUnchanged(s: Ledger, f: NewConnectionId, s': Ledger, n: nat)
    requires Kept(s) && Accepts(s, f, s') && f.retirePriorTo <= f.num && n >= f.retirePriorTo
    ensures Uses(s', n) == Uses(s, n) + One(n == f.num && Inserts(s, f))
  {
    hide PathsWithNumber, NumbersKept, TokensKept, Numbers, Inserted, Retained, From, Sorted, HasNumber, Surviving;
    assert Sorted(s.queue);
    QueueAfter(s, f, n);
    SurvivingNumbers(s.probing, f.retirePriorTo, n);
    if s.active < f.retirePriorTo {
      FrontNumber(NextQueue(s, f));
    }
  }

  lemma UsesBelow(s: Ledger, f: NewConnectionId, s': Ledger, n: nat)
    requires Kept(s) && Accepts(s, f, s') && n < f.retirePriorTo <= f.num
    ensures Uses(s', n) == 0
  {
    hide PathsWithNumber, NumbersKept, TokensKept, Numbers, Inserted, Retained, From, Sorted, HasNumber, Surviving;
    assert Sorted(s.queue);
    QueueAfter(s, f, n);
    SurvivingNumbers(s.probing, f.retirePriorTo, n);
    if s.active < f.retirePriorTo {
      FrontNumber(NextQueue(s, f));
    }
  }

  lemma ProbingAfter(s: Ledger, f: NewConnectionId, s': Ledger)
    requires Tidy(s) && f.retirePriorTo <= f.num && Accepts(s, f, s') && Kept(s')
    ensures s'.highestProbing == 0 || s'.highestProbing in s'.retired
            || PathsWithNumber(s'.probing, s'.highestProbing) > 0
  {
    hide PathsWithNumber, Numbers, TokensKept, NumbersKept, NextQueue, Surviving, Sorted, From, HasNumber;
    var hp := s.highestProbing;
    Accounted(s, hp);
    Accounted(s', hp);
    UsesAfter(s, f, s', hp);
    SurvivingNumbers(s.probing, f.retirePriorTo, hp);
    if hp < f.retirePriorTo {
      UsesBelow(s, f, s', hp);
    }
  }

  lemma RotateTidy(s: Ledger)
    requires Tidy(s) && s.queue != [] && s.highestRetired <= s.queue[0].num
    ensures Tidy(Rotate(s))
  {
    hide PathsWithNumber, Numbers, TokensKept, NumbersKept;
    RotateKept(s);
    FrontNumber(s.queue);
    var s' := Rotate(s);
    forall n: nat
      ensures Uses(s', n) == Uses(s, n) - One(n == s.active)
    {
    }
  }

  lemma StartPathTidy(s: Ledger, k: nat)
    requires Tidy(s) && k !in s.probing && s.queue != []
    ensures Tidy(StartPath(s, k))
  {
    hide PathsWithNumber, Numbers, TokensKept, NumbersKept;
    StartPathKept(s, k);
    FrontNumber(s.queue);
    PathAdded(s.probing, k, s.queue[0]);
    assert forall n: nat :: Uses(StartPath(s, k), n) == Uses(s, n);
  }

  lemma EndPathTidy(s: Ledger, k: nat)
    requires Tidy(s) && k in s.probing
    ensures Tidy(EndPath(s, k))
  {
    hide PathsWithNumber, Numbers, TokensKept, NumbersKept;
    EndPathTallied(s, k);
    PathRemoved(s.probing, k);
    assert forall n: nat :: Uses(EndPath(s, k), n) == Uses(s, n) - One(n == s.probing[k].num);
  }

  /** The connection ID of the preferred address. */
  lemma TakeInTidy(s: Ledger, e: Entry)
    requires Tidy(s) && e.num > Max(s.active, s.highestProbing)
    ensures Tidy(TakeIn(s, e))
  {
    hide PathsWithNumber, Numbers, TokensKept, NumbersKept, Inserted, HasNumber, From;
    TakeInTallied(s, e, PlaceOf(s.queue, e.num));
    var s' := TakeIn(s, e);
    forall n: nat
      ensures Uses(s', n) == Uses(s, n) + One(n == e.num && !HasNumber(s.queue, e.num))
    {
      InsertedNumbers(s.queue, e, n);
    }
    CountsNumber(s.queue, e.num);
    PathsBelow(s, e.num);
  }
}
