/** Where connection IDs and stateless reset tokens are accounted for in a connection ID manager. */
module ConnIdLedger {
  import opened Protocol

  type ConnId = seq<byte>

  type Token = seq<byte>

  datatype Entry = Entry(num: nat, connId: ConnId, token: Token)

  type Probing = map<nat, Entry>

  /** The sequence numbers in a queue. */
  ghost function Numbers(q: seq<Entry>): multiset<nat> {
    if q == [] then multiset{} else multiset{q[0].num} + Numbers(q[1..])
  }

  ghost predicate Sorted(q: seq<Entry>) {
    forall i, j :: 0 <= i < j < |q| ==> q[i].num < q[j].num
  }

  /** All entries have at least the given sequence number. */
  ghost predicate From(q: seq<Entry>, low: nat) {
    forall i :: 0 <= i < |q| ==> q[i].num >= low
  }

  /** How many paths are probed with sequence number `n`, and with token `t`. */
  ghost function PathsWithNumber(m: Probing, n: nat): nat {
    |UsersOfNumber(m, n)|
  }

  ghost function UsersOfNumber(m: Probing, n: nat): set<nat> {
    set k | k in m && m[k].num == n
  }

  ghost function PathsWithToken(m: Probing, t: Token): nat {
    |UsersOfToken(m, t)|
  }

  ghost function UsersOfToken(m: Probing, t: Token): set<nat> {
    set k | k in m && m[k].token == t
  }

  function One(b: bool): nat {
    if b then 1 else 0
  }

  /** The order of sequence numbers. */
  ghost predicate Ordered(queue: seq<Entry>, active: nat, highestProbing: nat, probing: Probing) {
    && Sorted(queue) && From(queue, active + 1) && From(queue, highestProbing)
    && (forall k :: k in probing ==> probing[k].num <= highestProbing)
  }

  /** Every connection ID taken in is at exactly one place: active, queued, used for a path, or retired. */
  ghost predicate NumbersKept(arrived: multiset<nat>, retired: multiset<nat>, active: nat, queued: multiset<nat>,
                              probing: Probing)
  {
    forall n: nat :: arrived[n] == retired[n] + One(n == active) + queued[n] + PathsWithNumber(probing, n)
  }

  /** The reset tokens added and not removed are that of the active connection ID and those of the paths. */
  ghost predicate TokensKept(added: multiset<Token>, removed: multiset<Token>, active: Option<Token>, probing: Probing)
  {
    forall t: Token :: added[t] == removed[t] + One(active == Some(t)) + PathsWithToken(probing, t)
  }

  /** The state of a connection ID manager, as far as it is accounted for. */
  datatype Ledger = Ledger(
    queue: seq<Entry>, active: nat, activeToken: Option<Token>, highestRetired: nat, highestProbing: nat,
    probing: Probing,
    arrived: multiset<nat>, retired: multiset<nat>, added: multiset<Token>, removed: multiset<Token>)

  /** This holds even while a frame is handled. */
  ghost predicate Tallied(s: Ledger) {
    && Ordered(s.queue, s.active, s.highestProbing, s.probing)
    && NumbersKept(s.arrived, s.retired, s.active, Numbers(s.queue), s.probing)
    && TokensKept(s.added, s.removed, s.activeToken, s.probing)
  }

  ghost predicate Kept(s: Ledger) {
    Tallied(s) && s.highestRetired <= s.active
  }

  lemma {:induction false} NumbersConcat(a: seq<Entry>, b: seq<Entry>)
    ensures Numbers(a + b) == Numbers(a) + Numbers(b)
  {
    if a == [] {
      assert a + b == b;
    } else {
      assert (a + b)[1..] == a[1..] + b;
      NumbersConcat(a[1..], b);
    }
  }

  lemma NumbersSnoc(a: seq<Entry>, e: Entry)
    ensures Numbers(a + [e]) == Numbers(a) + multiset{e.num}
  {
    NumbersConcat(a, [e]);
    assert [e][1..] == [];
  }

  lemma NumbersInsert(q: seq<Entry>, i: nat, e: Entry)
    requires i <= |q|
    ensures Numbers(q[..i] + [e] + q[i..]) == Numbers(q) + multiset{e.num}
  {
    assert q == q[..i] + q[i..];
    NumbersConcat(q[..i], q[i..]);
    NumbersConcat(q[..i] + [e], q[i..]);
    NumbersSnoc(q[..i], e);
  }

  /** A path is given a connection ID. */
  lemma PathAdded(m: Probing, k: nat, e: Entry)
    requires k !in m
    ensures forall n :: PathsWithNumber(m[k := e], n) == PathsWithNumber(m, n) + One(n == e.num)
    ensures forall t :: PathsWithToken(m[k := e], t) == PathsWithToken(m, t) + One(t == e.token)
  {
    hide PathsWithNumber, PathsWithToken;
    forall n
      ensures PathsWithNumber(m[k := e], n) == PathsWithNumber(m, n) + One(n == e.num)
    {
      NumberAdded(m, k, e, n);
    }
    forall t
      ensures PathsWithToken(m[k := e], t) == PathsWithToken(m, t) + One(t == e.token)
    {
      TokenAdded(m, k, e, t);
    }
  }

  lemma NumberAdded(m: Probing, k: nat, e: Entry, n: nat)
    requires k !in m
    ensures PathsWithNumber(m[k := e], n) == PathsWithNumber(m, n) + One(n == e.num)
  {
    if n == e.num {
      assert UsersOfNumber(m[k := e], n) == UsersOfNumber(m, n) + {k};
    } else {
      assert UsersOfNumber(m[k := e], n) == UsersOfNumber(m, n);
    }
  }

  lemma TokenAdded(m: Probing, k: nat, e: Entry, t: Token)
    requires k !in m
    ensures PathsWithToken(m[k := e], t) == PathsWithToken(m, t) + One(t == e.token)
  {
    if t == e.token {
      assert UsersOfToken(m[k := e], t) == UsersOfToken(m, t) + {k};
    } else {
      assert UsersOfToken(m[k := e], t) == UsersOfToken(m, t);
    }
  }

  /** A path loses its connection ID. */
  lemma PathRemoved(m: Probing, k: nat)
    requires k in m
    ensures forall n :: PathsWithNumber(m, n) == PathsWithNumber(m - {k}, n) + One(n == m[k].num)
    ensures forall t :: PathsWithToken(m, t) == PathsWithToken(m - {k}, t) + One(t == m[k].token)
  {
    PathAdded(m - {k}, k, m[k]);
    assert (m - {k})[k := m[k]] == m;
  }

  lemma NoPaths()
    ensures forall n :: PathsWithNumber(map[], n) == 0
    ensures forall t :: PathsWithToken(map[], t) == 0
  {
  }

  /** If no sequence number was taken in twice, none is at two places. */
  lemma NothingTwice(arrived: multiset<nat>, retired: multiset<nat>, active: nat, queued: multiset<nat>,
                     probing: Probing, n: nat)
    requires NumbersKept(arrived, retired, active, queued, probing) && arrived[n] <= 1
    ensures n in retired ==> n != active && n !in queued && forall k :: k in probing ==> probing[k].num != n
    ensures forall k :: k in probing && probing[k].num == n ==> n != active && n !in queued
    ensures forall j, k :: j in probing && k in probing && probing[j].num == n && probing[k].num == n ==> j == k
  {
    var paths := UsersOfNumber(probing, n);
    forall j, k | j in probing && k in probing && probing[j].num == n && probing[k].num == n
      ensures j == k
    {
      if j != k {
        assert {j, k} <= paths;
        SubsetSize({j, k}, paths);
      }
    }
    forall k | k in probing && probing[k].num == n
      ensures |paths| >= 1
    {
      SubsetSize({k}, paths);
    }
  }

  // ---- The moves of a connection ID. ----

  /** The first queued connection ID becomes the active one, which is retired. */
  lemma Rotated(arrived: multiset<nat>, retired: multiset<nat>, active: nat, queue: seq<Entry>, probing: Probing)
    requires NumbersKept(arrived, retired, active, Numbers(queue), probing) && queue != []
    ensures NumbersKept(arrived, retired + multiset{active}, queue[0].num, Numbers(queue[1..]), probing)
  {
    hide PathsWithNumber;
  }

  lemma TokenRotated(added: multiset<Token>, removed: multiset<Token>, active: Option<Token>, probing: Probing,
                     t: Token)
    requires TokensKept(added, removed, active, probing)
    ensures TokensKept(added + multiset{t}, if active.Some? then removed + multiset{active.value} else removed,
                       Some(t), probing)
  {
    hide PathsWithToken;
  }

  /** A new connection ID is queued, or retired at once. */
  lemma TakenIn(arrived: multiset<nat>, retired: multiset<nat>, active: nat, queued: multiset<nat>, probing: Probing,
                n: nat)
    requires NumbersKept(arrived, retired, active, queued, probing)
    ensures NumbersKept(arrived + multiset{n}, retired, active, queued + multiset{n}, probing)
    ensures NumbersKept(arrived + multiset{n}, retired + multiset{n}, active, queued, probing)
  {
    hide PathsWithNumber;
  }

  /** A queued connection ID is retired. */
  lemma Dropped(arrived: multiset<nat>, retired: multiset<nat>, active: nat, queued: multiset<nat>, probing: Probing,
                n: nat)
    requires NumbersKept(arrived, retired, active, queued + multiset{n}, probing)
    ensures NumbersKept(arrived, retired + multiset{n}, active, queued, probing)
  {
    hide PathsWithNumber;
  }

  /** The first queued connection ID is used for a path. */
  lemma PathStarted(arrived: multiset<nat>, retired: multiset<nat>, active: nat, queue: seq<Entry>, probing: Probing,
                    k: nat, added: multiset<Token>, removed: multiset<Token>, activeToken: Option<Token>)
    requires NumbersKept(arrived, retired, active, Numbers(queue), probing) && queue != [] && k !in probing
    requires TokensKept(added, removed, activeToken, probing)
    ensures NumbersKept(arrived, retired, active, Numbers(queue[1..]), probing[k := queue[0]])
    ensures TokensKept(added + multiset{queue[0].token}, removed, activeToken, probing[k := queue[0]])
  {
    hide PathsWithNumber, PathsWithToken;
    PathAdded(probing, k, queue[0]);
  }

  /** The connection ID of a path is retired. */
  lemma PathEnded(arrived: multiset<nat>, retired: multiset<nat>, active: nat, queued: multiset<nat>, probing: Probing,
                  k: nat, added: multiset<Token>, removed: multiset<Token>, activeToken: Option<Token>)
    requires NumbersKept(arrived, retired, active, queued, probing) && k in probing
    requires TokensKept(added, removed, activeToken, probing)
    ensures NumbersKept(arrived, retired + multiset{probing[k].num}, active, queued, probing - {k})
    ensures TokensKept(added, removed + multiset{probing[k].token}, activeToken, probing - {k})
  {
    hide PathsWithNumber, PathsWithToken;
    PathRemoved(probing, k);
  }

  /** updateConnectionID */
  function Rotate(s: Ledger): Ledger
    requires s.queue != []
  {
    s.(queue := s.queue[1..], active := s.queue[0].num, activeToken := Some(s.queue[0].token),
       highestRetired := Max(s.highestRetired, s.active),
       retired := s.retired + multiset{s.active}, added := s.added + multiset{s.queue[0].token},
       removed := if s.activeToken.Some? then s.removed + multiset{s.activeToken.value} else s.removed)
  }

  lemma RotateKept(s: Ledger)
    requires Tallied(s) && s.queue != [] && s.highestRetired <= s.queue[0].num
    ensures Kept(Rotate(s)) && s.active < s.queue[0].num
  {
    hide NumbersKept, TokensKept, Numbers;
    Rotated(s.arrived, s.retired, s.active, s.queue, s.probing);
    TokenRotated(s.added, s.removed, s.activeToken, s.probing, s.queue[0].token);
  }

  /** A frame that is out of date: its connection ID is retired at once. */
  function RetireNew(s: Ledger, n: nat): Ledger {
    s.(arrived := s.arrived + multiset{n}, retired := s.retired + multiset{n})
  }

  lemma RetireNewKept(s: Ledger, n: nat)
    requires Kept(s)
    ensures Kept(RetireNew(s, n))
  {
    hide Ordered, NumbersKept, TokensKept, Numbers;
    TakenIn(s.arrived, s.retired, s.active, Numbers(s.queue), s.probing, n);
  }

  /** A path loses its connection ID, which is retired. */
  function EndPath(s: Ledger, k: nat): Ledger
    requires k in s.probing
  {
    s.(probing := s.probing - {k}, retired := s.retired + multiset{s.probing[k].num},
       removed := s.removed + multiset{s.probing[k].token})
  }

  lemma EndPathTallied(s: Ledger, k: nat)
    requires Tallied(s) && k in s.probing
    ensures Tallied(EndPath(s, k))
  {
    hide NumbersKept, TokensKept, Numbers;
    PathEnded(s.arrived, s.retired, s.active, Numbers(s.queue), s.probing, k, s.added, s.removed, s.activeToken);
  }

  /** A path gets the first queued connection ID. */
  function StartPath(s: Ledger, k: nat): Ledger
    requires s.queue != []
  {
    s.(queue := s.queue[1..], probing := s.probing[k := s.queue[0]], highestProbing := s.queue[0].num,
       added := s.added + multiset{s.queue[0].token})
  }

  lemma StartPathKept(s: Ledger, k: nat)
    requires Kept(s) && k !in s.probing && s.queue != []
    ensures Kept(StartPath(s, k))
  {
    hide NumbersKept, TokensKept, Numbers;
    PathStarted(s.arrived, s.retired, s.active, s.queue, s.probing, k, s.added, s.removed, s.activeToken);
  }

  /** The entries that Retire Prior To leaves. */
  function Retained(q: seq<Entry>, retirePriorTo: nat): seq<Entry> {
    if q == [] then [] else (if q[0].num >= retirePriorTo then [q[0]] else []) + Retained(q[1..], retirePriorTo)
  }

  lemma {:induction false} RetainedEntries(q: seq<Entry>, low: nat)
    ensures forall e :: e in Retained(q, low) <==> e in q && e.num >= low
  {
    if q != [] {
      RetainedEntries(q[1..], low);
      assert q == [q[0]] + q[1..];
    }
  }

  lemma {:induction false} RetainedFrom(q: seq<Entry>, low: nat)
    ensures From(Retained(q, low), low)
    ensures From(q, low) ==> Retained(q, low) == q
  {
    if q != [] {
      RetainedFrom(q[1..], low);
      assert From(q, low) ==> From(q[1..], low);
    }
  }

  lemma {:induction false} RetainedSorted(q: seq<Entry>, low: nat)
    requires Sorted(q)
    ensures Sorted(Retained(q, low)) && forall bound: nat :: From(q, bound) ==> From(Retained(q, low), bound)
  {
    if q != [] {
      RetainedSorted(q[1..], low);
      assert From(q[1..], q[0].num + 1);
      forall bound: nat | From(q, bound)
        ensures From(Retained(q, low), bound)
      {
        assert From(q[1..], bound);
      }
    }
  }

  lemma {:induction false} RetainedSnoc(q: seq<Entry>, e: Entry, low: nat)
    ensures Retained(q + [e], low) == Retained(q, low) + (if e.num >= low then [e] else [])
  {
    var last := if e.num >= low then [e] else [];
    if q == [] {
      assert q + [e] == [e] && [e][1..] == [];
      assert last + [] == last == [] + last;
    } else {
      assert (q + [e])[0] == q[0] && (q + [e])[1..] == q[1..] + [e];
      RetainedSnoc(q[1..], e, low);
      var head, rest := if q[0].num >= low then [q[0]] else [], Retained(q[1..], low);
      assert head + (rest + last) == (head + rest) + last;
    }
  }

  /** The queue with a new entry at its place. */
  function Inserted(q: seq<Entry>, e: Entry): seq<Entry> {
    if q == [] then [e]
    else if q[0].num == e.num then q
    else if q[0].num > e.num then [e] + q
    else [q[0]] + Inserted(q[1..], e)
  }

  predicate HasNumber(q: seq<Entry>, n: nat) {
    exists i :: 0 <= i < |q| && q[i].num == n
  }

  lemma {:induction false} InsertedAt(q: seq<Entry>, e: Entry, i: nat)
    requires i <= |q| && (forall j :: 0 <= j < i ==> q[j].num < e.num)
    ensures i == |q| || q[i].num > e.num ==> Inserted(q, e) == q[..i] + [e] + q[i..]
    ensures i < |q| && q[i].num == e.num ==> Inserted(q, e) == q
  {
    if i > 0 {
      InsertedAt(q[1..], e, i - 1);
      TakeApart(q, i);
      assert Inserted(q, e) == [q[0]] + Inserted(q[1..], e);
    } else if q == [] {
      assert q[..0] + [e] + q[0..] == [e];
    } else {
      assert q[..0] + [e] + q[0..] == [e] + q;
    }
  }

  lemma TakeApart(q: seq<Entry>, i: nat)
    requires 0 < i <= |q|
    ensures q == [q[0]] + q[1..] && [q[0]] + q[1..][..i - 1] == q[..i] && q[1..][i - 1..] == q[i..]
  {
  }

  function TakeIn(s: Ledger, e: Entry): Ledger {
    s.(queue := Inserted(s.queue, e),
       arrived := if HasNumber(s.queue, e.num) then s.arrived else s.arrived + multiset{e.num})
  }

  lemma TakeInTallied(s: Ledger, e: Entry, i: nat)
    requires Tallied(s) && e.num > s.active && e.num >= s.highestProbing
    requires i <= |s.queue| && (forall j :: 0 <= j < i ==> s.queue[j].num < e.num)
    requires i == |s.queue| || s.queue[i].num >= e.num
    ensures Tallied(TakeIn(s, e))
    ensures HasNumber(s.queue, e.num) <==> i < |s.queue| && s.queue[i].num == e.num
  {
    hide NumbersKept, TokensKept, Numbers, Inserted, Sorted, From;
    InsertedOrder(s.queue, e, i, s.active + 1);
    InsertedOrder(s.queue, e, i, s.highestProbing);
    if i == |s.queue| || s.queue[i].num > e.num {
      NumbersInsert(s.queue, i, e);
      TakenIn(s.arrived, s.retired, s.active, Numbers(s.queue), s.probing, e.num);
    }
  }

  lemma InsertedOrder(q: seq<Entry>, e: Entry, i: nat, low: nat)
    requires Sorted(q)
    requires i <= |q| && (forall j :: 0 <= j < i ==> q[j].num < e.num) && (i == |q| || q[i].num >= e.num)
    ensures Sorted(Inserted(q, e)) && HasNumber(Inserted(q, e), e.num)
    ensures From(q, low) && low <= e.num ==> From(Inserted(q, e), low)
    ensures HasNumber(q, e.num) <==> i < |q| && q[i].num == e.num
    ensures Inserted(q, e) == if HasNumber(q, e.num) then q else q[..i] + [e] + q[i..]
  {
    hide Inserted;
    InsertedAt(q, e, i);
    if i == |q| || q[i].num > e.num {
      assert (q[..i] + [e] + q[i..])[i] == e;
    }
  }

  /** The next entry is looked at: it is kept, or retired. */
  lemma RetainedNext(s: Ledger, kept: seq<Entry>, rest: seq<Entry>, retirePriorTo: nat)
    requires rest != []
    requires NumbersKept(s.arrived, s.retired, s.active, Numbers(kept + rest), s.probing)
    ensures NumbersKept(s.arrived, s.retired, s.active, Numbers((kept + [rest[0]]) + rest[1..]), s.probing)
    ensures NumbersKept(s.arrived, s.retired + multiset{rest[0].num}, s.active, Numbers(kept + rest[1..]), s.probing)
  {
    hide NumbersKept;
    assert (kept + [rest[0]]) + rest[1..] == kept + rest;
    NumbersConcat(kept, rest);
    NumbersConcat(kept, rest[1..]);
    assert Numbers(kept + rest) == Numbers(kept + rest[1..]) + multiset{rest[0].num};
    Dropped(s.arrived, s.retired, s.active, Numbers(kept + rest[1..]), s.probing, rest[0].num);
  }

  lemma RetainedTallied(s: Ledger, s': Ledger, retirePriorTo: nat)
    requires Tallied(s) && s' == s.(queue := Retained(s.queue, retirePriorTo), retired := s'.retired,
                                    highestRetired := s'.highestRetired)
    requires NumbersKept(s'.arrived, s'.retired, s'.active, Numbers(s'.queue), s'.probing)
    ensures Tallied(s') && From(s'.queue, retirePriorTo)
  {
    hide NumbersKept, TokensKept, Numbers;
    RetainedSorted(s.queue, retirePriorTo);
    RetainedFrom(s.queue, retirePriorTo);
  }

  /** The paths that Retire Prior To leaves. */
  function Surviving(m: Probing, retirePriorTo: nat): Probing {
    map k | k in m && m[k].num >= retirePriorTo :: m[k]
  }

  /** A NEW_CONNECTION_ID frame. */
  datatype NewConnectionId = NewConnectionId(num: nat, retirePriorTo: nat, connId: ConnId, token: Token)

  function EntryOf(f: NewConnectionId): Entry {
    Entry(f.num, f.connId, f.token)
  }

  /** The frame is treated as reordered. */
  predicate OutOfDate(s: Ledger, f: NewConnectionId) {
    f.num < Max(s.active, s.highestProbing) || f.num < s.highestRetired
  }

  /** Another connection ID or token was queued for the same sequence number. */
  ghost predicate Conflicts(s: Ledger, f: NewConnectionId) {
    f.num != s.active && exists i :: 0 <= i < |s.queue| && s.queue[i].num == f.num && s.queue[i] != EntryOf(f)
  }

  /** The queue before the active connection ID is replaced. */
  function NextQueue(s: Ledger, f: NewConnectionId): seq<Entry> {
    var q := Retained(s.queue, f.retirePriorTo);
    if f.num == s.active then q else Inserted(q, EntryOf(f))
  }

  /** What becomes of a frame that is taken in. */
  ghost predicate Accepts(s: Ledger, f: NewConnectionId, s': Ledger) {
    && s'.probing == Surviving(s.probing, f.retirePriorTo) && s'.highestProbing == s.highestProbing
    && s'.highestRetired == Max(s.highestRetired, f.retirePriorTo)
    && s'.arrived == (if f.num == s.active || HasNumber(s.queue, f.num) then s.arrived else s.arrived + multiset{f.num})
    && var q := NextQueue(s, f);
       if s.active < f.retirePriorTo then
         && q != [] && s'.queue == q[1..] && s'.active == q[0].num && s'.activeToken == Some(q[0].token)
         && s'.added == s.added + multiset{q[0].token}
       else
         && s'.queue == q && s'.active == s.active && s'.activeToken == s.activeToken && s'.added == s.added
  }

  /** The connection ID and the token of a frame are queued under its number. */
  ghost predicate HasFrame(q: seq<Entry>, f: NewConnectionId) {
    exists i :: 0 <= i < |q| && q[i].num == f.num && q[i].connId == f.connId && q[i].token == f.token
  }

  /** What a frame brings is queued, or becomes the active connection ID. */
  lemma FrameHeld(s: Ledger, f: NewConnectionId, s': Ledger)
    requires Kept(s) && f.retirePriorTo <= f.num && !OutOfDate(s, f) && !Conflicts(s, f) && f.num != s.active
    requires Accepts(s, f, s')
    ensures || HasFrame(s'.queue, f)
            || (&& s.active < f.retirePriorTo && s'.active == f.num && s'.activeToken == Some(f.token)
                && NextQueue(s, f) != [] && NextQueue(s, f)[0].connId == f.connId)
  {
    hide NumbersKept, TokensKept, Numbers, Retained, Inserted, OutOfDate;
    var low := Retained(s.queue, f.retirePriorTo);
    RetainedSorted(s.queue, f.retirePriorTo);
    RetainedEntries(s.queue, f.retirePriorTo);
    SameNumber(s.queue, low, EntryOf(f), f.retirePriorTo);
    InsertedHas(low, f);
    var q := NextQueue(s, f);
    var i :| 0 <= i < |q| && q[i].num == f.num && q[i].connId == f.connId && q[i].token == f.token;
    if s.active < f.retirePriorTo && i > 0 {
      assert s'.queue[i - 1] == q[i];
    }
  }

  lemma InsertedHas(q: seq<Entry>, f: NewConnectionId)
    requires Sorted(q) && forall i :: 0 <= i < |q| && q[i].num == f.num ==> q[i] == EntryOf(f)
    ensures HasFrame(Inserted(q, EntryOf(f)), f)
  {
    hide Inserted;
    var e := EntryOf(f);
    var i := PlaceOf(q, e.num);
    InsertedOrder(q, e, i, 0);
    var q' := Inserted(q, e);
    if HasNumber(q, e.num) {
      var k :| 0 <= k < |q| && q[k].num == e.num;
      assert q'[k] == e;
    } else {
      assert q'[i] == e;
    }
  }

  /** Retire Prior To: nothing below it is left, and the new connection ID is active or queued. The active number does
      not sink. */
  lemma RetirePriorTo(s: Ledger, f: NewConnectionId, s': Ledger)
    requires Kept(s) && f.retirePriorTo <= f.num && !OutOfDate(s, f) && Accepts(s, f, s') && Kept(s')
    ensures From(s'.queue, f.retirePriorTo) && s'.active >= f.retirePriorTo && s'.active >= s.active
    ensures forall k :: k in s'.probing ==> s'.probing[k].num >= f.retirePriorTo
    ensures f.num == s'.active || HasNumber(s'.queue, f.num)
    ensures forall e :: e in s.queue && e.num >= f.retirePriorTo ==> e in s'.queue || e.num == s'.active
  {
    hide Tallied, NextQueue, OutOfDate;
    NextQueueFacts(s, f);
    if s.active < f.retirePriorTo {
      FrontOrRest(NextQueue(s, f));
    }
  }

  lemma NextQueueFacts(s: Ledger, f: NewConnectionId)
    requires Kept(s) && f.retirePriorTo <= f.num && !OutOfDate(s, f)
    ensures var q := NextQueue(s, f);
            && From(q, f.retirePriorTo) && From(q, s.active + 1)
            && (f.num == s.active || HasNumber(q, f.num))
            && (forall e :: e in s.queue && e.num >= f.retirePriorTo ==> e in q)
  {
    hide NumbersKept, TokensKept, Numbers, Inserted, Retained, From, Sorted, HasNumber;
    var q := Retained(s.queue, f.retirePriorTo);
    RetainedFrom(s.queue, f.retirePriorTo);
    RetainedSorted(s.queue, f.retirePriorTo);
    RetainedEntries(s.queue, f.retirePriorTo);
    if f.num != s.active {
      InsertedFacts(q, EntryOf(f), f.retirePriorTo);
      InsertedFacts(q, EntryOf(f), s.active + 1);
    }
  }

  lemma InsertedFacts(q: seq<Entry>, e: Entry, low: nat)
    requires Sorted(q) && From(q, low) && low <= e.num
    ensures From(Inserted(q, e), low) && HasNumber(Inserted(q, e), e.num)
    ensures forall x :: x in q ==> x in Inserted(q, e)
  {
    hide Inserted;
    var i := PlaceOf(q, e.num);
    InsertedOrder(q, e, i, low);
    assert q == q[..i] + q[i..];
  }

  lemma FrontOrRest(q: seq<Entry>)
    requires q != []
    ensures forall e :: e in q ==> e == q[0] || e in q[1..]
    ensures forall n :: HasNumber(q, n) ==> n == q[0].num || HasNumber(q[1..], n)
    ensures forall low: nat :: From(q, low) ==> q[0].num >= low && From(q[1..], low)
  {
    assert q == [q[0]] + q[1..];
    forall n | HasNumber(q, n)
      ensures n == q[0].num || HasNumber(q[1..], n)
    {
      var i :| 0 <= i < |q| && q[i].num == n;
      if i > 0 {
        assert q[1..][i - 1].num == n;
      }
    }
  }

  /** Where a sequence number belongs. */
  ghost function PlaceOf(q: seq<Entry>, n: nat): (i: nat)
    requires Sorted(q)
    ensures i <= |q| && (forall j :: 0 <= j < i ==> q[j].num < n) && (i == |q| || q[i].num >= n)
  {
    if q == [] || q[0].num >= n then 0 else 1 + PlaceOf(q[1..], n)
  }

  /** The frame while it is handled: paths and queued connection IDs were retired. */
  ghost predicate Retiring(s: Ledger, f: NewConnectionId, s': Ledger) {
    && Tallied(s')
    && s'.probing == Surviving(s.probing, f.retirePriorTo) && s'.queue == Retained(s.queue, f.retirePriorTo)
    && s'.highestRetired == Max(s.highestRetired, f.retirePriorTo)
    && s' == s.(probing := s'.probing, retired := s'.retired, removed := s'.removed, queue := s'.queue,
                highestRetired := s'.highestRetired)
  }

  /** Nothing in the queue is below an old Retire Prior To. */
  lemma NothingToRetire(s: Ledger, retirePriorTo: nat)
    requires Kept(s) && retirePriorTo <= s.highestRetired
    ensures Retained(s.queue, retirePriorTo) == s.queue
  {
    hide NumbersKept, TokensKept, Numbers;
    RetainedFrom(s.queue, retirePriorTo);
  }

  lemma NoPathToRetire(m: Probing)
    ensures Surviving(m, 0) == m
  {
  }

  /** The frame has the active sequence number. */
  lemma NothingToAdd(s: Ledger, f: NewConnectionId, s': Ledger)
    requires Kept(s) && Retiring(s, f, s') && f.num == s.active && f.retirePriorTo <= f.num
    ensures Kept(s') && Accepts(s, f, s') && !Conflicts(s, f)
  {
    hide Tallied;
  }

  /** The frame has another sequence number, so that it is queued if it is not in conflict with the queue. */
  lemma ReadyToAdd(s: Ledger, f: NewConnectionId, s': Ledger)
    requires Kept(s) && Retiring(s, f, s') && f.num != s.active && f.retirePriorTo <= f.num && !OutOfDate(s, f)
    ensures f.num > s'.active && f.num >= s'.highestProbing
    ensures HasNumber(s'.queue, f.num) <==> HasNumber(s.queue, f.num)
    ensures Conflicts(s, f) <==>
            exists i :: 0 <= i < |s'.queue| && s'.queue[i].num == f.num && s'.queue[i] != EntryOf(f)
  {
    hide Tallied, Retained;
    RetainedEntries(s.queue, f.retirePriorTo);
    SameNumber(s.queue, s'.queue, EntryOf(f), f.retirePriorTo);
  }

  lemma SameNumber(q: seq<Entry>, q': seq<Entry>, e: Entry, low: nat)
    requires (forall x :: x in q' <==> x in q && x.num >= low) && e.num >= low
    ensures HasNumber(q', e.num) <==> HasNumber(q, e.num)
    ensures (exists i :: 0 <= i < |q| && q[i].num == e.num && q[i] != e) <==>
            (exists i :: 0 <= i < |q'| && q'[i].num == e.num && q'[i] != e)
  {
    assert forall i :: 0 <= i < |q| ==> q[i] in q;
    assert forall i :: 0 <= i < |q'| ==> q'[i] in q';
  }

  /** The new connection ID was queued. */
  lemma AddedInPlace(s: Ledger, f: NewConnectionId, s1: Ledger)
    requires Kept(s) && Retiring(s, f, s1) && f.num != s.active && f.retirePriorTo <= f.num && !OutOfDate(s, f)
    ensures var s2 := TakeIn(s1, EntryOf(f));
            if s.active < f.retirePriorTo then
              s2.queue != [] && s2.highestRetired <= s2.queue[0].num && Accepts(s, f, Rotate(s2))
            else s2.highestRetired <= s2.active && Accepts(s, f, s2)
    ensures TakeIn(s1, EntryOf(f)).queue == NextQueue(s, f)
  {
    hide Tallied, Inserted, Retained;
    ReadyToAdd(s, f, s1);
    NextQueueFacts(s, f);
  }
}
