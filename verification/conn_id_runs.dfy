/** Whole runs of a connection ID manager. */
module ConnIdRuns {
  import opened Protocol
  import opened ConnIdLedger
  import opened ConnIdManagers
  import opened ConnIdRepeats

  datatype Event =
    | FrameReceived(f: NewConnectionId)
    | PreferredAddress(connId: ConnId, token: Token)
    | HandshakeToken(token: Token)
    | InitialIdChanged(connId: ConnId)
    | PacketBuilt
    | PacketSent
    | PathProbed(id: nat)
    | PathAbandoned(id: nat)
    | HandshakeCompleted

  /** A sequence number is at one of the four places. */
  ghost predicate Somewhere(s: Ledger, n: nat) {
    n == s.active || HasNumber(s.queue, n) || n in s.retired || exists k :: k in s.probing && s.probing[k].num == n
  }

  /** The sequence number of a connection ID that is received. */
  predicate Brings(e: Event, n: nat) {
    match e
    case FrameReceived(f) => n == f.num
    case PreferredAddress(_, _) => n == 1
    case _ => false
  }

  /** The numbers of all connection IDs received so far were taken in. */
  ghost predicate TakenInAll(events: seq<Event>, upTo: nat, s: Ledger) {
    forall i, n: nat :: 0 <= i < upTo <= |events| && Brings(events[i], n) ==> n in s.arrived
  }

  lemma InQueue(q: seq<Entry>, n: nat)
    ensures n in Numbers(q) <==> HasNumber(q, n)
  {
    if q != [] {
      InQueue(q[1..], n);
      FrontOrRest(q);
      if HasNumber(q[1..], n) {
        var i :| 0 <= i < |q[1..]| && q[1..][i].num == n;
        assert q[i + 1].num == n;
      }
    }
  }

  /** Nothing is lost: what was taken in is somewhere, and what is in use was taken in. */
  lemma NothingLost(s: Ledger, n: nat)
    requires Kept(s)
    ensures n in s.arrived <==> Somewhere(s, n)
  {
    InQueue(s.queue, n);
    if PathsWithNumber(s.probing, n) > 0 {
      var k :| k in UsersOfNumber(s.probing, n);
    }
    if k :| k in s.probing && s.probing[k].num == n {
      assert k in UsersOfNumber(s.probing, n);
    }
  }

  /** A frame that is handled without an error is taken in, and nothing that was taken in before is forgotten. */
  lemma FrameTakenIn(s: Ledger, f: NewConnectionId, s': Ledger)
    requires Kept(s)
    requires if OutOfDate(s, f) then s' == RetireNew(s, f.num) else Accepts(s, f, s')
    ensures f.num in s'.arrived && s.arrived <= s'.arrived
  {
    hide NumbersKept;
    NothingLost(s, f.num);
  }

  lemma NothingYet(events: seq<Event>, s: Ledger)
    ensures TakenInAll(events, 0, s)
  {
  }

  lemma OneMore(events: seq<Event>, i: nat, s: Ledger, s': Ledger)
    requires TakenInAll(events, i, s) && i < |events| && s.arrived <= s'.arrived
    requires forall n: nat :: Brings(events[i], n) ==> n in s'.arrived
    ensures TakenInAll(events, i + 1, s')
  {
  }

  lemma Received(events: seq<Event>, s: Ledger, j: nat, n: nat)
    requires Kept(s) && TakenInAll(events, |events|, s) && j < |events| && Brings(events[j], n)
    ensures Somewhere(s, n)
  {
    NothingLost(s, n);
  }

  /** A connection ID that does harm: one that is in use for a path, or was, although a frame with this number is not
      out of date. */
  ghost predicate Harmful(e: Event, s: Ledger) {
    match e
    case FrameReceived(f) => Repeats(s, f)
    case PreferredAddress(_, _) => !HasNumber(s.queue, 1) && s.highestProbing == 1
    case _ => false
  }

  /** What a run looks at: the accounts, the active connection ID, and what decides when it is changed. */
  datatype Snapshot = Snapshot(ledger: Ledger, connId: ConnId, handshakeComplete: bool, packets: nat, limit: nat)

  ghost function Snap(m: ConnIdManager): Snapshot
    reads m
  {
    Snapshot(m.State(), m.activeConnectionId, m.handshakeComplete, m.packetsSinceLastChange, m.packetsPerConnectionId)
  }

  /** The frame makes the first queued connection ID the active one. */
  predicate RotatesFor(s: Ledger, f: NewConnectionId) {
    !OutOfDate(s, f) && s.active < f.retirePriorTo
  }

  /** How many connection IDs are queued after a frame. */
  function QueuedAfter(s: Ledger, f: NewConnectionId): int {
    if OutOfDate(s, f) then |s.queue| else |NextQueue(s, f)| - (if RotatesFor(s, f) then 1 else 0)
  }

  /** The events that end a run. A frame is refused with an error if connection IDs have no length, if it is in conflict
      with the queue, or if the queue becomes too long. A preferred address is refused if it is in conflict with the
      queue; a run also ends if its number, which is 1, is not queued and is a number of the past, because this spoils
      the order. The handshake token and a change of the initial connection ID panic after the first connection ID was
      replaced. */
  ghost predicate Refused(x: Snapshot, e: Event) {
    var s := x.ledger;
    match e
    case FrameReceived(f) =>
      x.connId == [] || (!OutOfDate(s, f) && Conflicts(s, f)) || QueuedAfter(s, f) >= MAX_ACTIVE_CONNECTION_IDS
    case PreferredAddress(connId, token) =>
      || (!HasNumber(s.queue, 1) && (s.active != 0 || s.highestProbing > 1))
      || exists i :: 0 <= i < |s.queue| && s.queue[i].num == 1 && s.queue[i] != Entry(1, connId, token)
    case HandshakeToken(_) => s.active != 0
    case InitialIdChanged(_) => s.active != 0
    case _ => false
  }

  /** The first queued connection ID becomes the active one. */
  function Replaced(x: Snapshot, front: ConnId, random: nat): Snapshot {
    x.(connId := front, packets := 0, limit := PACKETS_PER_CONNECTION_ID / 2 + random)
  }

  predicate ChangesNow(x: Snapshot) {
    && x.handshakeComplete
    && var n := |x.ledger.queue|;
       (n > 0 && x.ledger.active == 0) || (2 * n >= MAX_ACTIVE_CONNECTION_IDS && x.packets >= x.limit)
  }

  /** What an event does. */
  ghost predicate Happens(x: Snapshot, e: Event, random: nat, y: Snapshot) {
    var s := x.ledger;
    && Kept(y.ledger)
    && match e
       case FrameReceived(f) =>
         && (if OutOfDate(s, f) then y.ledger == RetireNew(s, f.num) else Accepts(s, f, y.ledger))
         && y == (if RotatesFor(s, f) then Replaced(x, Front(NextQueue(s, f)), random) else x).(ledger := y.ledger)
       case PreferredAddress(connId, token) => y == x.(ledger := TakeIn(s, Entry(1, connId, token)))
       case HandshakeToken(token) =>
         y == x.(ledger := s.(activeToken := Some(token), added := s.added + multiset{token}))
       case InitialIdChanged(connId) => y == x.(connId := connId)
       case PacketBuilt =>
         if ChangesNow(x) then s.queue != [] && y == Replaced(x, s.queue[0].connId, random).(ledger := Rotate(s))
         else y == x
       case PacketSent => y == x.(packets := x.packets + 1)
       case PathProbed(id) =>
         if x.connId == [] || id in s.probing || s.queue == [] then y == x else y == x.(ledger := StartPath(s, id))
       case PathAbandoned(id) =>
         if x.connId == [] || id !in s.probing then y == x else y == x.(ledger := EndPath(s, id))
       case HandshakeCompleted => y == x.(handshakeComplete := true)
  }

  /** One event: it is handled exactly if it is not refused. */
  method Handle(m: ConnIdManager, e: Event, random: nat) returns (ok: bool)
    requires m.Valid() && random < PACKETS_PER_CONNECTION_ID
    requires e.FrameReceived? ==> e.f.retirePriorTo <= e.f.num
    requires e.HandshakeToken? && m.activeSequenceNumber == 0 ==> m.activeToken == None
    modifies m
    ensures ok <==> !Refused(old(Snap(m)), e)
    ensures ok ==> m.Valid() && Happens(old(Snap(m)), e, random, Snap(m))
  {
    hide Kept, Accepts, Rotate, StartPath, EndPath, RetireNew, OutOfDate, TakeIn, HasNumber, NextQueue, Conflicts;
    ok := true;
    match e {
      case FrameReceived(f) =>
        ok := HandleFrame(m, f, random);
      case PreferredAddress(connId, token) =>
        ok := HandlePreferredAddress(m, connId, token, random);
      case HandshakeToken(token) =>
        ok := m.activeSequenceNumber == 0;
        if ok {
          m.SetStatelessResetToken(token);
        }
      case InitialIdChanged(connId) =>
        ok := m.activeSequenceNumber == 0;
        if ok {
          m.ChangeInitialConnId(connId);
        }
      case PacketBuilt =>
        HandlePacket(m, random);
      case PacketSent =>
        m.SentPacket();
      case PathProbed(id) =>
        HandlePath(m, id, true, random);
      case PathAbandoned(id) =>
        HandlePath(m, id, false, random);
      case HandshakeCompleted =>
        m.SetHandshakeComplete();
    }
  }

  method HandleFrame(m: ConnIdManager, f: NewConnectionId, random: nat) returns (ok: bool)
    requires m.Valid() && random < PACKETS_PER_CONNECTION_ID && f.retirePriorTo <= f.num
    modifies m
    ensures ok <==> !Refused(old(Snap(m)), FrameReceived(f))
    ensures ok ==> m.Valid() && Happens(old(Snap(m)), FrameReceived(f), random, Snap(m))
  {
    hide Kept, RetireNew, OutOfDate, NextQueue, Conflicts, Surviving, Accepts;
    ghost var s, connId := m.State(), m.activeConnectionId;
    var err := m.Add(f, random);
    if !OutOfDate(s, f) && err != Some(Conflict) && connId != [] {
      AcceptedLength(s, f, m.State());
    } else {
      RetiredLength(s, f.num);
    }
    ok := err == None;
  }

  method HandlePacket(m: ConnIdManager, random: nat)
    requires m.Valid() && random < PACKETS_PER_CONNECTION_ID
    modifies m
    ensures m.Valid() && Happens(old(Snap(m)), PacketBuilt, random, Snap(m))
  {
    hide Kept, Rotate;
    var _ := m.Get(random);
  }

  method HandlePath(m: ConnIdManager, id: nat, probed: bool, random: nat)
    requires m.Valid()
    modifies m
    ensures m.Valid() && Happens(old(Snap(m)), if probed then PathProbed(id) else PathAbandoned(id), random, Snap(m))
  {
    hide Kept, StartPath, EndPath;
    if probed {
      var _, _ := m.GetConnIdForPath(id);
    } else {
      m.RetireConnIdForPath(id);
    }
  }

  method HandlePreferredAddress(m: ConnIdManager, connId: ConnId, token: Token, random: nat) returns (ok: bool)
    requires m.Valid()
    modifies m
    ensures ok <==> !Refused(old(Snap(m)), PreferredAddress(connId, token))
    ensures ok ==> m.Valid() && Happens(old(Snap(m)), PreferredAddress(connId, token), random, Snap(m))
  {
    hide Kept, TakeIn;
    ok := HasNumber(m.queue, 1) || (m.activeSequenceNumber == 0 && m.highestProbingId <= 1);
    if ok {
      ok := m.AddFromPreferredAddress(connId, token);
    }
  }

  lemma AcceptedLength(s: Ledger, f: NewConnectionId, s': Ledger)
    requires Accepts(s, f, s') && !OutOfDate(s, f)
    ensures |s'.queue| == QueuedAfter(s, f)
  {
    hide NextQueue, OutOfDate;
  }

  lemma RetiredLength(s: Ledger, n: nat)
    ensures RetireNew(s, n).queue == s.queue
  {
  }

  /** What was taken in stays taken in, a connection ID that is received is taken in, and only a harmful frame spoils a
      tidy manager. */
  lemma HappensKeeps(x: Snapshot, e: Event, random: nat, y: Snapshot)
    requires Kept(x.ledger) && Happens(x, e, random, y) && !Refused(x, e)
    requires e.FrameReceived? ==> e.f.retirePriorTo <= e.f.num
    ensures x.ledger.arrived <= y.ledger.arrived && forall n: nat :: Brings(e, n) ==> n in y.ledger.arrived
    ensures Tidy(x.ledger) && !Harmful(e, x.ledger) ==> Tidy(y.ledger)
    ensures !e.HandshakeToken? && y.ledger.active == 0 ==>
              x.ledger.active == 0 && y.ledger.activeToken == x.ledger.activeToken
  {
    hide Kept, Accepts, Tidy, Repeats, Rotate, StartPath, EndPath, RetireNew, OutOfDate, HasNumber, NextQueue,
         Conflicts, Inserted;
    var s := x.ledger;
    match e {
      case FrameReceived(f) => FrameKeeps(s, f, y.ledger);
      case PreferredAddress(connId, token) =>
        Counted(s, 1);
        LateNumber(s, Entry(1, connId, token));
        if Tidy(s) && s.active == s.highestProbing == 0 {
          TakeInTidy(s, Entry(1, connId, token));
        }
      case HandshakeToken(token) => TokenTidy(s, y.ledger);
      case PacketBuilt => Rotates(s);
      case PathProbed(id) => Starts(s, id);
      case PathAbandoned(id) => Ends(s, id);
      case _ =>
    }
  }

  lemma FrameKeeps(s: Ledger, f: NewConnectionId, s': Ledger)
    requires Kept(s) && Kept(s') && f.retirePriorTo <= f.num && (!OutOfDate(s, f) ==> !Conflicts(s, f))
    requires if OutOfDate(s, f) then s' == RetireNew(s, f.num) else Accepts(s, f, s')
    ensures s.arrived <= s'.arrived && f.num in s'.arrived
    ensures Tidy(s) && !Repeats(s, f) ==> Tidy(s')
    ensures s'.active == 0 ==> s.active == 0 && s'.activeToken == s.activeToken
  {
    hide Kept, Accepts, Tidy, Repeats, RetireNew, OutOfDate, Conflicts;
    FrameTakenIn(s, f, s');
    FirstStays(s, f, s');
    if Tidy(s) {
      FrameTidy(s, f, s');
    }
  }

  lemma Counted(s: Ledger, n: nat)
    requires Kept(s)
    ensures HasNumber(s.queue, n) ==> n in s.arrived
  {
    NothingLost(s, n);
  }

  /** The first connection ID is not replaced by itself. */
  lemma FirstStays(s: Ledger, f: NewConnectionId, s': Ledger)
    requires Kept(s) && f.retirePriorTo <= f.num && Kept(s')
    requires if OutOfDate(s, f) then s' == RetireNew(s, f.num) else Accepts(s, f, s')
    ensures s'.active == 0 ==> s.active == 0 && s'.activeToken == s.activeToken
  {
    hide Tallied, NextQueue, From, HasNumber, Surviving, OutOfDate;
    if !OutOfDate(s, f) {
      RetirePriorTo(s, f, s');
    }
  }

  lemma TokenTidy(s: Ledger, s': Ledger)
    requires Kept(s') && s' == s.(activeToken := s'.activeToken, added := s'.added)
    ensures Tidy(s) ==> Tidy(s')
  {
    hide Kept, Numbers, PathsWithNumber;
    assert forall n: nat :: Uses(s', n) == Uses(s, n);
  }

  lemma Rotates(s: Ledger)
    requires Kept(s)
    ensures s.queue != [] ==> Rotate(s).active > 0 && Rotate(s).arrived == s.arrived && (Tidy(s) ==> Tidy(Rotate(s)))
  {
    hide Tallied, Tidy;
    if s.queue != [] {
      FrontNotRetired(s);
      RotateKept(s);
      if Tidy(s) {
        RotateTidy(s);
      }
    }
  }

  lemma Starts(s: Ledger, k: nat)
    requires Kept(s)
    ensures s.queue != [] && k !in s.probing ==>
              var s' := StartPath(s, k);
              s'.arrived == s.arrived && s'.active == s.active && s'.activeToken == s.activeToken
              && (Tidy(s) ==> Tidy(s'))
  {
    hide Kept, Tidy;
    if s.queue != [] && k !in s.probing && Tidy(s) {
      StartPathTidy(s, k);
    }
  }

  lemma Ends(s: Ledger, k: nat)
    requires Kept(s)
    ensures k in s.probing ==>
              var s' := EndPath(s, k);
              s'.arrived == s.arrived && s'.active == s.active && s'.activeToken == s.activeToken
              && (Tidy(s) ==> Tidy(s'))
  {
    hide Kept, Tidy;
    if k in s.probing && Tidy(s) {
      EndPathTidy(s, k);
    }
  }

  /** The manager as it is new. */
  ghost function NewSnapshot(initial: ConnId): Snapshot {
    Snapshot(Ledger([], 0, None, 0, 0, map[], multiset{0}, multiset{}, multiset{}, multiset{}), initial, false, 0, 0)
  }

  /** The states that the events lead through, as long as none of them is refused. */
  ghost predicate IsRun(initial: ConnId, events: seq<Event>, random: nat -> nat, states: seq<Snapshot>) {
    && 0 < |states| <= |events| + 1 && states[0] == NewSnapshot(initial)
    && forall i :: 0 <= i < |states| - 1 ==>
         !Refused(states[i], events[i]) && Happens(states[i], events[i], random(i), states[i + 1])
  }

  /** None of the first `n` events is a harmful frame in the state that it finds. */
  ghost predicate Harmless(events: seq<Event>, states: seq<Snapshot>, n: nat) {
    n <= |events| && n <= |states| && forall i :: 0 <= i < n ==> !Harmful(events[i], states[i].ledger)
  }

  /** The handshake token is set at most once, and Retire Prior To is not above the sequence number. */
  ghost predicate Possible(events: seq<Event>) {
    && (forall i :: 0 <= i < |events| && events[i].FrameReceived? ==> events[i].f.retirePriorTo <= events[i].f.num)
    && (forall i, j :: 0 <= i < j < |events| ==> !events[i].HandshakeToken? || !events[j].HandshakeToken?)
  }

  /** What holds in the last state of a run: order and accounts; every connection ID received is active, queued, used
      for a path or retired; and unless a harmful frame was received, it is at one place only and is not in use if it
      was retired. */
  lemma {:induction false} RunKeeps(initial: ConnId, events: seq<Event>, random: nat -> nat, states: seq<Snapshot>)
    requires Possible(events) && IsRun(initial, events, random, states)
    ensures var n := |states| - 1;
            var s := states[n].ledger;
            && Kept(s) && TakenInAll(events, n, s)
            && (Harmless(events, states, n) ==> Tidy(s))
            && ((forall j :: 0 <= j < n ==> !events[j].HandshakeToken?) && s.active == 0 ==> s.activeToken == None)
    decreases |states|
  {
    hide Kept, Tidy, Happens, Refused, Harmful, TakenInAll, NewSnapshot, Possible;
    var n := |states| - 1;
    if n == 0 {
      NewIsTidy(initial, events);
    } else {
      var before := states[..n];
      assert before[n - 1] == states[n - 1];
      RunKeeps(initial, events, random, before);
      RetiresBelow(events, n - 1);
      assert !Refused(states[n - 1], events[n - 1]) && Happens(states[n - 1], events[n - 1], random(n - 1), states[n]);
      HappensKeeps(states[n - 1], events[n - 1], random(n - 1), states[n]);
      HappensKept(states[n - 1], events[n - 1], random(n - 1), states[n]);
      OneMore(events, n - 1, states[n - 1].ledger, states[n].ledger);
    }
  }

  lemma RetiresBelow(events: seq<Event>, i: nat)
    requires Possible(events) && i < |events|
    ensures events[i].FrameReceived? ==> events[i].f.retirePriorTo <= events[i].f.num
  {
  }

  lemma HappensKept(x: Snapshot, e: Event, random: nat, y: Snapshot)
    requires Happens(x, e, random, y)
    ensures Kept(y.ledger)
  {
  }

  lemma NewIsTidy(initial: ConnId, events: seq<Event>)
    ensures Kept(NewSnapshot(initial).ledger) && Tidy(NewSnapshot(initial).ledger)
    ensures TakenInAll(events, 0, NewSnapshot(initial).ledger)
    ensures NewSnapshot(initial).ledger.activeToken == None
  {
    NoPaths();
  }

  /** Any events on a new manager: it goes through exactly the states that they prescribe, up to the first one that is
      refused. If none is, order and accounts are kept, every connection ID received is accounted for, and when the
      manager is closed no stateless reset token is left behind. */
  method Run(initial: ConnId, events: seq<Event>, random: nat -> nat)
    returns (m: ConnIdManager, ok: bool, ghost states: seq<Snapshot>)
    requires Possible(events)
    requires forall i :: random(i) < PACKETS_PER_CONNECTION_ID
    ensures fresh(m) && IsRun(initial, events, random, states)
    ensures ok <==> |states| == |events| + 1
    ensures !ok ==> |states| <= |events| && Refused(states[|states| - 1], events[|states| - 1])
    ensures ok ==> Kept(states[|events|].ledger)
    ensures ok ==>
              forall i, n: nat :: 0 <= i < |events| && Brings(events[i], n) ==> Somewhere(states[|events|].ledger, n)
    ensures ok && Harmless(events, states, |events|) ==> Single(states[|events|].ledger)
    ensures ok ==> m.closed && m.added == m.removed == states[|events|].ledger.added
  {
    hide Kept, Somewhere, TakenInAll, Tidy, Harmful, Harmless, Brings, Single, Happens, Refused, NewSnapshot, Possible;
    m := new ConnIdManager(initial);
    states := [Snap(m)];
    IsNew(initial, Snap(m));
    var i := 0;
    while i < |events|
      invariant 0 <= i <= |events| && fresh(m) && m.Valid() && |states| == i + 1 && states[i] == Snap(m)
      invariant IsRun(initial, events, random, states)
    {
      RunKeeps(initial, events, random, states);
      RetiresBelow(events, i);
      if events[i].HandshakeToken? {
        OneToken(events, i);
      }
      ok := Handle(m, events[i], random(i));
      if !ok {
        return;
      }
      states := states + [Snap(m)];
      i := i + 1;
    }
    RunKeeps(initial, events, random, states);
    ghost var s := states[i].ledger;
    forall j, n: nat | 0 <= j < |events| && Brings(events[j], n)
      ensures Somewhere(s, n)
    {
      Received(events, s, j, n);
    }
    if Tidy(s) {
      TidySingle(s);
    }
    m.Close();
    ok := true;
  }

  lemma IsNew(initial: ConnId, x: Snapshot)
    requires x.connId == initial && !x.handshakeComplete && x.packets == x.limit == 0
    requires x.ledger == Ledger([], 0, None, 0, 0, map[], multiset{0}, multiset{}, multiset{}, multiset{})
    ensures x == NewSnapshot(initial)
  {
  }

  lemma OneToken(events: seq<Event>, i: nat)
    requires Possible(events) && i < |events| && events[i].HandshakeToken?
    ensures forall j :: 0 <= j < i ==> !events[j].HandshakeToken?
  {
  }

  lemma TidySingle(s: Ledger)
    requires Tidy(s)
    ensures Single(s)
  {
  }

  /** A repeated frame that does harm, in a run from a new manager: two frames are received, a path is probed with each,
      and the first or the second frame is received again. The first one is retired while its path uses it, the second
      one is queued again. */
  method RepeatedFrame(initial: ConnId, f: NewConnectionId, g: NewConnectionId, first: bool)
    returns (m: ConnIdManager, err: Option<Error>)
    requires initial != [] && f.num == 1 && g.num == 2 && f.retirePriorTo == g.retirePriorTo == 0
    ensures fresh(m) && m.Valid() && err == None
    ensures m.activeSequenceNumber == 0 && m.pathProbing == map[10 := EntryOf(f), 11 := EntryOf(g)]
    ensures first ==> m.retired == multiset{1} && m.queue == []
    ensures !first ==> m.retired == multiset{} && m.queue == [EntryOf(g)]
  {
    hide Kept, Surviving, Accepts, Conflicts, Inserted;
    m := TwoFrames(initial, f, g);
    var _, _ := m.GetConnIdForPath(10);
    var _, _ := m.GetConnIdForPath(11);
    assert m.queue == [] && m.pathProbing == map[10 := EntryOf(f), 11 := EntryOf(g)];
    ghost var s := m.State();
    if first {
      err := m.Add(f, 0);
    } else {
      NoConflict(s, g);
      InsertedLast([], EntryOf(g));
      err := m.Add(g, 0);
      PlainAdd(s, g, m.State());
    }
  }

  method TwoFrames(initial: ConnId, f: NewConnectionId, g: NewConnectionId) returns (m: ConnIdManager)
    requires initial != [] && f.num == 1 && g.num == 2 && f.retirePriorTo == g.retirePriorTo == 0
    ensures fresh(m) && m.Valid() && m.activeConnectionId == initial && m.activeSequenceNumber == 0
    ensures m.queue == [EntryOf(f), EntryOf(g)] && m.pathProbing == map[] && m.retired == multiset{}
    ensures m.highestRetired == 0
  {
    hide Kept, Surviving, Accepts, Conflicts, Inserted;
    var e, e' := EntryOf(f), EntryOf(g);
    m := new ConnIdManager(initial);
    ghost var s := m.State();
    NoConflict(s, f);
    InsertedLast([], e);
    var _ := m.Add(f, 0);
    PlainAdd(s, f, m.State());
    assert m.queue == [e];
    s := m.State();
    NoConflict(s, g);
    InsertedLast([e], e');
    var _ := m.Add(g, 0);
    PlainAdd(s, g, m.State());
    assert m.queue == [e, e'];
  }

  lemma InsertedLast(q: seq<Entry>, e: Entry)
    requires forall i :: 0 <= i < |q| ==> q[i].num < e.num
    ensures Inserted(q, e) == q + [e]
  {
    InsertedAt(q, e, |q|);
  }

  lemma NoConflict(s: Ledger, f: NewConnectionId)
    requires forall i :: 0 <= i < |s.queue| ==> s.queue[i].num != f.num
    ensures !Conflicts(s, f) && !HasNumber(s.queue, f.num)
  {
  }

  /** A frame that retires nothing. */
  lemma PlainAdd(s: Ledger, f: NewConnectionId, s': Ledger)
    requires Kept(s) && Kept(s') && Accepts(s, f, s') && f.retirePriorTo == 0
    ensures s'.retired == s.retired && s'.probing == s.probing && s'.active == s.active
    ensures s'.highestProbing == s.highestProbing
    ensures s'.highestRetired == s.highestRetired
    ensures s'.queue == if f.num == s.active then s.queue else Inserted(s.queue, EntryOf(f))
  {
    hide Kept, Inserted, Surviving, HasNumber, Uses, Retained, From;
    RetainedFrom(s.queue, 0);
    FromZero(s.queue);
    NoPathToRetire(s.probing);
    forall n: nat
      ensures s'.retired[n] == s.retired[n]
    {
      Accounted(s, n);
      Accounted(s', n);
      UsesUnchanged(s, f, s', n);
    }
  }

  lemma FromZero(q: seq<Entry>)
    ensures From(q, 0)
  {
  }

  /** A number of the past: the first connection ID was replaced by number 1, and then a preferred address is added,
      which has this number as well. The order is spoiled. */
  method LatePreferredAddress(initial: ConnId, f: NewConnectionId, connId: ConnId, token: Token)
    returns (m: ConnIdManager, ok: bool)
    requires initial != [] && f.num == 1 && f.retirePriorTo == 0
    ensures fresh(m) && ok && m.activeSequenceNumber == 1 && m.queue == [Entry(1, connId, token)] && !m.Valid()
  {
    hide Kept, Surviving, Accepts, Conflicts, Inserted;
    m := new ConnIdManager(initial);
    ghost var s := m.State();
    NoConflict(s, f);
    InsertedLast([], EntryOf(f));
    var _ := m.Add(f, 0);
    PlainAdd(s, f, m.State());
    assert m.queue == [EntryOf(f)];
    m.SetHandshakeComplete();
    var _ := m.Get(0);
    assert m.queue == [] && m.activeSequenceNumber == 1;
    InsertedLast([], Entry(1, connId, token));
    ok := m.AddFromPreferredAddress(connId, token);
  }

  /** A second handshake token: the first one is not removed, and its account is never balanced. */
  method TwoHandshakeTokens(initial: ConnId, first: Token, second: Token) returns (m: ConnIdManager)
    ensures fresh(m) && m.added == multiset{first, second} && m.removed == multiset{} && m.activeToken == Some(second)
    ensures !m.Valid()
  {
    m := new ConnIdManager(initial);
    m.SetStatelessResetToken(first);
    m.SetStatelessResetToken(second);
  }
}
