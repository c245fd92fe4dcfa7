/** quic-go-bbr/conn_id_manager.go: the connection IDs that the peer has issued. */
module ConnIdManagers {
  import opened Protocol
  import opened ConnIdLedger

  const MAX_ACTIVE_CONNECTION_IDS := 4
  const PACKETS_PER_CONNECTION_ID := 10000

  datatype Error = ZeroLengthInUse | Conflict | LimitExceeded

  class ConnIdManager {
    var queue: seq<Entry>
    var highestProbingId: nat
    var pathProbing: Probing
    var handshakeComplete: bool
    var activeSequenceNumber: nat
    var highestRetired: nat
    var activeConnectionId: ConnId
    var activeToken: Option<Token>
    var packetsSinceLastChange: nat
    var packetsPerConnectionId: nat
    var closed: bool

    /** The RETIRE_CONNECTION_ID frames queued, and the stateless reset tokens added and removed through the callbacks.
        */
    var retired: multiset<nat>
    var added: multiset<Token>
    var removed: multiset<Token>

    /** The sequence numbers taken in: all those received, except for repetitions of one that is active or queued. */
    ghost var arrived: multiset<nat>

    ghost function State(): Ledger
      reads this
    {
      Ledger(queue, activeSequenceNumber, activeToken, highestRetired, highestProbingId, pathProbing, arrived, retired,
             added, removed)
    }

    ghost predicate Valid()
      reads this
    {
      !closed && Kept(State())
    }

    constructor (initial: ConnId)
      ensures Valid()
      ensures activeSequenceNumber == 0 && activeConnectionId == initial && queue == [] && pathProbing == map[]
      ensures activeToken == None
      ensures !handshakeComplete && packetsSinceLastChange == packetsPerConnectionId == 0
      ensures arrived == multiset{0} && retired == multiset{} && added == removed == multiset{}
      ensures highestProbingId == highestRetired == 0
    {
      queue, highestProbingId, pathProbing, handshakeComplete := [], 0, map[], false;
      activeSequenceNumber, highestRetired, activeConnectionId, activeToken := 0, 0, initial, None;
      packetsSinceLastChange, packetsPerConnectionId, closed := 0, 0, false;
      retired, added, removed, arrived := multiset{}, multiset{}, multiset{}, multiset{0};
      new;
      NoPaths();
    }

    /** updateConnectionID, with the random number that it draws. The queue is not empty. */
    method UpdateConnectionId(random: nat)
      requires !closed && Tallied(State()) && queue != [] && highestRetired <= queue[0].num
      requires random < PACKETS_PER_CONNECTION_ID
      modifies this`queue, this`retired, this`highestRetired, this`removed, this`added, this`activeSequenceNumber,
               this`activeConnectionId, this`activeToken, this`packetsSinceLastChange, this`packetsPerConnectionId
      ensures State() == Rotate(old(State())) && activeConnectionId == old(queue)[0].connId
      ensures packetsSinceLastChange == 0 && packetsPerConnectionId == PACKETS_PER_CONNECTION_ID / 2 + random
      ensures activeSequenceNumber > old(activeSequenceNumber)
      ensures Valid()
    {
      hide Tallied;
      RotateKept(State());
      RetireActive();
      var front := queue[0];
      queue := queue[1..];
      Activate(front, PACKETS_PER_CONNECTION_ID / 2 + random);
    }

    /** The active connection ID is retired. */
    method RetireActive()
      modifies this`retired, this`highestRetired, this`removed
      ensures retired == old(retired) + multiset{activeSequenceNumber}
      ensures highestRetired == Max(old(highestRetired), activeSequenceNumber)
      ensures removed == if activeToken.Some? then old(removed) + multiset{activeToken.value} else old(removed)
    {
      retired := retired + multiset{activeSequenceNumber};
      highestRetired := Max(highestRetired, activeSequenceNumber);
      if activeToken.Some? {
        removed := removed + multiset{activeToken.value};
      }
    }

    /** Another connection ID becomes the active one. */
    method Activate(front: Entry, packets: nat)
      modifies this`added, this`activeSequenceNumber, this`activeConnectionId, this`activeToken,
               this`packetsSinceLastChange, this`packetsPerConnectionId
      ensures activeSequenceNumber == front.num && activeConnectionId == front.connId
      ensures activeToken == Some(front.token)
      ensures packetsSinceLastChange == 0 && packetsPerConnectionId == packets
      ensures added == old(added) + multiset{front.token}
    {
      activeSequenceNumber, activeConnectionId, activeToken := front.num, front.connId, Some(front.token);
      packetsSinceLastChange, packetsPerConnectionId := 0, packets;
      added := added + multiset{front.token};
    }
  
    /** Retires the connection IDs of paths. */
    method RetirePaths(retirePriorTo: nat)
      requires Tallied(State())
      modifies this`pathProbing, this`retired, this`removed
      ensures pathProbing == Surviving(old(pathProbing), retirePriorTo)
      ensures Tallied(State())
    {
      hide Tallied;
      var keys := pathProbing.Keys;
      while keys != {}
        modifies this`pathProbing, this`retired, this`removed
        invariant Tallied(State()) && keys <= pathProbing.Keys
        invariant forall k :: k in pathProbing <==>
                  k in old(pathProbing) && (k in keys || old(pathProbing)[k].num >= retirePriorTo)
        invariant forall k :: k in pathProbing ==> pathProbing[k] == old(pathProbing)[k]
        decreases keys
      {
        var k :| k in keys;
        keys := keys - {k};
        if pathProbing[k].num < retirePriorTo {
          EndPathTallied(State(), k);
          retired, removed := retired + multiset{pathProbing[k].num}, removed + multiset{pathProbing[k].token};
          pathProbing := pathProbing - {k};
        }
      }
      assert pathProbing == Surviving(old(pathProbing), retirePriorTo);
    }

    /** Retires queued connection IDs. */
    method RetireQueued(retirePriorTo: nat)
      requires Tallied(State())
      modifies this`queue, this`retired, this`highestRetired
      ensures queue == Retained(old(queue), retirePriorTo) && highestRetired == retirePriorTo
      ensures Tallied(State()) && From(queue, retirePriorTo)
    {
      hide NumbersKept, TokensKept, Ordered, Numbers, From, Retained;
      ghost var s := State();
      var newQueue: seq<Entry>, i := [], 0;
      assert queue[..0] == [] && newQueue + queue[0..] == queue;
      RetainedNothing(retirePriorTo);
      while i < |queue|
        modifies this`retired
        invariant 0 <= i <= |queue| && newQueue == Retained(queue[..i], retirePriorTo)
        invariant NumbersKept(arrived, retired, activeSequenceNumber, Numbers(newQueue + queue[i..]), pathProbing)
      {
        RetainedNext(State(), newQueue, queue[i..], retirePriorTo);
        assert queue[i..][1..] == queue[i + 1..] && queue[..i + 1] == queue[..i] + [queue[i]];
        RetainedSnoc(queue[..i], queue[i], retirePriorTo);
        if queue[i].num >= retirePriorTo {
          newQueue := newQueue + [queue[i]];
        } else {
          retired := retired + multiset{queue[i].num};
        }
        i := i + 1;
      }
      assert newQueue + queue[i..] == newQueue && queue[..i] == queue;
      queue := newQueue;
      highestRetired := retirePriorTo;
      RetainedTallied(s, State(), retirePriorTo);
    }

    /** addConnectionID */
    method AddConnectionId(e: Entry) returns (ok: bool)
      requires Sorted(queue)
      modifies this`queue, this`arrived
      ensures ok <==> forall i :: 0 <= i < |old(queue)| && old(queue)[i].num == e.num ==> old(queue)[i] == e
      ensures State() == if ok then TakeIn(old(State()), e) else old(State())
      ensures old(Tallied(State())) && e.num > activeSequenceNumber && e.num >= highestProbingId ==> Tallied(State())
    {
      hide Tallied, Inserted;
      if |queue| == 0 || queue[|queue| - 1].num < e.num {
        Place(e, |queue|);
        assert queue[..|queue|] + [e] + queue[|queue|..] == queue + [e];
        queue, arrived := queue + [e], arrived + multiset{e.num};
        return true;
      }
      var i := 0;
      while i < |queue|
        invariant 0 <= i < |queue| && forall j :: 0 <= j < i ==> queue[j].num < e.num
      {
        if queue[i].num == e.num {
          Place(e, i);
          ok := queue[i].connId == e.connId && queue[i].token == e.token;
          return;
        }
        if queue[i].num > e.num {
          Place(e, i);
          queue, arrived := queue[..i] + [e] + queue[i..], arrived + multiset{e.num};
          return true;
        }
        i := i + 1;
      }
      assert false;
    }

    lemma Place(e: Entry, i: nat)
      requires Sorted(queue)
      requires i <= |queue| && (forall j :: 0 <= j < i ==> queue[j].num < e.num)
      requires i == |queue| || queue[i].num >= e.num
      ensures Tallied(State()) && e.num > activeSequenceNumber && e.num >= highestProbingId ==>
                Tallied(TakeIn(State(), e))
      ensures HasNumber(queue, e.num) <==> i < |queue| && queue[i].num == e.num
      ensures Inserted(queue, e) == if HasNumber(queue, e.num) then queue else queue[..i] + [e] + queue[i..]
    {
      hide Tallied;
      if Tallied(State()) && e.num > activeSequenceNumber && e.num >= highestProbingId {
        TakeInTallied(State(), e, i);
      }
      InsertedOrder(queue, e, i, 0);
    }

    /** What becomes of the active connection ID and of the packets counted since it was changed. */
    ghost predicate Changed(rotated: bool, front: ConnId, random: nat, connId: ConnId, packets: nat, limit: nat)
      reads this
    {
      if rotated then
        activeConnectionId == front && packetsSinceLastChange == 0
        && packetsPerConnectionId == PACKETS_PER_CONNECTION_ID / 2 + random
      else
        activeConnectionId == connId && packetsSinceLastChange == packets && packetsPerConnectionId == limit
    }

    /** What a frame has brought is queued under its number, or is active. */
    ghost predicate Holds(f: NewConnectionId)
      reads this
    {
      || HasFrame(queue, f)
      || (activeSequenceNumber == f.num && activeConnectionId == f.connId && activeToken == Some(f.token))
    }

    /** Add, with the random number that it may draw. */
    method Add(f: NewConnectionId, random: nat) returns (err: Option<Error>)
      requires Valid() && f.retirePriorTo <= f.num && random < PACKETS_PER_CONNECTION_ID
      modifies this
      ensures old(activeConnectionId) == [] ==> err == Some(ZeroLengthInUse) && State() == old(State())
      ensures old(activeConnectionId) != [] ==>
                err == if !OutOfDate(old(State()), f) && Conflicts(old(State()), f) then Some(Conflict)
                       else if |queue| >= MAX_ACTIVE_CONNECTION_IDS then Some(LimitExceeded)
                       else None
      ensures old(activeConnectionId) != [] && OutOfDate(old(State()), f) ==> State() == RetireNew(old(State()), f.num)
      ensures old(activeConnectionId) != [] && !OutOfDate(old(State()), f) && err != Some(Conflict) ==>
                Accepts(old(State()), f, State())
      ensures old(activeConnectionId) != [] && !OutOfDate(old(State()), f) && err != Some(Conflict) ==>
                f.num == old(activeSequenceNumber) || Holds(f)
      ensures err != Some(Conflict) ==> Valid()
      ensures err != Some(Conflict) ==> handshakeComplete == old(handshakeComplete)
      ensures err != Some(Conflict) ==>
                Changed(old(activeConnectionId) != [] && !OutOfDate(old(State()), f)
                        && old(activeSequenceNumber) < f.retirePriorTo,
                        Front(NextQueue(old(State()), f)), random, old(activeConnectionId), old(packetsSinceLastChange),
                        old(packetsPerConnectionId))
    {
      err := AddFrame(f, random);
      if err.Some? {
        return;
      }
      if |queue| >= MAX_ACTIVE_CONNECTION_IDS {
        return Some(LimitExceeded);
      }
    }

    /** add */
    method AddFrame(f: NewConnectionId, random: nat) returns (err: Option<Error>)
      requires Valid() && f.retirePriorTo <= f.num && random < PACKETS_PER_CONNECTION_ID
      modifies this
      ensures old(activeConnectionId) == [] ==>
                err == Some(ZeroLengthInUse) && State() == old(State()) && activeConnectionId == []
      ensures old(activeConnectionId) != [] && OutOfDate(old(State()), f) ==>
                err == None && State() == RetireNew(old(State()), f.num)
      ensures old(activeConnectionId) != [] && !OutOfDate(old(State()), f) ==>
                err == (if Conflicts(old(State()), f) then Some(Conflict) else None)
                && (err == None ==> Accepts(old(State()), f, State()))
      ensures old(activeConnectionId) != [] && !OutOfDate(old(State()), f) && err != Some(Conflict) ==>
                f.num == old(activeSequenceNumber) || Holds(f)
      ensures err != Some(Conflict) ==> Valid()
      ensures err != Some(Conflict) ==> handshakeComplete == old(handshakeComplete)
      ensures err != Some(Conflict) ==>
                Changed(old(activeConnectionId) != [] && !OutOfDate(old(State()), f)
                        && old(activeSequenceNumber) < f.retirePriorTo,
                        Front(NextQueue(old(State()), f)), random, old(activeConnectionId), old(packetsSinceLastChange),
                        old(packetsPerConnectionId))
    {
      hide Tallied, Conflicts, Accepts, NextQueue;
      ghost var s := State();
      if |activeConnectionId| == 0 {
        return Some(ZeroLengthInUse);
      }
      if f.num < Max(activeSequenceNumber, highestProbingId) || f.num < highestRetired {
        RetireNewKept(s, f.num);
        retired, arrived := retired + multiset{f.num}, arrived + multiset{f.num};
        return None;
      }
      RetireBefore(f);
      err := TakeInFrame(f, random, s);
    }

    /** The part of add behind that. */
    method TakeInFrame(f: NewConnectionId, random: nat, ghost s: Ledger) returns (err: Option<Error>)
      requires !closed && Kept(s) && Retiring(s, f, State()) && !OutOfDate(s, f)
      requires f.retirePriorTo <= f.num && random < PACKETS_PER_CONNECTION_ID
      modifies this`queue, this`arrived, this`retired, this`highestRetired, this`removed, this`added,
               this`activeSequenceNumber, this`activeConnectionId, this`activeToken, this`packetsSinceLastChange,
               this`packetsPerConnectionId
      ensures err == if Conflicts(s, f) then Some(Conflict) else None
      ensures err == None ==> Valid() && Accepts(s, f, State())
      ensures err == None && f.num != s.active ==> Holds(f)
      ensures err == None ==>
                Changed(s.active < f.retirePriorTo, Front(NextQueue(s, f)), random, old(activeConnectionId),
                        old(packetsSinceLastChange), old(packetsPerConnectionId))
    {
      hide Tallied, Conflicts, Accepts, TakeIn, Rotate, NextQueue, OutOfDate;
      if f.num == activeSequenceNumber {
        NothingToAdd(s, f, State());
        return None;
      }
      ghost var s1 := State();
      ReadyToAdd(s, f, s1);
      SortedQueue(s1);
      var ok := AddConnectionId(EntryOf(f));
      if !ok {
        return Some(Conflict);
      }
      AddedInPlace(s, f, s1);
      if activeSequenceNumber < f.retirePriorTo {
        UpdateConnectionId(random);
      }
      FrameHeld(s, f, State());
      err := None;
    }

    /** The part of add that retires what is below Retire Prior To. */
    method RetireBefore(f: NewConnectionId)
      requires Valid()
      modifies this`pathProbing, this`retired, this`removed, this`queue, this`highestRetired
      ensures Retiring(old(State()), f, State())
    {
      hide Tallied;
      ghost var s := State();
      if f.retirePriorTo != 0 {
        RetirePaths(f.retirePriorTo);
      } else {
        NoPathToRetire(pathProbing);
      }
      if f.retirePriorTo > highestRetired {
        RetireQueued(f.retirePriorTo);
      } else {
        NothingToRetire(s, f.retirePriorTo);
      }
    }

    /** AddFromPreferredAddress: the order and the accounts are kept exactly if the number 1 is not a number of the
        past. */
    method AddFromPreferredAddress(connId: ConnId, token: Token) returns (ok: bool)
      requires Valid()
      modifies this`queue, this`arrived
      ensures ok <==>
              forall i :: 0 <= i < |old(queue)| && old(queue)[i].num == 1 ==> old(queue)[i] == Entry(1, connId, token)
      ensures State() == if ok then TakeIn(old(State()), Entry(1, connId, token)) else old(State())
      ensures Valid() <==> !ok || HasNumber(old(queue), 1) || (activeSequenceNumber == 0 && highestProbingId <= 1)
    {
      hide Tallied, Inserted;
      SortedQueue(State());
      LateNumber(State(), Entry(1, connId, token));
      ok := AddConnectionId(Entry(1, connId, token));
    }

    /** Close: no reset token is left behind. */
    method Close()
      requires Valid()
      modifies this`closed, this`removed
      ensures closed && added == removed
    {
      hide NumbersKept, TokensKept, Numbers, Ordered;
      closed := true;
      ghost var paths := pathProbing;
      TokenDropped(added, removed, activeToken, paths);
      if activeToken.Some? {
        removed := removed + multiset{activeToken.value};
      }
      var keys := pathProbing.Keys;
      while keys != {}
        modifies this`removed
        invariant keys == paths.Keys
        invariant forall k :: k in paths ==> k in pathProbing && paths[k] == pathProbing[k]
        invariant TokensKept(added, removed, None, paths)
        decreases keys
      {
        var k :| k in keys;
        keys := keys - {k};
        PathClosed(added, removed, paths, k);
        removed := removed + multiset{pathProbing[k].token};
        paths := paths - {k};
      }
      AllRemoved(added, removed, paths);
    }

    /** SetStatelessResetToken; the token of the handshake is set at most once. */
    method SetStatelessResetToken(token: Token)
      requires Valid() && activeSequenceNumber == 0
      modifies this`activeToken, this`added
      ensures State() == old(State()).(activeToken := Some(token), added := old(added) + multiset{token})
      ensures Valid() <==> old(activeToken) == None
    {
      TokenSet(added, removed, activeToken, pathProbing, token);
      activeToken, added := Some(token), added + multiset{token};
    }

    method ChangeInitialConnId(connId: ConnId)
      requires Valid() && activeSequenceNumber == 0
      modifies this`activeConnectionId
      ensures activeConnectionId == connId && Valid()
    {
      activeConnectionId := connId;
    }

    method SetHandshakeComplete()
      modifies this`handshakeComplete
      ensures handshakeComplete
    {
      handshakeComplete := true;
    }

    method SentPacket()
      modifies this`packetsSinceLastChange
      ensures packetsSinceLastChange == old(packetsSinceLastChange) + 1
    {
      packetsSinceLastChange := packetsSinceLastChange + 1;
    }

    predicate ShouldUpdateConnId()
      reads this
    {
      handshakeComplete &&
      ((|queue| > 0 && activeSequenceNumber == 0)
       || (2 * |queue| >= MAX_ACTIVE_CONNECTION_IDS && packetsSinceLastChange >= packetsPerConnectionId))
    }

    /** Get, with the random number that it may draw; there is always a connection ID to change to. */
    method Get(random: nat) returns (connId: ConnId)
      requires Valid() && random < PACKETS_PER_CONNECTION_ID
      modifies this
      ensures connId == activeConnectionId
      ensures if old(ShouldUpdateConnId()) then
                old(queue) != [] && State() == Rotate(old(State())) && connId == old(queue)[0].connId
              else State() == old(State()) && connId == old(activeConnectionId)
      ensures handshakeComplete == old(handshakeComplete)
      ensures Changed(old(ShouldUpdateConnId()), Front(old(queue)), random, old(activeConnectionId),
                      old(packetsSinceLastChange), old(packetsPerConnectionId))
      ensures activeSequenceNumber >= old(activeSequenceNumber)
      ensures Valid()
    {
      hide Tallied, Rotate;
      if ShouldUpdateConnId() {
        FrontNotRetired(State());
        UpdateConnectionId(random);
      }
      connId := activeConnectionId;
    }

    method GetConnIdForPath(id: nat) returns (connId: ConnId, ok: bool)
      requires Valid()
      modifies this`queue, this`pathProbing, this`highestProbingId, this`added
      ensures ok <==> activeConnectionId == [] || id in old(pathProbing) || old(queue) != []
      ensures ok && activeConnectionId != [] ==> id in pathProbing && connId == pathProbing[id].connId
      ensures State() == if activeConnectionId == [] || id in old(pathProbing) || old(queue) == [] then old(State())
                         else StartPath(old(State()), id)
      ensures Valid()
    {
      hide Tallied;
      if |activeConnectionId| == 0 {
        return [], true;
      }
      if id in pathProbing {
        return pathProbing[id].connId, true;
      }
      if |queue| == 0 {
        return [], false;
      }
      StartPathKept(State(), id);
      var front := queue[0];
      queue := queue[1..];
      pathProbing, highestProbingId := pathProbing[id := front], front.num;
      added := added + multiset{front.token};
      return front.connId, true;
    }

    method RetireConnIdForPath(id: nat)
      requires Valid()
      modifies this`pathProbing, this`retired, this`removed
      ensures State() == if activeConnectionId == [] || id !in old(pathProbing) then old(State())
                         else EndPath(old(State()), id)
      ensures Valid()
    {
      hide Tallied;
      if |activeConnectionId| == 0 {
        return;
      }
      if id !in pathProbing {
        return;
      }
      EndPathTallied(State(), id);
      retired, removed := retired + multiset{pathProbing[id].num}, removed + multiset{pathProbing[id].token};
      pathProbing := pathProbing - {id};
    }

    /** IsActiveStatelessResetToken: exactly the tokens that were added and not removed. */
    method IsActiveStatelessResetToken(token: Token) returns (active: bool)
      requires Valid()
      ensures active <==> added[token] > removed[token]
    {
      hide NumbersKept, Numbers, Ordered, PathsWithToken;
      assert TokensKept(added, removed, activeToken, pathProbing);
      TokenInUse(pathProbing, token);
      if activeToken.Some? && activeToken.value == token {
        return true;
      }
      var keys := pathProbing.Keys;
      while keys != {}
        invariant keys <= pathProbing.Keys
        invariant forall k :: k in pathProbing && k !in keys ==> pathProbing[k].token != token
        decreases keys
      {
        var k :| k in keys;
        if pathProbing[k].token == token {
          return true;
        }
        keys := keys - {k};
      }
      active := false;
    }
  }

  /** The connection ID of the first entry. */
  function Front(q: seq<Entry>): ConnId {
    if q == [] then [] else q[0].connId
  }

  lemma FrontNotRetired(s: Ledger)
    requires Kept(s) && s.queue != []
    ensures s.highestRetired <= s.queue[0].num
  {
  }

  lemma TokenDropped(added: multiset<Token>, removed: multiset<Token>, active: Option<Token>, probing: Probing)
    requires TokensKept(added, removed, active, probing)
    ensures TokensKept(added, if active.Some? then removed + multiset{active.value} else removed, None, probing)
  {
    hide PathsWithToken;
  }

  lemma PathClosed(added: multiset<Token>, removed: multiset<Token>, probing: Probing, k: nat)
    requires TokensKept(added, removed, None, probing) && k in probing
    ensures TokensKept(added, removed + multiset{probing[k].token}, None, probing - {k})
  {
    hide PathsWithToken, PathsWithNumber;
    PathRemoved(probing, k);
  }

  lemma AllRemoved(added: multiset<Token>, removed: multiset<Token>, probing: Probing)
    requires TokensKept(added, removed, None, probing) && probing.Keys == {}
    ensures added == removed
  {
    assert probing == map[];
    NoPaths();
  }

  lemma TokenSet(added: multiset<Token>, removed: multiset<Token>, active: Option<Token>, probing: Probing, t: Token)
    requires TokensKept(added, removed, active, probing)
    ensures TokensKept(added + multiset{t}, removed, Some(t), probing) <==> active == None
  {
    hide PathsWithToken;
    var added' := added + multiset{t};
    if active.Some? {
      assert added'[t] == added[t] + 1;
      assert active.value != t ==> added'[active.value] == added[active.value];
    }
  }

  lemma TokenInUse(m: Probing, t: Token)
    ensures PathsWithToken(m, t) > 0 <==> exists k :: k in m && m[k].token == t
  {
    if k :| k in m && m[k].token == t {
      assert k in UsersOfToken(m, t);
    }
    if PathsWithToken(m, t) > 0 {
      var k :| k in UsersOfToken(m, t);
    }
  }

  /** An entry that is inserted although its number is a number of the past spoils the order. */
  lemma LateNumber(s: Ledger, e: Entry)
    requires Kept(s)
    ensures HasNumber(s.queue, e.num) ==> TakeIn(s, e) == s
    ensures !HasNumber(s.queue, e.num) && Kept(TakeIn(s, e)) ==> e.num > s.active && e.num >= s.highestProbing
  {
    hide NumbersKept, TokensKept, Numbers, Inserted;
    InsertedOrder(s.queue, e, PlaceOf(s.queue, e.num), 0);
  }

  lemma SortedQueue(s: Ledger)
    requires Tallied(s)
    ensures Sorted(s.queue)
  {
  }

  lemma RetainedNothing(low: nat)
    ensures Retained([], low) == []
  {
  }
}
