/** quic-go-bbr/conn_id_generator.go: the connection IDs that this endpoint issues. */
module ConnIdGenerators {
  import opened Protocol
  import opened ConnIdLedger
  import opened ConnIdRegistry

  const MAX_ISSUED_CONNECTION_IDS := 6

  datatype RetireError = NotIssued | UsedOnThisPacket | GenerationFailed

  /** What the generator holds and has told others. */
  datatype Registry = Registry(
    active: map<nat, ConnId>, retiring: seq<Retiring>, initial: Option<ConnId>, highestSeq: nat, issued: seq<nat>,
    largestLimit: nat, added: multiset<ConnId>, removed: multiset<ConnId>)

  ghost predicate WellKept(s: Registry) {
    && Registered(s.added, s.removed, s.initial, s.active, Ids(s.retiring))
    && Counted(s)
    && ByTime(s.retiring)
  }

  /** Sequence numbers are issued without gaps, and never for more connection IDs than the peer stores. */
  ghost predicate Counted(s: Registry) {
    && |s.issued| == s.highestSeq
    && (forall i :: 0 <= i < |s.issued| ==> s.issued[i] == i + 1)
    && (forall k :: k in s.active ==> k <= s.highestSeq)
    && |s.active| <= Max(1, Min(s.largestLimit, MAX_ISSUED_CONNECTION_IDS))
  }

  function Issue(s: Registry, id: ConnId): Registry {
    s.(active := s.active[s.highestSeq + 1 := id], highestSeq := s.highestSeq + 1,
       issued := s.issued + [s.highestSeq + 1],
       added := s.added + multiset{id})
  }

  lemma IssueKept(s: Registry, id: ConnId)
    requires WellKept(s) && |s.active| < Max(1, Min(s.largestLimit, MAX_ISSUED_CONNECTION_IDS))
    ensures WellKept(Issue(s, id)) && |Issue(s, id).active| == |s.active| + 1
  {
    hide Registered, Ids, ByTime;
    Issued(s.added, s.removed, s.initial, s.active, Ids(s.retiring), s.highestSeq + 1, id);
    assert Issue(s, id).active.Keys == s.active.Keys + {s.highestSeq + 1};
    assert |Issue(s, id).active| == |Issue(s, id).active.Keys|;
  }

  lemma QueuedByTime(q: seq<Retiring>, c: Retiring, i: nat)
    requires ByTime(q) && i <= |q| && (forall j :: 0 <= j < i ==> q[j].t <= c.t) && (i == |q| || q[i].t > c.t)
    ensures ByTime(q[..i] + [c] + q[i..])
    ensures Ids(q[..i] + [c] + q[i..]) == Ids(q) + multiset{c.connId}
  {
    hide Ids, ByTime;
    IdsInsert(q, i, c);
    ByTimeInsert(q, c, i);
  }

  lemma ByTimeInsert(q: seq<Retiring>, c: Retiring, i: nat)
    requires ByTime(q) && i <= |q| && (forall j :: 0 <= j < i ==> q[j].t <= c.t) && (i == |q| || q[i].t > c.t)
    ensures ByTime(q[..i] + [c] + q[i..])
  {
  }

  class ConnIdGenerator {
    const connIdLen: nat
    var highestSeq: nat
    var activeSrcConnIds: map<nat, ConnId>
    var connIdsToRetire: seq<Retiring>
    var initialClientDestConnId: Option<ConnId>

    /** The sequence numbers in the NEW_CONNECTION_ID frames queued, and the connection IDs added to and removed from
        the transport. */
    var issued: seq<nat>
    var added: multiset<ConnId>
    var removed: multiset<ConnId>

    /** The largest limit that was set. */
    ghost var largestLimit: nat

    ghost function State(): Registry
      reads this
    {
      Registry(activeSrcConnIds, connIdsToRetire, initialClientDestConnId, highestSeq, issued, largestLimit, added,
               removed)
    }

    ghost predicate Valid()
      reads this
    {
      WellKept(State())
    }

    constructor (connIdLen: nat, initial: ConnId, clientDest: Option<ConnId>)
      ensures Valid()
      ensures State() == Registry(map[0 := initial], [], clientDest, 0, [], 0, added, multiset{})
    {
      this.connIdLen, highestSeq, activeSrcConnIds, connIdsToRetire := connIdLen, 0, map[0 := initial], [];
      initialClientDestConnId, issued, largestLimit, removed := clientDest, [], 0, multiset{};
      added := multiset{initial} + (if clientDest.Some? then multiset{clientDest.value} else multiset{});
      new;
      InitiallyRegistered(initial, clientDest);
    }

    /** issueNewConnID, with what the generator returns. */
    method IssueNewConnId(generated: Option<ConnId>) returns (ok: bool)
      requires Valid() && |activeSrcConnIds| < Max(1, Min(largestLimit, MAX_ISSUED_CONNECTION_IDS))
      modifies this`activeSrcConnIds, this`added, this`issued, this`highestSeq
      ensures ok == generated.Some?
      ensures State() == if ok then Issue(old(State()), generated.value) else old(State())
      ensures |activeSrcConnIds| == |old(activeSrcConnIds)| + One(ok)
      ensures Valid()
    {
      hide WellKept;
      if generated.None? {
        return false;
      }
      IssueKept(State(), generated.value);
      activeSrcConnIds, added := activeSrcConnIds[highestSeq + 1 := generated.value], added + multiset{generated.value};
      issued := issued + [highestSeq + 1];
      highestSeq := highestSeq + 1;
      ok := true;
    }

    /** SetMaxActiveConnIDs: unless the generator fails, there are then as many connection IDs as the peer stores, and
        at most six. */
    method SetMaxActiveConnIds(limit: nat, generate: nat -> Option<ConnId>) returns (ok: bool)
      requires Valid()
      modifies this`activeSrcConnIds, this`added, this`issued, this`highestSeq, this`largestLimit
      ensures connIdLen == 0 ==> ok && activeSrcConnIds == old(activeSrcConnIds)
      ensures connIdLen != 0 && ok ==>
                |activeSrcConnIds| == Max(|old(activeSrcConnIds)|, Min(limit, MAX_ISSUED_CONNECTION_IDS))
      ensures ok <== forall i :: generate(i).Some?
      ensures connIdsToRetire == old(connIdsToRetire) && initialClientDestConnId == old(initialClientDestConnId)
      ensures largestLimit == Max(old(largestLimit), limit)
      ensures Valid()
    {
      hide Registered, Ids, ByTime, Issue;
      largestLimit := Max(largestLimit, limit);
      if connIdLen == 0 {
        return true;
      }
      var i := |activeSrcConnIds|;
      while i < Min(limit, MAX_ISSUED_CONNECTION_IDS)
        modifies this`activeSrcConnIds, this`added, this`issued, this`highestSeq
        invariant Valid() && |activeSrcConnIds| == i && largestLimit == Max(old(largestLimit), limit)
        invariant i == |old(activeSrcConnIds)| || i <= Min(limit, MAX_ISSUED_CONNECTION_IDS)
        invariant i >= |old(activeSrcConnIds)|
      {
        ok := IssueNewConnId(generate(i));
        if !ok {
          return false;
        }
        i := i + 1;
      }
      ok := true;
    }

    /** queueConnIDForRetiring */
    method QueueForRetiring(connId: ConnId, expiry: int)
      requires ByTime(connIdsToRetire)
      modifies this`connIdsToRetire
      ensures ByTime(connIdsToRetire) && Ids(connIdsToRetire) == Ids(old(connIdsToRetire)) + multiset{connId}
      ensures multiset(connIdsToRetire) == multiset(old(connIdsToRetire)) + multiset{Retiring(expiry, connId)}
    {
      hide Ids;
      var i := 0;
      while i < |connIdsToRetire| && connIdsToRetire[i].t <= expiry
        invariant 0 <= i <= |connIdsToRetire| && forall j :: 0 <= j < i ==> connIdsToRetire[j].t <= expiry
      {
        i := i + 1;
      }
      QueuedByTime(connIdsToRetire, Retiring(expiry, connId), i);
      assert connIdsToRetire == connIdsToRetire[..i] + connIdsToRetire[i..];
      connIdsToRetire := connIdsToRetire[..i] + [Retiring(expiry, connId)] + connIdsToRetire[i..];
    }

    /** Retire, with what the generator returns for the replacement. */
    method Retire(num: nat, sentWithDestConnId: ConnId, expiry: int, generated: Option<ConnId>)
      returns (err: Option<RetireError>)
      requires Valid()
      modifies this`activeSrcConnIds, this`added, this`issued, this`highestSeq, this`connIdsToRetire
      ensures err == Some(NotIssued) <==> num > old(highestSeq)
      ensures err == Some(UsedOnThisPacket) <==>
              num in old(activeSrcConnIds) && old(activeSrcConnIds)[num] == sentWithDestConnId
      ensures num <= old(highestSeq) && num !in old(activeSrcConnIds) ==> err == None
      ensures err == Some(NotIssued) || err == Some(UsedOnThisPacket) || num !in old(activeSrcConnIds) ==>
                State() == old(State())
      ensures err != Some(NotIssued) && err != Some(UsedOnThisPacket) && num in old(activeSrcConnIds) ==>
                && num !in activeSrcConnIds
                && multiset(connIdsToRetire) == multiset(old(connIdsToRetire))
                   + multiset{Retiring(expiry, old(activeSrcConnIds)[num])}
                && issued == (if num == 0 || generated.None? then old(issued) else old(issued) + [old(highestSeq) + 1])
                && (err == Some(GenerationFailed) <==> num != 0 && generated.None?)
      ensures Valid()
    {
      hide Registered, Ids, ByTime;
      if num > highestSeq {
        return Some(NotIssued);
      }
      if num !in activeSrcConnIds {
        return None;
      }
      var connId := activeSrcConnIds[num];
      if connId == sentWithDestConnId {
        return Some(UsedOnThisPacket);
      }
      Retired(added, removed, initialClientDestConnId, activeSrcConnIds, Ids(connIdsToRetire), num);
      QueueForRetiring(connId, expiry);
      assert |activeSrcConnIds - {num}| == |activeSrcConnIds| - 1;
      activeSrcConnIds := activeSrcConnIds - {num};
      if num == 0 {
        return None;
      }
      var ok := IssueNewConnId(generated);
      err := if ok then None else Some(GenerationFailed);
    }

    /** SetHandshakeComplete */
    method SetHandshakeComplete(expiry: int)
      requires Valid()
      modifies this`connIdsToRetire, this`initialClientDestConnId
      ensures initialClientDestConnId == None
      ensures Ids(connIdsToRetire) == Ids(old(connIdsToRetire))
              + (if old(initialClientDestConnId).Some? then multiset{old(initialClientDestConnId).value}
                 else multiset{})
      ensures Valid()
    {
      hide Registered, Ids, ByTime;
      if initialClientDestConnId.Some? {
        HandedOver(added, removed, initialClientDestConnId, activeSrcConnIds, Ids(connIdsToRetire));
        QueueForRetiring(initialClientDestConnId.value, expiry);
        initialClientDestConnId := None;
      }
    }

    /** RemoveRetiredConnIDs: exactly those that have expired are removed, because the list is sorted. */
    method RemoveRetiredConnIds(now: int)
      requires Valid()
      modifies this`connIdsToRetire, this`removed
      ensures connIdsToRetire == Later(old(connIdsToRetire), now)
      ensures Valid()
    {
      hide Registered, Ids;
      if |connIdsToRetire| == 0 {
        return;
      }
      var q := connIdsToRetire;
      var i := 0;
      assert q[0..] == q;
      while i < |q|
        modifies this`connIdsToRetire, this`removed
        invariant 0 <= i <= |q| && connIdsToRetire == q[i..] && (forall j :: 0 <= j < i ==> q[j].t <= now)
        invariant Registered(added, removed, initialClientDestConnId, activeSrcConnIds, Ids(connIdsToRetire))
      {
        var c := q[i];
        if c.t > now {
          break;
        }
        Expired(added, removed, initialClientDestConnId, activeSrcConnIds, connIdsToRetire);
        removed := removed + multiset{c.connId};
        connIdsToRetire := connIdsToRetire[1..];
        i := i + 1;
      }
      LaterIsSuffix(q, now, i);
    }

    /** RemoveAll: no connection ID stays behind. */
    method RemoveAll()
      requires Valid()
      modifies this`removed
      ensures added == removed
    {
      hide Registered, Ids;
      if initialClientDestConnId.Some? {
        HandedOver(added, removed, initialClientDestConnId, activeSrcConnIds, Ids(connIdsToRetire));
        removed := removed + multiset{initialClientDestConnId.value};
      }
      ghost var active := activeSrcConnIds;
      var keys := activeSrcConnIds.Keys;
      while keys != {}
        modifies this`removed
        invariant keys == active.Keys
        invariant forall k :: k in active ==> k in activeSrcConnIds && active[k] == activeSrcConnIds[k]
        invariant Registered(added, removed, None, active, Ids(connIdsToRetire))
        decreases keys
      {
        var k :| k in keys;
        keys := keys - {k};
        Retired(added, removed, None, active, Ids(connIdsToRetire), k);
        removed := removed + multiset{activeSrcConnIds[k]};
        active := active - {k};
      }
      var i := 0;
      assert connIdsToRetire[0..] == connIdsToRetire;
      while i < |connIdsToRetire|
        modifies this`removed
        invariant 0 <= i <= |connIdsToRetire|
        invariant Registered(added, removed, None, active, Ids(connIdsToRetire[i..]))
      {
        Expired(added, removed, None, active, connIdsToRetire[i..]);
        assert connIdsToRetire[i..][1..] == connIdsToRetire[i + 1..];
        removed := removed + multiset{connIdsToRetire[i].connId};
        i := i + 1;
      }
      NoIds(connIdsToRetire[i..]);
      NothingLeft(added, removed, active);
    }
  }

  lemma NoIds(q: seq<Retiring>)
    requires q == []
    ensures Ids(q) == multiset{}
  {
  }

  lemma InitiallyRegistered(initial: ConnId, clientDest: Option<ConnId>)
    ensures Registered(multiset{initial} + (if clientDest.Some? then multiset{clientDest.value} else multiset{}),
                       multiset{}, clientDest, map[0 := initial], Ids([]))
  {
    forall id
      ensures |Holders(map[0 := initial], id)| == One(id == initial)
    {
      assert Holders(map[0 := initial], id) == if id == initial then {0} else {};
    }
  }
}
