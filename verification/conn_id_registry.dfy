/** Which connection IDs are registered with the transport on which a connection was created. */
module ConnIdRegistry {
  import opened Protocol
  import opened ConnIdLedger

  /** A connection ID that is removed at time `t`. */
  datatype Retiring = Retiring(t: int, connId: ConnId)

  ghost predicate ByTime(q: seq<Retiring>) {
    forall i, j :: 0 <= i < j < |q| ==> q[i].t <= q[j].t
  }

  ghost function Ids(q: seq<Retiring>): multiset<ConnId> {
    if q == [] then multiset{} else multiset{q[0].connId} + Ids(q[1..])
  }

  ghost function Holders(m: map<nat, ConnId>, id: ConnId): set<nat> {
    set k | k in m && m[k] == id
  }

  /** The connection IDs added and not removed: the one chosen by the client until it is handed over, the active ones,
      and those that are waiting to expire. */
  ghost predicate Registered(added: multiset<ConnId>, removed: multiset<ConnId>, initial: Option<ConnId>,
                             active: map<nat, ConnId>, retiring: multiset<ConnId>)
  {
    forall id: ConnId :: added[id] == removed[id] + One(initial == Some(id)) + |Holders(active, id)| + retiring[id]
  }

  /** The connection IDs that are not due yet. */
  function Later(q: seq<Retiring>, now: int): seq<Retiring> {
    if q == [] then [] else (if q[0].t > now then [q[0]] else []) + Later(q[1..], now)
  }

  lemma {:induction false} LaterIsSuffix(q: seq<Retiring>, now: int, i: nat)
    requires ByTime(q) && i <= |q| && (forall j :: 0 <= j < i ==> q[j].t <= now) && (i == |q| || q[i].t > now)
    ensures Later(q, now) == q[i..]
  {
    if i > 0 {
      LaterIsSuffix(q[1..], now, i - 1);
    } else if q != [] {
      AllLater(q, now);
    }
  }

  lemma {:induction false} AllLater(q: seq<Retiring>, now: int)
    requires forall j :: 0 <= j < |q| ==> q[j].t > now
    ensures Later(q, now) == q
  {
    if q != [] {
      AllLater(q[1..], now);
    }
  }

  lemma {:induction false} LaterEntries(q: seq<Retiring>, now: int)
    ensures forall c :: c in Later(q, now) <==> c in q && c.t > now
  {
    if q != [] {
      LaterEntries(q[1..], now);
      assert q == [q[0]] + q[1..];
    }
  }

  lemma {:induction false} IdsConcat(a: seq<Retiring>, b: seq<Retiring>)
    ensures Ids(a + b) == Ids(a) + Ids(b)
  {
    if a == [] {
      assert a + b == b;
    } else {
      assert (a + b)[1..] == a[1..] + b;
      IdsConcat(a[1..], b);
    }
  }

  lemma IdsInsert(q: seq<Retiring>, i: nat, c: Retiring)
    requires i <= |q|
    ensures Ids(q[..i] + [c] + q[i..]) == Ids(q) + multiset{c.connId}
  {
    assert q == q[..i] + q[i..];
    IdsConcat(q[..i], q[i..]);
    IdsConcat(q[..i] + [c], q[i..]);
    IdsConcat(q[..i], [c]);
    assert [c][1..] == [];
  }

  lemma HoldersAdded(m: map<nat, ConnId>, k: nat, id: ConnId, x: ConnId)
    requires k !in m
    ensures |Holders(m[k := id], x)| == |Holders(m, x)| + One(x == id)
  {
    if x == id {
      assert Holders(m[k := id], x) == Holders(m, x) + {k};
    } else {
      assert Holders(m[k := id], x) == Holders(m, x);
    }
  }

  lemma HoldersRemoved(m: map<nat, ConnId>, k: nat, x: ConnId)
    requires k in m
    ensures |Holders(m, x)| == |Holders(m - {k}, x)| + One(x == m[k])
  {
    HoldersAdded(m - {k}, k, m[k], x);
    assert (m - {k})[k := m[k]] == m;
  }

  /** A new connection ID is issued. */
  lemma Issued(added: multiset<ConnId>, removed: multiset<ConnId>, initial: Option<ConnId>, active: map<nat, ConnId>,
               retiring: multiset<ConnId>, k: nat, id: ConnId)
    requires Registered(added, removed, initial, active, retiring) && k !in active
    ensures Registered(added + multiset{id}, removed, initial, active[k := id], retiring)
  {
    hide Holders;
    forall x
      ensures |Holders(active[k := id], x)| == |Holders(active, x)| + One(x == id)
    {
      HoldersAdded(active, k, id, x);
    }
  }

  /** An active connection ID is retired by the peer. */
  lemma Retired(added: multiset<ConnId>, removed: multiset<ConnId>, initial: Option<ConnId>, active: map<nat, ConnId>,
                retiring: multiset<ConnId>, k: nat)
    requires Registered(added, removed, initial, active, retiring) && k in active
    ensures Registered(added, removed, initial, active - {k}, retiring + multiset{active[k]})
    ensures Registered(added, removed + multiset{active[k]}, initial, active - {k}, retiring)
  {
    hide Holders;
    forall x
      ensures |Holders(active, x)| == |Holders(active - {k}, x)| + One(x == active[k])
    {
      HoldersRemoved(active, k, x);
    }
  }

  /** The connection ID chosen by the client is handed over, or removed. */
  lemma HandedOver(added: multiset<ConnId>, removed: multiset<ConnId>, initial: Option<ConnId>,
                   active: map<nat, ConnId>, retiring: multiset<ConnId>)
    requires Registered(added, removed, initial, active, retiring) && initial.Some?
    ensures Registered(added, removed, None, active, retiring + multiset{initial.value})
    ensures Registered(added, removed + multiset{initial.value}, None, active, retiring)
  {
    hide Holders;
  }

  /** A connection ID that has expired is removed. */
  lemma Expired(added: multiset<ConnId>, removed: multiset<ConnId>, initial: Option<ConnId>, active: map<nat, ConnId>,
                q: seq<Retiring>)
    requires Registered(added, removed, initial, active, Ids(q)) && q != []
    ensures Registered(added, removed + multiset{q[0].connId}, initial, active, Ids(q[1..]))
  {
    hide Holders;
  }

  lemma NothingLeft(added: multiset<ConnId>, removed: multiset<ConnId>, active: map<nat, ConnId>)
    requires Registered(added, removed, None, active, multiset{}) && active.Keys == {}
    ensures added == removed
  {
    assert forall id :: Holders(active, id) == {};
  }

  /** With unique connection IDs, an ID is registered exactly if it is at one of the three places. */
  lemma RegisteredSet(added: multiset<ConnId>, removed: multiset<ConnId>, initial: Option<ConnId>,
                      active: map<nat, ConnId>, retiring: multiset<ConnId>, id: ConnId)
    requires Registered(added, removed, initial, active, retiring)
    ensures added[id] > removed[id] <==>
            initial == Some(id) || id in retiring || exists k :: k in active && active[k] == id
    ensures added[id] <= removed[id] + 1 ==>
              forall j, k :: j in active && k in active && active[j] == id && active[k] == id ==>
                j == k && initial != Some(id) && id !in retiring
  {
    var holders := Holders(active, id);
    forall j, k | j in active && k in active && active[j] == id && active[k] == id
      ensures {j, k} <= holders && |{j, k}| <= |holders|
    {
      SubsetSize({j, k}, holders);
    }
    if |holders| > 0 {
      var k :| k in holders;
      assert k in active && active[k] == id;
    }
  }
}
