/** Where the connection IDs and reset tokens of a manager come from. */
module ConnIdOrigins {
  import opened Protocol
  import opened ConnIdLedger
  import opened ConnIdManagers
  import opened ConnIdRuns

  /** The event brings this connection ID with this token under this number. */
  predicate Announces(e: Event, num: nat, connId: ConnId, token: Token) {
    match e
    case FrameReceived(f) => f.num == num && f.connId == connId && f.token == token
    case PreferredAddress(id, t) => num == 1 && id == connId && t == token
    case _ => false
  }

  /** One of the first `n` events has brought it. */
  ghost predicate Announced(events: seq<Event>, n: nat, num: nat, connId: ConnId, token: Token) {
    exists i :: 0 <= i < n && i < |events| && Announces(events[i], num, connId, token)
  }

  /** The connection ID chosen by the handshake: the one given last. */
  function Chosen(initial: ConnId, events: seq<Event>, n: nat): ConnId
    requires n <= |events|
  {
    if n == 0 then initial
    else if events[n - 1].InitialIdChanged? then events[n - 1].connId
    else Chosen(initial, events, n - 1)
  }

  /** The token of the handshake, if it was set. */
  function TokenOfHandshake(events: seq<Event>, n: nat): Option<Token>
    requires n <= |events|
  {
    if n == 0 then None
    else if events[n - 1].HandshakeToken? then Some(events[n - 1].token)
    else TokenOfHandshake(events, n - 1)
  }

  /** The active connection ID and its token were brought under the active number, or stem from the handshake. */
  ghost predicate ActiveFrom(initial: ConnId, events: seq<Event>, n: nat, x: Snapshot)
    requires n <= |events|
  {
    var active, token := x.ledger.active, x.ledger.activeToken;
    if active == 0 then
      x.connId == Chosen(initial, events, n) && token == TokenOfHandshake(events, n)
    else
      token.Some? && Announced(events, n, active, x.connId, token.value)
  }

  ghost predicate EntriesFrom(events: seq<Event>, n: nat, q: seq<Entry>) {
    forall i :: 0 <= i < |q| ==> Announced(events, n, q[i].num, q[i].connId, q[i].token)
  }

  ghost predicate PathsFrom(events: seq<Event>, n: nat, m: Probing) {
    forall k :: k in m ==> Announced(events, n, m[k].num, m[k].connId, m[k].token)
  }

  ghost predicate TokenFrom(events: seq<Event>, n: nat, token: Token) {
    || (exists i :: 0 <= i < n && i < |events| && events[i] == HandshakeToken(token))
    || exists num, connId :: Announced(events, n, num, connId, token)
  }

  ghost predicate TokensFrom(events: seq<Event>, n: nat, added: multiset<Token>) {
    forall token :: token in added ==> TokenFrom(events, n, token)
  }

  /** Nothing is made up or mixed up: whatever is active, queued or used for a path under a number is what an event has
      brought under this number, and every token that was added is one that was brought. */
  ghost predicate Genuine(initial: ConnId, events: seq<Event>, n: nat, x: Snapshot)
    requires n <= |events|
  {
    && ActiveFrom(initial, events, n, x)
    && EntriesFrom(events, n, x.ledger.queue) && PathsFrom(events, n, x.ledger.probing)
    && TokensFrom(events, n, x.ledger.added)
  }

  lemma AnnouncedStill(events: seq<Event>, n: nat, num: nat, connId: ConnId, token: Token)
    requires Announced(events, n, num, connId, token)
    ensures Announced(events, n + 1, num, connId, token)
  {
    var i :| 0 <= i < n && i < |events| && Announces(events[i], num, connId, token);
    assert i < n + 1 && Announces(events[i], num, connId, token);
  }

  lemma AnnouncedNow(events: seq<Event>, n: nat, num: nat, connId: ConnId, token: Token)
    requires n < |events| && Announces(events[n], num, connId, token)
    ensures Announced(events, n + 1, num, connId, token)
  {
    assert n < n + 1 && Announces(events[n], num, connId, token);
  }

  /** One more event takes nothing away. */
  lemma PartsStill(events: seq<Event>, n: nat, s: Ledger)
    requires EntriesFrom(events, n, s.queue) && PathsFrom(events, n, s.probing) && TokensFrom(events, n, s.added)
    ensures EntriesFrom(events, n + 1, s.queue) && PathsFrom(events, n + 1, s.probing)
    ensures TokensFrom(events, n + 1, s.added)
  {
    hide Announced;
    forall num, connId, token | Announced(events, n, num, connId, token)
      ensures Announced(events, n + 1, num, connId, token)
    {
      AnnouncedStill(events, n, num, connId, token);
    }
    forall token | token in s.added
      ensures TokenFrom(events, n + 1, token)
    {
      assert TokenFrom(events, n, token);
      if num, connId :| Announced(events, n, num, connId, token) {
        assert Announced(events, n + 1, num, connId, token);
      }
    }
  }

  /** An event that is not part of the handshake. */
  lemma GenuineStill(initial: ConnId, events: seq<Event>, n: nat, x: Snapshot)
    requires n < |events| && Genuine(initial, events, n, x)
    requires !events[n].InitialIdChanged? && !events[n].HandshakeToken?
    ensures Genuine(initial, events, n + 1, x)
  {
    hide Announced, EntriesFrom, PathsFrom, TokensFrom;
    PartsStill(events, n, x.ledger);
    if x.ledger.active != 0 {
      AnnouncedStill(events, n, x.ledger.active, x.connId, x.ledger.activeToken.value);
    }
  }

  /** The first queued connection ID becomes active, or is used for a path: its token is added. */
  lemma TokenAdded(events: seq<Event>, n: nat, added: multiset<Token>, q: seq<Entry>)
    requires TokensFrom(events, n, added) && EntriesFrom(events, n, q) && q != []
    ensures TokensFrom(events, n, added + multiset{q[0].token})
    ensures Announced(events, n, q[0].num, q[0].connId, q[0].token) && EntriesFrom(events, n, q[1..])
  {
    hide Announced;
    forall token | token in added + multiset{q[0].token}
      ensures TokenFrom(events, n, token)
    {
      if token == q[0].token {
        assert Announced(events, n, q[0].num, q[0].connId, token);
      } else {
        assert token in added;
      }
    }
  }

  /** What is inserted or retained is what was there, or the new entry. */
  lemma InsertedFrom(events: seq<Event>, n: nat, q: seq<Entry>, e: Entry)
    requires EntriesFrom(events, n, q) && Announced(events, n, e.num, e.connId, e.token)
    ensures EntriesFrom(events, n, Inserted(q, e))
  {
    hide Announced;
    forall x | x in Inserted(q, e)
      ensures Announced(events, n, x.num, x.connId, x.token)
    {
      InsertedOnly(q, e, x);
      if x != e {
        var i :| 0 <= i < |q| && q[i] == x;
      }
    }
  }

  lemma {:induction false} InsertedOnly(q: seq<Entry>, e: Entry, x: Entry)
    requires x in Inserted(q, e)
    ensures x == e || x in q
  {
    if q != [] && q[0].num < e.num && x != q[0] {
      InsertedOnly(q[1..], e, x);
    }
  }

  lemma RetainedFrom(events: seq<Event>, n: nat, q: seq<Entry>, low: nat)
    requires EntriesFrom(events, n, q)
    ensures EntriesFrom(events, n, Retained(q, low))
  {
    hide Announced;
    RetainedEntries(q, low);
    forall i | 0 <= i < |Retained(q, low)|
      ensures var x := Retained(q, low)[i]; Announced(events, n, x.num, x.connId, x.token)
    {
      var x := Retained(q, low)[i];
      assert x in Retained(q, low) && x in q;
      var j :| 0 <= j < |q| && q[j] == x;
    }
  }

  lemma NextQueueFrom(events: seq<Event>, n: nat, s: Ledger, f: NewConnectionId)
    requires EntriesFrom(events, n, s.queue) && Announced(events, n, f.num, f.connId, f.token)
    ensures EntriesFrom(events, n, NextQueue(s, f))
  {
    hide Announced, EntriesFrom, Inserted, Retained;
    RetainedFrom(events, n, s.queue, f.retirePriorTo);
    if f.num != s.active {
      InsertedFrom(events, n, Retained(s.queue, f.retirePriorTo), EntryOf(f));
    }
  }

  lemma FrameGenuine(initial: ConnId, events: seq<Event>, n: nat, x: Snapshot, f: NewConnectionId, random: nat,
                     y: Snapshot)
    requires n <= |events| && Genuine(initial, events, n, x) && Announced(events, n, f.num, f.connId, f.token)
    requires Kept(x.ledger) && Happens(x, FrameReceived(f), random, y) && f.retirePriorTo <= f.num
    ensures Genuine(initial, events, n, y)
  {
    hide Announced, EntriesFrom, TokensFrom, OutOfDate, NextQueue, Kept, Chosen, TokenOfHandshake;
    if !OutOfDate(x.ledger, f) {
      NextQueueFrom(events, n, x.ledger, f);
      NextQueueFacts(x.ledger, f);
      var q := NextQueue(x.ledger, f);
      if x.ledger.active < f.retirePriorTo {
        TokenAdded(events, n, x.ledger.added, q);
      }
    }
  }

  lemma HandshakeGenuine(initial: ConnId, events: seq<Event>, n: nat, x: Snapshot, random: nat, y: Snapshot)
    requires n < |events| && Genuine(initial, events, n, x) && Happens(x, events[n], random, y)
    requires (events[n].HandshakeToken? || events[n].InitialIdChanged?) && !Refused(x, events[n])
    ensures Genuine(initial, events, n + 1, y)
  {
    hide Announced, Kept, EntriesFrom, PathsFrom;
    PartsStill(events, n, x.ledger);
    if events[n].HandshakeToken? {
      assert TokenFrom(events, n + 1, events[n].token);
      forall token | token in y.ledger.added
        ensures TokenFrom(events, n + 1, token)
      {
        if token != events[n].token {
          assert token in x.ledger.added;
        }
      }
    }
  }

  /** A connection ID is taken from the front of the queue, or a path ends. */
  lemma QueueGenuine(initial: ConnId, events: seq<Event>, n: nat, x: Snapshot, e: Event, random: nat, y: Snapshot)
    requires n <= |events| && Genuine(initial, events, n, x) && Kept(x.ledger) && Happens(x, e, random, y)
    requires e.PacketBuilt? || e.PathProbed? || e.PathAbandoned?
    ensures Genuine(initial, events, n, y)
  {
    hide Announced, EntriesFrom, TokensFrom, Kept, Chosen, TokenOfHandshake;
    var q := x.ledger.queue;
    if q != [] {
      TokenAdded(events, n, x.ledger.added, q);
      FrontPositive(x.ledger);
    }
  }

  lemma FrontPositive(s: Ledger)
    requires Kept(s) && s.queue != []
    ensures s.queue[0].num > 0
  {
    hide NumbersKept, TokensKept, Numbers;
  }

  lemma PreferredGenuine(initial: ConnId, events: seq<Event>, n: nat, x: Snapshot, connId: ConnId, token: Token,
                         random: nat, y: Snapshot)
    requires n <= |events| && Genuine(initial, events, n, x) && Announced(events, n, 1, connId, token)
    requires Happens(x, PreferredAddress(connId, token), random, y)
    ensures Genuine(initial, events, n, y)
  {
    hide Announced, EntriesFrom, TokensFrom, Kept, Chosen, TokenOfHandshake, Inserted;
    InsertedFrom(events, n, x.ledger.queue, Entry(1, connId, token));
  }

  lemma EventGenuine(initial: ConnId, events: seq<Event>, n: nat, x: Snapshot, random: nat, y: Snapshot)
    requires n < |events| && Genuine(initial, events, n, x) && Kept(x.ledger)
    requires !Refused(x, events[n]) && Happens(x, events[n], random, y)
    requires events[n].FrameReceived? ==> events[n].f.retirePriorTo <= events[n].f.num
    ensures Genuine(initial, events, n + 1, y)
  {
    hide Announced, Genuine, Kept, Refused, Accepts, RetireNew, Rotate, StartPath, EndPath, TakeIn, OutOfDate,
         NextQueue;
    if !events[n].InitialIdChanged? && !events[n].HandshakeToken? {
      GenuineStill(initial, events, n, x);
    }
    match events[n] {
      case FrameReceived(f) =>
        AnnouncedNow(events, n, f.num, f.connId, f.token);
        FrameGenuine(initial, events, n + 1, x, f, random, y);
      case PreferredAddress(connId, token) =>
        AnnouncedNow(events, n, 1, connId, token);
        PreferredGenuine(initial, events, n + 1, x, connId, token, random, y);
      case HandshakeToken(_) => HandshakeGenuine(initial, events, n, x, random, y);
      case InitialIdChanged(_) => HandshakeGenuine(initial, events, n, x, random, y);
      case PacketSent => SameLedger(initial, events, n + 1, x, y);
      case HandshakeCompleted => SameLedger(initial, events, n + 1, x, y);
      case _ => QueueGenuine(initial, events, n + 1, x, events[n], random, y);
    }
  }

  lemma SameLedger(initial: ConnId, events: seq<Event>, n: nat, x: Snapshot, y: Snapshot)
    requires n <= |events| && Genuine(initial, events, n, x) && y.ledger == x.ledger && y.connId == x.connId
    ensures Genuine(initial, events, n, y)
  {
  }

  /** For every run: the connection ID that packets are sent to, those that are queued and those used for paths are what
      the peer announced under their numbers, and so are the reset tokens that were added. */
  lemma {:induction false} RunGenuine(initial: ConnId, events: seq<Event>, random: nat -> nat, states: seq<Snapshot>)
    requires Possible(events) && IsRun(initial, events, random, states)
    ensures Genuine(initial, events, |states| - 1, states[|states| - 1])
    decreases |states|
  {
    hide Genuine, Happens, Refused, Kept, Possible, NewSnapshot, TakenInAll, Harmless;
    var n := |states| - 1;
    if n == 0 {
      NewGenuine(initial, events);
    } else {
      var before := states[..n];
      assert before[n - 1] == states[n - 1];
      RunGenuine(initial, events, random, before);
      RunKeeps(initial, events, random, before);
      RetiresBelow(events, n - 1);
      assert !Refused(states[n - 1], events[n - 1]) && Happens(states[n - 1], events[n - 1], random(n - 1), states[n]);
      EventGenuine(initial, events, n - 1, states[n - 1], random(n - 1), states[n]);
    }
  }

  lemma NewGenuine(initial: ConnId, events: seq<Event>)
    ensures Genuine(initial, events, 0, NewSnapshot(initial))
  {
  }
}
