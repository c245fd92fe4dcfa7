/** When the connection ID that packets are sent to is changed. */
module ConnIdChanges {
  import opened Protocol
  import opened ConnIdLedger
  import opened ConnIdManagers
  import opened ConnIdRuns

  /** How many packets were sent from event `from` on, before event `to`. */
  function Sent(events: seq<Event>, from: nat, to: nat): nat
    requires from <= to <= |events|
  {
    if from == to then 0 else Sent(events, from, to - 1) + if events[to - 1].PacketSent? then 1 else 0
  }

  ghost predicate HandshakeDone(events: seq<Event>, n: nat) {
    exists i :: 0 <= i < n && i < |events| && events[i].HandshakeCompleted?
  }

  /** Event `i` changes the active connection ID. */
  predicate ChangedBy(states: seq<Snapshot>, i: nat) {
    i + 1 < |states| && states[i + 1].ledger.active != states[i].ledger.active
  }

  /** Packets are counted from the last change on, and with each change a new limit is drawn. */
  lemma Counts(x: Snapshot, e: Event, random: nat, y: Snapshot)
    requires Kept(x.ledger) && Happens(x, e, random, y) && !Refused(x, e)
    requires e.FrameReceived? ==> e.f.retirePriorTo <= e.f.num
    ensures y.ledger.active >= x.ledger.active
    ensures y.handshakeComplete <==> x.handshakeComplete || e.HandshakeCompleted?
    ensures if y.ledger.active == x.ledger.active then
              y.packets == x.packets + (if e.PacketSent? then 1 else 0) && y.limit == x.limit
            else
              y.packets == 0 && y.limit == PACKETS_PER_CONNECTION_ID / 2 + random
  {
    hide Kept, NextQueue, OutOfDate, Inserted, Conflicts;
    match e {
      case FrameReceived(f) =>
        if !OutOfDate(x.ledger, f) {
          NextQueueFacts(x.ledger, f);
        }
      case PacketBuilt =>
        if x.ledger.queue != [] {
          FrontAbove(x.ledger);
        }
      case _ =>
    }
  }

  lemma FrontAbove(s: Ledger)
    requires Kept(s) && s.queue != []
    ensures s.queue[0].num > s.active
  {
    hide NumbersKept, TokensKept, Numbers;
  }

  lemma StepCounts(initial: ConnId, events: seq<Event>, random: nat -> nat, states: seq<Snapshot>, i: nat)
    requires Possible(events) && IsRun(initial, events, random, states) && i < |states| - 1
    ensures Kept(states[i].ledger) && !Refused(states[i], events[i])
    ensures Happens(states[i], events[i], random(i), states[i + 1])
    ensures events[i].FrameReceived? ==> events[i].f.retirePriorTo <= events[i].f.num
  {
    hide Kept, Refused, Happens, Possible, NewSnapshot, TakenInAll, Harmless;
    var before := states[..i + 1];
    assert before[i] == states[i];
    RunKeeps(initial, events, random, before);
    RetiresBelow(events, i);
  }

  lemma {:induction false} HandshakeFollows(initial: ConnId, events: seq<Event>, random: nat -> nat,
                                            states: seq<Snapshot>, n: nat)
    requires Possible(events) && IsRun(initial, events, random, states) && n < |states|
    ensures states[n].handshakeComplete <==> HandshakeDone(events, n)
  {
    hide Kept, Refused, Happens, Possible, IsRun;
    RunBegins(initial, events, random, states);
    if n > 0 {
      HandshakeFollows(initial, events, random, states, n - 1);
      StepCounts(initial, events, random, states, n - 1);
      Counts(states[n - 1], events[n - 1], random(n - 1), states[n]);
    }
  }

  lemma RunBegins(initial: ConnId, events: seq<Event>, random: nat -> nat, states: seq<Snapshot>)
    requires IsRun(initial, events, random, states)
    ensures 0 < |states| <= |events| + 1 && states[0] == NewSnapshot(initial)
    ensures !states[0].handshakeComplete && states[0].ledger.active == 0
  {
  }

  /** After the change by event `i`, as long as there is no other one. */
  lemma {:induction false} CountsFollow(initial: ConnId, events: seq<Event>, random: nat -> nat, states: seq<Snapshot>,
                                        i: nat, n: nat)
    requires Possible(events) && IsRun(initial, events, random, states) && i < n < |states|
    requires ChangedBy(states, i) && forall k :: i < k < n ==> !ChangedBy(states, k)
    ensures n <= |events| && states[n].packets == Sent(events, i + 1, n)
    ensures states[n].limit == PACKETS_PER_CONNECTION_ID / 2 + random(i) && states[n].ledger.active > 0
  {
    hide Kept, Refused, Happens, Possible, IsRun;
    RunBegins(initial, events, random, states);
    StepCounts(initial, events, random, states, n - 1);
    Counts(states[n - 1], events[n - 1], random(n - 1), states[n]);
    if n > i + 1 {
      CountsFollow(initial, events, random, states, i, n - 1);
      assert !ChangedBy(states, n - 1);
    }
  }

  /** The packets between two changes: when a packet is built, the connection ID is changed if and only if the handshake
      is complete, at least half of the connection IDs that may be held are queued, and as many packets were sent since
      the last change as were drawn then, which is between 5000 and 14999. */
  lemma ChangesAfterEnough(initial: ConnId, events: seq<Event>, random: nat -> nat, states: seq<Snapshot>, i: nat,
                           j: nat)
    requires Possible(events) && IsRun(initial, events, random, states) && i < j < |states| - 1
    requires ChangedBy(states, i) && (forall k :: i < k < j ==> !ChangedBy(states, k)) && events[j].PacketBuilt?
    ensures ChangedBy(states, j) <==>
            && HandshakeDone(events, j) && |states[j].ledger.queue| >= 2
            && Sent(events, i + 1, j) >= 5000 + random(i)
  {
    hide Kept, Refused, Possible, IsRun, Rotate;
    RunBegins(initial, events, random, states);
    CountsFollow(initial, events, random, states, i, j);
    HandshakeFollows(initial, events, random, states, j);
    PacketBuiltAt(initial, events, random, states, j);
  }

  /** The first connection ID is changed as soon as a packet is built after the handshake with another one queued. */
  lemma FirstChange(initial: ConnId, events: seq<Event>, random: nat -> nat, states: seq<Snapshot>, j: nat)
    requires Possible(events) && IsRun(initial, events, random, states) && j < |states| - 1
    requires states[j].ledger.active == 0 && events[j].PacketBuilt?
    ensures ChangedBy(states, j) <==> HandshakeDone(events, j) && states[j].ledger.queue != []
  {
    hide Kept, Refused, Possible, IsRun, Rotate;
    RunBegins(initial, events, random, states);
    HandshakeFollows(initial, events, random, states, j);
    PacketBuiltAt(initial, events, random, states, j);
  }

  lemma PacketBuiltAt(initial: ConnId, events: seq<Event>, random: nat -> nat, states: seq<Snapshot>, j: nat)
    requires Possible(events) && IsRun(initial, events, random, states) && j < |states| - 1
    requires events[j].PacketBuilt?
    ensures var x := states[j];
            ChangedBy(states, j) <==>
            && x.handshakeComplete && x.ledger.queue != []
            && (x.ledger.active == 0 || (|x.ledger.queue| >= 2 && x.packets >= x.limit))
  {
    hide Kept, Refused, Possible, IsRun;
    RunBegins(initial, events, random, states);
    StepCounts(initial, events, random, states, j);
    if states[j].ledger.queue != [] {
      FrontAbove(states[j].ledger);
    }
  }
}
