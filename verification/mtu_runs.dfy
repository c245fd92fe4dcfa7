/** Whole searches for the path MTU, against every pattern of acknowledged and lost probes. */
module MtuRuns {
  import opened Protocol
  import opened MtuDiscovery
  import opened MtuBounds

  /** Three different probes of size at most `v` are among the lost ones. */
  ghost predicate ThreeProbesLost(probes: seq<int>, lost: seq<nat>, v: int) {
    exists i: nat, j: nat, k: nat :: i in lost && j in lost && k in lost && i != j && i != k && j != k
      && i < |probes| && j < |probes| && k < |probes| && probes[i] <= v && probes[j] <= v && probes[k] <= v
  }

  /** The search stopped with `size` at most 21 below `v`, and `v` is the initial maximum or was discredited by three
      losses. */
  ghost predicate Settled(size: int, v: int, max: int, probes: seq<int>, lost: seq<nat>) {
    size <= v <= max && v - size <= MAX_MTU_DIFF + 1 && (v < max ==> ThreeProbesLost(probes, lost, v))
  }

  /** `lost` lists the indices of the lost probes in order. */
  ghost predicate Recorded(probes: seq<int>, lost: seq<nat>, outcome: (nat, int) -> bool) {
    && (forall i, j :: 0 <= i < j < |lost| ==> lost[i] < lost[j])
    && (forall i :: 0 <= i < |lost| ==> lost[i] < |probes|)
    && (forall k: nat :: k < |probes| ==> (k in lost <==> !outcome(k, probes[k])))
  }

  ghost predicate Acknowledged(probes: seq<int>, lost: seq<nat>, size: int) {
    exists k: nat :: k < |probes| && k !in lost && probes[k] == size
  }

  /** The search's own history agrees with the recorded probes. */
  ghost predicate Matches(t: Track, probes: seq<int>, lost: seq<nat>) {
    && |t.lost| == |lost| && (forall i :: 0 <= i < |lost| ==> lost[i] < |probes| && t.lost[i] == probes[lost[i]])
    && (forall size :: size in t.acked <==> Acknowledged(probes, lost, size))
  }

  lemma RecordAck(t: Track, t': Track, probes: seq<int>, lost: seq<nat>, outcome: (nat, int) -> bool, size: int)
    requires Recorded(probes, lost, outcome) && Matches(t, probes, lost) && outcome(|probes|, size)
    requires t'.lost == t.lost && t'.acked == t.acked + {size}
    ensures Recorded(probes + [size], lost, outcome) && Matches(t', probes + [size], lost)
  {
    var probes' := probes + [size];
    forall s
      ensures s in t'.acked <==> Acknowledged(probes', lost, s)
    {
      if s in t.acked {
        assert Acknowledged(probes, lost, s);
        var k: nat :| k < |probes| && k !in lost && probes[k] == s;
        assert probes'[k] == s;
      }
      assert |probes| !in lost && probes'[|probes|] == size;
    }
  }

  lemma RecordLoss(t: Track, t': Track, probes: seq<int>, lost: seq<nat>, outcome: (nat, int) -> bool, size: int)
    requires Recorded(probes, lost, outcome) && Matches(t, probes, lost) && !outcome(|probes|, size)
    requires t'.lost == t.lost + [size] && t'.acked == t.acked
    ensures Recorded(probes + [size], lost + [|probes|], outcome) && Matches(t', probes + [size], lost + [|probes|])
  {
    var probes', lost' := probes + [size], lost + [|probes|];
    assert forall k: nat :: k in lost' <==> k in lost || k == |probes|;
    forall s
      ensures s in t'.acked <==> Acknowledged(probes', lost', s)
    {
      if s in t.acked {
        assert Acknowledged(probes, lost, s);
        var k: nat :| k < |probes| && k !in lost && probes[k] == s;
        assert k < |probes'| && k !in lost' && probes'[k] == s;
      }
      if k: nat :| k < |probes'| && k !in lost' && probes'[k] == s {
        assert k < |probes| && k !in lost && probes[k] == s;
      }
    }
  }

  /** Reports the outcome of the probe in flight. Either outcome brings the search closer to its end. */
  method Settle(finder: MtuFinder, generation: nat, acked: bool)
    requires finder.Valid() && finder.inFlight != INVALID_BYTE_COUNT && generation == finder.generation
    modifies finder, finder.lost
    ensures finder.Valid() && finder.inFlight == INVALID_BYTE_COUNT
    ensures Progress(old(finder.min), old(finder.View()), old(finder.lastProbeWasLost),
                     finder.min, finder.View(), finder.lastProbeWasLost)
    ensures finder.track.start == old(finder.track.start) && finder.track.initialMax == old(finder.track.initialMax)
    ensures finder.track.lost == old(finder.track.lost) + (if acked then [] else [old(finder.inFlight)])
    ensures finder.track.acked == old(finder.track.acked) + (if acked then {old(finder.inFlight)} else {})
    ensures finder.min >= old(finder.min) && finder.lastProbeWasLost == !acked
    ensures finder.min == if acked then old(finder.inFlight) else old(finder.min)
    ensures finder.View() == if acked then Dropped(old(finder.View()), old(finder.inFlight))
                             else Inserted(old(finder.View()), old(finder.inFlight))
  {
    hide Progress, Sound;
    SoundSearch(finder.min, finder.View(), finder.lastProbeWasLost, finder.inFlight, finder.track);
    if acked {
      AckMakesProgress(finder.min, finder.View(), finder.lastProbeWasLost);
      finder.OnAcked(generation);
    } else {
      LossMakesProgress(finder.min, finder.View(), finder.lastProbeWasLost);
      finder.OnLost(generation);
    }
  }

  /** Sends probes until the search is over; `outcome` decides which probe is acknowledged. It ends for every `outcome`,
      after at most six probes for every time that the range of sizes can be halved; if all of them are acknowledged,
      after one, and every loss costs at most two more. */
  method Discover(start: nat, max: nat, outcome: (nat, int) -> bool)
    returns (size: int, probes: seq<int>, lost: seq<nat>)
    ensures Recorded(probes, lost, outcome)
    ensures start <= size && (size == start || Acknowledged(probes, lost, size))
    ensures forall k: nat :: k < |probes| && k !in lost ==> probes[k] <= size
    ensures start <= max ==> exists v :: Settled(size, v, max, probes, lost)
    ensures start > max ==> probes == []
    ensures |probes| <= 6 * Height(max - start - 1)
    ensures |probes| <= Height(max - start - 1) + 2 * |lost|
    ensures lost == [] ==> |probes| == Height(max - start - 1)
  {
    hide Sound, Recorded, Matches, Settled, Width, Tolerance, Patience, Acknowledged, Height, Potential, Above,
         ProbeSize, Inserted, Dropped;
    var finder := new MtuFinder(start, max);
    probes, lost := [], [];
    NothingRecorded(finder.track, outcome);
    FullBudget(start, max);
    ghost var height := Height(max - start - 1);
    var done := finder.Done();
    while !done
      invariant fresh(finder) && fresh(finder.lost) && finder.Valid() && finder.inFlight == INVALID_BYTE_COUNT
      invariant finder.track.start == start && finder.track.initialMax == max
      invariant Recorded(probes, lost, outcome) && Matches(finder.track, probes, lost)
      invariant done == Finished(finder.min, finder.View())
      invariant start > max ==> done && probes == []
      invariant InBudget(finder.min, finder.View(), finder.lastProbeWasLost, |probes|, |lost|, height)
      decreases Width(finder.min, finder.View()), Tolerance(finder.min, finder.View()),
                Patience(finder.min, finder.View(), finder.lastProbeWasLost)
    {
      ghost var t := finder.track;
      var generation, probe := finder.GetPing(1);
      var acked := outcome(|probes|, probe);
      SoundSearch(finder.min, finder.View(), finder.lastProbeWasLost, finder.inFlight, finder.track);
      OneMore(finder.min, finder.View(), finder.lastProbeWasLost, probe, acked, |probes|, |lost|, height);
      Settle(finder, generation, acked);
      if acked {
        RecordAck(t, finder.track, probes, lost, outcome, probe);
      } else {
        RecordLoss(t, finder.track, probes, lost, outcome, probe);
        lost := lost + [|probes|];
      }
      probes := probes + [probe];
      done := finder.Done();
    }
    size := finder.CurrentSize();
    Over(finder.min, finder.View());
    SearchResult(finder.min, finder.View(), finder.lastProbeWasLost, finder.inFlight, finder.track, probes, lost,
                 outcome);
  }

  /** The probes sent so far and those that may follow are within the bounds. */
  ghost predicate InBudget(min: int, l: Slots, lastProbeWasLost: bool, probes: nat, lost: nat, height: nat) {
    && 0 <= probes + Potential(min, l, lastProbeWasLost) <= 6 * height && 0 <= Potential(min, l, lastProbeWasLost)
    && probes + Above(min, MaxOf(l)) + (if lastProbeWasLost then 1 else 0) <= height + 2 * lost
    && (lost == 0 ==> !lastProbeWasLost && probes + Above(min, MaxOf(l)) == height)
  }

  lemma OneMore(min: int, l: Slots, lastProbeWasLost: bool, size: int, acked: bool, probes: nat, lost: nat, height: nat)
    requires Searching(min, l, lastProbeWasLost) && !Finished(min, l)
    requires Halfway(min, if lastProbeWasLost then l.a else MaxOf(l), size)
    requires InBudget(min, l, lastProbeWasLost, probes, lost, height)
    ensures var min', l' := if acked then size else min, if acked then Dropped(l, size) else Inserted(l, size);
            InBudget(min', l', !acked, probes + 1, if acked then lost else lost + 1, height)
  {
    hide Potential, Above, Dropped, Inserted, Searching;
    OutcomeLowers(min, l, lastProbeWasLost, size, acked);
  }

  lemma NothingRecorded(t: Track, outcome: (nat, int) -> bool)
    requires t.lost == [] && t.acked == {}
    ensures Recorded([], [], outcome) && Matches(t, [], [])
  {
  }

  lemma SoundSearch(min: int, l: Slots, lastProbeWasLost: bool, inFlight: int, t: Track)
    requires Sound(min, l, lastProbeWasLost, inFlight, t)
    ensures Searching(min, l, lastProbeWasLost)
    ensures inFlight != INVALID_BYTE_COUNT ==> !Finished(min, l)
    ensures inFlight != INVALID_BYTE_COUNT ==> inFlight == ProbeSize(min, l, lastProbeWasLost)
  {
  }

  lemma SearchResult(min: int, l: Slots, lastProbeWasLost: bool, inFlight: int, t: Track, probes: seq<int>,
                     lost: seq<nat>, outcome: (nat, int) -> bool)
    requires Sound(min, l, lastProbeWasLost, inFlight, t) && Finished(min, l)
    requires Recorded(probes, lost, outcome) && Matches(t, probes, lost)
    ensures t.start <= min && (min == t.start || Acknowledged(probes, lost, min))
    ensures forall k: nat :: k < |probes| && k !in lost ==> probes[k] <= min
    ensures t.start <= t.initialMax ==> exists v :: Settled(min, v, t.initialMax, probes, lost)
  {
    forall k: nat | k < |probes| && k !in lost
      ensures probes[k] <= min
    {
      assert Acknowledged(probes, lost, probes[k]);
    }
    if t.start <= t.initialMax {
      var v := MaxOf(l);
      if v < t.initialMax {
        var i, j, k := lost[t.evidence.a], lost[t.evidence.b], lost[t.evidence.c];
        assert i in lost && j in lost && k in lost;
      }
      assert Settled(min, v, t.initialMax, probes, lost);
    }
  }

  /** The path delivers a probe when it fits and is not dropped for another reason. */
  function Delivered(pathMtu: int, dropped: nat -> bool): (nat, int) -> bool {
    (k: nat, size: int) => size <= pathMtu && !dropped(k)
  }

  /** The search tolerates two losses that have nothing to do with the size: it ends within 20 bytes of the path MTU
      (or of the largest size it may try), and never above it. */
  method FindPathMtu(start: nat, max: nat, pathMtu: nat, dropped: nat -> bool) returns (size: int)
    requires start <= pathMtu && start <= max
    requires forall i: nat, j: nat, k: nat :: i < j < k ==> !(dropped(i) && dropped(j) && dropped(k))
    ensures start <= size <= pathMtu && size <= max
    ensures size >= (if pathMtu < max then pathMtu else max - 1) - MAX_MTU_DIFF
  {
    var probes, lost;
    size, probes, lost := Discover(start, max, Delivered(pathMtu, dropped));
    ghost var v :| Settled(size, v, max, probes, lost);
    FewDropped(probes, lost, pathMtu, dropped, v);
  }

  /** When at most two probes were dropped, three losses below `v` mean that `v` does not fit the path. */
  lemma FewDropped(probes: seq<int>, lost: seq<nat>, pathMtu: nat, dropped: nat -> bool, v: int)
    requires Recorded(probes, lost, Delivered(pathMtu, dropped))
    requires forall i: nat, j: nat, k: nat :: i < j < k ==> !(dropped(i) && dropped(j) && dropped(k))
    ensures ThreeProbesLost(probes, lost, v) ==> v > pathMtu
  {
    if v <= pathMtu {
      forall i: nat | i in lost && i < |probes| && probes[i] <= v
        ensures dropped(i)
      {
        assert !Delivered(pathMtu, dropped)(i, probes[i]);
      }
    }
  }

  // ---- Searches that are started again when the connection migrates. ----

  /** A probe is due; the outcome of an earlier probe is reported; the search is reset for another path. */
  datatype Event = ProbeDue(now: nat) | Outcome(probe: nat, acked: bool) | Migration(now: nat, start: nat, max: nat)

  /** A probe: the generation that its handler captured, its size, the number of resets before it, and its outcome once
      it is reported. */
  datatype Probe = Probe(generation: nat, size: int, resets: nat, outcome: Option<bool>)

  /** A handler from `behind` resets ago is mistaken for a current one exactly when the 8-bit generation has wrapped. */
  lemma StaleHandler(epoch: nat, behind: nat)
    requires behind <= epoch
    ensures (epoch - behind) % 256 == epoch % 256 <==> behind % 256 == 0
  {
  }

  /** The sizes of the probes that belong to a search and were lost, in order. */
  function LostSizes(probes: seq<Probe>, resets: nat): seq<int> {
    if probes == [] then []
    else
      var n := |probes| - 1;
      LostSizes(probes[..n], resets)
      + if probes[n].resets == resets && probes[n].outcome == Some(false) then [probes[n].size] else []
  }

  /** The sizes of those that were acknowledged. */
  function AckedSizes(probes: seq<Probe>, resets: nat): set<int> {
    set k | 0 <= k < |probes| && probes[k].resets == resets && probes[k].outcome == Some(true) :: probes[k].size
  }

  /** Only the last probe of the current search may have no outcome yet, and it is the one in flight. */
  ghost predicate Tracked(probes: seq<Probe>, resets: nat, inFlight: int) {
    && (forall k :: 0 <= k < |probes| ==> probes[k].resets <= resets && probes[k].generation == probes[k].resets % 256)
    && (forall k :: 0 <= k < |probes| - 1 && probes[k].resets == resets ==> probes[k].outcome.Some?)
    && (inFlight != INVALID_BYTE_COUNT <==> Pending(probes, resets))
    && (Pending(probes, resets) ==> probes[|probes| - 1].size == inFlight)
  }

  predicate Pending(probes: seq<Probe>, resets: nat) {
    probes != [] && probes[|probes| - 1].resets == resets && probes[|probes| - 1].outcome == None
  }

  /** An outcome of a probe of an earlier search changes nothing about the current one. */
  lemma {:induction false} OthersOutcome(probes: seq<Probe>, k: nat, acked: bool, resets: nat)
    requires k < |probes| && probes[k].resets != resets
    ensures LostSizes(probes[k := probes[k].(outcome := Some(acked))], resets) == LostSizes(probes, resets)
    ensures AckedSizes(probes[k := probes[k].(outcome := Some(acked))], resets) == AckedSizes(probes, resets)
  {
    var probes', n := probes[k := probes[k].(outcome := Some(acked))], |probes| - 1;
    if k < n {
      assert probes'[..n] == probes[..n][k := probes[k].(outcome := Some(acked))];
      OthersOutcome(probes[..n], k, acked, resets);
    } else {
      assert probes'[..n] == probes[..n];
    }
    forall x
      ensures x in AckedSizes(probes', resets) <==> x in AckedSizes(probes, resets)
    {
      if x in AckedSizes(probes, resets) {
        var j :| 0 <= j < |probes| && probes[j].resets == resets && probes[j].outcome == Some(true)
                 && probes[j].size == x;
        assert probes'[j] == probes[j];
      }
    }
  }

  /** The outcome of the probe in flight. */
  lemma OwnOutcome(probes: seq<Probe>, acked: bool, resets: nat)
    requires Pending(probes, resets)
    ensures var n := |probes| - 1;
            var probes' := probes[n := probes[n].(outcome := Some(acked))];
            && LostSizes(probes', resets) == LostSizes(probes, resets) + (if acked then [] else [probes[n].size])
            && AckedSizes(probes', resets) == AckedSizes(probes, resets) + (if acked then {probes[n].size} else {})
  {
    var n := |probes| - 1;
    var probes' := probes[n := probes[n].(outcome := Some(acked))];
    assert probes'[..n] == probes[..n];
    forall x
      ensures x in AckedSizes(probes', resets) <==> x in AckedSizes(probes, resets) || (acked && x == probes[n].size)
    {
      if x in AckedSizes(probes, resets) {
        var j :| 0 <= j < |probes| && probes[j].resets == resets && probes[j].outcome == Some(true)
                 && probes[j].size == x;
        assert probes'[j] == probes[j];
      }
      assert acked ==> probes'[n].outcome == Some(true);
    }
  }

  lemma {:induction false} NoneYet(probes: seq<Probe>, resets: nat)
    requires forall k :: 0 <= k < |probes| ==> probes[k].resets < resets
    ensures LostSizes(probes, resets) == [] && AckedSizes(probes, resets) == {}
  {
    if probes != [] {
      NoneYet(probes[..|probes| - 1], resets);
    }
  }

  lemma OneMoreProbe(probes: seq<Probe>, p: Probe, resets: nat)
    requires p.outcome == None
    ensures LostSizes(probes + [p], resets) == LostSizes(probes, resets)
    ensures AckedSizes(probes + [p], resets) == AckedSizes(probes, resets)
  {
    var probes' := probes + [p];
    assert probes'[..|probes|] == probes;
    forall x
      ensures x in AckedSizes(probes', resets) <==> x in AckedSizes(probes, resets)
    {
      if x in AckedSizes(probes, resets) {
        var j :| 0 <= j < |probes| && probes[j].resets == resets && probes[j].outcome == Some(true)
                 && probes[j].size == x;
        assert probes'[j] == probes[j];
      }
    }
  }

  /** The history of the finder is that of the probes of the current search, and of no others. */
  ghost predicate Follows(t: Track, probes: seq<Probe>, resets: nat) {
    t.lost == LostSizes(probes, resets) && t.acked == AckedSizes(probes, resets)
  }

  /** The outcome of a probe is reported: it counts if the probe belongs to the current search, and changes nothing
      otherwise. It never panics, unless it comes after 256 or more resets. */
  method Report(finder: MtuFinder, probes: seq<Probe>, k: nat, acked: bool, resets: nat) returns (probes': seq<Probe>)
    requires finder.Valid() && finder.epoch == resets && Tracked(probes, resets, finder.inFlight)
    requires Follows(finder.track, probes, resets)
    requires k < |probes| && probes[k].outcome == None && resets - probes[k].resets < 256
    modifies finder, finder.lost
    ensures probes' == probes[k := probes[k].(outcome := Some(acked))]
    ensures finder.Valid() && finder.epoch == resets && Tracked(probes', resets, finder.inFlight)
    ensures Follows(finder.track, probes', resets)
    ensures probes[k].resets < resets ==>
              finder.Untouched(old(finder.inFlight), old(finder.min), old(finder.View()), old(finder.lastProbeWasLost),
                               old(finder.track))
    ensures probes[k].resets == resets ==>
              && old(finder.inFlight) == probes[k].size
              && Search(finder.min, finder.View(), finder.lastProbeWasLost, finder.inFlight)
                 == Reported(Search(old(finder.min), old(finder.View()), old(finder.lastProbeWasLost),
                                    old(finder.inFlight)), acked)
    ensures finder.track.start == old(finder.track.start) && finder.track.initialMax == old(finder.track.initialMax)
  {
    hide Sound, LostSizes, AckedSizes;
    StaleHandler(resets, resets - probes[k].resets);
    if probes[k].resets == resets {
      assert k == |probes| - 1;
      OwnOutcome(probes, acked, resets);
    } else {
      OthersOutcome(probes, k, acked, resets);
    }
    if acked {
      finder.OnAcked(probes[k].generation);
    } else {
      finder.OnLost(probes[k].generation);
    }
    probes' := probes[k := probes[k].(outcome := Some(acked))];
  }

  /** A search: its interval with the losses in it, and the probe in flight. */
  datatype Search = Search(min: int, slots: Slots, lastProbeWasLost: bool, inFlight: int)

  /** The current search, all probes, and the number of resets. */
  datatype Course = Course(search: Search, probes: seq<Probe>, resets: nat)

  function NewSearch(start: nat, max: nat): Search {
    Search(start, Slots(max, INVALID_BYTE_COUNT, INVALID_BYTE_COUNT), false, INVALID_BYTE_COUNT)
  }

  function Reported(s: Search, acked: bool): Search {
    if acked then Search(s.inFlight, Dropped(s.slots, s.inFlight), false, INVALID_BYTE_COUNT)
    else Search(s.min, Inserted(s.slots, s.inFlight), true, INVALID_BYTE_COUNT)
  }

  /** What an event does. An outcome counts only for a probe of the current search. */
  function Step(c: Course, e: Event): Course {
    match e
    case ProbeDue(_) =>
      var s := c.search;
      if s.inFlight != INVALID_BYTE_COUNT || Finished(s.min, s.slots) then c
      else
        var size := ProbeSize(s.min, s.slots, s.lastProbeWasLost);
        c.(search := s.(inFlight := size), probes := c.probes + [Probe(c.resets % 256, size, c.resets, None)])
    case Outcome(k, acked) =>
      if k >= |c.probes| || c.probes[k].outcome.Some? then c
      else
        c.(search := if c.probes[k].resets == c.resets then Reported(c.search, acked) else c.search,
           probes := c.probes[k := c.probes[k].(outcome := Some(acked))])
    case Migration(_, start, max) => c.(search := NewSearch(start, max), resets := c.resets + 1)
  }

  function CourseOf(start: nat, max: nat, events: seq<Event>): Course {
    if events == [] then Course(NewSearch(start, max), [], 0)
    else Step(CourseOf(start, max, events[..|events| - 1]), events[|events| - 1])
  }

  /** An outcome that comes 256 resets or more after its probe, so that the generation may have wrapped. */
  predicate IsLate(c: Course, e: Event) {
    e.Outcome? && e.probe < |c.probes| && c.probes[e.probe].outcome == None
    && c.resets - c.probes[e.probe].resets >= 256
  }

  ghost predicate NoneLate(start: nat, max: nat, events: seq<Event>, n: nat) {
    n <= |events| && forall j :: 0 <= j < n ==> !IsLate(CourseOf(start, max, events[..j]), events[j])
  }

  function Migrations(events: seq<Event>): nat {
    if events == [] then 0 else Migrations(events[..|events| - 1]) + if events[|events| - 1].Migration? then 1 else 0
  }

  /** The resets are the migrations. */
  lemma {:induction false} ResetsCounted(start: nat, max: nat, events: seq<Event>)
    ensures CourseOf(start, max, events).resets == Migrations(events)
  {
    if events != [] {
      ResetsCounted(start, max, events[..|events| - 1]);
    }
  }

  /** After how many events probe `k` was sent. */
  function SentAfter(start: nat, max: nat, events: seq<Event>, k: nat): (n: nat)
    requires k < |CourseOf(start, max, events).probes|
    ensures n <= |events|
  {
    var before := events[..|events| - 1];
    if k < |CourseOf(start, max, before).probes| then SentAfter(start, max, before, k) else |events|
  }

  /** The first outcome that is reported for probe `k` after the first `from` events. */
  function FirstReport(events: seq<Event>, from: nat, k: nat): Option<bool> {
    if |events| <= from then None
    else
      var n := |events| - 1;
      var before := FirstReport(events[..n], from, k);
      if before.Some? then before
      else if events[n].Outcome? && events[n].probe == k then Some(events[n].acked)
      else None
  }

  /** The outcome of a probe is the first one that is reported for it after it was sent. */
  lemma {:induction false} OutcomesReported(start: nat, max: nat, events: seq<Event>, k: nat)
    requires k < |CourseOf(start, max, events).probes|
    ensures CourseOf(start, max, events).probes[k].outcome == FirstReport(events, SentAfter(start, max, events, k), k)
  {
    var n := |events| - 1;
    var before := events[..n];
    if k < |CourseOf(start, max, before).probes| {
      OutcomesReported(start, max, before, k);
    }
  }

  /** The course that a finder has taken. */
  ghost function CourseAt(finder: MtuFinder, probes: seq<Probe>, resets: nat): Course
    requires finder.lost.Length == MAX_LOST_MTU_PROBES
    reads finder, finder.lost
  {
    Course(Search(finder.min, finder.View(), finder.lastProbeWasLost, finder.inFlight), probes, resets)
  }

  /** The finder is on course with the probes sent, and its history is that of the current search. */
  ghost predicate OnCourse(finder: MtuFinder, probes: seq<Probe>, resets: nat)
    reads finder, finder.lost
  {
    && finder.Valid() && finder.epoch == resets
    && Tracked(probes, resets, finder.inFlight) && Follows(finder.track, probes, resets)
  }

  /** One event, unless it is late. */
  method HandleEvent(finder: MtuFinder, probes: seq<Probe>, resets: nat, e: Event)
    returns (probes': seq<Probe>, resets': nat, late: bool)
    requires OnCourse(finder, probes, resets)
    modifies finder, finder.lost
    ensures OnCourse(finder, probes', resets')
    ensures late <==> IsLate(old(CourseAt(finder, probes, resets)), e)
    ensures CourseAt(finder, probes', resets')
            == if late then old(CourseAt(finder, probes, resets)) else Step(old(CourseAt(finder, probes, resets)), e)
  {
    hide Sound, LostSizes, AckedSizes, ProbeSize, Finished, Inserted, Dropped;
    probes', resets', late := probes, resets, false;
    match e {
      case ProbeDue(now) =>
        probes' := MaybeProbe(finder, probes, resets, now);
      case Outcome(k, acked) =>
        if k < |probes| && probes[k].outcome == None {
          late := resets - probes[k].resets >= 256;
          if !late {
            probes' := Report(finder, probes, k, acked, resets);
          }
        }
      case Migration(now, newStart, newMax) =>
        finder.Reset(now, newStart, newMax);
        resets' := resets + 1;
        NoneYet(probes, resets');
    }
  }

  /** Any order of probes, outcomes and migrations, from a new finder: nothing panics, and the finder takes exactly the
      course that the events prescribe. At any time its history is that of the probes sent since the last migration,
      whatever outcomes of older probes come in. It stops early exactly at an outcome that is 256 migrations late. */
  method Migrate(start: nat, max: nat, events: seq<Event>)
    returns (finder: MtuFinder, probes: seq<Probe>, resets: nat, handled: nat, late: bool)
    ensures fresh(finder) && OnCourse(finder, probes, resets)
    ensures handled <= |events| && NoneLate(start, max, events, handled)
    ensures late <==> handled < |events|
    ensures late ==> IsLate(CourseOf(start, max, events[..handled]), events[handled])
    ensures CourseAt(finder, probes, resets) == CourseOf(start, max, events[..handled])
    ensures resets == Migrations(events[..handled])
    ensures Outcomes(probes, start, max, events[..handled])
  {
    hide Sound, Step, Outcomes, Migrations, IsLate, OnCourse;
    finder := new MtuFinder(start, max);
    probes, resets, handled, late := [], 0, 0, false;
    Starts(finder);
    while handled < |events|
      invariant handled <= |events| && NoneLate(start, max, events, handled)
      invariant fresh(finder) && fresh(finder.lost) && OnCourse(finder, probes, resets)
      invariant finder.lost.Length == MAX_LOST_MTU_PROBES
      invariant CourseAt(finder, probes, resets) == CourseOf(start, max, events[..handled])
    {
      assert events[..handled + 1][..handled] == events[..handled];
      probes, resets, late := HandleEvent(finder, probes, resets, events[handled]);
      if late {
        break;
      }
      handled := handled + 1;
    }
    ResetsCounted(start, max, events[..handled]);
    AllReported(start, max, events[..handled]);
  }

  lemma Starts(finder: MtuFinder)
    requires finder.Valid() && finder.epoch == 0 && finder.inFlight == INVALID_BYTE_COUNT
    requires finder.track.lost == [] && finder.track.acked == {}
    ensures OnCourse(finder, [], 0)
  {
    hide Sound;
    NoneYet([], 0);
  }

  /** The outcome of every probe is the first one that was reported for it after it was sent. */
  ghost predicate Outcomes(probes: seq<Probe>, start: nat, max: nat, events: seq<Event>) {
    && probes == CourseOf(start, max, events).probes
    && forall k: nat :: k < |probes| ==> probes[k].outcome == FirstReport(events, SentAfter(start, max, events, k), k)
  }

  lemma AllReported(start: nat, max: nat, events: seq<Event>)
    ensures Outcomes(CourseOf(start, max, events).probes, start, max, events)
  {
    hide CourseOf, FirstReport, SentAfter;
    forall k: nat | k < |CourseOf(start, max, events).probes|
      ensures CourseOf(start, max, events).probes[k].outcome == FirstReport(events, SentAfter(start, max, events, k), k)
    {
      OutcomesReported(start, max, events, k);
    }
  }

  /** A probe is sent if none is in flight and the search is not over. */
  method MaybeProbe(finder: MtuFinder, probes: seq<Probe>, resets: nat, now: nat) returns (probes': seq<Probe>)
    requires finder.Valid() && finder.epoch == resets && Tracked(probes, resets, finder.inFlight)
    requires Follows(finder.track, probes, resets)
    modifies finder, finder.lost
    ensures finder.Valid() && finder.epoch == resets && Tracked(probes', resets, finder.inFlight)
    ensures Follows(finder.track, probes', resets)
    ensures var before := Search(old(finder.min), old(finder.View()), old(finder.lastProbeWasLost),
                                 old(finder.inFlight));
            Course(Search(finder.min, finder.View(), finder.lastProbeWasLost, finder.inFlight), probes', resets)
            == Step(Course(before, probes, resets), ProbeDue(now))
  {
    hide Sound, LostSizes, AckedSizes, ProbeSize, Finished;
    probes' := probes;
    var done := finder.Done();
    if finder.inFlight == INVALID_BYTE_COUNT && !done {
      var generation, size := finder.GetPing(now);
      var p := Probe(generation, size, resets, None);
      OneMoreProbe(probes, p, resets);
      probes' := probes + [p];
    }
  }
}
