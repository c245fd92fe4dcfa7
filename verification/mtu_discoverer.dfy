/** quic-go-bbr/mtu_discoverer.go: the search for the path MTU. */
module MtuDiscovery {
  import opened Protocol

  const MAX_MTU_DIFF := 20
  const MTU_PROBE_DELAY := 5
  const MAX_LOST_MTU_PROBES := 3

  /** The three slots of the `lost` array: increasing sizes, then InvalidByteCount. */
  datatype Slots = Slots(a: int, b: int, c: int)

  function MaxOf(l: Slots): int {
    if l.b == INVALID_BYTE_COUNT then l.a else if l.c == INVALID_BYTE_COUNT then l.b else l.c
  }

  predicate Ordered(l: Slots) {
    && 0 <= l.a
    && (l.b == INVALID_BYTE_COUNT ==> l.c == INVALID_BYTE_COUNT)
    && (l.b != INVALID_BYTE_COUNT ==> l.a <= l.b)
    && (l.c != INVALID_BYTE_COUNT ==> l.b <= l.c)
  }

  /** A lost probe is put in front of the first larger size; the last slot falls out. */
  function Inserted(l: Slots, size: int): Slots {
    if size < l.a then Slots(size, l.a, l.b)
    else if size < l.b then Slots(l.a, size, l.b)
    else if size < l.c then Slots(l.a, l.b, size)
    else l
  }

  /** An acknowledged probe removes the sizes that are not larger. */
  function Dropped(l: Slots, size: int): Slots {
    if size < l.a then l
    else if size < l.b then Slots(l.b, l.c, INVALID_BYTE_COUNT)
    else if size < l.c then Slots(l.c, INVALID_BYTE_COUNT, INVALID_BYTE_COUNT)
    else l
  }

  predicate Finished(min: int, l: Slots) {
    MaxOf(l) - min <= MAX_MTU_DIFF + 1
  }

  /** A size that is still considered and would be a gain of more than MAX_MTU_DIFF. */
  predicate Worthwhile(min: int, l: Slots, size: int) {
    min + MAX_MTU_DIFF < size < MaxOf(l)
  }

  lemma FinishedMeans(min: int, l: Slots)
    ensures Finished(min, l) <==> !exists size :: Worthwhile(min, l, size)
  {
    if !Finished(min, l) {
      assert Worthwhile(min, l, MaxOf(l) - 1);
    }
  }

  function ProbeSize(min: int, l: Slots, lastProbeWasLost: bool): int {
    if lastProbeWasLost then (min + l.a) / 2 else (min + MaxOf(l)) / 2
  }

  /** The size splits the interval evenly, rounding down. */
  predicate Halfway(min: int, top: int, size: int) {
    -1 <= 2 * size - (min + top) <= 0
  }

  /** What holds between probes. When the search starts above its maximum it is over at once. */
  predicate Searching(min: int, l: Slots, lastProbeWasLost: bool) {
    && 0 <= min && Ordered(l)
    && (min <= l.a || (l.b == INVALID_BYTE_COUNT && !lastProbeWasLost))
    && (!lastProbeWasLost && !Finished(min, l) ==> min < l.a)
    && (lastProbeWasLost && !Finished(min, l) && l.a == min ==> l.b == min + 1)
  }

  function Between(min: int, l: Slots, x: int): nat {
    if min < x < MaxOf(l) then 1 else 0
  }

  function AtMin(min: int, x: int): nat {
    if x == min then 1 else 0
  }

  /** The width of the search interval. */
  function Width(min: int, l: Slots): nat {
    if MaxOf(l) < min then 0 else MaxOf(l) - min
  }

  /** Shrinks with every loss strictly inside the interval; at most two are there at any time. */
  function Tolerance(min: int, l: Slots): nat {
    3 - Between(min, l, l.a) - Between(min, l, l.b) - Between(min, l, l.c)
  }

  /** How many probes of size `min` can still be lost in a row. */
  function Patience(min: int, l: Slots, lastProbeWasLost: bool): nat {
    if lastProbeWasLost then 4 - AtMin(min, l.a) - AtMin(min, l.b) - AtMin(min, l.c) else 0
  }

  /** (Width, Tolerance, Patience) got smaller lexicographically. */
  predicate Progress(min: int, l: Slots, lost: bool, min': int, l': Slots, lost': bool) {
    || Width(min', l') < Width(min, l)
    || (Width(min', l') == Width(min, l) && Tolerance(min', l') < Tolerance(min, l))
    || (Width(min', l') == Width(min, l) && Tolerance(min', l') == Tolerance(min, l)
        && Patience(min', l', lost') < Patience(min, l, lost))
  }

  lemma LossMakesProgress(min: int, l: Slots, lastProbeWasLost: bool)
    requires Searching(min, l, lastProbeWasLost) && !Finished(min, l)
    ensures var l' := Inserted(l, ProbeSize(min, l, lastProbeWasLost));
            Searching(min, l', true) && Progress(min, l, lastProbeWasLost, min, l', true) && MaxOf(l') <= MaxOf(l)
  {
  }

  lemma AckMakesProgress(min: int, l: Slots, lastProbeWasLost: bool)
    requires Searching(min, l, lastProbeWasLost) && !Finished(min, l)
    ensures var min' := ProbeSize(min, l, lastProbeWasLost);
            var l' := Dropped(l, min');
            Searching(min', l', false) && Progress(min, l, lastProbeWasLost, min', l', false) && MaxOf(l') == MaxOf(l)
            && min <= min' < MaxOf(l)
  {
  }

  /** Where each slot comes from: an index into the lost probes, or -1 for the initial maximum. */
  ghost predicate Backed(l: Slots, from: Slots, initialMax: int, lost: seq<int>) {
    && BackedSlot(l.a, from.a, initialMax, lost) && BackedSlot(l.b, from.b, initialMax, lost)
    && BackedSlot(l.c, from.c, initialMax, lost)
    && (l.b != INVALID_BYTE_COUNT ==> from.a != from.b)
    && (l.c != INVALID_BYTE_COUNT ==> from.c != from.a && from.c != from.b)
    && (forall i :: 0 <= i < |lost| ==> lost[i] < initialMax)
  }

  ghost predicate BackedSlot(v: int, from: int, initialMax: int, lost: seq<int>) {
    v != INVALID_BYTE_COUNT ==> if from == -1 then v == initialMax else 0 <= from < |lost| && lost[from] == v
  }

  /** The probes with the three different indices `w` were lost, and their sizes are at most `v`. */
  ghost predicate ThreeLost(lost: seq<int>, v: int, w: Slots) {
    && 0 <= w.a < |lost| && 0 <= w.b < |lost| && 0 <= w.c < |lost| && w.a != w.b && w.a != w.c && w.b != w.c
    && lost[w.a] <= v && lost[w.b] <= v && lost[w.c] <= v
  }

  /** The maximum only sinks once three probes that fit below it were lost. */
  ghost predicate Resilient(l: Slots, initialMax: int, lost: seq<int>, w: Slots) {
    MaxOf(l) <= initialMax && (MaxOf(l) < initialMax ==> ThreeLost(lost, MaxOf(l), w))
  }

  /** Where the slots come from after a loss. */
  function InsertedFrom(l: Slots, from: Slots, size: int, index: int): Slots {
    if size < l.a then Slots(index, from.a, from.b)
    else if size < l.b then Slots(from.a, index, from.b)
    else if size < l.c then Slots(from.a, from.b, index)
    else from
  }

  function DroppedFrom(l: Slots, from: Slots, size: int): Slots {
    if size < l.a then from
    else if size < l.b then Slots(from.b, from.c, -1)
    else if size < l.c then Slots(from.c, -1, -1)
    else from
  }

  /** The witnesses for a sunk maximum after a loss: the old ones, unless the maximum sinks now. */
  function InsertedWitness(l: Slots, from: Slots, size: int, index: int, w: Slots): Slots {
    if MaxOf(Inserted(l, size)) == MaxOf(l) then w else InsertedFrom(l, from, size, index)
  }

  lemma LossKeepsResilience(l: Slots, from: Slots, initialMax: int, lost: seq<int>, w: Slots, size: int)
    requires Ordered(l) && Backed(l, from, initialMax, lost) && Resilient(l, initialMax, lost, w)
    requires 0 <= size < MaxOf(l)
    ensures var l', from' := Inserted(l, size), InsertedFrom(l, from, size, |lost|);
            Backed(l', from', initialMax, lost + [size])
            && Resilient(l', initialMax, lost + [size], InsertedWitness(l, from, size, |lost|, w))
  {
    var lost' := lost + [size];
    assert lost'[|lost|] == size && forall i :: 0 <= i < |lost| ==> lost'[i] == lost[i];
  }

  lemma AckKeepsResilience(l: Slots, from: Slots, initialMax: int, lost: seq<int>, w: Slots, size: int)
    requires Ordered(l) && Backed(l, from, initialMax, lost) && Resilient(l, initialMax, lost, w)
    requires 0 <= size < MaxOf(l)
    ensures var l', from' := Dropped(l, size), DroppedFrom(l, from, size);
            Backed(l', from', initialMax, lost) && Resilient(l', initialMax, lost, w)
  {
  }

  /** The history of one generation of the search. */
  datatype Track = Track(start: int, initialMax: int, lost: seq<int>, acked: set<int>, from: Slots, evidence: Slots)

  ghost predicate Sound(min: int, l: Slots, lastProbeWasLost: bool, inFlight: int, t: Track) {
    match t
    case Track(start, initialMax, lost, acked, from, evidence) =>
      && Searching(min, l, lastProbeWasLost)
      && Backed(l, from, initialMax, lost) && Resilient(l, initialMax, lost, evidence)
      && (start <= initialMax ==> min <= MaxOf(l))
      && (min == start || min in acked) && start <= min && (forall size :: size in acked ==> size <= min)
      && (inFlight != INVALID_BYTE_COUNT ==> !Finished(min, l) && inFlight == ProbeSize(min, l, lastProbeWasLost))
  }

  /** A probe that is sent lies inside the search interval. */
  lemma ProbeInside(min: int, l: Slots, lastProbeWasLost: bool)
    requires Searching(min, l, lastProbeWasLost) && !Finished(min, l)
    ensures 0 <= min <= ProbeSize(min, l, lastProbeWasLost) < MaxOf(l)
  {
  }

  lemma AckKeepsSound(min: int, l: Slots, lastProbeWasLost: bool, size: int, t: Track)
    requires size != INVALID_BYTE_COUNT && Sound(min, l, lastProbeWasLost, size, t)
    ensures Sound(size, Dropped(l, size), false, INVALID_BYTE_COUNT,
                  t.(acked := t.acked + {size}, from := DroppedFrom(l, t.from, size)))
    ensures 0 <= min <= size < MaxOf(l) && Ordered(l)
  {
    AckMakesProgress(min, l, lastProbeWasLost);
    AckKeepsResilience(l, t.from, t.initialMax, t.lost, t.evidence, size);
  }

  lemma LossKeepsSound(min: int, l: Slots, lastProbeWasLost: bool, size: int, t: Track)
    requires size != INVALID_BYTE_COUNT && Sound(min, l, lastProbeWasLost, size, t)
    ensures Sound(min, Inserted(l, size), true, INVALID_BYTE_COUNT,
                  t.(lost := t.lost + [size], from := InsertedFrom(l, t.from, size, |t.lost|),
                     evidence := InsertedWitness(l, t.from, size, |t.lost|, t.evidence)))
    ensures 0 <= min <= size < MaxOf(l) && Ordered(l)
  {
    ProbeInside(min, l, lastProbeWasLost);
    LossMakesProgress(min, l, lastProbeWasLost);
    LossKeepsResilience(l, t.from, t.initialMax, t.lost, t.evidence, size);
  }

  class MtuFinder {
    var lastProbeTime: nat
    var inFlight: int
    var min: int
    const lost: array<int>
    var lastProbeWasLost: bool
    var generation: nat

    /** How often the search was reset, and the history since the last reset. */
    ghost var epoch: nat
    ghost var track: Track

    ghost predicate Valid()
      reads this, lost
    {
      && lost.Length == MAX_LOST_MTU_PROBES
      && generation == epoch % 256
      && Sound(min, View(), lastProbeWasLost, inFlight, track)
    }

    function View(): Slots
      requires lost.Length == MAX_LOST_MTU_PROBES
      reads lost
    {
      Slots(lost[0], lost[1], lost[2])
    }

    constructor (start: nat, max: nat)
      ensures Valid() && fresh(lost) && lastProbeTime == 0
      ensures min == start && inFlight == INVALID_BYTE_COUNT && !lastProbeWasLost
      ensures View() == Slots(max, INVALID_BYTE_COUNT, INVALID_BYTE_COUNT)
      ensures epoch == 0 && track.start == start && track.initialMax == max && track.lost == [] && track.acked == {}
    {
      lost := new int[MAX_LOST_MTU_PROBES];
      lastProbeTime, inFlight, lastProbeWasLost, generation, epoch := 0, INVALID_BYTE_COUNT, false, 0, 0;
      new;
      Init(start, max);
    }

    method Init(start: nat, max: nat)
      requires lost.Length == MAX_LOST_MTU_PROBES && inFlight == INVALID_BYTE_COUNT && !lastProbeWasLost
      modifies this`min, this`track, lost
      ensures min == start && View() == Slots(max, INVALID_BYTE_COUNT, INVALID_BYTE_COUNT)
      ensures track.start == start && track.initialMax == max && track.lost == [] && track.acked == {}
      ensures Sound(min, View(), lastProbeWasLost, inFlight, track)
    {
      min := start;
      for i := 0 to lost.Length
        modifies lost
        invariant forall k :: 0 <= k < i ==> lost[k] == if k == 0 then max else INVALID_BYTE_COUNT
      {
        if i == 0 {
          lost[i] := max;
        } else {
          lost[i] := INVALID_BYTE_COUNT;
        }
      }
      track := Track(start, max, [], {}, Slots(-1, -1, -1), Slots(0, 0, 0));
    }

    /** The largest size that is still considered. */
    method Max() returns (m: int)
      requires Valid()
      ensures m == MaxOf(View())
    {
      var i := 0;
      while i < lost.Length
        invariant 0 <= i <= lost.Length
        invariant forall k :: 0 <= k < i ==> lost[k] != INVALID_BYTE_COUNT
      {
        if lost[i] == INVALID_BYTE_COUNT {
          return lost[i - 1];
        }
        i := i + 1;
      }
      return lost[lost.Length - 1];
    }

    method Done() returns (done: bool)
      requires Valid()
      ensures done == Finished(min, View())
      ensures done <==> !exists size :: Worthwhile(min, View(), size)
    {
      FinishedMeans(min, View());
      var m := Max();
      done := m - min <= MAX_MTU_DIFF + 1;
    }

    method Start(now: nat)
      requires Valid()
      modifies this`lastProbeTime
      ensures Valid() && lastProbeTime == now
    {
      lastProbeTime := now;
    }

    method ShouldSendProbe(now: nat, smoothedRtt: nat) returns (send: bool)
      requires Valid()
      ensures send <==>
              lastProbeTime != 0 && inFlight == INVALID_BYTE_COUNT && (exists size :: Worthwhile(min, View(), size))
                        && lastProbeTime + MTU_PROBE_DELAY * smoothedRtt <= now
      ensures send ==> !Finished(min, View()) && min <= ProbeSize(min, View(), lastProbeWasLost) < MaxOf(View())
    {
      FinishedMeans(min, View());
      if !Finished(min, View()) {
        ProbeInside(min, View(), lastProbeWasLost);
      }
      if lastProbeTime == 0 {
        return false;
      }
      var done := Done();
      if inFlight != INVALID_BYTE_COUNT || done {
        return false;
      }
      return !(now < lastProbeTime + MTU_PROBE_DELAY * smoothedRtt);
    }

    method GetPing(now: nat) returns (handlerGeneration: nat, size: int)
      requires Valid() && inFlight == INVALID_BYTE_COUNT && !Finished(min, View())
      modifies this`lastProbeTime, this`inFlight
      ensures Valid() && lastProbeTime == now && handlerGeneration == generation && inFlight == size
      ensures 0 <= min <= size < MaxOf(View()) && size == ProbeSize(min, View(), lastProbeWasLost)
      ensures Halfway(min, if lastProbeWasLost then View().a else MaxOf(View()), size)
    {
      ProbeInside(min, View(), lastProbeWasLost);
      if lastProbeWasLost {
        size := (min + lost[0]) / 2;
      } else {
        var m := Max();
        size := (min + m) / 2;
      }
      lastProbeTime := now;
      inFlight := size;
      handlerGeneration := generation;
    }

    method Reset(now: nat, start: nat, max: nat)
      requires Valid()
      modifies this, lost
      ensures Valid() && epoch == old(epoch) + 1 && inFlight == INVALID_BYTE_COUNT && lastProbeTime == now
      ensures min == start && View() == Slots(max, INVALID_BYTE_COUNT, INVALID_BYTE_COUNT) && !lastProbeWasLost
      ensures track.start == start && track.initialMax == max && track.lost == [] && track.acked == {}
    {
      generation := (generation + 1) % 256;
      epoch := epoch + 1;
      lastProbeTime, lastProbeWasLost, inFlight := now, false, INVALID_BYTE_COUNT;
      Init(start, max);
    }

    /** Removes the sizes up to `size` from the lost array. */
    method DropSmaller(size: int)
      requires lost.Length == MAX_LOST_MTU_PROBES && Ordered(View()) && 0 <= size < MaxOf(View())
      modifies lost
      ensures View() == Dropped(old(View()), size)
    {
      var j := 0;
      var i := 0;
      while i < lost.Length
        invariant 0 <= i <= lost.Length && j == 0
        invariant forall k :: 0 <= k < i ==> !(size < lost[k])
      {
        if size < lost[i] {
          j := i;
          break;
        }
        i := i + 1;
      }
      if j > 0 {
        for n := 0 to lost.Length
          invariant forall k :: n <= k < lost.Length ==> lost[k] == old(lost[k])
          invariant forall k :: 0 <= k < n ==>
                    lost[k] == if k + j < lost.Length then old(lost[k + j]) else INVALID_BYTE_COUNT
        {
          if n + j < lost.Length {
            lost[n] := lost[n + j];
          } else {
            lost[n] := INVALID_BYTE_COUNT;
          }
        }
      }
    }

    /** Puts `size` in front of the first larger size. */
    method InsertLost(size: int)
      requires lost.Length == MAX_LOST_MTU_PROBES
      modifies lost
      ensures View() == Inserted(old(View()), size)
    {
      var i := 0;
      while i < lost.Length
        invariant 0 <= i <= lost.Length
        invariant forall k :: 0 <= k < i ==> !(size < lost[k])
        invariant forall k :: 0 <= k < lost.Length ==> lost[k] == old(lost[k])
      {
        if size < lost[i] {
          forall k | i < k < lost.Length {
            lost[k] := lost[k - 1];
          }
          lost[i] := size;
          break;
        }
        i := i + 1;
      }
    }

    /** A handler of generation `sent` may only be called while a probe of its generation is in flight. */
    method OnAcked(sent: nat)
      requires Valid() && (sent == generation ==> inFlight != INVALID_BYTE_COUNT)
      modifies this`inFlight, this`min, this`lastProbeWasLost, this`track, lost
      ensures Valid()
      ensures sent != generation ==> Untouched(old(inFlight), old(min), old(View()), old(lastProbeWasLost), old(track))
      ensures sent == generation ==>
                && min == old(inFlight) >= old(min) && inFlight == INVALID_BYTE_COUNT && !lastProbeWasLost
                && View() == Dropped(old(View()), min)
                && track.lost == old(track).lost && track.acked == old(track).acked + {min}
                && track.start == old(track).start && track.initialMax == old(track).initialMax
    {
      if sent != generation {
        return;
      }
      var size := inFlight;
      ghost var l := View();
      hide Sound;
      AckKeepsSound(min, l, lastProbeWasLost, size, track);
      inFlight := INVALID_BYTE_COUNT;
      min := size;
      lastProbeWasLost := false;
      DropSmaller(size);
      track := track.(acked := track.acked + {size}, from := DroppedFrom(l, track.from, size));
    }

    method OnLost(sent: nat)
      requires Valid() && (sent == generation ==> inFlight != INVALID_BYTE_COUNT)
      modifies this`inFlight, this`lastProbeWasLost, this`track, lost
      ensures Valid()
      ensures sent != generation ==> Untouched(old(inFlight), old(min), old(View()), old(lastProbeWasLost), old(track))
      ensures sent == generation ==>
                && inFlight == INVALID_BYTE_COUNT && lastProbeWasLost
                && View() == Inserted(old(View()), old(inFlight))
                && track.lost == old(track).lost + [old(inFlight)] && track.acked == old(track).acked
                && track.start == old(track).start && track.initialMax == old(track).initialMax
    {
      if sent != generation {
        return;
      }
      var size := inFlight;
      ghost var l := View();
      hide Sound;
      LossKeepsSound(min, l, lastProbeWasLost, size, track);
      lastProbeWasLost := true;
      inFlight := INVALID_BYTE_COUNT;
      InsertLost(size);
      track := track.(lost := track.lost + [size], from := InsertedFrom(l, track.from, size, |track.lost|),
                      evidence := InsertedWitness(l, track.from, size, |track.lost|, track.evidence));
    }

    ghost predicate Untouched(inFlight0: int, min0: int, view0: Slots, lastProbeWasLost0: bool, track0: Track)
      requires lost.Length == MAX_LOST_MTU_PROBES
      reads this, lost
    {
      inFlight == inFlight0 && min == min0 && View() == view0 && lastProbeWasLost == lastProbeWasLost0
      && track == track0
    }

    method CurrentSize() returns (size: int)
      requires Valid()
      ensures size == min && (size == track.start || size in track.acked)
      ensures track.start <= size && forall s :: s in track.acked ==> s <= size
      ensures track.start <= track.initialMax ==> size <= MaxOf(View())
    {
      size := min;
    }
  }
}
