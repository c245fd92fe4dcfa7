/** The reassembly invariant of the frame sorter, and why every stage of a push and every pop keeps it. */
module Reassembly {
  import opened Protocol
  import opened ByteIntervals
  import opened FrameQueue

  /** The offset/byte pairs that a piece of data pushed at `offset` carries. */
  ghost function BytesAt(data: seq<byte>, offset: nat): set<(nat, byte)> {
    set i | 0 <= i < |data| :: (offset + i, data[i])
  }

  /** Some byte was pushed for offset `x`. */
  ghost predicate Arrived(offered: set<(nat, byte)>, x: nat) {
    exists b: byte :: (x, b) in offered
  }

  lemma ArrivedAfter(offered: set<(nat, byte)>, data: seq<byte>, offset: nat, x: nat)
    ensures Arrived(offered + BytesAt(data, offset), x) <==>
            Arrived(offered, x) || offset <= x < offset + |data|
  {
    if offset <= x < offset + |data| {
      assert (x, data[x - offset]) in BytesAt(data, offset);
    }
    if Arrived(offered, x) {
      var b: byte :| (x, b) in offered;
      assert (x, b) in offered + BytesAt(data, offset);
    }
  }

  /** The bytes queued at `p` were all pushed for their offset. */
  ghost predicate Genuine(q: Queue, offered: set<(nat, byte)>) {
    forall p, i :: p in q && 0 <= i < |q[p].data| ==> (p + i, q[p].data[i]) in offered
  }

  ghost predicate GapsOk(gaps: seq<Interval>) {
    Separated(gaps) && |gaps| > 0 && gaps[|gaps| - 1].end == MAX_BYTE_COUNT
  }

  /** The gaps are exactly the bytes for which nothing was pushed. */
  ghost predicate Exact(gaps: seq<Interval>, offered: set<(nat, byte)>) {
    && GapsOk(gaps)
    && (forall x: nat :: x < MAX_BYTE_COUNT ==> (InGap(gaps, x) <==> !Arrived(offered, x)))
  }

  /** All offset/byte pairs pushed so far, and the bytes popped so far. */
  datatype History = History(offered: set<(nat, byte)>, delivered: seq<byte>)

  /** The reassembly invariant: the gaps are exactly the bytes never pushed; from the read position up
      gaps and entries tile the stream; and every byte queued or delivered was pushed for its offset. */
  ghost predicate Reassembling(queue: Queue, gaps: seq<Interval>, readPos: nat, h: History) {
    match h
    case History(offered, delivered) =>
    && Exact(gaps, offered)
    && Tiled(queue, gaps, readPos)
    && readPos < MAX_BYTE_COUNT
    && Genuine(queue, offered)
    && |delivered| == readPos
    && (forall k :: 0 <= k < readPos ==> (k, delivered[k]) in offered)
  }

  lemma PopKeepsTiling(q: Queue, gaps: seq<Interval>, readPos: nat)
    requires Tiled(q, gaps, readPos) && readPos in q
    ensures Tiled(q - {readPos}, gaps, EndOf(q, readPos))
  {
    var q', r := q - {readPos}, EndOf(q, readPos);
    forall x: nat | r <= x < MAX_BYTE_COUNT && !InGap(gaps, x)
      ensures Covered(q', x)
    {
      assert Covered(q, x);
      var p :| p in q && p <= x < EndOf(q, p);
      assert p in q' && p <= x < EndOf(q', p);
    }
  }

  lemma PopReassembling(queue: Queue, gaps: seq<Interval>, readPos: nat, h: History)
    requires Reassembling(queue, gaps, readPos, h)
    requires readPos in queue
    ensures Reassembling(queue - {readPos}, gaps, EndOf(queue, readPos),
                         h.(delivered := h.delivered + queue[readPos].data))
    ensures queue[readPos].data != [] && |gaps| > 0 && gaps[0].end > EndOf(queue, readPos)
    ensures Arrived(h.offered, readPos)
  {
    PopKeepsTiling(queue, gaps, readPos);
    assert !InGap(gaps, readPos);
    var data, end := queue[readPos].data, EndOf(queue, readPos);
    forall k | 0 <= k < end
      ensures (k, (h.delivered + data)[k]) in h.offered
    {
      if readPos <= k {
        assert (readPos + (k - readPos), data[k - readPos]) in h.offered;
      }
    }
    ReadPosBehindGaps(queue, gaps, readPos, h);
    assert InGap(gaps, gaps[0].start);
  }

  lemma NothingToPop(queue: Queue, gaps: seq<Interval>, readPos: nat, h: History)
    requires Reassembling(queue, gaps, readPos, h)
    requires readPos !in queue
    ensures !Arrived(h.offered, readPos)
  {
    if Arrived(h.offered, readPos) {
      assert false;
    }
  }

  /** There is an entry exactly if some byte has arrived that was not popped yet. */
  lemma QueuedMeansUnread(queue: Queue, gaps: seq<Interval>, readPos: nat, h: History)
    requires Reassembling(queue, gaps, readPos, h)
    ensures |queue| > 0 <==> exists x: nat :: readPos <= x < MAX_BYTE_COUNT && Arrived(h.offered, x)
  {
    if |queue| > 0 {
      var p :| p in queue;
      assert (p + 0, queue[p].data[0]) in h.offered;
      assert Arrived(h.offered, p);
    }
    if x: nat :| readPos <= x < MAX_BYTE_COUNT && Arrived(h.offered, x) {
      assert Covered(queue, x);
    }
  }

  lemma AlreadyDeleted(q: Queue, lo: nat, hi: nat)
    ensures lo < hi ==> lo !in Without(q, lo, hi)
  {
  }

  lemma GapOrder(gaps: seq<Interval>, si: nat, i: nat, ei: nat, readPos: nat, lo: nat)
    requires GapsOk(gaps) && si <= i <= ei < |gaps| && readPos <= gaps[si].end && lo <= gaps[si].end
    ensures gaps[i].start <= gaps[i].end && readPos <= gaps[i].end && lo <= gaps[i].end
    ensures i < ei ==> gaps[i].end < gaps[ei].start && gaps[i].end < gaps[i + 1].start < MAX_BYTE_COUNT
  {
    assert i + 1 < |gaps| - 1 ==> gaps[i + 1].end < gaps[|gaps| - 1].start;
  }

  /** Where a frame `[start, end)` starts and ends relative to the gaps, as the two searches report it. */
  ghost predicate Located(gaps: seq<Interval>, start: nat, end: nat, si: nat, startsInGap: bool, ei: int,
                          endsInGap: bool)
  {
    && start < end < MAX_BYTE_COUNT
    && si < |gaps| && si - 1 <= ei < |gaps|
    && (forall i :: 0 <= i < si ==> gaps[i].end < start)
    && (if startsInGap then gaps[si].start <= start <= gaps[si].end else start < gaps[si].start)
    && (si <= ei ==> gaps[ei].start <= end)
    && (if endsInGap then si <= ei && end < gaps[ei].end
        else ei + 1 < |gaps| && end < gaps[ei + 1].start && (si <= ei ==> gaps[ei].end <= end))
  }

  /** The test that push makes once it has located the frame. */
  predicate AheadOfStartGap(gaps: seq<Interval>, end: nat, si: nat, ei: nat)
    requires si < |gaps| && ei < |gaps|
  {
    || (si == ei && end <= gaps[si].start)
    || (si != ei && gaps[si].end >= gaps[ei].start && end <= gaps[si].start)
  }

  ghost predicate NoGapIn(gaps: seq<Interval>, lo: nat, hi: nat) {
    forall x: nat :: lo <= x < hi ==> !InGap(gaps, x)
  }

  ghost predicate AllArrived(offered: set<(nat, byte)>, lo: nat, hi: nat) {
    forall x: nat :: lo <= x < hi ==> Arrived(offered, x)
  }

  lemma NoGapMeansArrived(queue: Queue, gaps: seq<Interval>, readPos: nat, h: History, lo: nat, hi: nat)
    requires Reassembling(queue, gaps, readPos, h) && hi <= MAX_BYTE_COUNT
    ensures NoGapIn(gaps, lo, hi) ==> AllArrived(h.offered, lo, hi)
    ensures |gaps| > 0 && hi <= gaps[0].start ==> NoGapIn(gaps, lo, hi)
  {
  }

  lemma EntryMeansArrived(queue: Queue, gaps: seq<Interval>, readPos: nat, h: History, lo: nat, hi: nat)
    requires Reassembling(queue, gaps, readPos, h) && lo in queue && hi <= EndOf(queue, lo)
    ensures AllArrived(h.offered, lo, hi)
  {
    forall x: nat | lo <= x < hi
      ensures Arrived(h.offered, x)
    {
      assert (lo + (x - lo), queue[lo].data[x - lo]) in h.offered;
    }
  }

  lemma LocatedOrDuplicate(gaps: seq<Interval>, start: nat, end: nat, si: nat, startsInGap: bool, ei: int,
                           endsInGap: bool)
    requires GapsOk(gaps) && gaps[0].start < end
    requires Located(gaps, start, end, si, startsInGap, ei, endsInGap)
    ensures 0 <= ei
    ensures AheadOfStartGap(gaps, end, si, ei) ==> NoGapIn(gaps, start, end)
    ensures !AheadOfStartGap(gaps, end, si, ei) ==> si <= ei && gaps[si].start < end
  {
  }

  lemma ReadPosBehindGaps(queue: Queue, gaps: seq<Interval>, readPos: nat, h: History)
    requires Reassembling(queue, gaps, readPos, h)
    ensures GapsOk(gaps) && Tiled(queue, gaps, readPos) && readPos <= gaps[0].start
    ensures Disjoint(queue)
  {
    var x := gaps[0].start;
    assert InGap(gaps, x);
    forall k: nat | k < readPos
      ensures Arrived(h.offered, k)
    {
      assert (k, h.delivered[k]) in h.offered;
    }
  }

  /** The situation after the replacement loop: it went over the entries of `[start, pos)` and stopped at `pos`. */
  ghost predicate Replaced(q: Queue, gaps: seq<Interval>, readPos: nat, start: nat, end: nat, si: nat,
                           startsInGap: bool, ei: nat, endsInGap: bool, pos: nat)
  {
    && Tiled(q, gaps, readPos) && GapsOk(gaps) && readPos <= gaps[0].start
    && Located(gaps, start, end, si, startsInGap, ei, endsInGap) && si <= ei && gaps[si].start < end
    && Run(q, start, pos) && pos <= end && (start < pos <==> start in q)
    && (pos in q ==> end < EndOf(q, pos))
  }

  /** What the replacement loop has done, depending on where the frame starts. */
  lemma ReplacedCases(q: Queue, gaps: seq<Interval>, readPos: nat, start: nat, end: nat, si: nat, startsInGap: bool,
                      ei: nat, endsInGap: bool, pos: nat)
    requires Replaced(q, gaps, readPos, start, end, si, startsInGap, ei, endsInGap, pos)
    ensures startsInGap ==> (start in q <==> start == gaps[si].end)
    ensures start !in q ==> pos == start
    ensures start in q && !startsInGap ==> pos == gaps[si].start && pos !in q
    ensures start in q && startsInGap && si < ei ==> pos == gaps[si + 1].start && pos !in q
    ensures start in q && startsInGap && si == ei ==> pos in q && !endsInGap
  {
    var s := gaps[si];
    assert InGap(gaps, s.start) && InGap(gaps, s.end - 1);
    if startsInGap && start == s.end {
      CutAtGap(q, gaps, readPos, s.end - 1);
      NotInGapAfter(gaps, si);
      EntryStartsAt(q, gaps, readPos, start);
    } else if startsInGap {
      assert InGap(gaps, start);
    }
    if start in q {
      CutAtEntry(q, gaps, readPos, start);
      if !startsInGap {
        RunToGap(q, gaps, readPos, si, start, pos);
      } else if si < ei {
        RunToGap(q, gaps, readPos, si + 1, start, pos);
      } else {
        UntilNextGap(gaps, si + 1, start);
        EntryStartsAt(q, gaps, readPos, pos);
      }
    }
  }

  lemma NotInGapAfter(gaps: seq<Interval>, k: nat)
    requires Separated(gaps) && k < |gaps|
    ensures !InGap(gaps, gaps[k].end)
  {
  }

  /** Where the part of the frame that is finally queued starts. */
  ghost function QueuedFrom(q: Queue, gaps: seq<Interval>, start: nat, si: nat, startsInGap: bool): nat
    requires si < |gaps|
  {
    if !startsInGap && start !in q then gaps[si].start else start
  }

  /** Where it ends. `pos` is where the replacement loop stopped. */
  ghost function QueuedTo(q: Queue, gaps: seq<Interval>, start: nat, end: nat, si: nat, startsInGap: bool, ei: nat,
                          endsInGap: bool, pos: nat): nat
    requires ei < |gaps|
  {
    if start in q && startsInGap && si == ei then pos
    else if endsInGap then end else gaps[ei].end
  }

  /** `[lo, hi)` can be carved out of the gaps `si..ei`. */
  ghost predicate Carvable(gaps: seq<Interval>, si: nat, ei: nat, lo: nat, hi: nat) {
    && si <= ei < |gaps| && lo < hi && lo <= gaps[si].end && gaps[ei].start <= hi
    && (forall i :: 0 <= i < si ==> gaps[i].end <= lo)
    && (forall i :: ei < i < |gaps| ==> hi <= gaps[i].start)
  }

  /** The queued part `[lo, hi)` of a frame `[start, end)` misses no byte that had not arrived. */
  ghost predicate Complete(q: Queue, gaps: seq<Interval>, readPos: nat, start: nat, end: nat, lo: nat, hi: nat) {
    && start <= lo && hi <= end && readPos <= lo && Cut(q, lo) && Cut(q, hi)
    && (forall x: nat :: start <= x < lo || hi <= x < end ==> !InGap(gaps, x))
  }

  lemma QueuedRange(q: Queue, gaps: seq<Interval>, readPos: nat, start: nat, end: nat, si: nat, startsInGap: bool,
                    ei: nat, endsInGap: bool, pos: nat)
    requires Replaced(q, gaps, readPos, start, end, si, startsInGap, ei, endsInGap, pos)
    ensures var lo := QueuedFrom(q, gaps, start, si, startsInGap);
            var hi := QueuedTo(q, gaps, start, end, si, startsInGap, ei, endsInGap, pos);
            Carvable(gaps, si, ei, lo, hi) && Complete(q, gaps, readPos, start, end, lo, hi)
  {
    QueuedCuts(q, gaps, readPos, start, end, si, startsInGap, ei, endsInGap, pos);
    QueuedCovers(q, gaps, readPos, start, end, si, startsInGap, ei, endsInGap, pos);
  }

  lemma QueuedCuts(q: Queue, gaps: seq<Interval>, readPos: nat, start: nat, end: nat, si: nat, startsInGap: bool,
                   ei: nat, endsInGap: bool, pos: nat)
    requires Replaced(q, gaps, readPos, start, end, si, startsInGap, ei, endsInGap, pos)
    ensures var lo := QueuedFrom(q, gaps, start, si, startsInGap);
            var hi := QueuedTo(q, gaps, start, end, si, startsInGap, ei, endsInGap, pos);
            Cut(q, lo) && Cut(q, hi)
  {
    ReplacedCases(q, gaps, readPos, start, end, si, startsInGap, ei, endsInGap, pos);
    var lo := QueuedFrom(q, gaps, start, si, startsInGap);
    var hi := QueuedTo(q, gaps, start, end, si, startsInGap, ei, endsInGap, pos);
    if start in q {
      CutAtEntry(q, gaps, readPos, start);
    } else {
      assert gaps[si].start <= lo < gaps[si].end;
      CutAtGap(q, gaps, readPos, lo);
    }
    if start in q && startsInGap && si == ei {
      CutAtEntry(q, gaps, readPos, pos);
    } else if endsInGap {
      assert gaps[ei].start <= hi < gaps[ei].end;
      CutAtGap(q, gaps, readPos, hi);
    } else {
      assert gaps[ei].start <= hi - 1 < gaps[ei].end;
      CutAtGap(q, gaps, readPos, hi - 1);
    }
  }

  lemma QueuedCovers(q: Queue, gaps: seq<Interval>, readPos: nat, start: nat, end: nat, si: nat, startsInGap: bool,
                     ei: nat, endsInGap: bool, pos: nat)
    requires Replaced(q, gaps, readPos, start, end, si, startsInGap, ei, endsInGap, pos)
    ensures var lo := QueuedFrom(q, gaps, start, si, startsInGap);
            var hi := QueuedTo(q, gaps, start, end, si, startsInGap, ei, endsInGap, pos);
            && Carvable(gaps, si, ei, lo, hi) && start <= lo && hi <= end && readPos <= lo
            && (forall x: nat :: start <= x < lo || hi <= x < end ==> !InGap(gaps, x))
  {
    ReplacedCases(q, gaps, readPos, start, end, si, startsInGap, ei, endsInGap, pos);
  }

  /** Which entries are gone at each stage of push. */
  lemma QueuedDeletes(q: Queue, gaps: seq<Interval>, readPos: nat, start: nat, end: nat, si: nat, startsInGap: bool,
                      ei: nat, endsInGap: bool, pos: nat)
    requires Replaced(q, gaps, readPos, start, end, si, startsInGap, ei, endsInGap, pos)
    ensures var lo := QueuedFrom(q, gaps, start, si, startsInGap);
            var hi := QueuedTo(q, gaps, start, end, si, startsInGap, ei, endsInGap, pos);
            && (si == ei ==> Without(q, start, pos) == Without(q, lo, hi))
            && (si < ei ==> Without(q, lo, gaps[ei].start) == Without(q, lo, hi))
            && (si < ei ==> || Without(q, start, pos) == Without(q, lo, gaps[si].end)
                            || (Without(q, start, pos) == Without(q, lo, gaps[si + 1].start) && lo == gaps[si].end))
  {
    ReplacedCases(q, gaps, readPos, start, end, si, startsInGap, ei, endsInGap, pos);
    QueuedCovers(q, gaps, readPos, start, end, si, startsInGap, ei, endsInGap, pos);
    var lo := QueuedFrom(q, gaps, start, si, startsInGap);
    var hi := QueuedTo(q, gaps, start, end, si, startsInGap, ei, endsInGap, pos);
    var s := gaps[si];
    if start !in q {
      RunBounds(q, start, pos);
      RunBounds(q, lo, pos);
      WithoutInGap(q, gaps, readPos, si, lo, lo, if si == ei then hi else s.end);
    } else if !startsInGap {
      WithoutInGap(q, gaps, readPos, si, lo, s.start, if si == ei then hi else s.end);
    }
    if si < ei {
      WithoutInGap(q, gaps, readPos, ei, lo, gaps[ei].start, hi);
    }
  }

  /** Queueing the part `[lo, hi)` of a frame keeps the reassembly invariant. */
  lemma PushReassembling(q: Queue, gaps: seq<Interval>, readPos: nat, h: History, frame: seq<byte>, offset: nat,
                         si: nat, ei: nat, lo: nat, hi: nat, cb: Option<Callback>)
    requires Reassembling(q, gaps, readPos, h) && offset + |frame| < MAX_BYTE_COUNT
    requires Carvable(gaps, si, ei, lo, hi)
    requires Complete(q, gaps, readPos, offset, offset + |frame|, lo, hi)
    ensures Reassembling(Without(q, lo, hi)[lo := Entry(frame[lo - offset..hi - offset], cb)],
                         Carved(gaps, si, ei, lo, hi),
                         readPos, h.(offered := h.offered + BytesAt(frame, offset)))
    ensures Exact(Carved(gaps, si, ei, lo, hi), h.offered + BytesAt(frame, offset))
  {
    var e := Entry(frame[lo - offset..hi - offset], cb);
    var q', gaps', offered' := Without(q, lo, hi)[lo := e], Carved(gaps, si, ei, lo, hi),
                               h.offered + BytesAt(frame, offset);
    CarvedCorrect(gaps, si, ei, lo, hi);
    assert GapsOk(gaps') by { CarvedKeepsLast(gaps, si, ei, lo, hi); }
    ReplaceKeepsTiling(q, gaps, gaps', readPos, lo, hi, e);
    forall x: nat | x < MAX_BYTE_COUNT
      ensures InGap(gaps', x) <==> !Arrived(offered', x)
    {
      ArrivedAfter(h.offered, frame, offset, x);
    }
    GenuineAfter(q, h.offered, frame, offset, lo, hi, cb);
  }

  lemma CarvedKeepsLast(gaps: seq<Interval>, si: nat, ei: nat, lo: nat, hi: nat)
    requires GapsOk(gaps) && si <= ei < |gaps| && hi < MAX_BYTE_COUNT
    ensures var r := Carved(gaps, si, ei, lo, hi); |r| > 0 && r[|r| - 1].end == MAX_BYTE_COUNT
  {
  }

  lemma GenuineAfter(q: Queue, offered: set<(nat, byte)>, frame: seq<byte>, offset: nat, lo: nat, hi: nat,
                     cb: Option<Callback>)
    requires Genuine(q, offered) && offset <= lo <= hi <= offset + |frame|
    ensures Genuine(Without(q, lo, hi)[lo := Entry(frame[lo - offset..hi - offset], cb)],
                    offered + BytesAt(frame, offset))
  {
    var data := frame[lo - offset..hi - offset];
    forall i | 0 <= i < |data|
      ensures (lo + i, data[i]) in BytesAt(frame, offset)
    {
      assert (offset + (lo - offset + i), frame[lo - offset + i]) in BytesAt(frame, offset);
    }
  }

  /** What the first adjustment leaves of the start gap. */
  function StartPiece(s: Interval, start: nat, end: nat, replaced: bool): seq<Interval> {
    if start <= s.start then (if end >= s.end then [] else [Interval(end, s.end)])
    else if !replaced then [Interval(s.start, start)]
    else [s]
  }

  /** The two adjustments together carve `[lo, hi)` out: the frame ends in a later gap than it starts in. */
  lemma SpanCarved(g: seq<Interval>, si: nat, ei: nat, lo: nat, cutEnd: nat, hi: nat, replaced: bool)
    requires si < ei < |g| && hi <= g[ei].end
    requires lo <= g[si].start ==> cutEnd >= g[si].end
    requires lo > g[si].start && replaced ==> lo == g[si].end
    ensures g[..si] + StartPiece(g[si], lo, cutEnd, replaced)
            + (if hi == g[ei].end then [] else [Interval(hi, g[ei].end)]) + g[ei + 1..]
            == Carved(g, si, ei, lo, hi)
  {
    assert StartPiece(g[si], lo, cutEnd, replaced) == if g[si].start < lo then [Interval(g[si].start, lo)] else [];
  }

  /** The frame starts and ends in the same gap. */
  lemma SameCarved(g: seq<Interval>, si: nat, lo: nat, cutEnd: nat, hi: nat, replaced: bool)
    requires si < |g|
    requires lo <= g[si].start ==> hi == if cutEnd < g[si].end then cutEnd else g[si].end
    requires lo > g[si].start && !replaced ==> hi <= g[si].end
    requires lo > g[si].start && replaced ==> lo == g[si].end < hi
    ensures var trimmed := g[..si] + StartPiece(g[si], lo, cutEnd, replaced) + g[si + 1..];
            Carved(g, si, si, lo, hi) ==
            if lo > g[si].start && !replaced && hi != g[si].end then
              trimmed[..si + 1] + [Interval(hi, g[si].end)] + trimmed[si + 1..]
            else trimmed
  {
    var before, after := g[..si], g[si + 1..];
    if lo > g[si].start && !replaced {
      var trimmed := before + [Interval(g[si].start, lo)] + after;
      assert trimmed[..si + 1] == before + [Interval(g[si].start, lo)] && trimmed[si + 1..] == after;
    }
  }

  lemma DuplicateReassembling(q: Queue, gaps: seq<Interval>, readPos: nat, h: History, data: seq<byte>, offset: nat)
    requires Reassembling(q, gaps, readPos, h) && AllArrived(h.offered, offset, offset + |data|)
    ensures Reassembling(q, gaps, readPos, h.(offered := h.offered + BytesAt(data, offset)))
    ensures Exact(gaps, h.offered + BytesAt(data, offset))
  {
    forall x: nat
      ensures Arrived(h.offered, x) <==> Arrived(h.offered + BytesAt(data, offset), x)
    {
      ArrivedAfter(h.offered, data, offset, x);
    }
  }

  /** How the final bounds of the frame relate to the gaps it starts and ends in. */
  lemma QueuedBounds(q: Queue, gaps: seq<Interval>, readPos: nat, offset: nat, frameEnd: nat, si: nat,
                     startsInGap: bool, ei: nat, endsInGap: bool, pos: nat)
    requires Replaced(q, gaps, readPos, offset, frameEnd, si, startsInGap, ei, endsInGap, pos)
    ensures var lo := QueuedFrom(q, gaps, offset, si, startsInGap);
            var hi := QueuedTo(q, gaps, offset, frameEnd, si, startsInGap, ei, endsInGap, pos);
            var s, e, cutEnd := gaps[si], gaps[ei], if pos in q then pos else frameEnd;
            && Tiled(q, gaps, readPos) && GapsOk(gaps)
            && si <= ei < |gaps| && readPos <= s.end && lo <= s.end
            && lo == (if !startsInGap && offset !in q then s.start else offset)
            && hi == (if !endsInGap && lo != e.end && cutEnd > e.end then e.end else cutEnd)
            && (lo > s.start && offset in q ==> lo == s.end < hi)
            && (si < ei ==> hi <= e.end && (lo <= s.start ==> cutEnd >= s.end))
            && (si == ei && lo <= s.start ==> hi == if cutEnd < s.end then cutEnd else s.end)
            && (si == ei && lo > s.start && offset !in q ==> hi <= s.end)
  {
    ReplacedCases(q, gaps, readPos, offset, frameEnd, si, startsInGap, ei, endsInGap, pos);
    QueuedCovers(q, gaps, readPos, offset, frameEnd, si, startsInGap, ei, endsInGap, pos);
  }

  lemma ReadyToInsert(queue: Queue, gaps: seq<Interval>, readPos: nat, h: History, start: nat, end: nat, si: nat,
                      startsInGap: bool, ei: nat, endsInGap: bool)
    requires Reassembling(queue, gaps, readPos, h)
    requires Located(gaps, start, end, si, startsInGap, ei, endsInGap)
    ensures Disjoint(queue) && start < end < MAX_BYTE_COUNT && si < |gaps| && ei < |gaps|
    ensures Tiled(queue, gaps, readPos) && GapsOk(gaps) && readPos <= gaps[0].start
  {
    ReadPosBehindGaps(queue, gaps, readPos, h);
  }

  lemma AfterReplacing(q: Queue, gaps: seq<Interval>, readPos: nat, start: nat, end: nat, si: nat, startsInGap: bool,
                       ei: nat, endsInGap: bool, pos: nat)
    requires Tiled(q, gaps, readPos) && GapsOk(gaps) && readPos <= gaps[0].start
    requires Located(gaps, start, end, si, startsInGap, ei, endsInGap) && si <= ei && gaps[si].start < end
    requires Run(q, start, pos) && pos <= end && (start < pos <==> start in q)
    requires pos in q ==> end < EndOf(q, pos)
    ensures Replaced(q, gaps, readPos, start, end, si, startsInGap, ei, endsInGap, pos)
    ensures var lo := QueuedFrom(q, gaps, start, si, startsInGap);
            var hi := QueuedTo(q, gaps, start, end, si, startsInGap, ei, endsInGap, pos);
            && Carvable(gaps, si, ei, lo, hi) && Complete(q, gaps, readPos, start, end, lo, hi)
            && start <= lo < hi <= end && lo !in Without(q, lo, hi)
  {
    QueuedRange(q, gaps, readPos, start, end, si, startsInGap, ei, endsInGap, pos);
  }

  lemma ReassemblingIsExact(q: Queue, gaps: seq<Interval>, readPos: nat, h: History)
    requires Reassembling(q, gaps, readPos, h)
    ensures Exact(gaps, h.offered)
  {
  }

  /** Looking at the entries from `offset` on fails at `pos` only if that byte has not arrived, or `offset` is inside an
      entry. */
  lemma PeekStops(q: Queue, gaps: seq<Interval>, readPos: nat, h: History, offset: nat, pos: nat)
    requires Reassembling(q, gaps, readPos, h) && readPos <= offset < MAX_BYTE_COUNT && Run(q, offset, pos) && pos !in q
    ensures Cut(q, offset) ==> !Arrived(h.offered, pos)
    ensures Cut(q, readPos)
  {
    if Cut(q, offset) {
      assert Covered(q, pos) ==> pos in q;
      RunBelowMax(q, gaps, readPos, offset, pos);
    }
  }

  lemma RunBelowMax(q: Queue, gaps: seq<Interval>, readPos: nat, offset: nat, pos: nat)
    requires Tiled(q, gaps, readPos) && Run(q, offset, pos) && offset < MAX_BYTE_COUNT
    ensures pos < MAX_BYTE_COUNT
  {
    if offset < pos {
      assert Covered(q, pos - 1);
    }
  }

  /** A covered byte that no entry straddles is where an entry starts. */
  lemma CoverStartsAt(q: Queue, from: nat, pos: nat, to: nat)
    requires Disjoint(q) && from in q && Run(q, from, pos) && Run(q, from, to) && pos < to
    ensures pos in q
  {
    assert Cut(q, from);
    assert Covered(q, pos);
  }

  /** `p` holds the bytes queued from `offset` on. */
  ghost predicate Copied(offered: set<(nat, byte)>, offset: nat, p: seq<byte>) {
    forall i :: 0 <= i < |p| ==> (offset + i, p[i]) in offered
  }

  lemma CopyEntry(q: Queue, offered: set<(nat, byte)>, offset: nat, p: seq<byte>, m: nat)
    requires Genuine(q, offered) && offset + |p| in q && m <= |q[offset + |p|].data|
    requires Copied(offered, offset, p)
    ensures Copied(offered, offset, p + q[offset + |p|].data[..m])
  {
    var at := offset + |p|;
    var p' := p + q[at].data[..m];
    forall i | 0 <= i < |p'|
      ensures (offset + i, p'[i]) in offered
    {
      if |p| <= i {
        assert (at + (i - |p|), q[at].data[i - |p|]) in offered;
      }
    }
  }

  lemma NothingToPeek(h: History, offset: nat)
    ensures AllArrived(h.offered, offset, offset) && Copied(h.offered, offset, [])
  {
  }

  lemma CopiedNothing(offered: set<(nat, byte)>, offset: nat)
    ensures Copied(offered, offset, [])
  {
  }
}
