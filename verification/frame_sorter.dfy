/** quic-go-bbr/frame_sorter.go: reassembly of a byte stream from overlapping,
    duplicated and reordered pieces. */
module FrameSorting {
  import opened Protocol
  import opened ByteIntervals
  import opened FrameQueue
  import opened Reassembly

  /** protocol.MinStreamFrameBufferSize */
  const MIN_STREAM_FRAME_BUFFER_SIZE: nat := 128

  /** protocol.MaxStreamFrameSorterGaps */
  const MAX_STREAM_FRAME_SORTER_GAPS: nat := 10000

  /** What the internal push reports. */
  datatype PushResult = Queued | Duplicate | TooManyGaps

  class FrameSorter {
    var queue: Queue
    var readPos: nat
    var gaps: seq<Interval>

    /** Callbacks called so far. */
    var called: multiset<Callback>

    /** History: all pairs pushed so far, the bytes popped so far, the callbacks pushed and popped. */
    ghost var history: History
    ghost var issued: multiset<Callback>
    ghost var handedOut: multiset<Callback>

    ghost predicate Valid()
      reads this
    {
      && Reassembling(queue, gaps, readPos, history)
      && Balanced(issued, called, handedOut, queue)
      && |gaps| <= MAX_STREAM_FRAME_SORTER_GAPS
    }

    constructor ()
      ensures Valid()
      ensures history == History({}, []) && issued == multiset{} && readPos == 0
    {
      queue, readPos, called := map[], 0, multiset{};
      gaps := [Interval(0, MAX_BYTE_COUNT)];
      history, issued, handedOut := History({}, []), multiset{}, multiset{};
      new;
      assert gaps[0] == Interval(0, MAX_BYTE_COUNT);
    }

    method Release(cb: Option<Callback>)
      modifies this`called
      ensures called == old(called) + CbOf(cb)
    {
      if cb.Some? {
        called := called + multiset{cb.value};
      }
    }

    method FindStartGap(offset: nat) returns (k: nat, inGap: bool)
      requires GapsOk(gaps) && offset <= MAX_BYTE_COUNT
      ensures k < |gaps|
      ensures forall i :: 0 <= i < k ==> gaps[i].end < offset
      ensures if inGap then gaps[k].start <= offset <= gaps[k].end else offset < gaps[k].start
    {
      k := 0;
      while true
        invariant k < |gaps|
        invariant forall i :: 0 <= i < k ==> gaps[i].end < offset
        decreases |gaps| - k
      {
        if gaps[k].start <= offset <= gaps[k].end {
          return k, true;
        }
        if offset < gaps[k].start {
          return k, false;
        }
        k := k + 1;
      }
    }

    /** Searches from gap `from` on; the result is the predecessor of the first gap after `offset`,
        so it may be `from - 1`. */
    method FindEndGap(from: nat, offset: nat) returns (k: int, inGap: bool)
      requires GapsOk(gaps) && from < |gaps| && offset < MAX_BYTE_COUNT
      ensures from - 1 <= k < |gaps|
      ensures k >= from ==> gaps[k].start <= offset
      ensures if inGap then from <= k && offset < gaps[k].end
              else k + 1 < |gaps| && offset < gaps[k + 1].start && (from <= k ==> gaps[k].end <= offset)
    {
      var i := from;
      while true
        invariant from <= i < |gaps|
        invariant i > from ==> gaps[i - 1].end <= offset
        decreases |gaps| - i
      {
        if gaps[i].start <= offset < gaps[i].end {
          return i, true;
        }
        if offset < gaps[i].start {
          return i - 1, false;
        }
        i := i + 1;
      }
    }

    /** Removes the run of adjacent entries that starts at `from`, releasing their buffers. */
    method DeleteConsecutive(from: nat) returns (ghost to: nat)
      requires Disjoint(queue) && Balanced(issued, called, handedOut, queue)
      modifies this`queue, this`called
      ensures Run(old(queue), from, to) && to !in old(queue)
      ensures from !in old(queue) ==> to == from
      ensures queue == Without(old(queue), from, to)
      ensures Balanced(issued, called, handedOut, queue)
    {
      hide Balanced, Run, Without, Disjoint;
      var pos: nat := from;
      ghost var q0 := queue;
      RunBounds(q0, from, pos);
      while pos in queue
        invariant Run(q0, from, pos)
        invariant queue == Without(q0, from, pos)
        invariant Balanced(issued, called, handedOut, queue)
        invariant from !in q0 ==> pos == from
        decreases |queue|
      {
        var entry := queue[pos];
        RunBounds(q0, from, pos);
        ReleaseBalanced(issued, called, handedOut, queue, pos);
        RunStep(q0, from, pos);
        queue := queue - {pos};
        Release(entry.doneCb);
        pos := pos + |entry.data|;
      }
      RunBounds(q0, from, pos);
      to := pos;
    }

    /** The loop of push that replaces queued entries shorter than the new frame `[start, frameEnd)`.
        The frame is cut to `[start, end)` when an entry reaches beyond its end. */
    method ReplaceEntries(start: nat, frameEnd: nat)
      returns (duplicate: bool, replaced: bool, wasCut: bool, end: nat, ghost pos: nat)
      requires start < frameEnd
      requires Disjoint(queue) && Balanced(issued, called, handedOut, queue)
      modifies this`queue, this`called
      ensures Balanced(issued, called, handedOut, queue)
      ensures duplicate ==>
                && queue == old(queue) && called == old(called)
                && start in queue && frameEnd <= EndOf(queue, start)
      ensures !duplicate ==>
                && Run(old(queue), start, pos) && queue == Without(old(queue), start, pos)
                && pos <= frameEnd && replaced == (start < pos) == (start in old(queue))
                && (wasCut ==> end == pos && replaced && pos in old(queue) && frameEnd < EndOf(old(queue), pos))
                && (!wasCut ==> end == frameEnd && pos !in old(queue))
    {
      hide Balanced, Run, Without, Disjoint;
      var at: nat := start;
      replaced := false;
      ghost var q0 := queue;
      RunBounds(q0, start, at);
      while at in queue
        invariant Run(q0, start, at) && at <= frameEnd
        invariant queue == Without(q0, start, at)
        invariant Balanced(issued, called, handedOut, queue)
        invariant start <= at && replaced == (start < at) && (replaced ==> start in q0)
        invariant !replaced ==> queue == q0 && called == old(called)
        decreases |queue|
      {
        var entry := queue[at];
        var entryLen := |entry.data|;
        RunBounds(q0, start, at);
        if frameEnd - at > entryLen || (replaced && frameEnd - at == entryLen) {
          ReleaseBalanced(issued, called, handedOut, queue, at);
          RunStep(q0, start, at);
          queue := queue - {at};
          at := at + entryLen;
          replaced := true;
          Release(entry.doneCb);
        } else {
          duplicate, wasCut, end, pos := !replaced, true, at, at;
          return;
        }
      }
      RunBounds(q0, start, at);
      duplicate, wasCut, end, pos := false, false, frameEnd, at;
    }

    /** The part of push that deletes the entries and gaps strictly between the start gap `si` and the end gap `ei`.
        `cur` is where the gap after the start gap is now. */
    method DropSpannedGaps(cur: nat, startGapEnd: nat, endGapStart: nat, ghost q0: Queue, ghost g0: seq<Interval>,
                           ghost si: nat, ghost ei: nat, ghost lo: nat)
      requires Tiled(q0, g0, readPos) && GapsOk(g0)
      requires si < ei < |g0| && readPos <= g0[si].end && lo <= g0[si].end
      requires startGapEnd == g0[si].end && endGapStart == g0[ei].start
      requires cur <= |gaps| && gaps[cur..] == g0[si + 1..]
      requires || queue == Without(q0, lo, startGapEnd)
               || (queue == Without(q0, lo, g0[si + 1].start) && lo == startGapEnd)
      requires Balanced(issued, called, handedOut, queue)
      modifies this`gaps, this`queue, this`called
      ensures gaps == old(gaps)[..cur] + g0[ei..]
      ensures queue == Without(q0, lo, endGapStart)
      ensures Balanced(issued, called, handedOut, queue)
    {
      hide Balanced, Without, Tiled, Run, Separated;
      GapOrder(g0, si, si, ei, readPos, lo);
      ghost var k := si + 1;
      ghost var q1 := queue;
      WithoutDisjoint(q0, g0, readPos, lo, startGapEnd);
      WithoutDisjoint(q0, g0, readPos, lo, g0[k].start);
      ghost var to := DeleteConsecutive(startGapEnd);
      if q1 == Without(q0, lo, startGapEnd) {
        DeleteRunAfterGap(q0, g0, readPos, si, lo, to);
      } else {
        AlreadyDeleted(q0, lo, g0[k].start);
        RunBounds(q1, to, to);
      }
      ghost var pre := gaps[..cur];
      assert gaps == pre + gaps[cur..];
      while gaps[cur].end < endGapStart
        invariant si < k <= ei && cur < |gaps|
        invariant gaps == pre + g0[k..]
        invariant queue == Without(q0, lo, g0[k].start)
        invariant Balanced(issued, called, handedOut, queue)
        decreases |gaps|
      {
        RemoveHead(pre, g0, k);
        GapOrder(g0, si, k, ei, readPos, lo);
        WithoutInGap(q0, g0, readPos, k, lo, g0[k].start, g0[k].end);
        WithoutDisjoint(q0, g0, readPos, lo, g0[k].end);
        to := DeleteConsecutive(gaps[cur].end);
        DeleteRunAfterGap(q0, g0, readPos, k, lo, to);
        gaps := gaps[..cur] + gaps[cur + 1..];
        k := k + 1;
      }
      RemoveHead(pre, g0, k);
      GapOrder(g0, si, k, ei, readPos, lo);
    }

    /** Adjusts the gap in which the frame `[start, end)` starts. `next` is where the gap after it is then. */
    method TrimStartGap(k: nat, start: nat, end: nat, replaced: bool) returns (adjusted: bool, next: nat)
      requires k < |gaps|
      modifies this`gaps
      ensures gaps == old(gaps)[..k] + StartPiece(old(gaps)[k], start, end, replaced) + old(gaps)[k + 1..]
      ensures next == k + |StartPiece(old(gaps)[k], start, end, replaced)|
      ensures adjusted == (start > old(gaps)[k].start && !replaced) && (adjusted ==> k < |gaps|)
    {
      adjusted, next := false, k + 1;
      if start <= gaps[k].start {
        if end >= gaps[k].end {
          gaps, next := gaps[..k] + gaps[k + 1..], k;
        } else {
          gaps := gaps[k := Interval(end, gaps[k].end)];
        }
      } else if !replaced {
        gaps, adjusted := gaps[k := Interval(gaps[k].start, start)], true;
      }
    }

    /** Adjusts the gap in which the frame ends. When it is not the start gap it sits at `next`, between `pre` and
        `post`. */
    method TrimEndGap(k: nat, same: bool, adjusted: bool, next: nat, end: nat, startGapEnd: nat, endGapEnd: nat,
                      ghost pre: seq<Interval>, ghost endGap: Interval, ghost post: seq<Interval>)
      requires k < |gaps| || !same || !adjusted || end == endGapEnd
      requires !same ==> gaps == pre + [endGap] + post && |pre| == next && endGap.end == endGapEnd
      modifies this`gaps
      ensures !same ==> gaps == pre + (if end == endGapEnd then [] else [Interval(end, endGapEnd)]) + post
      ensures same ==>
                gaps == if adjusted && end != endGapEnd then
                          old(gaps)[..k + 1] + [Interval(end, startGapEnd)] + old(gaps)[k + 1..]
                               else old(gaps)
    {
      if end == endGapEnd {
        if !same {
          gaps := gaps[..next] + gaps[next + 1..];
        }
      } else if same && adjusted {
        gaps := gaps[..k + 1] + [Interval(end, startGapEnd)] + gaps[k + 1..];
      } else if !same {
        gaps := gaps[next := Interval(end, gaps[next].end)];
      }
    }

    /** The part of push that cuts the frame to what is missing and closes the gaps it fills.
        `pos` is where the replacement loop stopped, `cutEnd` is the end of the frame it left. */
    method CloseGaps(offset: nat, cutEnd: nat, replaced: bool, startGap: nat, startsInGap: bool, endGap: nat,
                     endsInGap: bool, ghost q0: Queue, ghost frameEnd: nat,
                     ghost pos: nat) returns (start: nat, end: nat, wasCut: bool)
      requires Replaced(q0, gaps, readPos, offset, frameEnd, startGap, startsInGap, endGap, endsInGap, pos)
      requires replaced == (offset in q0) && cutEnd == (if pos in q0 then pos else frameEnd)
      requires queue == Without(q0, offset, pos) && Balanced(issued, called, handedOut, queue)
      modifies this`queue, this`gaps, this`called
      ensures start == QueuedFrom(q0, old(gaps), offset, startGap, startsInGap)
      ensures end == QueuedTo(q0, old(gaps), offset, frameEnd, startGap, startsInGap, endGap, endsInGap, pos)
      ensures gaps == Carved(old(gaps), startGap, endGap, start, end)
      ensures queue == Without(q0, start, end) && Balanced(issued, called, handedOut, queue)
    {
      hide *;
      ghost var g0 := gaps;
      QueuedBounds(q0, g0, readPos, offset, frameEnd, startGap, startsInGap, endGap, endsInGap, pos);
      QueuedDeletes(q0, g0, readPos, offset, frameEnd, startGap, startsInGap, endGap, endsInGap, pos);
      var startGapEnd, endGapStart, endGapEnd := gaps[startGap].end, gaps[endGap].start, gaps[endGap].end;
      start, end, wasCut := offset, cutEnd, false;
      if !startsInGap && !replaced {
        start, wasCut := gaps[startGap].start, true;
      }
      ghost var piece := StartPiece(g0[startGap], start, end, replaced);
      ghost var pre := g0[..startGap] + piece;
      var adjusted, next := TrimStartGap(startGap, start, end, replaced);
      if startGap != endGap {
        assert gaps[next..] == g0[startGap + 1..] && gaps[..next] == pre;
        DropSpannedGaps(next, startGapEnd, endGapStart, q0, g0, startGap, endGap, start);
        assert g0[endGap..] == [g0[endGap]] + g0[endGap + 1..];
      }
      if !endsInGap && start != endGapEnd && end > endGapEnd {
        end, wasCut := endGapEnd, true;
      }
      TrimEndGap(startGap, startGap == endGap, adjusted, next, end, startGapEnd, endGapEnd,
                 pre, g0[endGap], g0[endGap + 1..]);
      if startGap == endGap {
        SameCarved(g0, startGap, start, cutEnd, end, replaced);
      } else {
        SpanCarved(g0, startGap, endGap, start, cutEnd, end, replaced);
      }
    }

    /** The second half of push: replaces entries, closes the gaps that the frame fills and queues the new part. */
    method InsertFrame(frame: seq<byte>, offset: nat, frameCb: Option<Callback>, startGap: nat, startsInGap: bool,
                       endGap: nat, endsInGap: bool) returns (r: PushResult)
      requires Valid()
      requires Located(gaps, offset, offset + |frame|, startGap, startsInGap, endGap, endsInGap)
      requires startGap <= endGap && gaps[startGap].start < offset + |frame|
      modifies this`queue, this`gaps, this`called, this`history, this`issued
      ensures r == Duplicate ==>
                && queue == old(queue) && gaps == old(gaps) && called == old(called)
                && history == old(history) && issued == old(issued)
                && AllArrived(history.offered, offset, offset + |frame|)
      ensures r == Queued ==> Valid()
      ensures r == TooManyGaps ==> |gaps| > MAX_STREAM_FRAME_SORTER_GAPS && Exact(gaps, history.offered)
      ensures r != Duplicate ==>
                && history == old(history).(offered := old(history).offered + BytesAt(frame, offset))
                && issued == old(issued) + CbOf(frameCb)
    {
      hide Reassembling, Balanced, Tiled, GapsOk, Separated, Located, Run, Without, Disjoint, Carved, Replaced,
           QueuedFrom, QueuedTo, Carvable, Complete, AllArrived, BytesAt, Exact;
      ghost var q0, g0, h0, frameEnd := queue, gaps, history, offset + |frame|;
      ReadyToInsert(queue, gaps, readPos, history, offset, frameEnd, startGap, startsInGap, endGap, endsInGap);
      var duplicate, replaced, cutByEntry, cutEnd;
      ghost var pos;
      duplicate, replaced, cutByEntry, cutEnd, pos := ReplaceEntries(offset, offset + |frame|);
      if duplicate {
        EntryMeansArrived(queue, gaps, readPos, history, offset, offset + |frame|);
        return Duplicate;
      }
      AfterReplacing(q0, g0, readPos, offset, frameEnd, startGap, startsInGap, endGap, endsInGap, pos);
      var start, end, cutByGap := CloseGaps(offset, cutEnd, replaced, startGap, startsInGap, endGap, endsInGap, q0,
                                            frameEnd, pos);
      ghost var cb;
      r, cb := StoreFrame(frame[start - offset..end - offset], start, frameCb, cutByEntry || cutByGap);
      PushReassembling(q0, g0, readPos, h0, frame, offset, startGap, endGap, start, end, cb);
      history := history.(offered := history.offered + BytesAt(frame, offset));
    }

    /** The last part of push: copies small remainders so that their buffer can be released, and stores the entry. */
    method StoreFrame(data: seq<byte>, start: nat, frameCb: Option<Callback>, wasCut: bool)
      returns (r: PushResult, ghost storedCb: Option<Callback>)
      requires start !in queue && Balanced(issued, called, handedOut, queue)
      modifies this`queue, this`called, this`issued
      ensures issued == old(issued) + CbOf(frameCb)
      ensures r == if |gaps| > MAX_STREAM_FRAME_SORTER_GAPS then TooManyGaps else Queued
      ensures r == Queued ==>
                && Balanced(issued, called, handedOut, queue)
                && queue == old(queue)[start := Entry(data, storedCb)]
                && storedCb == (if wasCut && |data| < MIN_STREAM_FRAME_BUFFER_SIZE then None else frameCb)
    {
      hide Balanced;
      var doneCb := frameCb;
      issued := issued + CbOf(frameCb);
      if wasCut && |data| < MIN_STREAM_FRAME_BUFFER_SIZE {
        Release(doneCb);
        doneCb := None;
      }
      if |gaps| > MAX_STREAM_FRAME_SORTER_GAPS {
        return TooManyGaps, doneCb;
      }
      CalledOrStored(old(issued), old(called), handedOut, queue, start, data, frameCb);
      queue := queue[start := Entry(data, doneCb)];
      r, storedCb := Queued, doneCb;
    }

    /** The internal push: locates the frame among the gaps, and inserts what is new. */
    method PushFrame(frame: seq<byte>, offset: nat, frameCb: Option<Callback>) returns (r: PushResult)
      requires Valid() && offset + |frame| < MAX_BYTE_COUNT
      modifies this`queue, this`gaps, this`called, this`history, this`issued
      ensures r == Duplicate ==>
                && queue == old(queue) && gaps == old(gaps) && called == old(called)
                && history == old(history) && issued == old(issued)
                && AllArrived(history.offered, offset, offset + |frame|)
      ensures r == Queued ==> Valid()
      ensures r == TooManyGaps ==> |gaps| > MAX_STREAM_FRAME_SORTER_GAPS && Exact(gaps, history.offered)
      ensures r != Duplicate ==>
                && history == old(history).(offered := old(history).offered + BytesAt(frame, offset))
                && issued == old(issued) + CbOf(frameCb)
    {
      var end := offset + |frame|;
      ReadPosBehindGaps(queue, gaps, readPos, history);
      NoGapMeansArrived(queue, gaps, readPos, history, offset, end);
      if frame == [] {
        return Duplicate;
      }
      if end <= gaps[0].start {
        return Duplicate;
      }
      var startGap, startsInGap := FindStartGap(offset);
      var endGap, endsInGap := FindEndGap(startGap, end);
      LocatedOrDuplicate(gaps, offset, end, startGap, startsInGap, endGap, endsInGap);
      if AheadOfStartGap(gaps, end, startGap, endGap) {
        return Duplicate;
      }
      r := InsertFrame(frame, offset, frameCb, startGap, startsInGap, endGap, endsInGap);
    }

    /** Pushes data; a duplicate is released right away. */
    method Push(data: seq<byte>, offset: nat, doneCb: Option<Callback>) returns (ok: bool)
      requires Valid() && offset + |data| < MAX_BYTE_COUNT
      modifies this
      ensures ok ==> Valid()
      ensures ok <==> |gaps| <= MAX_STREAM_FRAME_SORTER_GAPS
      ensures Exact(gaps, history.offered)
      ensures history == old(history).(offered := old(history).offered + BytesAt(data, offset))
      ensures issued == old(issued) + CbOf(doneCb)
      ensures readPos == old(readPos) && handedOut == old(handedOut)
    {
      hide Reassembling, Balanced, Exact, AllArrived, BytesAt;
      var r := PushFrame(data, offset, doneCb);
      if r == Queued {
        ReassemblingIsExact(queue, gaps, readPos, history);
      }
      if r == Duplicate {
        DuplicateReassembling(queue, gaps, readPos, history, data, offset);
        CallBalanced(issued, called, handedOut, queue, doneCb);
        Release(doneCb);
        history := history.(offered := history.offered + BytesAt(data, offset));
        issued := issued + CbOf(doneCb);
        return true;
      }
      ok := r == Queued;
    }

    /** Pops the entry at the read position, if there is one. */
    method Pop() returns (offset: nat, data: seq<byte>, doneCb: Option<Callback>)
      requires Valid()
      modifies this
      ensures Valid()
      ensures offset == old(readPos) && readPos == offset + |data|
      ensures data != [] <==> Arrived(history.offered, offset)
      ensures data == [] ==> doneCb == None
      ensures history == old(history).(delivered := old(history).delivered + data)
      ensures handedOut == old(handedOut) + CbOf(doneCb)
      ensures gaps == old(gaps) && called == old(called) && issued == old(issued)
    {
      hide Reassembling, Balanced, GapsOk;
      if readPos !in queue {
        NothingToPop(queue, gaps, readPos, history);
        return readPos, [], None;
      }
      var entry := queue[readPos];
      HandOutBalanced(issued, called, handedOut, queue, readPos);
      PopReassembling(queue, gaps, readPos, history);
      offset, data, doneCb := readPos, entry.data, entry.doneCb;
      queue, readPos := queue - {readPos}, readPos + |data|;
      history, handedOut := history.(delivered := history.delivered + data), handedOut + CbOf(doneCb);
      // the panic "read position higher than a gap" is unreachable
      assert gaps[0].end > readPos;
    }

    /** Whether anything is queued at any offset: some byte has arrived that was not popped yet. */
    method HasMoreData() returns (more: bool)
      requires Valid()
      ensures more <==> exists x: nat :: readPos <= x < MAX_BYTE_COUNT && Arrived(history.offered, x)
    {
      more := |queue| > 0;
      QueuedMeansUnread(queue, gaps, readPos, history);
    }

    /** Copies `n` consecutive bytes from `offset` on without removing them. */
    method Peek(offset: nat, n: nat) returns (ok: bool, p: seq<byte>)
      requires Valid() && offset < MAX_BYTE_COUNT
      ensures ok ==> |p| == n && Copied(history.offered, offset, p)
      ensures offset == readPos ==> (ok <==> AllArrived(history.offered, offset, offset + n))
    {
      hide Run, Cut, Disjoint, Genuine, Copied, AllArrived, Without, Reassembling, Balanced;
      p := [];
      if n == 0 {
        NothingToPeek(history, offset);
        return true, p;
      }
      PeekFacts();
      var pos: nat, remaining: nat := offset, n;
      RunBounds(queue, offset, pos);
      while remaining > 0
        invariant Run(queue, offset, pos) && offset <= pos && pos + remaining == offset + n
        invariant remaining > 0 && (pos > offset ==> offset in queue)
        decreases remaining
      {
        if pos !in queue {
          PeekFailed(offset, n, pos);
          return false, p;
        }
        RunStep(queue, offset, pos);
        if remaining <= |queue[pos].data| {
          break;
        }
        remaining := remaining - |queue[pos].data|;
        pos := pos + |queue[pos].data|;
      }
      ghost var to := pos + |queue[pos].data|;
      PeekSucceeded(offset, n, to);
      pos := offset;
      RunBounds(queue, offset, pos);
      CopiedNothing(history.offered, offset);
      while |p| < n
        invariant |p| <= n && Copied(history.offered, offset, p)
        invariant Run(queue, offset, pos)
        invariant |p| < n ==> pos == offset + |p|
        decreases n - |p|
      {
        CoverStartsAt(queue, offset, pos, to);
        RunStep(queue, offset, pos);
        var m := if n - |p| < |queue[pos].data| then n - |p| else |queue[pos].data|;
        CopyEntry(queue, history.offered, offset, p, m);
        p := p + queue[pos].data[..m];
        pos := pos + |queue[pos].data|;
      }
      ok := true;
    }

    lemma PeekFacts()
      requires Valid()
      ensures Disjoint(queue) && Genuine(queue, history.offered)
    {
    }

    lemma PeekFailed(offset: nat, n: nat, pos: nat)
      requires Valid() && offset < MAX_BYTE_COUNT && Run(queue, offset, pos) && pos !in queue && pos < offset + n
      ensures offset == readPos ==> !AllArrived(history.offered, offset, offset + n)
    {
      if offset == readPos {
        PeekStops(queue, gaps, readPos, history, offset, pos);
      }
    }

    lemma PeekSucceeded(offset: nat, n: nat, to: nat)
      requires Valid() && Run(queue, offset, to) && offset + n <= to
      ensures AllArrived(history.offered, offset, offset + n)
    {
      forall x: nat | offset <= x < offset + n
        ensures Arrived(history.offered, x)
      {
        assert Covered(queue, x);
        assert !InGap(gaps, x);
      }
    }
  }
}
