/** Whole runs of the frame sorter, stated without reference to its internals. */
module ReassemblyRuns {
  import opened Protocol
  import opened ByteIntervals
  import opened FrameQueue
  import opened Reassembly
  import opened FrameSorting

  datatype Op = PushOp(data: seq<byte>, offset: nat, doneCb: Option<Callback>) | PopOp

  ghost predicate Covers(op: Op, x: nat) {
    op.PushOp? && op.offset <= x < op.offset + |op.data|
  }

  /** Byte `x` of the stream was in one of the pushed pieces. */
  ghost predicate Pushed(ops: seq<Op>, x: nat) {
    exists i :: 0 <= i < |ops| && Covers(ops[i], x)
  }

  ghost predicate PieceOf(op: Op, stream: nat -> byte) {
    op.PushOp? ==>
      && op.offset + |op.data| < MAX_BYTE_COUNT
      && (forall k :: 0 <= k < |op.data| ==> op.data[k] == stream(op.offset + k))
  }

  /** What a run of pushes and pops of pieces of `stream` has offered. */
  ghost predicate RunOf(offered: set<(nat, byte)>, ops: seq<Op>, stream: nat -> byte) {
    && (forall x: nat :: Arrived(offered, x) <==> Pushed(ops, x))
    && (forall x: nat, b: byte :: (x, b) in offered ==> b == stream(x))
  }

  lemma PushedSnoc(ops: seq<Op>, op: Op, x: nat)
    ensures Pushed(ops + [op], x) <==> Pushed(ops, x) || Covers(op, x)
  {
    var all := ops + [op];
    if Pushed(ops, x) {
      var i :| 0 <= i < |ops| && Covers(ops[i], x);
      assert all[i] == ops[i];
    }
    if Covers(op, x) {
      assert all[|ops|] == op;
    }
  }

  lemma RunOfSnoc(offered: set<(nat, byte)>, ops: seq<Op>, op: Op, stream: nat -> byte)
    requires RunOf(offered, ops, stream) && PieceOf(op, stream)
    ensures op.PushOp? ==> RunOf(offered + BytesAt(op.data, op.offset), ops + [op], stream)
    ensures op.PopOp? ==> RunOf(offered, ops + [op], stream)
  {
    forall x: nat
      ensures op.PushOp? ==> (Arrived(offered + BytesAt(op.data, op.offset), x) <==> Pushed(ops + [op], x))
      ensures op.PopOp? ==> (Arrived(offered, x) <==> Pushed(ops + [op], x))
    {
      PushedSnoc(ops, op, x);
      if op.PushOp? {
        ArrivedAfter(offered, op.data, op.offset, x);
      }
    }
  }

  /** More holes are left in the pushed pieces than the sorter tolerates. */
  ghost predicate TooFragmented(ops: seq<Op>) {
    exists gaps :: GapsOk(gaps) && |gaps| > MAX_STREAM_FRAME_SORTER_GAPS && HolesOf(gaps, ops)
  }

  ghost predicate HolesOf(gaps: seq<Interval>, ops: seq<Op>) {
    forall x: nat :: x < MAX_BYTE_COUNT ==> (InGap(gaps, x) <==> !Pushed(ops, x))
  }

  /** Feeds a sorter any pieces of `stream`, in any order, overlapping and repeated, with pops in between, and then
      pops what is left: what comes out is the longest prefix of the stream that was pushed without a hole.
      The run fails exactly when the pieces become too fragmented. */
  method Reassemble(ops: seq<Op>, ghost stream: nat -> byte) returns (ok: bool, popped: seq<byte>)
    requires forall i :: 0 <= i < |ops| ==> PieceOf(ops[i], stream)
    ensures ok ==> forall k :: 0 <= k < |popped| ==> popped[k] == stream(k) && Pushed(ops, k)
    ensures ok ==> !Pushed(ops, |popped|)
    ensures ok <==> forall n :: 0 <= n <= |ops| ==> !TooFragmented(ops[..n])
  {
    hide Reassembling, Exact, TooFragmented, PieceOf, BytesAt, GapsOk, HolesOf, Balanced, RunOf, Pushed, Arrived;
    var sorter := new FrameSorter();
    popped := [];
    EmptyRun(stream);
    var i := 0;
    NotFragmented(sorter.queue, sorter.gaps, sorter.readPos, sorter.history, ops[..i], stream);
    while i < |ops|
      invariant 0 <= i <= |ops| && fresh(sorter) && sorter.Valid()
      invariant popped == sorter.history.delivered
      invariant RunOf(sorter.history.offered, ops[..i], stream)
      invariant forall n :: 0 <= n <= i ==> !TooFragmented(ops[..n])
    {
      assert ops[..i + 1] == ops[..i] + [ops[i]];
      RunOfSnoc(sorter.history.offered, ops[..i], ops[i], stream);
      match ops[i] {
        case PushOp(data, offset, doneCb) =>
          PieceFits(ops[i], stream);
          ok := sorter.Push(data, offset, doneCb);
          if !ok {
            GapsAreHoles(sorter.gaps, sorter.history, ops[..i + 1], stream);
            return;
          }
        case PopOp =>
          var _, data, _ := sorter.Pop();
          popped := popped + data;
      }
      i := i + 1;
      NotFragmented(sorter.queue, sorter.gaps, sorter.readPos, sorter.history, ops[..i], stream);
    }
    assert ops[..i] == ops;
    while true
      invariant fresh(sorter) && sorter.Valid() && popped == sorter.history.delivered
      invariant RunOf(sorter.history.offered, ops, stream)
      decreases MAX_BYTE_COUNT - sorter.readPos
    {
      var _, data, _ := sorter.Pop();
      popped := popped + data;
      RunDelivers(sorter.queue, sorter.gaps, sorter.readPos, sorter.history, ops, stream);
      if data == [] {
        break;
      }
    }
    ok := true;
  }

  lemma EmptyRun(stream: nat -> byte)
    ensures RunOf({}, [], stream)
  {
  }

  lemma PieceFits(op: Op, stream: nat -> byte)
    requires PieceOf(op, stream) && op.PushOp?
    ensures op.offset + |op.data| < MAX_BYTE_COUNT
  {
  }

  lemma GapsAreHoles(gaps: seq<Interval>, h: History, ops: seq<Op>, stream: nat -> byte)
    requires Exact(gaps, h.offered) && RunOf(h.offered, ops, stream) && |gaps| > MAX_STREAM_FRAME_SORTER_GAPS
    ensures TooFragmented(ops)
  {
    assert GapsOk(gaps) && HolesOf(gaps, ops);
  }

  lemma NotFragmented(q: Queue, gaps: seq<Interval>, readPos: nat, h: History, ops: seq<Op>, stream: nat -> byte)
    requires Reassembling(q, gaps, readPos, h) && RunOf(h.offered, ops, stream)
    requires |gaps| <= MAX_STREAM_FRAME_SORTER_GAPS
    ensures !TooFragmented(ops)
  {
    forall gaps' | GapsOk(gaps') && HolesOf(gaps', ops)
      ensures gaps' == gaps
    {
      assert forall x: nat :: InGap(gaps, x) <==> InGap(gaps', x);
      GapsAreCanonical(gaps, gaps');
    }
  }

  lemma RunDelivers(q: Queue, gaps: seq<Interval>, readPos: nat, h: History, ops: seq<Op>, stream: nat -> byte)
    requires Reassembling(q, gaps, readPos, h) && RunOf(h.offered, ops, stream)
    ensures readPos < MAX_BYTE_COUNT && |h.delivered| == readPos
    ensures forall k :: 0 <= k < readPos ==> h.delivered[k] == stream(k) && Pushed(ops, k)
    ensures !Arrived(h.offered, readPos) ==> !Pushed(ops, readPos)
  {
    forall k | 0 <= k < readPos
      ensures h.delivered[k] == stream(k) && Pushed(ops, k)
    {
      assert (k, h.delivered[k]) in h.offered;
      assert Arrived(h.offered, k);
    }
  }

  /** The gap list is determined by the bytes it stands for, so the fragmentation test depends on these alone. */
  lemma {:induction false} GapsAreCanonical(g: seq<Interval>, g': seq<Interval>)
    requires Separated(g) && Separated(g')
    requires forall x: nat :: InGap(g, x) <==> InGap(g', x)
    ensures g == g'
    decreases |g|
  {
    if g == [] {
      if g' != [] {
        assert InGap(g', g'[0].start);
      }
    } else {
      assert InGap(g, g[0].start);
      assert g' != [];
      assert InGap(g', g'[0].start);
      FirstGap(g, g');
      FirstGap(g', g);
      assert g == [g[0]] + g[1..] && g' == [g'[0]] + g'[1..];
      forall x: nat
        ensures InGap(g[1..], x) <==> InGap(g'[1..], x)
      {
        TailGap(g, x);
        TailGap(g', x);
      }
      GapsAreCanonical(g[1..], g'[1..]);
    }
  }

  lemma FirstGap(g: seq<Interval>, g': seq<Interval>)
    requires Separated(g) && Separated(g') && g != [] && g' != []
    requires forall x: nat :: InGap(g, x) <==> InGap(g', x)
    ensures g[0].start >= g'[0].start
    ensures g[0].start == g'[0].start ==> g[0].end <= g'[0].end
  {
    assert InGap(g, g[0].start);
    NotInGapAfter(g', 0);
    assert !InGap(g, g'[0].end);
  }

  lemma TailGap(g: seq<Interval>, x: nat)
    requires Separated(g) && g != []
    ensures InGap(g[1..], x) <==> InGap(g, x) && !(g[0].start <= x < g[0].end)
  {
    assert g == [g[0]] + g[1..];
    InGapConcat([g[0]], g[1..], x);
  }
}
