/** The offset-indexed map of received frames: how it tiles the bytes outside the gaps,
    and which release callbacks it holds. */
module FrameQueue {
  import opened Protocol
  import opened ByteIntervals

  /** Identifies a frame's release callback. */
  type Callback = nat

  datatype Entry = Entry(data: seq<byte>, doneCb: Option<Callback>)

  type Queue = map<nat, Entry>

  function EndOf(q: Queue, p: nat): nat
    requires p in q
  {
    p + |q[p].data|
  }

  ghost predicate Covered(q: Queue, x: nat) {
    exists p :: p in q && p <= x < EndOf(q, p)
  }

  /** No entry has bytes on both sides of `x`. */
  ghost predicate Cut(q: Queue, x: nat) {
    forall p :: p in q ==> EndOf(q, p) <= x || x <= p
  }

  /** Every entry that starts in `[lo, hi)` is dropped. */
  function Without(q: Queue, lo: nat, hi: nat): Queue {
    map p | p in q && !(lo <= p < hi) :: q[p]
  }

  /** From `readPos` up, every byte lies in exactly one gap or in exactly one entry. */
  ghost predicate Tiled(q: Queue, gaps: seq<Interval>, readPos: nat) {
    && (forall p :: p in q ==> q[p].data != [] && readPos <= p && EndOf(q, p) < MAX_BYTE_COUNT)
    && (forall p, r :: p in q && r in q && p < r ==> EndOf(q, p) <= r)
    && (forall p, x: nat :: p in q && p <= x < EndOf(q, p) ==> !InGap(gaps, x))
    && (forall x: nat :: readPos <= x < MAX_BYTE_COUNT && !InGap(gaps, x) ==> Covered(q, x))
  }

  lemma CutAtGap(q: Queue, gaps: seq<Interval>, readPos: nat, x: nat)
    requires Tiled(q, gaps, readPos) && InGap(gaps, x)
    ensures Cut(q, x) && Cut(q, x + 1)
  {
  }

  lemma CutAtEntry(q: Queue, gaps: seq<Interval>, readPos: nat, p: nat)
    requires Tiled(q, gaps, readPos) && p in q
    ensures Cut(q, p) && Cut(q, EndOf(q, p))
  {
  }

  /** A byte outside the gaps that no entry straddles is where an entry starts. */
  lemma EntryStartsAt(q: Queue, gaps: seq<Interval>, readPos: nat, x: nat)
    requires Tiled(q, gaps, readPos) && Cut(q, x)
    requires readPos <= x < MAX_BYTE_COUNT && !InGap(gaps, x)
    ensures x in q
  {
    var p :| p in q && p <= x < EndOf(q, p);
  }

  /** Replacing everything in `[lo, hi)` by one entry, and removing `[lo, hi)` from the gaps, keeps the tiling. */
  lemma ReplaceKeepsTiling(q: Queue, gaps: seq<Interval>, gaps': seq<Interval>, readPos: nat, lo: nat, hi: nat,
                           e: Entry)
    requires Tiled(q, gaps, readPos)
    requires readPos <= lo < hi < MAX_BYTE_COUNT && Cut(q, lo) && Cut(q, hi)
    requires |e.data| == hi - lo
    requires forall x: nat :: InGap(gaps', x) <==> InGap(gaps, x) && !(lo <= x < hi)
    ensures Tiled(Without(q, lo, hi)[lo := e], gaps', readPos)
  {
    var q' := Without(q, lo, hi)[lo := e];
    forall x: nat | readPos <= x < MAX_BYTE_COUNT && !InGap(gaps', x)
      ensures Covered(q', x)
    {
      if lo <= x < hi {
        assert lo in q' && lo <= x < EndOf(q', lo);
      } else {
        assert Covered(q, x);
        var p :| p in q && p <= x < EndOf(q, p);
        assert p in q' && p <= x < EndOf(q', p);
      }
    }
  }

  ghost predicate Disjoint(q: Queue) {
    && (forall p :: p in q ==> q[p].data != [])
    && (forall p, r :: p in q && r in q && p < r ==> EndOf(q, p) <= r)
  }

  /** `[from, to)` is filled by entries of `q`, none of which reaches beyond `to`. */
  ghost predicate Run(q: Queue, from: nat, to: nat) {
    && from <= to
    && (forall x: nat :: from <= x < to ==> Covered(q, x))
    && (Cut(q, from) ==> Cut(q, to))
  }

  /** Nothing is deleted from an empty run, and the position after a run is free in `q` once it is free after deletion.
      */
  lemma RunBounds(q: Queue, from: nat, pos: nat)
    ensures Run(q, from, from) && Without(q, from, from) == q
    ensures pos in Without(q, from, pos) <==> pos in q
    ensures pos in q ==> Without(q, from, pos)[pos] == q[pos]
  {
    assert Without(q, from, from) == q;
  }

  /** Deleting the entry that follows a run extends the run. */
  lemma RunStep(q: Queue, from: nat, pos: nat)
    requires Disjoint(q) && Run(q, from, pos) && pos in q
    ensures Run(q, from, EndOf(q, pos)) && pos < EndOf(q, pos)
    ensures Without(q, from, pos) - {pos} == Without(q, from, EndOf(q, pos))
  {
    var end := EndOf(q, pos);
    assert Cut(q, end);
    forall x: nat | from <= x < end
      ensures Covered(q, x)
    {
      if pos <= x {
        assert pos in q && pos <= x < EndOf(q, pos);
      }
    }
    assert forall p :: p in q && pos < p < end ==> false;
  }

  lemma WithoutDisjoint(q: Queue, gaps: seq<Interval>, readPos: nat, lo: nat, hi: nat)
    requires Tiled(q, gaps, readPos)
    ensures Disjoint(q) && Disjoint(Without(q, lo, hi))
  {
  }

  /** `b` is the start of gap `k`, and no gap lies between `from` and `b`. */
  ghost predicate NextGap(gaps: seq<Interval>, k: nat, from: nat) {
    && Separated(gaps) && k < |gaps| && from <= gaps[k].start
    && (forall i :: 0 <= i < k ==> gaps[i].end <= from)
  }

  /** Up to the next gap there are no gap bytes, and the gap's first byte is one. */
  lemma UntilNextGap(gaps: seq<Interval>, k: nat, from: nat)
    requires NextGap(gaps, k, from)
    ensures InGap(gaps, gaps[k].start)
    ensures forall x: nat :: from <= x < gaps[k].start ==> !InGap(gaps, x)
  {
  }

  /** A run of entries that cannot be extended ends exactly where the next gap starts. */
  lemma RunToGap(q: Queue, gaps: seq<Interval>, readPos: nat, k: nat, from: nat, to: nat)
    requires Tiled(q, gaps, readPos) && NextGap(gaps, k, from) && gaps[k].start < MAX_BYTE_COUNT
    requires readPos <= from && Cut(q, from) && Run(q, from, to)
    requires to in q ==> gaps[k].start < EndOf(q, to)
    ensures to == gaps[k].start && to !in q
  {
    UntilNextGap(gaps, k, from);
    var b := gaps[k].start;
    assert !Covered(q, b);
    if to < b {
      EntryStartsAt(q, gaps, readPos, to);
    }
  }

  /** No entry starts inside a gap. */
  lemma WithoutInGap(q: Queue, gaps: seq<Interval>, readPos: nat, k: nat, lo: nat, a: nat, b: nat)
    requires Tiled(q, gaps, readPos) && k < |gaps|
    requires gaps[k].start <= a <= b <= gaps[k].end
    ensures Without(q, lo, a) == Without(q, lo, b)
  {
    forall p | p in q
      ensures !(a <= p < b)
    {
      assert p < EndOf(q, p) && !InGap(gaps, p);
    }
  }

  /** Deleting the run that follows gap `k` from a queue already emptied from `lo` to the end of gap `k`
      empties it up to the next gap. */
  lemma DeleteRunAfterGap(q: Queue, gaps: seq<Interval>, readPos: nat, k: nat, lo: nat, to: nat)
    requires Tiled(q, gaps, readPos) && Separated(gaps) && k + 1 < |gaps| && gaps[k + 1].start < MAX_BYTE_COUNT
    requires readPos <= gaps[k].end && lo <= gaps[k].end
    requires Run(Without(q, lo, gaps[k].end), gaps[k].end, to) && to !in Without(q, lo, gaps[k].end)
    ensures to == gaps[k + 1].start
    ensures Without(Without(q, lo, gaps[k].end), gaps[k].end, to) == Without(q, lo, to)
  {
    var from, q' := gaps[k].end, Without(q, lo, gaps[k].end);
    assert InGap(gaps, from - 1);
    CutAtGap(q, gaps, readPos, from - 1);
    assert Cut(q, from);
    assert Cut(q', from);
    assert Cut(q, to) by {
      forall p | p in q
        ensures EndOf(q, p) <= to || to <= p
      {
        if p in q' { assert EndOf(q', p) == EndOf(q, p); }
      }
    }
    forall x: nat | from <= x < to
      ensures Covered(q, x)
    {
      assert Covered(q', x);
      var p :| p in q' && p <= x < EndOf(q', p);
      assert p in q && p <= x < EndOf(q, p);
    }
    assert Run(q, from, to);
    assert to !in q;
    RunToGap(q, gaps, readPos, k + 1, from, to);
  }

  function CbOf(cb: Option<Callback>): multiset<Callback> {
    match cb
    case None => multiset{}
    case Some(c) => multiset{c}
  }

  ghost function Holders(q: Queue, c: Callback): set<nat> {
    set p | p in q && q[p].doneCb == Some(c)
  }

  /** How often the entries of a queue hold callback `c`. */
  ghost function HeldCount(q: Queue, c: Callback): nat {
    |Holders(q, c)|
  }

  /** Every issued callback was called, is held by an entry or was handed out: each exactly as often as it was issued.
      */
  ghost predicate Balanced(issued: multiset<Callback>, called: multiset<Callback>, handedOut: multiset<Callback>,
                           q: Queue)
  {
    forall c: Callback :: issued[c] == called[c] + handedOut[c] + HeldCount(q, c)
  }

  lemma HeldTake(q: Queue, p: nat, c: Callback)
    requires p in q
    ensures HeldCount(q, c) == HeldCount(q - {p}, c) + CbOf(q[p].doneCb)[c]
  {
    assert Holders(q - {p}, c) == Holders(q, c) - {p};
  }

  /** Deleting an entry and calling its callback keeps the balance. */
  lemma ReleaseBalanced(issued: multiset<Callback>, called: multiset<Callback>, handedOut: multiset<Callback>, q: Queue,
                        p: nat)
    requires Balanced(issued, called, handedOut, q) && p in q
    ensures Balanced(issued, called + CbOf(q[p].doneCb), handedOut, q - {p})
  {
    forall c: Callback
      ensures issued[c] == (called + CbOf(q[p].doneCb))[c] + handedOut[c] + HeldCount(q - {p}, c)
    {
      HeldTake(q, p, c);
    }
  }

  /** So does deleting an entry and handing its callback to the reader. */
  lemma HandOutBalanced(issued: multiset<Callback>, called: multiset<Callback>, handedOut: multiset<Callback>, q: Queue,
                        p: nat)
    requires Balanced(issued, called, handedOut, q) && p in q
    ensures Balanced(issued, called, handedOut + CbOf(q[p].doneCb), q - {p})
  {
    forall c: Callback
      ensures issued[c] == called[c] + (handedOut + CbOf(q[p].doneCb))[c] + HeldCount(q - {p}, c)
    {
      HeldTake(q, p, c);
    }
  }

  /** Storing an entry at a free offset adds its callback to the balance. */
  lemma StoreBalanced(issued: multiset<Callback>, called: multiset<Callback>, handedOut: multiset<Callback>, q: Queue,
                      p: nat, e: Entry)
    requires Balanced(issued, called, handedOut, q) && p !in q
    ensures Balanced(issued + CbOf(e.doneCb), called, handedOut, q[p := e])
  {
    forall c: Callback
      ensures (issued + CbOf(e.doneCb))[c] == called[c] + handedOut[c] + HeldCount(q[p := e], c)
    {
      HeldTake(q[p := e], p, c);
      assert q[p := e] - {p} == q;
    }
  }

  lemma CallBalanced(issued: multiset<Callback>, called: multiset<Callback>, handedOut: multiset<Callback>, q: Queue,
                     cb: Option<Callback>)
    requires Balanced(issued, called, handedOut, q)
    ensures Balanced(issued + CbOf(cb), called + CbOf(cb), handedOut, q)
  {
  }

  /** A new frame's callback is either called at once or stored with its entry. */
  lemma CalledOrStored(issued: multiset<Callback>, called: multiset<Callback>, handedOut: multiset<Callback>, q: Queue,
                       p: nat, data: seq<byte>, cb: Option<Callback>)
    requires Balanced(issued, called, handedOut, q) && p !in q
    ensures Balanced(issued + CbOf(cb), called, handedOut, q[p := Entry(data, cb)])
    ensures Balanced(issued + CbOf(cb), called + CbOf(cb), handedOut, q[p := Entry(data, None)])
  {
    StoreBalanced(issued, called, handedOut, q, p, Entry(data, cb));
    CallBalanced(issued, called, handedOut, q, cb);
    StoreBalanced(issued + CbOf(cb), called + CbOf(cb), handedOut, q, p, Entry(data, None));
    assert issued + CbOf(cb) + CbOf(None) == issued + CbOf(cb);
  }
}
