/** The list of byte ranges that have not arrived yet, and how a range is cut out of it. */
module ByteIntervals {

  datatype Interval = Interval(start: nat, end: nat)

  /** Non-empty intervals in increasing order, with at least one byte between neighbours. */
  ghost predicate Separated(gaps: seq<Interval>) {
    && (forall i :: 0 <= i < |gaps| ==> gaps[i].start < gaps[i].end)
    && (forall i, j :: 0 <= i < j < |gaps| ==> gaps[i].end < gaps[j].start)
  }

  ghost predicate InGap(gaps: seq<Interval>, x: nat) {
    exists i :: 0 <= i < |gaps| && gaps[i].start <= x < gaps[i].end
  }

  /** Replacing the intervals `si..ei` by smaller ones inside their span keeps the list ordered. */
  lemma Splice(gaps: seq<Interval>, si: nat, ei: nat, mid: seq<Interval>)
    requires Separated(gaps) && Separated(mid)
    requires si <= ei < |gaps|
    requires forall i :: 0 <= i < |mid| ==> gaps[si].start <= mid[i].start && mid[i].end <= gaps[ei].end
    ensures Separated(gaps[..si] + mid + gaps[ei + 1..])
    ensures forall x: nat :: InGap(gaps[..si] + mid + gaps[ei + 1..], x) <==>
                             InGap(gaps[..si], x) || InGap(mid, x) || InGap(gaps[ei + 1..], x)
  {
    var r := gaps[..si] + mid + gaps[ei + 1..];
    forall x: nat
      ensures InGap(r, x) <==> InGap(gaps[..si], x) || InGap(mid, x) || InGap(gaps[ei + 1..], x)
    {
      InGapConcat(gaps[..si] + mid, gaps[ei + 1..], x);
      InGapConcat(gaps[..si], mid, x);
    }
  }

  /** What is left of the span from `s` to `e` once `[lo, hi)` is taken out. */
  function Remaining(s: Interval, e: Interval, lo: nat, hi: nat): seq<Interval> {
    (if s.start < lo then [Interval(s.start, lo)] else []) + (if hi < e.end then [Interval(hi, e.end)] else [])
  }

  function Carved(gaps: seq<Interval>, si: nat, ei: nat, lo: nat, hi: nat): seq<Interval>
    requires si <= ei < |gaps|
  {
    gaps[..si] + Remaining(gaps[si], gaps[ei], lo, hi) + gaps[ei + 1..]
  }

  /** Carving `[lo, hi)` out of the gaps `si..ei` removes exactly these bytes. */
  lemma CarvedCorrect(gaps: seq<Interval>, si: nat, ei: nat, lo: nat, hi: nat)
    requires Separated(gaps) && si <= ei < |gaps|
    requires lo < hi && lo <= gaps[si].end && gaps[ei].start <= hi
    requires forall i :: 0 <= i < si ==> gaps[i].end <= lo
    requires forall i :: ei < i < |gaps| ==> hi <= gaps[i].start
    ensures Separated(Carved(gaps, si, ei, lo, hi))
    ensures forall x: nat :: InGap(Carved(gaps, si, ei, lo, hi), x) <==> InGap(gaps, x) && !(lo <= x < hi)
  {
    Splice(gaps, si, ei, Remaining(gaps[si], gaps[ei], lo, hi));
    forall x: nat
      ensures InGap(Carved(gaps, si, ei, lo, hi), x) <==> InGap(gaps, x) && !(lo <= x < hi)
    {
      CarvedAt(gaps, si, ei, lo, hi, x);
    }
  }

  lemma CarvedAt(gaps: seq<Interval>, si: nat, ei: nat, lo: nat, hi: nat, x: nat)
    requires Separated(gaps) && si <= ei < |gaps|
    requires lo < hi && lo <= gaps[si].end && gaps[ei].start <= hi
    requires forall i :: 0 <= i < si ==> gaps[i].end <= lo
    requires forall i :: ei < i < |gaps| ==> hi <= gaps[i].start
    ensures InGap(Carved(gaps, si, ei, lo, hi), x) <==> InGap(gaps, x) && !(lo <= x < hi)
  {
    hide InGap, Remaining, Separated;
    var before, span, after := gaps[..si], gaps[si..ei + 1], gaps[ei + 1..];
    var mid := Remaining(gaps[si], gaps[ei], lo, hi);
    assert gaps == before + span + after;
    AroundSpan(gaps, si, ei, lo, hi, x);
    RemainingCorrect(span, lo, hi, x);
    InGapConcat(before + span, after, x);
    InGapConcat(before, span, x);
    InGapConcat(before + mid, after, x);
    InGapConcat(before, mid, x);
  }

  lemma AroundSpan(gaps: seq<Interval>, si: nat, ei: nat, lo: nat, hi: nat, x: nat)
    requires Separated(gaps) && si <= ei < |gaps|
    requires forall i :: 0 <= i < si ==> gaps[i].end <= lo
    requires forall i :: ei < i < |gaps| ==> hi <= gaps[i].start
    ensures InGap(gaps[..si], x) ==> x < lo
    ensures InGap(gaps[ei + 1..], x) ==> hi <= x
    ensures var span := gaps[si..ei + 1]; Separated(span) && span[0] == gaps[si] && span[|span| - 1] == gaps[ei]
  {
  }

  lemma RemainingCorrect(gaps: seq<Interval>, lo: nat, hi: nat, x: nat)
    requires Separated(gaps) && |gaps| > 0
    requires lo < hi && lo <= gaps[0].end && gaps[|gaps| - 1].start <= hi
    ensures InGap(Remaining(gaps[0], gaps[|gaps| - 1], lo, hi), x) <==> InGap(gaps, x) && !(lo <= x < hi)
  {
    var s, e := gaps[0], gaps[|gaps| - 1];
    var left := if s.start < lo then [Interval(s.start, lo)] else [];
    var right := if hi < e.end then [Interval(hi, e.end)] else [];
    InGapConcat(left, right, x);
    assert InGap(left, x) <==> s.start <= x < lo by {
      if s.start <= x < lo { assert left[0].start <= x < left[0].end; }
    }
    assert InGap(right, x) <==> hi <= x < e.end by {
      if hi <= x < e.end { assert right[0].start <= x < right[0].end; }
    }
    if s.start <= x < s.end { assert InGap(gaps, x); }
    if e.start <= x < e.end { assert InGap(gaps, x); }
  }

  lemma InGapConcat(a: seq<Interval>, b: seq<Interval>, x: nat)
    ensures InGap(a + b, x) <==> InGap(a, x) || InGap(b, x)
  {
    if InGap(a, x) {
      var i :| 0 <= i < |a| && a[i].start <= x < a[i].end;
      assert (a + b)[i] == a[i];
    }
    if InGap(b, x) {
      var i :| 0 <= i < |b| && b[i].start <= x < b[i].end;
      assert (a + b)[|a| + i] == b[i];
    }
  }

  lemma RemoveHead(pre: seq<Interval>, gaps: seq<Interval>, k: nat)
    requires k < |gaps|
    ensures var l := pre + gaps[k..];
            l[|pre|] == gaps[k] && l[..|pre|] + l[|pre| + 1..] == pre + gaps[k + 1..]
  {
  }
}
