/** Which frames agree on the final size of a stream, as in section 4.5 of RFC 9000. */
module FinalSizes {
  import opened Protocol
  import opened ReceiveLedger

  /** What a frame says: where its data ends, whether that is the end of the stream, and whether it is beyond the flow
      control window. */
  datatype Claim = Claim(end: nat, fin: bool, violation: bool)

  function UpdateAll(claims: seq<Claim>): Option<Flow> {
    if claims == [] then Some(Flow(0, false))
    else
      var before, c := UpdateAll(claims[..|claims| - 1]), claims[|claims| - 1];
      if before.None? then None else Update(before.value, c.end, c.fin, c.violation)
  }

  /** The claim agrees with those before: no data behind the end of the stream, which is claimed only once or at the
      same place, and not in front of data; and within the flow control window, unless that much has been received
      before. */
  ghost predicate Agrees(claims: seq<Claim>, i: nat)
    requires i < |claims|
  {
    var c := claims[i];
    && (forall j :: 0 <= j < i && claims[j].fin ==> c.end <= claims[j].end && (c.fin ==> c.end == claims[j].end))
    && (c.fin ==> forall j :: 0 <= j < i ==> claims[j].end <= c.end)
    && (c.violation ==> c.end == 0 || exists j :: 0 <= j < i && claims[j].end >= c.end)
  }

  /** The highest offset received, and whether the end of the stream is known, which is then there. */
  ghost predicate Records(claims: seq<Claim>, flow: Flow) {
    && (forall j :: 0 <= j < |claims| ==> claims[j].end <= flow.highest)
    && (flow.highest == 0 || exists j :: 0 <= j < |claims| && claims[j].end == flow.highest)
    && (flow.final <==> exists j :: 0 <= j < |claims| && claims[j].fin)
    && (forall j :: 0 <= j < |claims| && claims[j].fin ==> claims[j].end == flow.highest)
  }

  lemma UpdateExactly(before: seq<Claim>, flow: Flow, c: Claim)
    requires Records(before, flow)
    ensures Update(flow, c.end, c.fin, c.violation).Some? <==> Agrees(before + [c], |before|)
    ensures Update(flow, c.end, c.fin, c.violation).Some? ==>
              Records(before + [c], Update(flow, c.end, c.fin, c.violation).value)
  {
    var claims := before + [c];
    assert claims[|before|] == c && forall j :: 0 <= j < |before| ==> claims[j] == before[j];
    AgreesExactly(before, flow, c);
    var r := Update(flow, c.end, c.fin, c.violation);
    if r.Some? {
      if flow.highest != 0 && r.value.highest == flow.highest {
        var j :| 0 <= j < |before| && before[j].end == flow.highest;
        assert claims[j].end == r.value.highest;
      }
      if flow.final {
        var j :| 0 <= j < |before| && before[j].fin;
        assert claims[j].fin;
      }
    }
  }

  lemma AgreesExactly(before: seq<Claim>, flow: Flow, c: Claim)
    requires Records(before, flow)
    ensures Agrees(before + [c], |before|) <==>
            && (flow.final ==> c.end <= flow.highest && (c.fin ==> c.end == flow.highest))
            && (c.fin ==> flow.highest <= c.end) && (c.violation ==> c.end <= flow.highest)
  {
    var claims := before + [c];
    assert forall j :: 0 <= j < |before| ==> claims[j] == before[j];
    if flow.final {
      var j :| 0 <= j < |before| && before[j].fin;
      assert claims[j].fin && claims[j].end == flow.highest;
    }
    if flow.highest != 0 {
      var j :| 0 <= j < |before| && before[j].end == flow.highest;
      assert claims[j].end == flow.highest;
    }
  }

  /** For all frames of a stream: none of them closes the connection if and only if each of them agrees with those
      before. */
  lemma {:induction false} ConsistentExactly(claims: seq<Claim>)
    ensures UpdateAll(claims).Some? <==> forall i :: 0 <= i < |claims| ==> Agrees(claims, i)
    ensures UpdateAll(claims).Some? ==> Records(claims, UpdateAll(claims).value)
  {
    hide Update;
    if claims != [] {
      var n := |claims| - 1;
      var before, c := claims[..n], claims[n];
      assert claims == before + [c];
      ConsistentExactly(before);
      forall i | 0 <= i < n
        ensures Agrees(claims, i) <==> Agrees(before, i)
      {
        AgreesBefore(before, c, i);
      }
      if UpdateAll(before).Some? {
        UpdateExactly(before, UpdateAll(before).value, c);
      }
    }
  }

  lemma AgreesBefore(before: seq<Claim>, c: Claim, i: nat)
    requires i < |before|
    ensures Agrees(before + [c], i) <==> Agrees(before, i)
  {
    var claims := before + [c];
    assert forall j :: 0 <= j < |before| ==> claims[j] == before[j];
    if e :| 0 <= e < i && before[e].end >= before[i].end {
      assert claims[e].end >= claims[i].end;
    }
  }
}
