/** What the payload of a SETTINGS frame means, whoever has written it. */
module SettingsMeaning {
  import opened Protocol
  import opened VarintLen
  import opened Varint
  import opened SettingsFrames

  /** The settings of a payload: pairs of integers, as long as there are any; and whether nothing is left over. */
  function Items(b: seq<byte>): (seq<Setting>, bool)
    decreases |b|
  {
    if b == [] then ([], true)
    else
      match Next(b)
      case None => ([], false)
      case Some((s, rest)) => ([s] + Items(rest).0, Items(rest).1)
  }

  ghost predicate HasId(list: seq<Setting>, id: nat) {
    exists i :: 0 <= i < |list| && list[i].id == id
  }

  /** The setting comes with an identifier that was there before, or is a flag that is neither 0 nor 1. */
  ghost predicate Offends(list: seq<Setting>, i: nat)
    requires i < |list|
  {
    HasId(list[..i], list[i].id) || ((list[i].id == 0x8 || list[i].id == 0x33) && list[i].val > 1)
  }

  ghost function Offence(list: seq<Setting>, i: nat): Error
    requires i < |list|
  {
    if HasId(list[..i], list[i].id) then Duplicate(list[i].id) else InvalidValue(list[i].id)
  }

  ghost predicate FirstOffence(list: seq<Setting>, i: nat) {
    i < |list| && Offends(list, i) && forall j: nat :: j < i ==> !Offends(list, j)
  }

  ghost predicate Fine(list: seq<Setting>) {
    forall i: nat :: i < |list| ==> !Offends(list, i)
  }

  /** The frame says what the list says: the flags are set by the value 1 alone, the size is the one given or none, and
      the other settings are all those with other identifiers. */
  ghost predicate Means(list: seq<Setting>, f: Settings) {
    && (f.extendedConnect <==> Setting(0x8, 1) in list)
    && (f.datagram <==> Setting(0x33, 1) in list)
    && (if HasId(list, 0x6) then f.maxFieldSectionSize >= 0 && Setting(0x6, f.maxFieldSectionSize) in list
        else f.maxFieldSectionSize == -1)
    && (forall id :: id in f.other <==> HasId(list, id) && id != 0x6 && id != 0x8 && id != 0x33)
    && (forall id :: id in f.other ==> Setting(id, f.other[id]) in list)
  }

  // ---- One setting after the other. ----

  ghost predicate Read(list: seq<Setting>, r: Reading) {
    && Means(list, r.frame)
    && (r.readMaxFieldSectionSize <==> HasId(list, 0x6)) && (r.readExtendedConnect <==> HasId(list, 0x8))
    && (r.readDatagram <==> HasId(list, 0x33))
  }

  lemma HasIdSnoc(list: seq<Setting>, s: Setting, id: nat)
    ensures HasId(list + [s], id) <==> HasId(list, id) || id == s.id
  {
    var list' := list + [s];
    if HasId(list, id) {
      var i :| 0 <= i < |list| && list[i].id == id;
      assert list'[i].id == id;
    }
    if id == s.id {
      assert list'[|list|].id == id;
    }
  }

  lemma WithoutId(list: seq<Setting>, s: Setting)
    requires s in list
    ensures HasId(list, s.id)
  {
  }

  lemma ReadNext(list: seq<Setting>, r: Reading, s: Setting)
    requires Read(list, r)
    ensures var flag := s.id == 0x8 || s.id == 0x33;
            if HasId(list, s.id) then Apply(r, s) == Stopped(Duplicate(s.id))
            else if flag && s.val > 1 then Apply(r, s) == Stopped(InvalidValue(s.id))
            else Apply(r, s).Going? && Read(list + [s], Apply(r, s).reading)
  {
    hide HasId;
    forall id: nat
      ensures HasId(list + [s], id) <==> HasId(list, id) || id == s.id
    {
      HasIdSnoc(list, s, id);
    }
    forall x | x in list
      ensures HasId(list, x.id)
    {
      WithoutId(list, x);
    }
    assert forall x :: x in list + [s] <==> x in list || x == s;
  }

  lemma {:induction false} ApplyMeans(list: seq<Setting>, n: nat)
    requires n <= |list|
    ensures (forall i: nat :: i < n ==> !Offends(list, i)) ==>
              var r := ApplyAll(NOTHING_READ, list[..n]);
              r.Going? && Read(list[..n], r.reading)
    ensures forall i: nat :: i < n && FirstOffence(list, i) ==>
              ApplyAll(NOTHING_READ, list[..n]) == Stopped(Offence(list, i))
  {
    hide Apply, Means;
    if n == 0 {
      ReadNothing();
    } else {
      ApplyMeans(list, n - 1);
      var pre, s := list[..n - 1], list[n - 1];
      assert list[..n] == pre + [s];
      ApplyConcat(NOTHING_READ, pre, [s]);
      if forall i: nat :: i < n - 1 ==> !Offends(list, i) {
        var r := ApplyAll(NOTHING_READ, pre).reading;
        ReadNext(pre, r, s);
        ApplyOne(r, s);
        if !Offends(list, n - 1) {
          assert Read(list[..n], Apply(r, s).reading);
        }
      }
    }
  }

  lemma ApplyOne(r: Reading, s: Setting)
    ensures ApplyAll(r, [s]) == Apply(r, s)
  {
    assert [s][1..] == [];
  }

  lemma ReadNothing()
    ensures Read([], NOTHING_READ)
  {
  }

  /** The parser goes through the settings one by one. */
  lemma {:induction false} ReadsItems(r: Reading, b: seq<byte>)
    ensures ReadAll(r, b) ==
            match ApplyAll(r, Items(b).0)
            case Stopped(e) => Stopped(e)
            case Going(r') => if Items(b).1 then Going(r') else Stopped(EndOfFrame)
    decreases |b|
  {
    hide Apply, Next;
    if b != [] && Next(b).Some? {
      var s, rest := Next(b).value.0, Next(b).value.1;
      assert Items(b).0[1..] == Items(rest).0;
      match Apply(r, s)
      case Stopped(_) =>
      case Going(r') => ReadsItems(r', rest);
    }
  }

  /** What the parser makes of any payload: the error names the first setting that is repeated or is a flag with another
      value than 0 and 1; otherwise a payload that ends within a setting is refused, and every other one is accepted and
      means what its settings say. */
  lemma ParseMeans(b: seq<byte>)
    ensures var (list, complete) := Items(b);
            && (forall i: nat :: FirstOffence(list, i) ==> ParsePayload(b) == Failed(Offence(list, i)))
            && (Fine(list) && !complete ==> ParsePayload(b) == Failed(EndOfFrame))
            && (Fine(list) && complete ==> ParsePayload(b).Ok? && Means(list, ParsePayload(b).frame))
            && (ParsePayload(b).Ok? <==> Fine(list) && complete)
  {
    hide Apply, Means, Offends;
    var list := Items(b).0;
    ReadsItems(NOTHING_READ, b);
    ApplyMeans(list, |list|);
    assert list[..|list|] == list;
    if !Fine(list) {
      var i := Earliest(list);
      assert FirstOffence(list, i);
    }
  }

  lemma Earliest(list: seq<Setting>) returns (i: nat)
    requires !Fine(list)
    ensures FirstOffence(list, i)
  {
    hide Offends;
    i := 0;
    while !Offends(list, i)
      invariant i < |list| && forall j: nat :: j < i ==> !Offends(list, j)
      decreases |list| - i
    {
      i := i + 1;
    }
  }

  /** The settings of a payload that was written are those that were written. */
  lemma {:induction false} ItemsWritten(list: seq<Setting>)
    requires AllEncodable(list)
    ensures Items(Payload(list)) == (list, true)
    decreases |list|
  {
    hide Next, Payload;
    if list == [] {
      NothingWritten();
    } else {
      NextWritten(list);
      ItemsWritten(list[1..]);
      assert [list[0]] + list[1..] == list;
    }
  }

  lemma NothingWritten()
    ensures Payload([]) == []
  {
  }

  /** The same for a payload that was written from any list of settings. */
  lemma WrittenMeans(list: seq<Setting>)
    requires AllEncodable(list)
    ensures var r := ParsePayload(Payload(list));
            && (r.Ok? <==> Fine(list))
            && (r.Ok? ==> Means(list, r.frame))
            && (forall i: nat :: FirstOffence(list, i) ==> r == Failed(Offence(list, i)))
  {
    hide Means, FirstOffence, Fine, Items, Payload;
    ItemsWritten(list);
    ParseMeans(Payload(list));
  }
}
