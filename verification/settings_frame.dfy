/** quic-go-bbr/http3/frames.go: SETTINGS frames, as in section 7.2.4 of RFC 9114. */
module SettingsFrames {
  import opened Protocol
  import opened VarintLen
  import opened Varint

  const SETTING_MAX_FIELD_SECTION_SIZE: nat := 0x6
  const SETTING_EXTENDED_CONNECT: nat := 0x8
  const SETTING_DATAGRAM: nat := 0x33
  const FRAME_TYPE_SETTINGS: nat := 0x4
  const MAX_SETTINGS_SIZE: nat := 8192

  /** The maximum field section size is -1 if it is not set. */
  datatype Settings = Settings(maxFieldSectionSize: int, datagram: bool, extendedConnect: bool, other: map<nat, nat>)

  datatype Setting = Setting(id: nat, val: nat)

  datatype Error = TooLarge | EndOfFrame | Duplicate(id: nat) | InvalidValue(id: nat)

  datatype Result = Ok(frame: Settings) | Failed(error: Error)

  predicate Recognised(id: nat) {
    id == SETTING_MAX_FIELD_SECTION_SIZE || id == SETTING_EXTENDED_CONNECT || id == SETTING_DATAGRAM
  }

  /** Every number can be written as a varint; the original panics otherwise. */
  predicate Encodable(f: Settings) {
    && f.maxFieldSectionSize <= MAX_VARINT8
    && forall id :: id in f.other ==> id <= MAX_VARINT8 && f.other[id] <= MAX_VARINT8
  }

  /** A way in which a map can be walked: every key once. */
  ghost predicate Walk(m: map<nat, nat>, order: seq<nat>) {
    && (forall i, j :: 0 <= i < j < |order| ==> order[i] != order[j])
    && (forall k :: k in order <==> k in m)
  }

  // ---- The specification of the writer. ----

  function Others(m: map<nat, nat>, order: seq<nat>): (list: seq<Setting>)
    requires forall i :: 0 <= i < |order| ==> order[i] in m
    ensures |list| == |order| && forall i :: 0 <= i < |order| ==> list[i] == Setting(order[i], m[order[i]])
  {
    if order == [] then [] else [Setting(order[0], m[order[0]])] + Others(m, order[1..])
  }

  /** The recognised settings of a frame. */
  function Known(f: Settings): seq<Setting> {
    SizeLimit(f) + Flag(f.datagram, SETTING_DATAGRAM) + Flag(f.extendedConnect, SETTING_EXTENDED_CONNECT)
  }

  function SizeLimit(f: Settings): seq<Setting> {
    if f.maxFieldSectionSize >= 0 then [Setting(SETTING_MAX_FIELD_SECTION_SIZE, f.maxFieldSectionSize)] else []
  }

  function Flag(on: bool, id: nat): seq<Setting> {
    if on then [Setting(id, 1)] else []
  }

  predicate AllEncodable(list: seq<Setting>) {
    forall i :: 0 <= i < |list| ==> list[i].id <= MAX_VARINT8 && list[i].val <= MAX_VARINT8
  }

  function Payload(list: seq<Setting>): seq<byte>
    requires AllEncodable(list)
  {
    if list == [] then [] else EncodeShort(list[0].id) + EncodeShort(list[0].val) + Payload(list[1..])
  }

  // ---- The specification of the reader. ----

  /** What was read so far, and which recognised settings were among it. */
  datatype Reading = Reading(frame: Settings, readMaxFieldSectionSize: bool, readDatagram: bool,
                             readExtendedConnect: bool)

  datatype Step = Going(reading: Reading) | Stopped(error: Error)

  const NOTHING_READ := Reading(Settings(-1, false, false, map[]), false, false, false)

  function Apply(r: Reading, s: Setting): Step {
    if s.id == SETTING_MAX_FIELD_SECTION_SIZE then
      if r.readMaxFieldSectionSize then Stopped(Duplicate(s.id))
      else Going(r.(readMaxFieldSectionSize := true, frame := r.frame.(maxFieldSectionSize := s.val)))
    else if s.id == SETTING_EXTENDED_CONNECT then
      if r.readExtendedConnect then Stopped(Duplicate(s.id))
      else if s.val != 0 && s.val != 1 then Stopped(InvalidValue(s.id))
      else Going(r.(readExtendedConnect := true, frame := r.frame.(extendedConnect := s.val == 1)))
    else if s.id == SETTING_DATAGRAM then
      if r.readDatagram then Stopped(Duplicate(s.id))
      else if s.val != 0 && s.val != 1 then Stopped(InvalidValue(s.id))
      else Going(r.(readDatagram := true, frame := r.frame.(datagram := s.val == 1)))
    else if s.id in r.frame.other then Stopped(Duplicate(s.id))
    else Going(r.(frame := r.frame.(other := r.frame.other[s.id := s.val])))
  }

  function ApplyAll(r: Reading, list: seq<Setting>): Step
    decreases |list|
  {
    if list == [] then Going(r)
    else
      match Apply(r, list[0])
      case Stopped(e) => Stopped(e)
      case Going(r') => ApplyAll(r', list[1..])
  }

  lemma Consumes(b: seq<byte>)
    ensures Parse(b).Value? ==> 0 < Parse(b).consumed <= |b|
  {
  }

  /** The next setting, and what follows it. */
  function Next(b: seq<byte>): (r: Option<(Setting, seq<byte>)>)
    ensures r.Some? ==> |r.value.1| < |b|
  {
    Consumes(b);
    match Parse(b)
    case EndOfData => None
    case Value(id, n) =>
      var b' := b[n..];
      Consumes(b');
      match Parse(b')
      case EndOfData => None
      case Value(val, n') => Some((Setting(id, val), b'[n'..]))
  }

  function ReadAll(r: Reading, b: seq<byte>): Step
    decreases |b|
  {
    if b == [] then Going(r)
    else
      match Next(b)
      case None => Stopped(EndOfFrame)
      case Some((s, rest)) =>
        match Apply(r, s)
        case Stopped(e) => Stopped(e)
        case Going(r') => ReadAll(r', rest)
  }

  // ---- The round trip. ----

  lemma NextWritten(list: seq<Setting>)
    requires AllEncodable(list) && list != []
    ensures Payload(list) != [] && Next(Payload(list)) == Some((list[0], Payload(list[1..])))
  {
    hide Parse, EncodeShort;
    var id, val, rest := EncodeShort(list[0].id), EncodeShort(list[0].val), Payload(list[1..]);
    assert id + val + rest == id + (val + rest);
    NextOf(list[0], rest);
  }

  lemma NextOf(s: Setting, rest: seq<byte>)
    requires s.id <= MAX_VARINT8 && s.val <= MAX_VARINT8
    ensures Next(EncodeShort(s.id) + (EncodeShort(s.val) + rest)) == Some((s, rest))
  {
    hide Parse, EncodeShort;
    var id, val := EncodeShort(s.id), EncodeShort(s.val);
    ParseShort(s.id, val + rest);
    ParseShort(s.val, rest);
    Behind(id, val + rest);
    Behind(val, rest);
  }

  lemma Behind(a: seq<byte>, b: seq<byte>)
    ensures (a + b)[|a|..] == b
  {
  }

  /** Reading what was written gives the settings back, one after the other. */
  lemma {:induction false} ReadPayload(r: Reading, list: seq<Setting>)
    requires AllEncodable(list)
    ensures ReadAll(r, Payload(list)) == ApplyAll(r, list)
    decreases |list|
  {
    hide Next, Apply;
    if list != [] {
      NextWritten(list);
      match Apply(r, list[0])
      case Stopped(_) =>
      case Going(r') => ReadPayload(r', list[1..]);
    }
  }

  lemma {:induction false} ApplyConcat(r: Reading, a: seq<Setting>, b: seq<Setting>)
    ensures ApplyAll(r, a + b) == match ApplyAll(r, a) case Stopped(e) => Stopped(e) case Going(r') => ApplyAll(r', b)
    decreases |a|
  {
    if a == [] {
      assert a + b == b;
    } else {
      assert (a + b)[1..] == a[1..] + b;
      match Apply(r, a[0])
      case Stopped(_) =>
      case Going(r') => ApplyConcat(r', a[1..], b);
    }
  }

  /** The entries for these keys, added to a map. */
  function AddAll(to: map<nat, nat>, m: map<nat, nat>, order: seq<nat>): map<nat, nat>
    requires forall i :: 0 <= i < |order| ==> order[i] in m
    decreases |order|
  {
    if order == [] then to else AddAll(to[order[0] := m[order[0]]], m, order[1..])
  }

  lemma {:induction false} AddAllEntries(to: map<nat, nat>, m: map<nat, nat>, order: seq<nat>)
    requires forall i :: 0 <= i < |order| ==> order[i] in m
    ensures forall k :: k in AddAll(to, m, order) <==> k in to || k in order
    ensures forall k :: k in AddAll(to, m, order) ==> AddAll(to, m, order)[k] == if k in order then m[k] else to[k]
    decreases |order|
  {
    if order != [] {
      AddAllEntries(to[order[0] := m[order[0]]], m, order[1..]);
      assert order == [order[0]] + order[1..];
    }
  }

  /** The other settings are all taken over. */
  lemma {:induction false} ApplyOthers(r: Reading, m: map<nat, nat>, order: seq<nat>)
    requires forall i, j :: 0 <= i < j < |order| ==> order[i] != order[j]
    requires forall i :: 0 <= i < |order| ==> order[i] in m && !Recognised(order[i]) && order[i] !in r.frame.other
    ensures ApplyAll(r, Others(m, order)) == Going(r.(frame := r.frame.(other := AddAll(r.frame.other, m, order))))
    decreases |order|
  {
    if order != [] {
      var k := order[0];
      var r' := r.(frame := r.frame.(other := r.frame.other[k := m[k]]));
      assert Others(m, order)[1..] == Others(m, order[1..]);
      ApplyOthers(r', m, order[1..]);
    }
  }

  lemma ApplyKnown(f: Settings)
    requires f.maxFieldSectionSize >= -1
    ensures ApplyAll(NOTHING_READ, Known(f)) ==
            Going(Reading(f.(other := map[]), f.maxFieldSectionSize >= 0, f.datagram, f.extendedConnect))
  {
    var a, b, c := SizeLimit(f), Flag(f.datagram, SETTING_DATAGRAM), Flag(f.extendedConnect, SETTING_EXTENDED_CONNECT);
    ApplyConcat(NOTHING_READ, a + b, c);
    ApplyConcat(NOTHING_READ, a, b);
  }

  /** The settings in the order in which they are written. */
  function Listed(f: Settings, order: seq<nat>): seq<Setting>
    requires forall i :: 0 <= i < |order| ==> order[i] in f.other
  {
    Known(f) + Others(f.other, order)
  }

  /** The settings in a payload. */
  function ParsePayload(b: seq<byte>): Result {
    match ReadAll(NOTHING_READ, b)
    case Stopped(e) => Failed(e)
    case Going(r) => Ok(r.frame)
  }

  /** A frame that is too long is refused, and one that has not arrived completely is the end of the data. */
  function ParseSettings(b: seq<byte>, l: nat): (r: Result)
    ensures r.Ok? ==> l <= |b|
  {
    if l > MAX_SETTINGS_SIZE then Failed(TooLarge)
    else if |b| < l then Failed(EndOfFrame)
    else ParsePayload(b[..l])
  }

  lemma WalkedKeys(m: map<nat, nat>, order: seq<nat>)
    requires Walk(m, order)
    ensures forall i :: 0 <= i < |order| ==> order[i] in m
  {
    assert forall i :: 0 <= i < |order| ==> order[i] in order;
  }

  lemma ListedEncodable(f: Settings, order: seq<nat>)
    requires Encodable(f) && Walk(f.other, order)
    ensures (forall i :: 0 <= i < |order| ==> order[i] in f.other) && AllEncodable(Listed(f, order))
  {
    hide Known, Others;
    WalkedKeys(f.other, order);
    EncodableParts(f, order);
  }

  /** Whatever the order in which the map is walked, a frame parses back to itself if none of its other settings is
      recognised. */
  lemma RoundTrip(f: Settings, order: seq<nat>)
    requires Encodable(f) && f.maxFieldSectionSize >= -1 && Walk(f.other, order)
    requires forall id :: id in f.other ==> !Recognised(id)
    ensures (forall i :: 0 <= i < |order| ==> order[i] in f.other) && AllEncodable(Listed(f, order))
    ensures ParsePayload(Payload(Listed(f, order))) == Ok(f)
  {
    hide Payload, Known, Others, ReadAll, ApplyAll, AddAll, AllEncodable;
    ListedEncodable(f, order);
    var list := Listed(f, order);
    ReadPayload(NOTHING_READ, list);
    ApplyConcat(NOTHING_READ, Known(f), Others(f.other, order));
    ApplyKnown(f);
    ApplyOthers(Reading(f.(other := map[]), f.maxFieldSectionSize >= 0, f.datagram, f.extendedConnect), f.other, order);
    AddAllEntries(map[], f.other, order);
    assert AddAll(map[], f.other, order) == f.other;
  }

  /** The parser never puts a recognised setting among the others. */
  lemma {:induction false} OthersUnrecognised(r: Reading, b: seq<byte>)
    requires forall id :: id in r.frame.other ==> !Recognised(id)
    ensures ReadAll(r, b).Going? ==> forall id :: id in ReadAll(r, b).reading.frame.other ==> !Recognised(id)
    decreases |b|
  {
    hide Next;
    if b != [] && Next(b).Some? {
      var step := Apply(r, Next(b).value.0);
      if step.Going? {
        OthersUnrecognised(step.reading, Next(b).value.1);
      }
    }
  }

  /** A frame with a recognised setting among the others never parses back to itself. */
  lemma NoRoundTrip(f: Settings, b: seq<byte>, id: nat)
    requires id in f.other && Recognised(id)
    ensures ParsePayload(b) != Ok(f)
  {
    OthersUnrecognised(NOTHING_READ, b);
  }

  /** The parser never gives a maximum field section size below -1. */
  lemma {:induction false} SizeNeverBelow(r: Reading, b: seq<byte>)
    requires r.frame.maxFieldSectionSize >= -1
    ensures ReadAll(r, b).Going? ==> ReadAll(r, b).reading.frame.maxFieldSectionSize >= -1
    decreases |b|
  {
    hide Next;
    if b != [] && Next(b).Some? {
      var step := Apply(r, Next(b).value.0);
      if step.Going? {
        SizeNeverBelow(step.reading, Next(b).value.1);
      }
    }
  }

  /** A frame with a maximum field section size below -1, which is not written, never parses back to itself. */
  lemma NoSizeRoundTrip(f: Settings, b: seq<byte>)
    requires f.maxFieldSectionSize < -1
    ensures ParsePayload(b) != Ok(f)
  {
    SizeNeverBelow(NOTHING_READ, b);
  }

  // ---- The length of the frame does not depend on the order. ----

  function Size(s: Setting): nat
    requires s.id <= MAX_VARINT8 && s.val <= MAX_VARINT8
  {
    Len(s.id) + Len(s.val)
  }

  function Sizes(list: seq<Setting>): nat
    requires AllEncodable(list)
  {
    if list == [] then 0 else Size(list[0]) + Sizes(list[1..])
  }

  lemma {:induction false} PayloadSize(list: seq<Setting>)
    requires AllEncodable(list)
    ensures |Payload(list)| == Sizes(list)
  {
    if list != [] {
      PayloadSize(list[1..]);
    }
  }

  lemma {:induction false} SizesConcat(a: seq<Setting>, b: seq<Setting>)
    requires AllEncodable(a) && AllEncodable(b)
    ensures AllEncodable(a + b) && Sizes(a + b) == Sizes(a) + Sizes(b)
  {
    if a == [] {
      assert a + b == b;
    } else {
      assert (a + b)[1..] == a[1..] + b;
      SizesConcat(a[1..], b);
    }
  }

  lemma {:induction false} PayloadConcat(a: seq<Setting>, b: seq<Setting>)
    requires AllEncodable(a) && AllEncodable(b)
    ensures AllEncodable(a + b) && Payload(a + b) == Payload(a) + Payload(b)
  {
    hide EncodeShort, AllEncodable;
    EncodableConcat(a, b);
    if a == [] {
      assert a + b == b;
    } else {
      assert (a + b)[1..] == a[1..] + b && (a + b)[0] == a[0];
      PayloadConcat(a[1..], b);
      var head, tail := EncodeShort(a[0].id) + EncodeShort(a[0].val), Payload(a[1..]);
      assert Payload(a + b) == head + (tail + Payload(b));
      assert head + (tail + Payload(b)) == (head + tail) + Payload(b);
    }
  }

  lemma EncodableConcat(a: seq<Setting>, b: seq<Setting>)
    ensures AllEncodable(a) && AllEncodable(b) ==> AllEncodable(a + b)
    ensures a != [] && AllEncodable(a) ==> a[0].id <= MAX_VARINT8 && a[0].val <= MAX_VARINT8 && AllEncodable(a[1..])
  {
  }

  lemma TakeOut(b: seq<Setting>, i: nat)
    requires AllEncodable(b) && i < |b|
    ensures var rest := b[..i] + b[i + 1..];
            AllEncodable(rest) && Sizes(b) == Size(b[i]) + Sizes(rest) && multiset(rest) == multiset(b) - multiset{b[i]}
  {
    assert b == b[..i] + ([b[i]] + b[i + 1..]);
    SizesConcat(b[..i], [b[i]] + b[i + 1..]);
    SizesConcat(b[..i], b[i + 1..]);
    assert ([b[i]] + b[i + 1..])[1..] == b[i + 1..];
  }

  lemma EmptyBag(a: seq<Setting>, b: seq<Setting>)
    requires multiset(a) == multiset(b) && a == []
    ensures b == []
  {
    assert |multiset(b)| == 0;
  }

  lemma PlaceIn(a: seq<Setting>, b: seq<Setting>) returns (i: nat)
    requires multiset(a) == multiset(b) && a != []
    ensures i < |b| && b[i] == a[0]
  {
    assert a[0] in multiset(b);
    i :| 0 <= i < |b| && b[i] == a[0];
  }

  lemma {:induction false} SameSizes(a: seq<Setting>, b: seq<Setting>)
    requires AllEncodable(a) && AllEncodable(b) && multiset(a) == multiset(b)
    ensures Sizes(a) == Sizes(b)
    decreases |a|
  {
    hide AllEncodable, Sizes;
    if a == [] {
      EmptyBag(a, b);
    } else {
      var i := PlaceIn(a, b);
      TakeOut(a, 0);
      TakeOut(b, i);
      SameSizes(a[..0] + a[1..], b[..i] + b[i + 1..]);
    }
  }

  /** Two walks of a map give the same settings. */
  lemma SameOthers(m: map<nat, nat>, order: seq<nat>, order': seq<nat>)
    requires Walk(m, order) && Walk(m, order')
    ensures (forall i :: 0 <= i < |order| ==> order[i] in m) && (forall i :: 0 <= i < |order'| ==> order'[i] in m)
    ensures multiset(Others(m, order)) == multiset(Others(m, order'))
  {
    WalkedKeys(m, order);
    WalkedKeys(m, order');
    var a, b := Others(m, order), Others(m, order');
    forall s: Setting
      ensures multiset(a)[s] == multiset(b)[s]
    {
      Once(m, order, s);
      Once(m, order', s);
    }
  }

  lemma Once(m: map<nat, nat>, order: seq<nat>, s: Setting)
    requires Walk(m, order)
    ensures forall i :: 0 <= i < |order| ==> order[i] in m
    ensures multiset(Others(m, order))[s] == if s.id in m && m[s.id] == s.val then 1 else 0
  {
    WalkedKeys(m, order);
    CountOnce(m, order, s);
  }

  lemma {:induction false} CountOnce(m: map<nat, nat>, order: seq<nat>, s: Setting)
    requires forall i, j :: 0 <= i < j < |order| ==> order[i] != order[j]
    requires forall i :: 0 <= i < |order| ==> order[i] in m
    ensures multiset(Others(m, order))[s] == if s.id in order && m[s.id] == s.val then 1 else 0
  {
    hide Others;
    if order != [] {
      CountOnce(m, order[1..], s);
      OthersCons(m, order);
      assert order == [order[0]] + order[1..];
    } else {
      NoOthers(m);
    }
  }

  lemma OthersCons(m: map<nat, nat>, order: seq<nat>)
    requires order != [] && forall i :: 0 <= i < |order| ==> order[i] in m
    ensures Others(m, order) == [Setting(order[0], m[order[0]])] + Others(m, order[1..])
  {
  }

  lemma NoOthers(m: map<nat, nat>)
    ensures Others(m, []) == []
  {
  }

  // ---- The methods. ----

  /** One setting is appended. */
  method AppendSetting(b: seq<byte>, id: nat, val: nat) returns (r: seq<byte>)
    requires id <= MAX_VARINT8 && val <= MAX_VARINT8
    ensures AllEncodable([Setting(id, val)]) && r == b + Payload([Setting(id, val)])
  {
    hide Encode, FitsIn;
    r := Varint.Append(b, id);
    r := Varint.Append(r, val);
    assert [Setting(id, val)][1..] == [];
  }

  /** The length of the frame, as it is computed before the settings are written. */
  method PayloadLen(f: Settings, order: seq<nat>) returns (l: nat)
    requires Encodable(f) && Walk(f.other, order)
    ensures (forall i :: 0 <= i < |order| ==> order[i] in f.other) && AllEncodable(Listed(f, order))
    ensures l == Sizes(Listed(f, order))
  {
    hide Walk, AllEncodable, Sizes, Known, Others;
    ListedEncodable(f, order);
    EncodableParts(f, order);
    l := 0;
    if f.maxFieldSectionSize >= 0 {
      l := l + Len(SETTING_MAX_FIELD_SECTION_SIZE) + Len(f.maxFieldSectionSize);
    }
    var others := OthersLen(f.other, order);
    l := l + others;
    if f.datagram {
      l := l + Len(SETTING_DATAGRAM) + Len(1);
    }
    if f.extendedConnect {
      l := l + Len(SETTING_EXTENDED_CONNECT) + Len(1);
    }
    KnownSizes(f);
    SizesConcat(Known(f), Others(f.other, order));
  }

  /** The part of it for the other settings. */
  method OthersLen(m: map<nat, nat>, order: seq<nat>) returns (l: nat)
    requires forall j :: 0 <= j < |order| ==> order[j] in m && order[j] <= MAX_VARINT8 && m[order[j]] <= MAX_VARINT8
    ensures AllEncodable(Others(m, order)) && l == Sizes(Others(m, order))
  {
    hide AllEncodable, Sizes, Others;
    l := 0;
    var i := 0;
    SizesOfPart(m, order, 0);
    while i < |order|
      invariant 0 <= i <= |order| && AllEncodable(Others(m, order[..i])) && l == Sizes(Others(m, order[..i]))
    {
      SizesOfPart(m, order, i);
      l := l + Len(order[i]) + Len(m[order[i]]);
      i := i + 1;
    }
    assert order[..i] == order;
  }

  lemma EncodableParts(f: Settings, order: seq<nat>)
    requires Encodable(f) && forall i :: 0 <= i < |order| ==> order[i] in f.other
    ensures AllEncodable(Known(f)) && AllEncodable(Others(f.other, order))
    ensures forall i :: 0 <= i < |order| ==> order[i] <= MAX_VARINT8 && f.other[order[i]] <= MAX_VARINT8
  {
  }

  lemma SizesOfPart(m: map<nat, nat>, order: seq<nat>, i: nat)
    requires i <= |order|
    requires forall j :: 0 <= j < |order| ==> order[j] in m && order[j] <= MAX_VARINT8 && m[order[j]] <= MAX_VARINT8
    ensures AllEncodable(Others(m, order[..i])) && (i == 0 ==> Sizes(Others(m, order[..i])) == 0)
    ensures i < |order| ==>
              var s := Setting(order[i], m[order[i]]);
              && AllEncodable(Others(m, order[..i + 1]))
              && Others(m, order[..i + 1]) == Others(m, order[..i]) + [s]
              && Sizes(Others(m, order[..i + 1])) == Sizes(Others(m, order[..i])) + Len(s.id) + Len(s.val)
  {
    hide Others, Sizes;
    SizesOfNothing();
    if i < |order| {
      var s := Setting(order[i], m[order[i]]);
      assert Others(m, order[..i + 1]) == Others(m, order[..i]) + [s];
      SizesConcat(Others(m, order[..i]), [s]);
      SizesOfOne(s);
    }
  }

  lemma SizesOfNothing()
    ensures Sizes([]) == 0
  {
  }

  lemma SizesOfOne(s: Setting)
    requires s.id <= MAX_VARINT8 && s.val <= MAX_VARINT8
    ensures Sizes([s]) == Len(s.id) + Len(s.val)
  {
    assert [s][1..] == [];
  }

  lemma KnownSizes(f: Settings)
    requires f.maxFieldSectionSize <= MAX_VARINT8
    ensures AllEncodable(Known(f))
    ensures Sizes(Known(f)) ==
            (if f.maxFieldSectionSize >= 0 then Len(SETTING_MAX_FIELD_SECTION_SIZE) + Len(f.maxFieldSectionSize) else 0)
            + (if f.datagram then Len(SETTING_DATAGRAM) + Len(1) else 0)
            + (if f.extendedConnect then Len(SETTING_EXTENDED_CONNECT) + Len(1) else 0)
  {
    var a, b, c := SizeLimit(f), Flag(f.datagram, SETTING_DATAGRAM), Flag(f.extendedConnect, SETTING_EXTENDED_CONNECT);
    SizesConcat(a, b);
    SizesConcat(a + b, c);
  }

  /** settingsFrame.Append. The map is walked twice, in any two orders; the declared length is that of the payload. */
  method Append(b: seq<byte>, f: Settings, order: seq<nat>, order': seq<nat>) returns (r: seq<byte>)
    requires Encodable(f) && Walk(f.other, order) && Walk(f.other, order')
    requires forall i :: 0 <= i < |order| ==> order[i] in f.other
    requires AllEncodable(Listed(f, order))
    requires Sizes(Listed(f, order)) <= MAX_VARINT8
    ensures (forall i :: 0 <= i < |order'| ==> order'[i] in f.other) && AllEncodable(Listed(f, order'))
    ensures var payload := Payload(Listed(f, order'));
            |payload| <= MAX_VARINT8 && r == b + EncodeShort(FRAME_TYPE_SETTINGS) + EncodeShort(|payload|) + payload
  {
    hide Walk, AllEncodable, Sizes, Payload, EncodeShort, Encode, FitsIn;
    ListedEncodable(f, order');
    SameLength(f, order, order');
    r := Varint.Append(b, FRAME_TYPE_SETTINGS);
    Short(FRAME_TYPE_SETTINGS);
    var l := PayloadLen(f, order);
    r := Varint.Append(r, l);
    Short(l);
    r := AppendPayload(r, f, order');
  }

  lemma SameLength(f: Settings, order: seq<nat>, order': seq<nat>)
    requires Encodable(f) && Walk(f.other, order) && Walk(f.other, order')
    ensures (forall i :: 0 <= i < |order| ==> order[i] in f.other) && AllEncodable(Listed(f, order))
    ensures (forall i :: 0 <= i < |order'| ==> order'[i] in f.other) && AllEncodable(Listed(f, order'))
    ensures |Payload(Listed(f, order'))| == Sizes(Listed(f, order))
  {
    hide Walk, AllEncodable, Sizes, Payload;
    ListedEncodable(f, order);
    ListedEncodable(f, order');
    PayloadSize(Listed(f, order'));
    SameOthers(f.other, order, order');
    SameSizes(Listed(f, order), Listed(f, order'));
  }

  /** The settings are appended. */
  method AppendPayload(b: seq<byte>, f: Settings, order: seq<nat>) returns (r: seq<byte>)
    requires Encodable(f) && Walk(f.other, order)
    ensures (forall i :: 0 <= i < |order| ==> order[i] in f.other) && AllEncodable(Listed(f, order))
    ensures r == b + Payload(Listed(f, order))
  {
    hide Walk, AllEncodable, Payload, Sizes;
    ListedEncodable(f, order);
    EncodableParts(f, order);
    r := AppendKnown(b, f);
    var i := 0;
    ghost var known := r;
    SizesOfPart(f.other, order, 0);
    NoPayload(Others(f.other, order[..0]));
    while i < |order|
      invariant 0 <= i <= |order| && AllEncodable(Others(f.other, order[..i]))
      invariant r == known + Payload(Others(f.other, order[..i]))
    {
      SizesOfPart(f.other, order, i);
      r := AppendSetting(r, order[i], f.other[order[i]]);
      PayloadConcat(Others(f.other, order[..i]), [Setting(order[i], f.other[order[i]])]);
      i := i + 1;
    }
    assert order[..i] == order;
    PayloadConcat(Known(f), Others(f.other, order));
  }

  lemma NoPayload(list: seq<Setting>)
    requires list == []
    ensures AllEncodable(list) && Payload(list) == []
  {
  }

  method AppendKnown(b: seq<byte>, f: Settings) returns (r: seq<byte>)
    requires f.maxFieldSectionSize <= MAX_VARINT8
    ensures AllEncodable(Known(f)) && r == b + Payload(Known(f))
  {
    hide AllEncodable, Payload, Known;
    NoPayload([]);
    KnownPayload(f);
    r := b;
    if f.maxFieldSectionSize >= 0 {
      r := AppendSetting(r, SETTING_MAX_FIELD_SECTION_SIZE, f.maxFieldSectionSize);
    }
    if f.datagram {
      r := AppendSetting(r, SETTING_DATAGRAM, 1);
    }
    if f.extendedConnect {
      r := AppendSetting(r, SETTING_EXTENDED_CONNECT, 1);
    }
  }

  lemma KnownPayload(f: Settings)
    requires f.maxFieldSectionSize <= MAX_VARINT8
    ensures var a, b := SizeLimit(f), Flag(f.datagram, SETTING_DATAGRAM);
            var c := Flag(f.extendedConnect, SETTING_EXTENDED_CONNECT);
            && AllEncodable(a) && AllEncodable(b) && AllEncodable(c) && AllEncodable(Known(f))
            && Payload(Known(f)) == Payload(a) + Payload(b) + Payload(c)
  {
    hide Payload;
    var a, b, c := SizeLimit(f), Flag(f.datagram, SETTING_DATAGRAM), Flag(f.extendedConnect, SETTING_EXTENDED_CONNECT);
    PayloadConcat(a, b);
    PayloadConcat(a + b, c);
  }

  /** parseSettingsFrame */
  method ParseSettingsFrame(r: ByteReader, l: nat) returns (result: Result)
    requires r.Valid()
    modifies r`pos
    ensures r.Valid()
    ensures result == ParseSettings(old(r.Rest()), l)
    ensures result.Ok? ==> r.pos == old(r.pos) + l
  {
    hide ReadAll;
    if l > MAX_SETTINGS_SIZE {
      return Failed(TooLarge);
    }
    if |r.data| - r.pos < l {
      r.pos := |r.data|;
      return Failed(EndOfFrame);
    }
    var buf := r.data[r.pos..r.pos + l];
    assert buf == r.Rest()[..l];
    r.pos := r.pos + l;
    result := ParseBuffer(buf);
  }

  /** The loop over the settings. */
  method ParseBuffer(buf: seq<byte>) returns (result: Result)
    ensures result == ParsePayload(buf)
  {
    hide ReadAll, Apply, Next;
    var b: ByteReader := new ByteReader(buf);
    var reading := NOTHING_READ;
    while b.pos < |b.data|
      modifies b`pos
      invariant fresh(b) && b.Valid() && b.data == buf
      invariant ReadAll(NOTHING_READ, buf) == ReadAll(reading, b.Rest())
      decreases |buf| - b.pos
    {
      ReadOne(reading, b.Rest());
      var s := ReadSetting(b);
      if s.None? {
        return Failed(EndOfFrame);
      }
      var step := Apply(reading, s.value);
      if step.Stopped? {
        return Failed(step.error);
      }
      reading := step.reading;
    }
    NothingMore(reading, b.Rest());
    result := Ok(reading.frame);
  }

  /** An identifier and a value are read. */
  method ReadSetting(b: ByteReader) returns (s: Option<Setting>)
    requires b.Valid()
    modifies b`pos
    ensures b.Valid()
    ensures s == match Next(old(b.Rest())) case None => None case Some((setting, _)) => Some(setting)
    ensures s.Some? ==> b.Rest() == Next(old(b.Rest())).value.1 && b.pos > old(b.pos)
  {
    hide Parse;
    ghost var rest := b.Rest();
    Consumes(rest);
    var id := b.ReadVarint();
    if id.None? {
      return None;
    }
    assert b.Rest() == rest[Parse(rest).consumed..];
    ghost var rest' := b.Rest();
    Consumes(rest');
    var val := b.ReadVarint();
    if val.None? {
      return None;
    }
    assert b.Rest() == rest'[Parse(rest').consumed..];
    s := Some(Setting(id.value, val.value));
  }

  /** One round of the parser. */
  lemma ReadOne(r: Reading, b: seq<byte>)
    requires b != []
    ensures Next(b) == None ==> ReadAll(r, b) == Stopped(EndOfFrame)
    ensures Next(b).Some? ==>
              var step := Apply(r, Next(b).value.0);
              if step.Stopped? then ReadAll(r, b) == step else ReadAll(r, b) == ReadAll(step.reading, Next(b).value.1)
  {
  }

  lemma NothingMore(r: Reading, b: seq<byte>)
    requires b == []
    ensures ReadAll(r, b) == Going(r)
  {
  }
}
