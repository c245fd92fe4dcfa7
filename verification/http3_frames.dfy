/** quic-go-bbr/http3/frames.go: the frames of HTTP/3, as in section 7 of RFC 9114. */
module Http3Frames {
  import opened Protocol
  import opened VarintLen
  import opened Varint
  import S = SettingsFrames

  datatype Frame =
    | DataFrame(length: nat)
    | HeadersFrame(length: nat, headerLen: nat)
    | SettingsFrame(settings: S.Settings)
    | GoAwayFrame(id: nat)

  datatype Error = Truncated | BadSettings(error: S.Error) | InconsistentLength | ReservedType(t: nat)

  datatype Result = Parsed(frame: Frame, rest: seq<byte>) | Failed(error: Error)

  const FRAME_TYPE_DATA: nat := 0x0
  const FRAME_TYPE_HEADERS: nat := 0x1
  const FRAME_TYPE_GOAWAY: nat := 0x7

  predicate IsReserved(t: nat) {
    t == 0x2 || t == 0x6 || t == 0x8 || t == 0x9
  }

  /** Frames that are skipped: the unsupported and the unknown ones. */
  predicate IsSkipped(t: nat) {
    t != FRAME_TYPE_DATA && t != FRAME_TYPE_HEADERS && t != S.FRAME_TYPE_SETTINGS && t != FRAME_TYPE_GOAWAY
    && !IsReserved(t)
  }

  /** A frame that has a payload of `l` bytes, and `b` after its header of `headerLen` bytes. */
  function ParseBody(t: nat, l: nat, headerLen: nat, b: seq<byte>): Result
    requires !IsSkipped(t)
  {
    if t == FRAME_TYPE_DATA then Parsed(DataFrame(l), b)
    else if t == FRAME_TYPE_HEADERS then Parsed(HeadersFrame(l, headerLen), b)
    else if t == S.FRAME_TYPE_SETTINGS then
      match S.ParseSettings(b, l)
      case Failed(e) => Failed(BadSettings(e))
      case Ok(settings) => Parsed(SettingsFrame(settings), b[l..])
    else if t == FRAME_TYPE_GOAWAY then
      match Parse(b)
      case EndOfData => Failed(Truncated)
      case Value(id, n) =>
        S.Consumes(b);
        if n != l then Failed(InconsistentLength) else Parsed(GoAwayFrame(id), b[n..])
    else Failed(ReservedType(t))
  }

  /** A frame header: type, length, and the number of bytes that they take. */
  function Header(b: seq<byte>): (h: Option<(nat, nat, nat)>)
    ensures h.Some? ==> 0 < h.value.2 <= |b|
  {
    S.Consumes(b);
    match Parse(b)
    case EndOfData => None
    case Value(t, n) =>
      S.Consumes(b[n..]);
      match Parse(b[n..])
      case EndOfData => None
      case Value(l, n') => Some((t, l, n + n'))
  }

  /** ParseNext */
  function ParseFrame(b: seq<byte>): Result
    decreases |b|
  {
    match Header(b)
    case None => Failed(Truncated)
    case Some((t, l, n)) =>
      if !IsSkipped(t) then ParseBody(t, l, n, b[n..])
      else if |b| - n < l then Failed(Truncated)
      else ParseFrame(b[n + l..])
  }

  // ---- Round trips. ----

  function EncodeHeader(t: nat, l: nat): seq<byte>
    requires t <= MAX_VARINT8 && l <= MAX_VARINT8
  {
    EncodeShort(t) + EncodeShort(l)
  }

  lemma HeaderEncoded(t: nat, l: nat, rest: seq<byte>)
    requires t <= MAX_VARINT8 && l <= MAX_VARINT8
    ensures Header(EncodeHeader(t, l) + rest) == Some((t, l, Len(t) + Len(l)))
  {
    hide Parse;
    var first, second := EncodeShort(t), EncodeShort(l);
    var b := EncodeHeader(t, l) + rest;
    assert b == first + (second + rest);
    LenFits(t);
    LenFits(l);
    ParseEncoded(t, Len(t), second + rest);
    ParseEncoded(l, Len(l), rest);
    assert b[|first|..] == second + rest;
  }

  /** Frames that are not supported or not known make no difference to what is parsed next. */
  lemma SkipsUnknown(t: nat, payload: seq<byte>, rest: seq<byte>)
    requires t <= MAX_VARINT8 && |payload| <= MAX_VARINT8 && IsSkipped(t)
    ensures ParseFrame(EncodeHeader(t, |payload|) + payload + rest) == ParseFrame(rest)
  {
    hide Header;
    var header := EncodeHeader(t, |payload|);
    var b := header + payload + rest;
    assert b == header + (payload + rest);
    HeaderEncoded(t, |payload|, payload + rest);
    assert b[|header| + |payload|..] == rest;
  }

  /** A frame that is not skipped is parsed from what follows its header. */
  lemma ParsesBody(t: nat, l: nat, rest: seq<byte>)
    requires t <= MAX_VARINT8 && l <= MAX_VARINT8 && !IsSkipped(t)
    ensures ParseFrame(EncodeHeader(t, l) + rest) == ParseBody(t, l, Len(t) + Len(l), rest)
  {
    hide Header, ParseBody;
    var header := EncodeHeader(t, l);
    HeaderEncoded(t, l, rest);
    assert (header + rest)[|header|..] == rest;
  }

  lemma GoAwayRoundTrip(id: nat, rest: seq<byte>)
    requires id <= MAX_VARINT8
    ensures ParseFrame(EncodeHeader(FRAME_TYPE_GOAWAY, Len(id)) + (EncodeShort(id) + rest)) ==
            Parsed(GoAwayFrame(id), rest)
  {
    hide Parse, ParseFrame;
    ParsesBody(FRAME_TYPE_GOAWAY, Len(id), EncodeShort(id) + rest);
    LenFits(id);
    ParseEncoded(id, Len(id), rest);
    assert (EncodeShort(id) + rest)[Len(id)..] == rest;
  }

  /** The headers of DATA and HEADERS frames; the payload is left to the reader. */
  lemma DataRoundTrip(l: nat, rest: seq<byte>)
    requires l <= MAX_VARINT8
    ensures ParseFrame(EncodeShort(0x0) + EncodeShort(l) + rest) == Parsed(DataFrame(l), rest)
    ensures ParseFrame(EncodeShort(0x1) + EncodeShort(l) + rest) == Parsed(HeadersFrame(l, 1 + Len(l)), rest)
  {
    hide ParseFrame, EncodeShort;
    ParsesBody(0x0, l, rest);
    ParsesBody(0x1, l, rest);
  }

  /** The frame types of HTTP/2 that are reserved are refused. */
  lemma ReservedRefused(t: nat, l: nat, rest: seq<byte>)
    requires l <= MAX_VARINT8 && (t == 0x2 || t == 0x6 || t == 0x8 || t == 0x9)
    ensures ParseFrame(EncodeShort(t) + EncodeShort(l) + rest) == Failed(ReservedType(t))
  {
    hide ParseFrame, EncodeShort;
    ParsesBody(t, l, rest);
  }

  /** dataFrame.Append and headersFrame.Append. */
  method AppendHeader(b: seq<byte>, headers: bool, l: nat) returns (r: seq<byte>)
    requires l <= MAX_VARINT8
    ensures b <= r
    ensures ParseFrame(r[|b|..]) == Parsed(if headers then HeadersFrame(l, |r| - |b|) else DataFrame(l), [])
  {
    hide ParseFrame, Encode, EncodeShort, FitsIn;
    var t := if headers then 0x1 else 0x0;
    r := Varint.Append(b, t);
    r := Varint.Append(r, l);
    Short(t);
    Short(l);
    DataRoundTrip(l, []);
    assert r[|b|..] == EncodeShort(t) + EncodeShort(l) + [];
  }

  /** A SETTINGS frame as it is written by S.Append is parsed back to itself exactly if none of its other settings is
      recognised, its maximum field section size is not below -1, and its payload is not longer than the parser accepts.
      */
  lemma SettingsRoundTrip(f: S.Settings, order: seq<nat>, rest: seq<byte>)
    requires S.Encodable(f) && S.Walk(f.other, order)
    requires (forall i :: 0 <= i < |order| ==> order[i] in f.other) && S.AllEncodable(S.Listed(f, order))
    requires |S.Payload(S.Listed(f, order))| <= MAX_VARINT8
    ensures var payload := S.Payload(S.Listed(f, order));
            ParseFrame(EncodeHeader(S.FRAME_TYPE_SETTINGS, |payload|) + (payload + rest)) ==
            Parsed(SettingsFrame(f), rest)
            <==> && (forall id :: id in f.other ==> !S.Recognised(id))
                 && f.maxFieldSectionSize >= -1 && |payload| <= S.MAX_SETTINGS_SIZE
  {
    hide ParseFrame, S.Payload, S.Listed, S.ParsePayload, S.Walk, S.AllEncodable, S.Encodable, S.Recognised;
    var payload := S.Payload(S.Listed(f, order));
    ParsesBody(S.FRAME_TYPE_SETTINGS, |payload|, payload + rest);
    assert (payload + rest)[..|payload|] == payload && (payload + rest)[|payload|..] == rest;
    if id :| id in f.other && S.Recognised(id) {
      S.NoRoundTrip(f, payload, id);
    } else if f.maxFieldSectionSize < -1 {
      S.NoSizeRoundTrip(f, payload);
    } else {
      S.RoundTrip(f, order);
    }
  }

  /** ParseNext on a reader. */
  method ParseNext(r: ByteReader) returns (result: Result)
    requires r.Valid()
    modifies r`pos
    ensures r.Valid()
    ensures match ParseFrame(old(r.Rest()))
            case Failed(e) => result == Failed(e)
            case Parsed(frame, rest) => result == Parsed(frame, rest) && r.Rest() == rest
  {
    hide ParseFrame, ParseBody, Header;
    while true
      modifies r`pos
      invariant r.Valid() && ParseFrame(r.Rest()) == ParseFrame(old(r.Rest()))
      decreases |r.data| - r.pos
    {
      ghost var b := r.Rest();
      OneFrame(b);
      var t, l, n := ReadHeader(r);
      if n == 0 {
        return Failed(Truncated);
      }
      assert r.Rest() == b[n..];
      if !IsSkipped(t) {
        result := ReadBody(r, t, l, n);
        return;
      }
      if |r.data| - r.pos < l {
        r.pos := |r.data|;
        return Failed(Truncated);
      }
      r.pos := r.pos + l;
      assert r.Rest() == b[n + l..];
    }
  }

  lemma OneFrame(b: seq<byte>)
    ensures Header(b) == None ==> ParseFrame(b) == Failed(Truncated)
    ensures Header(b).Some? ==>
              var (t, l, n) := Header(b).value;
              ParseFrame(b) == if !IsSkipped(t) then ParseBody(t, l, n, b[n..])
                               else if |b| - n < l then Failed(Truncated) else ParseFrame(b[n + l..])
  {
    hide Header, ParseBody;
  }

  /** The type and the length of a frame; the number of bytes read is 0 if the data ends. */
  method ReadHeader(r: ByteReader) returns (t: nat, l: nat, n: nat)
    requires r.Valid()
    modifies r`pos
    ensures r.Valid()
    ensures if Header(old(r.Rest())) == None then n == 0
            else Header(old(r.Rest())) == Some((t, l, n)) && r.pos == old(r.pos) + n
  {
    hide Parse;
    t, l, n := 0, 0, 0;
    var start := r.pos;
    ghost var b := r.Rest();
    S.Consumes(b);
    var first := r.ReadVarint();
    if first.None? {
      return;
    }
    assert r.Rest() == b[Parse(b).consumed..];
    S.Consumes(r.Rest());
    var second := r.ReadVarint();
    if second.None? {
      return;
    }
    t, l, n := first.value, second.value, r.pos - start;
  }

  /** The frames that are not skipped. */
  method ReadBody(r: ByteReader, t: nat, l: nat, headerLen: nat) returns (result: Result)
    requires r.Valid() && !IsSkipped(t)
    modifies r`pos
    ensures r.Valid()
    ensures result == ParseBody(t, l, headerLen, old(r.Rest()))
    ensures result.Parsed? ==> r.Rest() == result.rest
  {
    hide Parse, S.ParsePayload, S.ParseSettings;
    if t == FRAME_TYPE_DATA {
      return Parsed(DataFrame(l), r.Rest());
    }
    if t == FRAME_TYPE_HEADERS {
      return Parsed(HeadersFrame(l, headerLen), r.Rest());
    }
    ghost var b := r.Rest();
    if t == S.FRAME_TYPE_SETTINGS {
      var settings := S.ParseSettingsFrame(r, l);
      match settings
      case Failed(e) =>
        return Failed(BadSettings(e));
      case Ok(f) =>
        assert r.Rest() == b[l..];
        return Parsed(SettingsFrame(f), r.Rest());
    }
    if t == FRAME_TYPE_GOAWAY {
      var start := r.pos;
      S.Consumes(b);
      var id := r.ReadVarint();
      if id.None? {
        return Failed(Truncated);
      }
      if r.pos - start != l {
        return Failed(InconsistentLength);
      }
      assert r.Rest() == b[l..];
      return Parsed(GoAwayFrame(id.value), r.Rest());
    }
    result := Failed(ReservedType(t));
  }
}
