/** quic-go-bbr/internal/wire/stream_frame.go: STREAM frames on the wire, as in section 19.8 of RFC 9000. */
module StreamFrameWire {
  import opened Protocol
  import opened VarintLen
  import opened Varint
  import opened StreamFrames

  /** The type byte: the bits for the FIN, for the length field and for the offset field. */
  function TypeOf(f: StreamFrame, hasLen: bool): byte {
    0x8 + (if f.fin then 1 else 0) + (if hasLen then 2 else 0) + (if f.offset != 0 then 4 else 0)
  }

  /** The fields behind the type byte. */
  function Fields(streamId: nat, f: StreamFrame, hasLen: bool): seq<byte>
    requires streamId <= MAX_VARINT8 && f.End() <= MAX_BYTE_COUNT
  {
    EncodeShort(streamId) + ((if f.offset != 0 then EncodeShort(f.offset) else [])
                             + ((if hasLen then EncodeShort(|f.data|) else []) + f.data))
  }

  datatype Parsed = Failed | Frame(streamId: nat, f: StreamFrame, hasLen: bool, consumed: nat)

  /** ParseStreamFrame, given the type. */
  function ParseFrame(b: seq<byte>, typ: byte): Parsed {
    var id := Parse(b);
    if id.EndOfData? || id.consumed > |b| then Failed
    else
      var hasOffset := typ / 4 % 2 == 1;
      var offset := if hasOffset then Parse(b[id.consumed..]) else Value(0, 0);
      if offset.EndOfData? || id.consumed + offset.consumed > |b| then Failed
      else ParseData(b, typ, id.value, offset.value, id.consumed + offset.consumed)
  }

  /** The length field and the data, from `pos` on. */
  function ParseData(b: seq<byte>, typ: byte, streamId: nat, offset: nat, pos: nat): Parsed
    requires pos <= |b|
  {
    var hasLen := typ / 2 % 2 == 1;
    var len := if hasLen then Parse(b[pos..]) else Value(|b| - pos, 0);
    if len.EndOfData? || pos + len.consumed + len.value > |b| || len.value > MAX_PACKET_BUFFER_SIZE
       || offset + len.value > MAX_BYTE_COUNT then Failed
    else
      var start := pos + len.consumed;
      Frame(streamId, StreamFrame(offset, b[start..start + len.value], typ % 2 == 1), hasLen, start + len.value)
  }

  /** Append: refused exactly for an empty frame without a FIN. */
  method AppendFrame(b: seq<byte>, streamId: nat, f: StreamFrame, hasLen: bool) returns (r: Option<seq<byte>>)
    requires streamId <= MAX_VARINT8 && f.End() <= MAX_BYTE_COUNT
    ensures r == if f.data == [] && !f.fin then None else Some(b + [TypeOf(f, hasLen)] + Fields(streamId, f, hasLen))
  {
    hide Encode, FitsIn, EncodeShort;
    if |f.data| == 0 && !f.fin {
      return None;
    }
    var typ := 0x8;
    if f.fin {
      typ := typ + 1;
    }
    if hasLen {
      typ := typ + 2;
    }
    if f.offset != 0 {
      typ := typ + 4;
    }
    var w := b + [typ];
    Short(streamId);
    w := Varint.Append(w, streamId);
    if f.offset != 0 {
      Short(f.offset);
      w := Varint.Append(w, f.offset);
    }
    if hasLen {
      Short(|f.data|);
      w := Varint.Append(w, |f.data|);
    }
    w := w + f.data;
    assert w == b + [TypeOf(f, hasLen)] + Fields(streamId, f, hasLen);
    r := Some(w);
  }

  /** Length is the length of what is written. */
  lemma LengthIsWritten(streamId: nat, f: StreamFrame)
    requires streamId <= MAX_BYTE_COUNT && f.End() <= MAX_BYTE_COUNT
    ensures Length(streamId, f) == |[TypeOf(f, true)] + Fields(streamId, f, true)|
  {
    hide EncodeShort;
  }

  /** A frame that was written is read back, if its data fits a packet buffer; without a length field it has to be the
      last one. */
  lemma RoundTrip(streamId: nat, f: StreamFrame, hasLen: bool, rest: seq<byte>)
    requires streamId <= MAX_VARINT8 && f.End() <= MAX_BYTE_COUNT && (!hasLen ==> rest == [])
    ensures var fields := Fields(streamId, f, hasLen);
            ParseFrame(fields + rest, TypeOf(f, hasLen)) ==
            if |f.data| <= MAX_PACKET_BUFFER_SIZE then Frame(streamId, f, hasLen, |fields|) else Failed
  {
    hide Parse, EncodeShort, ParseData, TypeOf, Fields, ParseFrame;
    var tail := (if hasLen then EncodeShort(|f.data|) else []) + f.data;
    var offset := if f.offset != 0 then EncodeShort(f.offset) else [];
    var b := Fields(streamId, f, hasLen) + rest;
    Layout(streamId, f, hasLen, rest, offset, tail);
    HeaderRoundTrip(streamId, f, hasLen, b, offset, tail + rest);
    DataRoundTrip(b, TypeOf(f, hasLen), streamId, f, hasLen, Len(streamId) + |offset|, rest);
  }

  /** The fields before the length and the data. */
  lemma HeaderRoundTrip(streamId: nat, f: StreamFrame, hasLen: bool, b: seq<byte>, offset: seq<byte>, tail: seq<byte>)
    requires streamId <= MAX_VARINT8 && f.End() <= MAX_BYTE_COUNT
    requires offset == if f.offset != 0 then EncodeShort(f.offset) else []
    requires b == EncodeShort(streamId) + (offset + tail)
    ensures Len(streamId) + |offset| <= |b|
    ensures ParseFrame(b, TypeOf(f, hasLen)) ==
            ParseData(b, TypeOf(f, hasLen), streamId, f.offset, Len(streamId) + |offset|)
  {
    hide Parse, EncodeShort, ParseData, TypeOf;
    TypeBits(f, hasLen);
    ParseShort(streamId, offset + tail);
    assert b[Len(streamId)..] == offset + tail;
    if f.offset != 0 {
      ParseShort(f.offset, tail);
    }
  }

  lemma Layout(streamId: nat, f: StreamFrame, hasLen: bool, rest: seq<byte>, offset: seq<byte>, tail: seq<byte>)
    requires streamId <= MAX_VARINT8 && f.End() <= MAX_BYTE_COUNT
    requires offset == if f.offset != 0 then EncodeShort(f.offset) else []
    requires tail == (if hasLen then EncodeShort(|f.data|) else []) + f.data
    ensures var b := Fields(streamId, f, hasLen) + rest;
            && b == EncodeShort(streamId) + (offset + (tail + rest))
            && b[Len(streamId) + |offset|..] == tail + rest
  {
    hide EncodeShort;
    Short(streamId);
    Parts(EncodeShort(streamId), offset, tail, rest);
  }

  lemma TypeBits(f: StreamFrame, hasLen: bool)
    ensures var typ := TypeOf(f, hasLen);
            (typ / 4 % 2 == 1 <==> f.offset != 0) && (typ / 2 % 2 == 1 <==> hasLen) && (typ % 2 == 1 <==> f.fin)
  {
  }

  lemma Parts(a: seq<byte>, b: seq<byte>, c: seq<byte>, d: seq<byte>)
    ensures var all := a + (b + c) + d;
            all == a + (b + (c + d)) && all[|a|..] == b + (c + d) && all[|a| + |b|..] == c + d
  {
  }

  lemma DataRoundTrip(b: seq<byte>, typ: byte, streamId: nat, f: StreamFrame, hasLen: bool, pos: nat, rest: seq<byte>)
    requires f.End() <= MAX_BYTE_COUNT && (!hasLen ==> rest == []) && typ == TypeOf(f, hasLen) && pos <= |b|
    requires b[pos..] == (if hasLen then EncodeShort(|f.data|) else []) + f.data + rest
    ensures ParseData(b, typ, streamId, f.offset, pos) ==
            if |f.data| <= MAX_PACKET_BUFFER_SIZE then Frame(streamId, f, hasLen, |b| - |rest|) else Failed
  {
    hide Parse, EncodeShort, TypeOf;
    TypeBits(f, hasLen);
    var n := if hasLen then Len(|f.data|) else 0;
    if hasLen {
      assert b[pos..] == EncodeShort(|f.data|) + (f.data + rest);
      ParseShort(|f.data|, f.data + rest);
    }
    var len := if hasLen then EncodeShort(|f.data|) else [];
    Parts([], len, f.data, rest);
    Inner(b, pos, n, f.data, rest);
  }

  lemma Inner(b: seq<byte>, pos: nat, n: nat, data: seq<byte>, rest: seq<byte>)
    requires pos <= |b| && n <= |b| - pos && b[pos..][n..] == data + rest
    ensures pos + n + |data| + |rest| == |b| && b[pos + n..pos + n + |data|] == data
  {
    assert b[pos..][n..] == b[pos + n..];
    assert b[pos + n..pos + n + |data|] == b[pos + n..][..|data|];
  }
}
