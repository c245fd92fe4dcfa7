/** quic-go-bbr/quicvarint/varint.go: variable-length integers, as in section 16 of RFC 9000. Shifts and masks are
    written as division and remainder; a bit is set in a byte by addition where it is known to be clear. */
module Varint {
  import opened Protocol
  import opened VarintLen

  /** 256 to the power of `n`. */
  function Pow256(n: nat): nat {
    if n == 0 then 1 else 256 * Pow256(n - 1)
  }

  /** The number shifted right by `k` bytes. */
  function Shift(i: nat, k: nat): nat {
    if k == 0 then i else Shift(i / 256, k - 1)
  }

  function LowByte(i: nat): byte {
    i % 256
  }

  /** A number in network byte order: the last `n` bytes of it, and the number that bytes stand for. */
  function Bytes(i: nat, n: nat): (b: seq<byte>)
    ensures |b| == n
  {
    if n == 0 then [] else Bytes(i / 256, n - 1) + [LowByte(i)]
  }

  function Number(b: seq<byte>): nat {
    if b == [] then 0 else Number(b[..|b| - 1]) * 256 + b[|b| - 1]
  }

  /** The two bits that stand for a length. */
  function Tag(length: nat): nat {
    if length == 1 then 0 else if length == 2 then 1 else if length == 4 then 2 else 3
  }

  predicate IsLength(length: nat) {
    length == 1 || length == 2 || length == 4 || length == 8
  }

  /** A number fits into 62, 30, 14 or 6 bits. */
  predicate FitsIn(i: nat, length: nat) {
    IsLength(length) && i < 64 * Pow256(length - 1)
  }

  /** The specification of the encoding: the two bits for the length, and then the number. */
  function Encode(i: nat, length: nat): (b: seq<byte>)
    requires FitsIn(i, length)
    ensures |b| == length
  {
    TopFits(i, length - 1);
    [64 * Tag(length) + Shift(i, length - 1)] + Bytes(i, length - 1)
  }

  datatype Parsed = EndOfData | Value(value: nat, consumed: nat)

  // ---- Arithmetic. ----

  lemma {:induction false} TopFits(i: nat, n: nat)
    requires i < 64 * Pow256(n)
    ensures Shift(i, n) < 64
  {
    if n > 0 {
      TopFits(i / 256, n - 1);
    }
  }

  /** The bytes of a number, after what is above them, make up the number. */
  lemma {:induction false} NumberOfBytes(i: nat, n: nat)
    requires Shift(i, n) < 256
    ensures Number([Shift(i, n)] + Bytes(i, n)) == i
  {
    var b := [Shift(i, n)] + Bytes(i, n);
    if n > 0 {
      NumberOfBytes(i / 256, n - 1);
      assert b[..|b| - 1] == [Shift(i / 256, n - 1)] + Bytes(i / 256, n - 1);
    } else {
      assert b[..0] == [];
    }
  }

  /** The bytes of the number that bytes stand for. */
  lemma {:induction false} BytesOfNumber(top: byte, b: seq<byte>)
    ensures Shift(Number([top] + b), |b|) == top && Bytes(Number([top] + b), |b|) == b
    ensures top < 64 ==> Number([top] + b) < 64 * Pow256(|b|)
    decreases |b|
  {
    var all := [top] + b;
    if b != [] {
      var front, last: nat := b[..|b| - 1], b[|b| - 1];
      BytesOfNumber(top, front);
      assert all[..|all| - 1] == [top] + front;
      var n := Number([top] + front);
      assert Number(all) == n * 256 + last;
      assert (n * 256 + last) / 256 == n && (n * 256 + last) % 256 == last;
    } else {
      assert all[..0] == [];
    }
  }

  // ---- Reading. ----

  /** Parse */
  function Parse(b: seq<byte>): Parsed {
    if |b| == 0 then EndOfData
    else
      var first: nat := b[0];
      var tag, top := first / 64, first % 64;
      if tag == 0 then Value(top, 1)
      else if tag == 1 then
        if |b| < 2 then EndOfData else Value(b[1] + top * 256, 2)
      else if tag == 2 then
        if |b| < 4 then EndOfData else Value(b[3] + b[2] * 256 + b[1] * 65536 + top * 16777216, 4)
      else
        if |b| < 8 then EndOfData
        else
          Value(b[7] + b[6] * 256 + b[5] * 65536 + b[4] * 16777216 + b[3] * 0x1_0000_0000 + b[2] * 0x100_0000_0000
                + b[1] * 0x1_0000_0000_0000
                + top * 0x100_0000_0000_0000, 8)
  }

  function LengthOf(first: nat): nat {
    if first < 64 then 1 else if first < 128 then 2 else if first < 192 then 4 else 8
  }

  lemma Last(b: seq<byte>, k: nat)
    requires k < |b|
    ensures Number(b[..k + 1]) == Number(b[..k]) * 256 + b[k]
  {
    assert b[..k + 1][..k] == b[..k];
  }

  lemma FirstFour(b: seq<byte>)
    requires |b| > 0
    ensures Number(b[..1]) == b[0]
    ensures |b| >= 2 ==> Number(b[..2]) == b[1] + (b[0] as nat) * 256
    ensures |b| >= 4 ==> Number(b[..4]) == b[3] + (b[2] as nat) * 256 + (b[1] as nat) * 65536 + (b[0] as nat) * 16777216
  {
    hide Number;
    NoBytes(b);
    Last(b, 0);
    if |b| >= 2 {
      Last(b, 1);
    }
    if |b| >= 4 {
      Last(b, 2);
      Last(b, 3);
    }
  }

  lemma NoBytes(b: seq<byte>)
    ensures Number(b[..0]) == 0
  {
  }

  lemma NextFour(b: seq<byte>)
    requires |b| >= 8
    ensures Number(b[..8]) == b[7] + (b[6] as nat) * 256 + (b[5] as nat) * 65536 + (b[4] as nat) * 16777216
            + Number(b[..4]) * 0x1_0000_0000
  {
    hide Number;
    Last(b, 4);
    Last(b, 5);
    Last(b, 6);
    Last(b, 7);
  }

  /** What Parse computes: the first byte has the length in it, and the rest is the number. */
  lemma ParseMeans(b: seq<byte>)
    requires |b| > 0
    ensures var n := LengthOf(b[0]);
            Parse(b) == if |b| < n then EndOfData else Value(Number([(b[0] as nat) % 64] + b[1..n]), n)
  {
    hide Number;
    var first: nat := b[0];
    var n := LengthOf(first);
    if |b| >= n {
      var all: seq<byte> := [first % 64] + b[1..n];
      assert all[..n] == all;
      FirstFour(all);
      if n == 8 {
        NextFour(all);
      }
    }
  }

  /** Parse inverts the encoding, whatever follows. */
  lemma ParseEncoded(i: nat, length: nat, rest: seq<byte>)
    requires FitsIn(i, length)
    ensures Parse(Encode(i, length) + rest) == Value(i, length)
  {
    var b := Encode(i, length) + rest;
    TopFits(i, length - 1);
    ParseMeans(b);
    assert b[1..length] == Bytes(i, length - 1);
    NumberOfBytes(i, length - 1);
  }

  /** The shortest encoding. */
  function EncodeShort(i: nat): (b: seq<byte>)
    requires i <= MAX_VARINT8
    ensures |b| == Len(i) > 0
  {
    LenFits(i);
    Encode(i, Len(i))
  }

  lemma Short(i: nat)
    requires i <= MAX_VARINT8
    ensures FitsIn(i, Len(i)) && EncodeShort(i) == Encode(i, Len(i))
  {
    LenFits(i);
  }

  lemma ParseShort(i: nat, rest: seq<byte>)
    requires i <= MAX_VARINT8
    ensures Parse(EncodeShort(i) + rest) == Value(i, Len(i))
  {
    LenFits(i);
    ParseEncoded(i, Len(i), rest);
  }

  /** Whatever Parse accepts is the encoding of the value in the length that was consumed. */
  lemma ParsedIsEncoded(b: seq<byte>)
    requires Parse(b).Value?
    ensures var p := Parse(b);
            p.consumed <= |b| && FitsIn(p.value, p.consumed) && b[..p.consumed] == Encode(p.value, p.consumed)
  {
    ParseMeans(b);
    var n, top: nat := LengthOf(b[0]), b[0] % 64;
    BytesOfNumber(top, b[1..n]);
    assert b[..n] == [b[0]] + b[1..n];
  }

  /** The shortest length is one in which the number fits. */
  lemma LenFits(i: nat)
    requires i <= MAX_VARINT8
    ensures FitsIn(i, Len(i)) && forall length: nat :: FitsIn(i, length) <==> IsLength(length) && length >= Len(i)
  {
    Powers();
  }

  lemma Powers()
    ensures Pow256(0) == 1 && Pow256(1) == 256 && Pow256(2) == 65536 && Pow256(3) == 16777216
    ensures Pow256(7) == 0x100_0000_0000_0000
  {
    assert Pow256(4) == 256 * Pow256(3) && Pow256(5) == 256 * Pow256(4) && Pow256(6) == 256 * Pow256(5)
           && Pow256(7) == 256 * Pow256(6);
  }

  // ---- Writing. ----

  lemma {:induction false} ByteAt(i: nat, n: nat, j: nat)
    requires j < n
    ensures Bytes(i, n)[j] == LowByte(Shift(i, n - 1 - j))
  {
    if j < n - 1 {
      ByteAt(i / 256, n - 1, j);
    }
  }

  /** A number that needs fewer bytes starts with zeros. */
  lemma PaddedBytes(i: nat, l: nat, n: nat)
    requires l <= n && i < Pow256(l)
    ensures Bytes(i, n) == Zeros(n - l) + Bytes(i, l)
  {
    forall j: nat | j < n
      ensures Bytes(i, n)[j] == (Zeros(n - l) + Bytes(i, l))[j]
    {
      ByteAt(i, n, j);
      if j < n - l {
        Above(i, l, n - 1 - j);
      } else {
        ByteAt(i, l, j - (n - l));
      }
    }
  }

  function Zeros(n: nat): (b: seq<byte>)
    ensures |b| == n && forall j :: 0 <= j < n ==> b[j] == 0
  {
    if n == 0 then [] else Zeros(n - 1) + [0]
  }

  lemma {:induction false} Above(i: nat, l: nat, k: nat)
    requires i < Pow256(l) && l <= k
    ensures Shift(i, k) == 0
  {
    if l > 0 {
      Above(i / 256, l - 1, k - 1);
    } else if k > 0 {
      Above(0, 0, k - 1);
    }
  }

  /** Append */
  method Append(b: seq<byte>, i: nat) returns (r: seq<byte>)
    requires i <= MAX_VARINT8
    ensures FitsIn(i, Len(i)) && r == b + Encode(i, Len(i))
  {
    LenFits(i);
    TopFits(i, Len(i) - 1);
    if i <= MAX_VARINT1 {
      return b + [i];
    }
    var n := Len(i) - 1;
    forall j | 0 <= j < n
      ensures Bytes(i, n)[j] == LowByte(Shift(i, n - 1 - j))
    {
      ByteAt(i, n, j);
    }
    if i <= MAX_VARINT2 {
      return b + [LowByte(Shift(i, 1)) + 0x40, LowByte(i)];
    }
    if i <= MAX_VARINT4 {
      return b + [LowByte(Shift(i, 3)) + 0x80, LowByte(Shift(i, 2)), LowByte(Shift(i, 1)), LowByte(i)];
    }
    r := b + [LowByte(Shift(i, 7)) + 0xc0, LowByte(Shift(i, 6)), LowByte(Shift(i, 5)), LowByte(Shift(i, 4)),
              LowByte(Shift(i, 3)), LowByte(Shift(i, 2)), LowByte(Shift(i, 1)), LowByte(i)];
  }

  /** AppendWithLen */
  method AppendWithLen(b: seq<byte>, i: nat, length: nat) returns (r: seq<byte>)
    requires IsLength(length) && i <= MAX_VARINT8 && Len(i) <= length
    ensures FitsIn(i, length) && r == b + Encode(i, length)
  {
    hide Encode, FitsIn, Shift, Bytes;
    LenFits(i);
    var l := Len(i);
    if l == length {
      r := Append(b, i);
      return;
    }
    var first := if length == 2 then 0x40 else if length == 4 then 0x80 else 0xc0;
    r := b + [first];
    var k := 0;
    while k < length - l - 1
      invariant 0 <= k <= length - l - 1 && r == b + [first] + Zeros(k)
    {
      r := r + [0];
      k := k + 1;
    }
    var j := 0;
    while j < l
      invariant 0 <= j <= l && r == b + [first] + Zeros(k) + Bytes(i, l)[..j]
    {
      ByteAt(i, l, j);
      r := r + [LowByte(Shift(i, l - 1 - j))];
      j := j + 1;
    }
    PaddedEncoding(i, length);
  }

  lemma PaddedEncoding(i: nat, length: nat)
    requires IsLength(length) && i <= MAX_VARINT8 && Len(i) < length
    ensures FitsIn(i, length) && Encode(i, length) == [64 * Tag(length)] + Zeros(length - Len(i) - 1) + Bytes(i, Len(i))
  {
    LenFits(i);
    SmallEnough(i);
    PaddedBytes(i, Len(i), length - 1);
    Above(i, Len(i), length - 1);
  }

  lemma SmallEnough(i: nat)
    requires i <= MAX_VARINT8
    ensures i < Pow256(Len(i))
  {
    Powers();
  }

  /** An io.ByteReader over bytes that are all there. */
  class ByteReader {
    const data: seq<byte>
    var pos: nat

    ghost predicate Valid()
      reads this
    {
      pos <= |data|
    }

    function Rest(): seq<byte>
      requires pos <= |data|
      reads this
    {
      data[pos..]
    }

    constructor (data: seq<byte>)
      ensures Valid() && this.data == data && pos == 0
    {
      this.data, pos := data, 0;
    }

    method ReadByte() returns (b: Option<byte>)
      requires Valid()
      modifies this`pos
      ensures Valid()
      ensures if old(pos) == |data| then b == None && pos == old(pos)
              else b == Some(data[old(pos)]) && pos == old(pos) + 1
    {
      if pos == |data| {
        return None;
      }
      b := Some(data[pos]);
      pos := pos + 1;
    }

    /** Read: the same value as Parse, and the reader moves by as many bytes as Parse consumes; at the end of the data
        everything is consumed. */
    method ReadVarint() returns (v: Option<nat>)
      requires Valid()
      modifies this`pos
      ensures Valid()
      ensures Parse(old(Rest())).EndOfData? ==> v == None && pos == |data|
      ensures Parse(old(Rest())).Value? ==>
                v == Some(Parse(old(Rest())).value) && pos == old(pos) + Parse(old(Rest())).consumed
    {
      var b1 := ReadByte();
      if b1.None? {
        return None;
      }
      var l := LengthOf(b1.value);
      var top: nat := b1.value % 64;
      if l == 1 {
        return Some(top);
      }
      var b2 := ReadByte();
      if b2.None? {
        return None;
      }
      if l == 2 {
        return Some(b2.value + top * 256);
      }
      var b3 := ReadByte();
      if b3.None? {
        return None;
      }
      var b4 := ReadByte();
      if b4.None? {
        return None;
      }
      if l == 4 {
        return Some(b4.value + b3.value * 256 + b2.value * 65536 + top * 16777216);
      }
      var b5 := ReadByte();
      if b5.None? {
        return None;
      }
      var b6 := ReadByte();
      if b6.None? {
        return None;
      }
      var b7 := ReadByte();
      if b7.None? {
        return None;
      }
      var b8 := ReadByte();
      if b8.None? {
        return None;
      }
      v := Some(b8.value + b7.value * 256 + b6.value * 65536 + b5.value * 16777216 + b4.value * 0x1_0000_0000
                + b3.value * 0x100_0000_0000
                + b2.value * 0x1_0000_0000_0000 + top * 0x100_0000_0000_0000);
    }
  }
}
