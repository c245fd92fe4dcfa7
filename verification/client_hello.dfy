/** quic-go-bbr/sni.go: where the server name and the ECH extension are in a ClientHello. */
module ClientHello {
  import opened Protocol

  const EXT_TYPE_SNI := 0
  const EXT_TYPE_ECH := 0xfe0d

  function Uint8(data: seq<byte>, pos: nat): nat
    requires pos < |data|
  {
    data[pos]
  }

  /** A big-endian 16-bit number. */
  function Uint16(data: seq<byte>, pos: nat): nat
    requires pos + 2 <= |data|
  {
    Uint8(data, pos) * 256 + Uint8(data, pos + 1)
  }

  /** `Incomplete` stands for io.ErrUnexpectedEOF. A position is -1 if there is none; `sniLen` is only meaningful with a
      position. */
  datatype Found = Incomplete | Malformed | Found(sniPos: int, sniLen: nat, echPos: int)

  /** A host name of length `len` starts at `pos`. */
  predicate HostNameAt(data: seq<byte>, pos: int, len: nat) {
    3 <= pos && pos + len <= |data| && data[pos - 3] == 0 && Uint16(data, pos - 2) == len
  }

  /** An extension of the given type starts at `pos`. */
  predicate ExtensionAt(data: seq<byte>, pos: int, extType: nat) {
    0 < pos && pos + 4 <= |data| && Uint16(data, pos) == extType && pos + 4 + Uint16(data, pos + 2) <= |data|
  }

  /** The message announces exactly its own length. */
  predicate CompleteMessage(data: seq<byte>) {
    |data| >= 4 && data[0] == 1 && |data| == 4 + Uint8(data, 1) * 65536 + Uint16(data, 2)
  }

  /** The end of a field at `pos` that starts with its own length, in one byte. */
  function Skip8(data: seq<byte>, pos: nat): Option<nat> {
    if pos + 1 <= |data| && pos + 1 + Uint8(data, pos) <= |data| then Some(pos + 1 + Uint8(data, pos)) else None
  }

  /** The same, with the length in two bytes. */
  function Skip16(data: seq<byte>, pos: nat): Option<nat> {
    if pos + 2 <= |data| && pos + 2 + Uint16(data, pos) <= |data| then Some(pos + 2 + Uint16(data, pos)) else None
  }

  /** Where the length of the extensions is: after the header, version, random, session ID, cipher suites and
      compression methods. */
  function ExtensionsLenAt(data: seq<byte>): (r: Option<nat>)
    ensures r.Some? ==> 42 <= r.value && r.value + 2 <= |data|
  {
    match Skip8(data, 38)
    case None => None
    case Some(cipherSuites) =>
      match Skip16(data, cipherSuites)
      case None => None
      case Some(compressionMethods) =>
        match Skip8(data, compressionMethods)
        case None => None
        case Some(pos) => if pos + 2 <= |data| then Some(pos) else None
  }

  // ---- What the search computes. ----

  datatype Names = BadList | Names(pos: int, len: nat)

  /** The first host name in the list of names between `pos` and `end`: its position, or -1, and the length of the last
      name looked at. */
  function ScanNames(data: seq<byte>, pos: nat, end: nat, len: nat): Names
    requires end <= |data|
    decreases end - pos
  {
    if pos + 3 > end then Names(-1, len)
    else
      var l := Uint16(data, pos + 1);
      if pos + 3 + l > end then BadList
      else if Uint8(data, pos) == 0 then Names(pos + 3, l)
      else ScanNames(data, pos + 3 + l, end, l)
  }

  function NextExtension(data: seq<byte>, at: nat): nat
    requires at + 4 <= |data|
  {
    at + 4 + Uint16(data, at + 2)
  }

  predicate HasType(data: seq<byte>, at: nat, extType: nat) {
    at + 2 <= |data| && Uint16(data, at) == extType
  }

  /** One extension is looked at. */
  function ScanExtension(data: seq<byte>, at: nat, end: nat, r: Found): Found
    requires r.Found? && at + 4 <= end <= |data|
  {
    var next := NextExtension(data, at);
    if next > end then Incomplete
    else if HasType(data, at, EXT_TYPE_SNI) then
      if r.sniPos != -1 then Malformed
      else if next < at + 6 || next != at + 6 + Uint16(data, at + 4) then Incomplete
      else
        match ScanNames(data, at + 6, next, r.sniLen)
        case BadList => Incomplete
        case Names(pos, len) => r.(sniPos := pos, sniLen := len)
    else if HasType(data, at, EXT_TYPE_ECH) then
      if r.echPos != -1 then Malformed else r.(echPos := at)
    else r
  }

  function ScanExtensions(data: seq<byte>, at: nat, end: nat, r: Found): Found
    requires r.Found? && end <= |data|
    decreases end - at
  {
    if at + 4 > end || (r.sniPos != -1 && r.echPos != -1) then r
    else
      var r' := ScanExtension(data, at, end, r);
      if !r'.Found? then r' else ScanExtensions(data, NextExtension(data, at), end, r')
  }

  /** findSNIAndECH */
  function Locate(data: seq<byte>): Found {
    if |data| < 4 then Incomplete
    else if data[0] != 1 then Malformed
    else if !CompleteMessage(data) then Incomplete
    else
      match ExtensionsLenAt(data)
      case None => Incomplete
      case Some(pos) =>
        var end := pos + 2 + Uint16(data, pos);
        if end > |data| then Incomplete else ScanExtensions(data, pos + 2, end, Found(-1, 0, -1))
  }

  // ---- What it means. ----

  /** Following the extension lengths from `from` leads to `at`. */
  ghost predicate Walks(data: seq<byte>, from: nat, at: nat)
    decreases |data| - from
  {
    from == at || (from + 4 <= |data| && from < at && Walks(data, NextExtension(data, from), at))
  }

  lemma {:induction false} WalkOn(data: seq<byte>, from: nat, at: nat)
    requires Walks(data, from, at) && at + 4 <= |data|
    ensures Walks(data, from, NextExtension(data, at))
    ensures forall other: nat :: Walks(data, from, other) && other < NextExtension(data, at) ==> other <= at
    decreases |data| - from
  {
    if from < at {
      WalkOn(data, NextExtension(data, from), at);
    }
    forall other: nat | Walks(data, from, other) && other < NextExtension(data, at)
      ensures other <= at
    {
      if from < other {
        assert Walks(data, NextExtension(data, from), other);
        WalkForward(data, NextExtension(data, from), other);
      }
    }
  }

  lemma {:induction false} WalkForward(data: seq<byte>, from: nat, at: nat)
    requires Walks(data, from, at)
    ensures from <= at
  {
  }

  /** Every name up to the first host name ends within the list. */
  ghost predicate NamesFit(data: seq<byte>, pos: nat, end: nat)
    requires end <= |data|
    decreases end - pos
  {
    || pos + 3 > end
    || (&& pos + 3 + Uint16(data, pos + 1) <= end
        && (Uint8(data, pos) == 0 || NamesFit(data, pos + 3 + Uint16(data, pos + 1), end)))
  }

  /** The list of names between `pos` and `end` has a host name, the first one at `at`. */
  ghost predicate FirstHostName(data: seq<byte>, pos: nat, end: nat, at: int)
    requires end <= |data|
    decreases end - pos
  {
    && pos + 3 <= end
    && if Uint8(data, pos) == 0 then at == pos + 3 else FirstHostName(data, pos + 3 + Uint16(data, pos + 1), end, at)
  }

  /** An extension before `end` that has a host name at `pos`. */
  ghost predicate NamesHost(data: seq<byte>, end: nat, at: nat, pos: int) {
    at + 6 <= end <= |data| && HasType(data, at, EXT_TYPE_SNI) && NextExtension(data, at) <= end
    && FirstHostName(data, at + 6, NextExtension(data, at), pos)
  }

  /** Among the extensions from `start` on that begin before `to` there is one with a host name at `pos`. */
  ghost predicate HostBefore(data: seq<byte>, start: nat, end: nat, to: nat, pos: int) {
    exists at: nat :: at < to && Walks(data, start, at) && NamesHost(data, end, at, pos)
  }

  /** The ECH extension at `at` is among them. */
  ghost predicate EchAt(data: seq<byte>, start: nat, end: nat, to: nat, at: int) {
    0 <= at < to && Walks(data, start, at) && at + 4 <= end && HasType(data, at, EXT_TYPE_ECH)
  }

  /** Both were found before `to`, so that the search is over. */
  ghost predicate BothBefore(data: seq<byte>, start: nat, end: nat, to: nat) {
    (exists pos :: HostBefore(data, start, end, to, pos)) && (exists at :: EchAt(data, start, end, to, at))
  }

  /** An extension that the search accepts: it fits, it is not a repetition, and a list of server names is well-formed.
      */
  ghost predicate Acceptable(data: seq<byte>, start: nat, end: nat, at: nat)
    requires at + 4 <= end <= |data|
  {
    var next := NextExtension(data, at);
    && next <= end
    && (HasType(data, at, EXT_TYPE_SNI) ==>
          && at + 6 <= next == at + 6 + Uint16(data, at + 4) && NamesFit(data, at + 6, next)
          && !exists pos :: HostBefore(data, start, end, at, pos))
    && (HasType(data, at, EXT_TYPE_ECH) ==> !exists other :: EchAt(data, start, end, at, other))
  }

  /** All extensions from `from` on that are looked at are acceptable. */
  ghost predicate AllAcceptable(data: seq<byte>, start: nat, end: nat, from: nat) {
    forall at: nat ::
      from <= at && Walks(data, start, at) && at + 4 <= end <= |data| && !BothBefore(data, start, end, at) ==>
                        Acceptable(data, start, end, at)
  }

  /** A ClientHello: complete, with its fields and extensions in bounds, and all extensions acceptable up to where the
      search is over. */
  ghost predicate WellFormed(data: seq<byte>) {
    && CompleteMessage(data) && ExtensionsLenAt(data).Some?
    && var pos := ExtensionsLenAt(data).value;
       var end := pos + 2 + Uint16(data, pos);
       end <= |data| && AllAcceptable(data, pos + 2, end, pos + 2)
  }

  /** What was found among the extensions that begin before `to`: exactly the host name and the ECH extension that are
      there. */
  ghost predicate Located(data: seq<byte>, start: nat, end: nat, to: nat, r: Found) {
    && r.Found? && r.sniLen <= |data|
    && (r.sniPos != -1 ==> 0 < r.sniPos && HostNameAt(data, r.sniPos, r.sniLen))
    && (forall pos :: HostBefore(data, start, end, to, pos) ==> r.sniPos == pos)
    && (r.sniPos != -1 ==> HostBefore(data, start, end, to, r.sniPos))
    && (r.echPos != -1 ==> ExtensionAt(data, r.echPos, EXT_TYPE_ECH))
    && (forall at :: EchAt(data, start, end, to, at) ==> r.echPos == at)
    && (r.echPos != -1 ==> EchAt(data, start, end, to, r.echPos))
  }

  /** The search ended where no extension begins any more, or with both found, and what was found is what there is up to
      there. */
  ghost predicate LocatedAll(data: seq<byte>, start: nat, end: nat, r: Found) {
    exists to: nat ::
      && Walks(data, start, to) && Located(data, start, end, to, r)
      && (to + 4 > end || (r.sniPos != -1 && r.echPos != -1))
  }

  lemma {:induction false} ScanNamesMeans(data: seq<byte>, pos: nat, end: nat, len: nat)
    requires end <= |data|
    ensures ScanNames(data, pos, end, len).Names? <==> NamesFit(data, pos, end)
    ensures match ScanNames(data, pos, end, len)
            case BadList => true
            case Names(at, l) =>
              && (len <= |data| ==> l <= |data|)
              && (at != -1 ==> FirstHostName(data, pos, end, at) && 0 < at && at + l <= end && HostNameAt(data, at, l))
              && (at == -1 ==> forall x :: !FirstHostName(data, pos, end, x))
    decreases end - pos
  {
    if pos + 3 <= end && pos + 3 + Uint16(data, pos + 1) <= end && Uint8(data, pos) != 0 {
      ScanNamesMeans(data, pos + 3 + Uint16(data, pos + 1), end, Uint16(data, pos + 1));
    }
  }

  lemma {:induction false} OneFirstHostName(data: seq<byte>, pos: nat, end: nat, at: int, other: int)
    requires end <= |data| && FirstHostName(data, pos, end, at) && FirstHostName(data, pos, end, other)
    ensures at == other
    decreases end - pos
  {
    if Uint8(data, pos) != 0 {
      OneFirstHostName(data, pos + 3 + Uint16(data, pos + 1), end, at, other);
    }
  }

  /** With the extension at `at` there is one more to look for a host name in. */
  lemma HostUpTo(data: seq<byte>, start: nat, end: nat, at: nat, pos: int)
    requires Walks(data, start, at) && at + 4 <= end <= |data|
    ensures HostBefore(data, start, end, NextExtension(data, at), pos) <==>
            HostBefore(data, start, end, at, pos) || NamesHost(data, end, at, pos)
    ensures EchAt(data, start, end, NextExtension(data, at), pos) <==>
              EchAt(data, start, end, at, pos) || (pos == at && HasType(data, at, EXT_TYPE_ECH))
  {
    hide Walks, NamesHost;
    WalkOn(data, start, at);
  }

  lemma BothFound(data: seq<byte>, start: nat, end: nat, to: nat, r: Found)
    requires Located(data, start, end, to, r)
    ensures BothBefore(data, start, end, to) <==> r.sniPos != -1 && r.echPos != -1
    ensures (exists pos :: HostBefore(data, start, end, to, pos)) <==> r.sniPos != -1
    ensures (exists at :: EchAt(data, start, end, to, at)) <==> r.echPos != -1
  {
    hide Walks, NamesHost, HostNameAt, ExtensionAt;
    if pos :| HostBefore(data, start, end, to, pos) {
      HostPositive(data, start, end, to, pos);
    }
  }

  lemma HostPositive(data: seq<byte>, start: nat, end: nat, to: nat, pos: int)
    requires HostBefore(data, start, end, to, pos)
    ensures pos > 0
  {
    var at: nat :| at < to && Walks(data, start, at) && NamesHost(data, end, at, pos);
    FirstPositive(data, at + 6, NextExtension(data, at), pos);
  }

  lemma {:induction false} FirstPositive(data: seq<byte>, pos: nat, end: nat, at: int)
    requires end <= |data| && FirstHostName(data, pos, end, at)
    ensures at > 0
    decreases end - pos
  {
    if Uint8(data, pos) != 0 {
      FirstPositive(data, pos + 3 + Uint16(data, pos + 1), end, at);
    }
  }

  /** One extension: it is accepted exactly if it is acceptable, and then it is taken into account. */
  lemma ExtensionMeans(data: seq<byte>, start: nat, end: nat, at: nat, r: Found)
    requires Located(data, start, end, at, r) && Walks(data, start, at) && 4 <= at && at + 4 <= end <= |data|
    ensures var r' := ScanExtension(data, at, end, r);
            && (r'.Found? <==> Acceptable(data, start, end, at))
            && (r'.Found? ==> Located(data, start, end, NextExtension(data, at), r'))
  {
    hide Walks, HostBefore, EchAt, HostNameAt, NamesFit, FirstHostName, ScanNames;
    BothFound(data, start, end, at, r);
    var next := NextExtension(data, at);
    if next <= end && HasType(data, at, EXT_TYPE_SNI) && at + 6 <= next {
      ScanNamesMeans(data, at + 6, next, r.sniLen);
    }
    if ScanExtension(data, at, end, r).Found? {
      LocatedNext(data, start, end, at, r);
    }
  }

  lemma LocatedNext(data: seq<byte>, start: nat, end: nat, at: nat, r: Found)
    requires Located(data, start, end, at, r) && Walks(data, start, at) && 4 <= at && at + 4 <= end <= |data|
    requires ScanExtension(data, at, end, r).Found?
    ensures Located(data, start, end, NextExtension(data, at), ScanExtension(data, at, end, r))
  {
    hide Walks, HostBefore, EchAt, HostNameAt, ScanNames, NamesHost;
    BothFound(data, start, end, at, r);
    var next, r' := NextExtension(data, at), ScanExtension(data, at, end, r);
    forall pos
      ensures HostBefore(data, start, end, next, pos) <==>
              HostBefore(data, start, end, at, pos) || NamesHost(data, end, at, pos)
      ensures EchAt(data, start, end, next, pos) <==>
              EchAt(data, start, end, at, pos) || (pos == at && HasType(data, at, EXT_TYPE_ECH))
    {
      HostUpTo(data, start, end, at, pos);
    }
    if HasType(data, at, EXT_TYPE_SNI) {
      ScanNamesMeans(data, at + 6, next, r.sniLen);
      NamesMeans(data, end, at, r'.sniPos);
    } else {
      NoNames(data, end, at);
    }
  }

  lemma NamesMeans(data: seq<byte>, end: nat, at: nat, pos: int)
    requires at + 6 <= end <= |data| && HasType(data, at, EXT_TYPE_SNI) && NextExtension(data, at) <= end
    requires var list, next := at + 6, NextExtension(data, at);
             if pos == -1 then forall x :: !FirstHostName(data, list, next, x) else FirstHostName(data, list, next, pos)
    ensures pos == -1 ==> forall x :: !NamesHost(data, end, at, x)
    ensures pos != -1 ==> NamesHost(data, end, at, pos) && forall x :: NamesHost(data, end, at, x) ==> x == pos
  {
    forall x | pos != -1 && NamesHost(data, end, at, x)
      ensures x == pos
    {
      OneFirstHostName(data, at + 6, NextExtension(data, at), x, pos);
    }
  }

  lemma NoNames(data: seq<byte>, end: nat, at: nat)
    requires !HasType(data, at, EXT_TYPE_SNI)
    ensures forall x :: !NamesHost(data, end, at, x)
  {
  }

  /** The whole search over the extensions: it succeeds exactly if all that it looks at are acceptable. */
  lemma {:induction false} ScanMeans(data: seq<byte>, start: nat, end: nat, at: nat, r: Found)
    requires Located(data, start, end, at, r) && Walks(data, start, at) && 4 <= at && end <= |data| && r.Found?
    ensures ScanExtensions(data, at, end, r).Found? <==> AllAcceptable(data, start, end, at)
    ensures ScanExtensions(data, at, end, r).Found? ==> LocatedAll(data, start, end, ScanExtensions(data, at, end, r))
    decreases end - at
  {
    hide Walks, Located, Acceptable, ScanExtension, BothBefore, AllAcceptable;
    BothFound(data, start, end, at, r);
    if at + 4 > end {
      NothingMore(data, start, end, at);
    } else if r.sniPos != -1 && r.echPos != -1 {
      NoMore(data, start, end, at);
    } else {
      ExtensionMeans(data, start, end, at, r);
      WalkOn(data, start, at);
      var r' := ScanExtension(data, at, end, r);
      Stepwise(data, start, end, at);
      if r'.Found? {
        ScanMeans(data, start, end, NextExtension(data, at), r');
      }
    }
  }

  lemma Stepwise(data: seq<byte>, start: nat, end: nat, at: nat)
    requires Walks(data, start, at) && at + 4 <= end <= |data| && !BothBefore(data, start, end, at)
    ensures AllAcceptable(data, start, end, at) <==>
              Acceptable(data, start, end, at) && AllAcceptable(data, start, end, NextExtension(data, at))
  {
    hide Walks, Acceptable, BothBefore;
    WalkOn(data, start, at);
  }

  lemma NothingMore(data: seq<byte>, start: nat, end: nat, at: nat)
    requires at + 4 > end
    ensures AllAcceptable(data, start, end, at)
  {
    hide Walks, Acceptable, BothBefore;
  }

  /** When both are found, what follows makes no difference. */
  lemma NoMore(data: seq<byte>, start: nat, end: nat, at: nat)
    requires BothBefore(data, start, end, at)
    ensures AllAcceptable(data, start, end, at)
  {
    hide Walks, Acceptable, NamesHost, HasType;
    var pos :| HostBefore(data, start, end, at, pos);
    var ech :| EchAt(data, start, end, at, ech);
    forall later: nat | at <= later
      ensures BothBefore(data, start, end, later)
    {
      assert HostBefore(data, start, end, later, pos);
      assert EchAt(data, start, end, later, ech);
    }
  }

  /** Positions are reported exactly for a well-formed ClientHello, and they are those of its host name and its ECH
      extension. */
  lemma LocateMeans(data: seq<byte>)
    ensures Locate(data).Found? <==> WellFormed(data)
    ensures WellFormed(data) ==>
              var pos := ExtensionsLenAt(data).value;
              LocatedAll(data, pos + 2, pos + 2 + Uint16(data, pos), Locate(data))
  {
    hide ScanExtensions, AllAcceptable, Located, LocatedAll, Walks, Uint16, Uint8;
    if CompleteMessage(data) && ExtensionsLenAt(data).Some? {
      var pos := ExtensionsLenAt(data).value;
      var start, end := pos + 2, pos + 2 + Uint16(data, pos);
      if end <= |data| {
        NothingLocated(data, start, end);
        ScanMeans(data, start, end, start, Found(-1, 0, -1));
      }
    }
  }

  lemma NothingLocated(data: seq<byte>, start: nat, end: nat)
    ensures Walks(data, start, start) && Located(data, start, end, start, Found(-1, 0, -1))
  {
    forall at: nat | Walks(data, start, at)
      ensures start <= at
    {
      WalkForward(data, start, at);
    }
  }

  /** The positions reported are positions in a message of `end` bytes. */
  predicate Within(r: Found, end: nat) {
    && r.Found? && r.sniLen <= end
    && (r.sniPos == -1 || (0 < r.sniPos && r.sniPos + r.sniLen <= end))
    && (r.echPos == -1 || (0 < r.echPos && r.echPos + 4 <= end))
  }

  lemma LocateWithin(data: seq<byte>)
    requires Locate(data).Found?
    ensures CompleteMessage(data) && Within(Locate(data), |data|)
  {
    hide Locate, Walks, HostBefore, EchAt, AllAcceptable;
    LocateMeans(data);
  }

  /** A ClientHello is complete at one length only. */
  lemma LocatedOnce(data: seq<byte>, n: nat)
    requires n <= |data| && Locate(data[..n]).Found? && Locate(data).Found?
    ensures n == |data|
  {
    hide Locate;
    LocateWithin(data[..n]);
    LocateWithin(data);
  }

  // ---- The search. ----

  /** Skips the fields before the extensions. */
  method SkipToExtensions(data: seq<byte>) returns (pos: nat, ok: bool)
    requires |data| >= 4
    ensures ok <==> ExtensionsLenAt(data).Some?
    ensures ok ==> pos == ExtensionsLenAt(data).value
  {
    ok := false;
    pos := 4;
    if pos + 2 > |data| { return; }
    pos := pos + 2;
    if pos + 32 > |data| { return; }
    pos := pos + 32;
    if pos + 1 > |data| { return; }
    var sessionIdLen := Uint8(data, pos);
    pos := pos + 1;
    if pos + sessionIdLen > |data| { return; }
    pos := pos + sessionIdLen;
    if pos + 2 > |data| { return; }
    var cipherSuitesLen := Uint16(data, pos);
    pos := pos + 2;
    if pos + cipherSuitesLen > |data| { return; }
    pos := pos + cipherSuitesLen;
    if pos + 1 > |data| { return; }
    var compressionMethodsLen := Uint8(data, pos);
    pos := pos + 1;
    if pos + compressionMethodsLen > |data| { return; }
    pos := pos + compressionMethodsLen;
    if pos + 2 > |data| { return; }
    ok := true;
  }

  /** Looks for the first host name among the names between `list` and `end`; `len` is the length of the last name
      looked at. */
  method FindHostName(data: seq<byte>, list: nat, end: nat, len0: nat) returns (pos: int, len: nat, ok: bool)
    requires list <= end <= |data|
    ensures ok <==> NamesFit(data, list, end)
    ensures ok ==> ScanNames(data, list, end, len0) == Names(pos, len)
    ensures ok && pos != -1 ==> FirstHostName(data, list, end, pos) && HostNameAt(data, pos, len)
    ensures ok && pos == -1 ==> forall at :: !FirstHostName(data, list, end, at)
  {
    ScanNamesMeans(data, list, end, len0);
    pos, len, ok := -1, len0, true;
    var listPos := list;
    while listPos + 3 <= end
      invariant list <= listPos && pos == -1 && ok
      invariant ScanNames(data, list, end, len0) == ScanNames(data, listPos, end, len)
      decreases end - listPos
    {
      var nameType := Uint8(data, listPos);
      len := Uint16(data, listPos + 1);
      if listPos + 3 + len > end {
        return pos, len, false;
      }
      if nameType == 0 {
        pos := listPos + 3;
        break;
      }
      listPos := listPos + 3 + len;
    }
  }

  /** Locates the host name and the ECH extension. */
  method FindSniAndEch(data: seq<byte>) returns (r: Found)
    ensures r == Locate(data)
    ensures r.Found? <==> WellFormed(data)
    ensures r.Found? ==>
              var pos := ExtensionsLenAt(data).value;
              LocatedAll(data, pos + 2, pos + 2 + Uint16(data, pos), r)
  {
    hide LocatedAll, WellFormed, Walks, HostNameAt, ScanNames;
    LocateMeans(data);
    if |data| < 4 { return Incomplete; }
    if data[0] != 1 { return Malformed; }
    var handshakeLen := Uint8(data, 1) * 65536 + Uint16(data, 2);
    if |data| != 4 + handshakeLen { return Incomplete; }
    var pos, ok := SkipToExtensions(data);
    if !ok { return Incomplete; }
    var extensionsLen := Uint16(data, pos);
    var extensionsStart := pos + 2;
    if extensionsStart + extensionsLen > |data| { return Incomplete; }
    r := SearchExtensions(data, extensionsStart, extensionsLen);
  }

  /** The loop over the extensions. */
  method SearchExtensions(data: seq<byte>, extensionsStart: nat, extensionsLen: nat) returns (r: Found)
    requires 4 <= extensionsStart && extensionsStart + extensionsLen <= |data|
    ensures r == ScanExtensions(data, extensionsStart, extensionsStart + extensionsLen, Found(-1, 0, -1))
  {
    ghost var end := extensionsStart + extensionsLen;
    var extPos := 0;
    var sniPos, sniLen: nat, echPos := -1, 0, -1;
    while extPos + 4 <= extensionsLen
      invariant 0 <= extPos
      invariant sniPos == -1 || echPos == -1
      invariant ScanExtensions(data, extensionsStart, end, Found(-1, 0, -1)) ==
                ScanExtensions(data, extensionsStart + extPos, end, Found(sniPos, sniLen, echPos))
      decreases extensionsLen - extPos
    {
      var at := extensionsStart + extPos;
      var extType := Uint16(data, at);
      var extLen := Uint16(data, at + 2);
      if extPos + 4 + extLen > extensionsLen { return Incomplete; }
      if extType == EXT_TYPE_SNI {
        if sniPos != -1 { return Malformed; }
        if extLen < 2 { return Incomplete; }
        if extLen != 2 + Uint16(data, at + 4) { return Incomplete; }
        var ok;
        ScanNamesMeans(data, at + 6, at + 4 + extLen, sniLen);
        sniPos, sniLen, ok := FindHostName(data, at + 6, at + 4 + extLen, sniLen);
        if !ok { return Incomplete; }
      } else if extType == EXT_TYPE_ECH {
        if echPos != -1 { return Malformed; }
        echPos := at;
      }
      extPos := extPos + 4 + extLen;
      if sniPos != -1 && echPos != -1 {
        break;
      }
    }
    r := Found(sniPos, sniLen, echPos);
  }
}
