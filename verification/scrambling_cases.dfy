/** ClientHellos that are split with and without loss. */
module ScramblingCases {
  import opened Protocol
  import opened CryptoLedger
  import opened ScramblingRuns
  import opened ClientHello

  function Bytes16(n: nat): seq<byte>
    requires n < 65536
  {
    [(n / 256) as byte, (n % 256) as byte]
  }

  function Zeros(n: nat): seq<byte> {
    seq(n, _ => 0 as byte)
  }

  /** A ClientHello without a session ID, cipher suites or compression methods; its extensions start at byte 44. */
  function Hello(extensions: seq<byte>): seq<byte>
    requires |extensions| < 65496
  {
    [1, 0] + Bytes16(40 + |extensions|) + Zeros(38) + Bytes16(|extensions|) + extensions
  }

  /** An empty ECH extension. */
  function Ech(): seq<byte> {
    [0xfe, 0x0d, 0, 0]
  }

  /** A server name extension with one host name. */
  function Sni(name: seq<byte>): seq<byte>
    requires |name| < 65000
  {
    [0, 0] + Bytes16(|name| + 5) + Bytes16(|name| + 3) + [0] + Bytes16(|name|) + name
  }

  lemma Uint16Back(data: seq<byte>, pos: nat, n: nat)
    requires n < 65536 && pos + 2 <= |data| && data[pos..pos + 2] == Bytes16(n)
    ensures Uint16(data, pos) == n
  {
    assert data[pos] == data[pos..pos + 2][0] && data[pos + 1] == data[pos..pos + 2][1];
  }

  lemma HelloLayout(extensions: seq<byte>)
    requires |extensions| < 65496
    ensures var data := Hello(extensions);
            && |data| == 44 + |extensions| && data[44..] == extensions
            && CompleteMessage(data) && ExtensionsLenAt(data) == Some(42) && Uint16(data, 42) == |extensions|
  {
    var data := Hello(extensions);
    assert data[2..4] == Bytes16(40 + |extensions|);
    assert data[42..44] == Bytes16(|extensions|);
    Uint16Back(data, 2, 40 + |extensions|);
    Uint16Back(data, 42, |extensions|);
    assert forall i :: 4 <= i < 42 ==> data[i] == 0;
  }

  /** The host name extension at `at` is found. */
  lemma SniFound(data: seq<byte>, at: nat, name: seq<byte>, r: Found)
    requires |name| < 65000 && at + 9 + |name| <= |data| && data[at..at + 9 + |name|] == Sni(name)
    requires r.Found? && r.sniPos == -1
    ensures ScanExtension(data, at, |data|, r) == r.(sniPos := at + 9, sniLen := |name|)
    ensures NextExtension(data, at) == at + 9 + |name|
  {
    var ext := data[at..at + 9 + |name|];
    assert forall i :: 0 <= i < |ext| ==> data[at + i] == ext[i];
    assert data[at + 2..at + 4] == ext[2..4] == Bytes16(|name| + 5);
    assert data[at + 4..at + 6] == ext[4..6] == Bytes16(|name| + 3);
    assert data[at + 7..at + 9] == ext[7..9] == Bytes16(|name|);
    Uint16Back(data, at + 2, |name| + 5);
    Uint16Back(data, at + 4, |name| + 3);
    Uint16Back(data, at + 7, |name|);
    assert data[at] == ext[0] && data[at + 1] == ext[1] && data[at + 6] == ext[6];
    assert HasType(data, at, EXT_TYPE_SNI);
    assert ScanNames(data, at + 6, at + 9 + |name|, r.sniLen) == Names(at + 9, |name|);
  }

  /** The host name extension is the last one. */
  lemma SniFoundLast(data: seq<byte>, at: nat, name: seq<byte>, r: Found)
    requires |name| < 65000 && |data| == at + 9 + |name| && data[at..] == Sni(name)
    requires r.Found? && r.sniPos == -1
    ensures ScanExtensions(data, at, |data|, r) == r.(sniPos := at + 9, sniLen := |name|)
  {
    hide ScanExtension;
    assert data[at..at + 9 + |name|] == data[at..];
    SniFound(data, at, name, r);
    NoExtensions(data, r.(sniPos := at + 9, sniLen := |name|));
  }

  lemma NoExtensions(data: seq<byte>, r: Found)
    requires r.Found?
    ensures ScanExtensions(data, |data|, |data|, r) == r
  {
  }

  /** An empty ECH extension at `at` is found. */
  lemma EchFound(data: seq<byte>, at: nat, r: Found)
    requires at + 4 <= |data| && data[at..at + 4] == Ech() && r.Found? && r.echPos == -1
    ensures ScanExtensions(data, at, |data|, r) == ScanExtensions(data, at + 4, |data|, r.(echPos := at))
  {
    var ext := data[at..at + 4];
    assert data[at] == ext[0] && data[at + 1] == ext[1] && data[at + 2] == ext[2] && data[at + 3] == ext[3];
    assert HasType(data, at, EXT_TYPE_ECH);
    assert NextExtension(data, at) == at + 4;
  }

  /** A host name alone: without loss exactly if it is not empty. */
  lemma HostNameAlone(name: seq<byte>, parts: seq<seq<byte>>)
    requires |name| < 65000 && Concat(parts) == Hello(Sni(name)) && parts != [] && parts[|parts| - 1] != []
    ensures Locate(Hello(Sni(name))) == Found(53, |name|, -1)
    ensures Lossless(WriteAll(New(true), parts)) <==> name != []
  {
    hide Lossless, WriteAll, Sni, Hello, ScanExtensions;
    SniLen(name);
    HelloLayout(Sni(name));
    SniFoundLast(Hello(Sni(name)), 44, name, Found(-1, 0, -1));
    LosslessExactly(parts);
  }

  lemma SniLen(name: seq<byte>)
    requires |name| < 65000
    ensures |Sni(name)| == 9 + |name|
  {
  }

  /** A host name behind an empty ECH extension: without loss exactly if it has at least ten bytes. */
  lemma HostNameBehindEch(name: seq<byte>, parts: seq<seq<byte>>)
    requires |name| < 65000 && Concat(parts) == Hello(Ech() + Sni(name)) && parts != [] && parts[|parts| - 1] != []
    ensures Locate(Hello(Ech() + Sni(name))) == Found(57, |name|, 44)
    ensures Lossless(WriteAll(New(true), parts)) <==> |name| >= 10
  {
    hide Lossless, WriteAll, Sni, Hello, ScanExtensions;
    SniLen(name);
    var data := Hello(Ech() + Sni(name));
    HelloLayout(Ech() + Sni(name));
    assert data[44..48] == data[44..][..4] == Ech();
    assert data[48..] == data[44..][4..] == Sni(name);
    EchFound(data, 44, Found(-1, 0, -1));
    SniFoundLast(data, 48, name, Found(-1, 0, 44));
    LosslessExactly(parts);
  }

  /** ECH without a host name: the stream never says that it has data. */
  lemma EchAlone(parts: seq<seq<byte>>)
    requires Concat(parts) == Hello(Ech()) && parts != [] && parts[|parts| - 1] != []
    ensures Locate(Hello(Ech())) == Found(-1, 0, 44)
    ensures Silent(WriteAll(New(true), parts)) && !Lossless(WriteAll(New(true), parts))
  {
    hide Lossless, WriteAll, Hello, Locate, Silent, Cutting;
    EchAloneFound();
    WritesCut(parts);
    EchAloneSilent(Hello(Ech()));
    FailingLoses(Cutting(Hello(Ech())));
  }

  lemma EchAloneSilent(hello: seq<byte>)
    requires Locate(hello) == Found(-1, 0, 44) && |hello| == 48
    ensures Silent(Cutting(hello)) && Failing(Cutting(hello))
  {
    hide Locate;
    CuttingInBounds(hello);
  }

  lemma EchAloneFound()
    ensures Locate(Hello(Ech())) == Found(-1, 0, 44) && |Hello(Ech())| == 48
  {
    hide Hello, ScanExtensions;
    HelloLayout(Ech());
    var data := Hello(Ech());
    assert data[44..48] == data[44..] == Ech();
    EchFound(data, 44, Found(-1, 0, -1));
    NoExtensions(data, Found(-1, 0, 44));
  }

  // ---- A run in which an empty write does harm. ----

  /** A ClientHello with a host name of one byte, and an empty ECH extension behind it. */
  function ShortHello(x: byte): seq<byte> {
    Hello(Sni([x]) + Ech())
  }

  lemma ShortHelloFound(x: byte)
    ensures |ShortHello(x)| == 58 && Locate(ShortHello(x)) == Found(53, 1, 54)
  {
    hide Hello, ScanExtension, Sni;
    SniLen([x]);
    var data := ShortHello(x);
    HelloLayout(Sni([x]) + Ech());
    assert data[44..54] == data[44..][..10] == Sni([x]);
    assert data[54..58] == data[44..][10..] == Ech();
    SniFound(data, 44, [x], Found(-1, 0, -1));
    assert ScanExtensions(data, 44, 58, Found(-1, 0, -1)) == ScanExtensions(data, 54, 58, Found(53, 1, -1));
    EchFound(data, 54, Found(53, 1, -1));
    NoExtensions(data, Found(53, 1, 54));
  }

  /** The stream after it was written, and after each of the next three frames. */
  function AfterFrames(hello: seq<byte>, n: nat): Sender
    requires |hello| == 58 && n <= 3
  {
    var f1, f2, f3 := CryptoFrame(0, hello[0..53]), CryptoFrame(54, hello[54..55]), CryptoFrame(53, hello[53..54]);
    var s := Sender(hello, hello, 0, true, 58, Cut(53, 54), Cut(55, 58), []);
    if n == 0 then s
    else if n == 1 then s.(writeOffset := 54, frames := [f1])
    else if n == 2 then s.(writeOffset := 58, frames := [f1, f2])
    else s.(writeOffset := 58, first := NO_CUT, frames := [f1, f2, f3])
  }

  lemma FramesFollow(hello: seq<byte>, n: nat)
    requires |hello| == 58 && n < 3 && Locate(hello) == Found(53, 1, 54)
    ensures InBounds(AfterFrames(hello, n)) && Pop(AfterFrames(hello, n), 100).0 == AfterFrames(hello, n + 1)
  {
    hide Locate;
    assert hello[..58] == hello;
    var s := AfterFrames(hello, n);
    assert InBounds(s);
    assert MaxDataLen(s.writeOffset, 100) == 96 && MaxDataLen(53, 100) == 96;
    if n == 0 {
      assert [] + [CryptoFrame(0, hello[0..53])] == AfterFrames(hello, 1).frames;
    }
  }

  lemma WritesShortHello(hello: seq<byte>)
    requires |hello| == 58 && Locate(hello) == Found(53, 1, 54)
    ensures Write(New(true), hello) == AfterFrames(hello, 0)
  {
    hide Locate;
    assert [] + hello == hello;
  }

  /** After three frames just the second cut is left. An empty write then has the ClientHello searched and cut again,
      and the next frame is sent a second time. */
  lemma EmptyWriteRepeats(x: byte) returns (states: seq<Sender>, events: seq<Event>)
    ensures events == [WriteMore(ShortHello(x)), PopFrame(100), PopFrame(100), PopFrame(100)]
    ensures IsRun(states, events) && Asked(states, events) && states[0] == New(true) && Sound(states[4])
    ensures Repeats(states[4], []) && !Sound(Write(states[4], []))
    ensures InBounds(Write(states[4], [])) && SentTwice(Pop(Write(states[4], []), 100).0, 53)
  {
    hide Locate, Pop, Write, InBounds, ShortHello, Sound, AfterFrames, SentTwice, Repeats;
    ShortHelloFound(x);
    var hello := ShortHello(x);
    WritesShortHello(hello);
    FramesFollow(hello, 0);
    FramesFollow(hello, 1);
    FramesFollow(hello, 2);
    NewSound(true);
    states := [New(true), AfterFrames(hello, 0), AfterFrames(hello, 1), AfterFrames(hello, 2), AfterFrames(hello, 3)];
    events := [WriteMore(hello), PopFrame(100), PopFrame(100), PopFrame(100)];
    assert states[0] == New(true);
    ShortRun(hello, states, events);
    SoundAtEnd(hello);
    SentAgainAtEnd(hello);
  }

  lemma ShortRun(hello: seq<byte>, states: seq<Sender>, events: seq<Event>)
    requires |hello| == 58 && Locate(hello) == Found(53, 1, 54)
    requires |states| == 5 && states[0] == New(true)
    requires forall i :: 0 <= i < 4 ==> states[i + 1] == AfterFrames(hello, i)
    requires events == [WriteMore(hello), PopFrame(100), PopFrame(100), PopFrame(100)]
    ensures IsRun(states, events) && Asked(states, events)
  {
    hide Locate, Pop, Write, InBounds, AfterFrames, Repeats;
    WritesShortHello(hello);
    NewSound(true);
    FramesFollow(hello, 0);
    FramesFollow(hello, 1);
    FramesFollow(hello, 2);
    ShortData(hello);
  }

  lemma ShortData(hello: seq<byte>)
    requires |hello| == 58
    ensures !Repeats(New(true), hello) && forall n: nat :: n <= 3 ==> HasData(AfterFrames(hello, n))
  {
  }

  /** The positions are good, so that the run is sound up to here. */
  lemma SoundAtEnd(hello: seq<byte>)
    requires |hello| == 58 && Locate(hello) == Found(53, 1, 54)
    ensures Sound(AfterFrames(hello, 3))
  {
    hide Locate, Pop, Write, Sound, AfterFrames, InBounds;
    WritesShortHello(hello);
    NewSound(true);
    ShortData(hello);
    assert [] + hello == hello;
    WriteSound(New(true), hello);
    FramesFollow(hello, 0);
    PopSound(AfterFrames(hello, 0), 100);
    FramesFollow(hello, 1);
    PopSound(AfterFrames(hello, 1), 100);
    FramesFollow(hello, 2);
    PopSound(AfterFrames(hello, 2), 100);
  }

  lemma SentAgainAtEnd(hello: seq<byte>)
    requires |hello| == 58 && Locate(hello) == Found(53, 1, 54)
    ensures var s := AfterFrames(hello, 3);
            && Repeats(s, []) && !Sound(Write(s, []))
            && InBounds(Write(s, [])) && SentTwice(Pop(Write(s, []), 100).0, 53)
  {
    hide Locate;
    var s := AfterFrames(hello, 3);
    assert hello + [] == hello && hello[..58] == hello;
    var again := Write(s, []);
    assert again == s.(first := Cut(53, 54), second := Cut(55, 58));
    assert Has(s.frames[2], 53) && Covered(again.frames, 53) && !Sent(again, 53);
    assert MaxDataLen(53, 100) == 96;
    var after := Pop(again, 100).0;
    assert after.frames == s.frames + [CryptoFrame(53, hello[53..54])];
    assert Has(after.frames[2], 53) && Has(after.frames[3], 53);
  }
}
