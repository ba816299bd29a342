/** Cutting a big message into frames and rebuilding it (`HXBigMessageQueue`). */
module BigMessage {
  import opened Wire

  datatype Inflated = Inflated(ok: bool, out: seq<byte>)

  /** zlib seen from outside: `compress2(data, level, capacity)` and `uncompress2(data, capacity)`. */
  datatype Zlib = Zlib(compress: (seq<byte>, int, nat) -> Option<seq<byte>>, uncompress: (seq<byte>, nat) -> Inflated)
  {
    /** Neither call writes past the capacity it was given. */
    function Deflate(data: seq<byte>, level: int, capacity: nat): (r: Option<seq<byte>>)
      ensures r.Some? ==> |r.value| <= capacity
    {
      var r := compress(data, level, capacity);
      if r.Some? && |r.value| <= capacity then r else None
    }

    function Inflate(data: seq<byte>, capacity: nat): (r: Inflated)
      ensures |r.out| <= capacity
    {
      var r := uncompress(data, capacity);
      if |r.out| <= capacity then r else Inflated(false, [])
    }

    /** Compression succeeds only for levels 1 to 9 and is then undone by inflating; a stream must
        start with a byte whose low nibble names the deflate method (section 2.2 of RFC 1950). */
    ghost predicate Sound() {
      && (forall d, level, cap :: Deflate(d, level, cap).Some? ==>
            && 1 <= level <= 9 && Deflate(d, level, cap).value != []
            && Inflate(Deflate(d, level, cap).value, |d|) == Inflated(true, d))
      && (forall s, cap :: Inflate(s, cap).ok ==> s != [] && s[0] % 16 == 8)
    }
  }

  /** The assumption on zlib is consistent: storing the data behind one method byte meets it. */
  lemma SoundZlibExists() returns (z: Zlib)
    ensures z.Sound()
    ensures forall d, level, cap :: 1 <= level <= 9 && |d| < cap ==> z.Deflate(d, level, cap).Some?
  {
    z := Zlib((d: seq<byte>, level, cap) => if 1 <= level <= 9 && |d| < cap then Some([8] + d) else None,
              (s: seq<byte>, cap) =>
                if s != [] && s[0] == 8 && |s| - 1 <= cap then Inflated(true, s[1..]) else Inflated(false, []));
    forall d: seq<byte> ensures ([8] + d)[1..] == d {}
  }

  // ---- Sender ----

  /** The arguments of `SetBigPackage`. */
  datatype BigMsg = BigMsg(id: u16, id2: u16, data: seq<byte>, zip: int)
  {
    /** `dataLength + 2048` is an `int`. */
    predicate Sendable() {
      |data| + 2048 <= INT_MAX
    }
  }

  /** The bytes that are cut into sections: compressed if that was asked for and worked. */
  function Packed(z: Zlib, m: BigMsg): (p: seq<byte>)
    ensures m.Sendable() ==> |p| <= INT_MAX
  {
    if m.zip > 0 && z.Deflate(m.data, m.zip, |m.data| + 2048).Some? then
      z.Deflate(m.data, m.zip, |m.data| + 2048).value
    else
      m.data
  }

  /** The header as stored: the level is cut to one byte and the section count to two. */
  function HeaderOf(z: Zlib, m: BigMsg): BigHeader
    requires m.Sendable()
  {
    var n := |Packed(z, m)|;
    BigHeader(m.zip % 0x100, MAX_BODY, m.id, m.id2, n, |m.data|, (n / MAX_BODY + 1) % 0x1_0000)
  }

  function SectionBegin(i: nat): nat {
    i * MAX_BODY
  }

  function SectionEnd(n: nat, i: nat): nat {
    if SectionBegin(i) + MAX_BODY > n then n else SectionBegin(i) + MAX_BODY
  }

  function Section(p: seq<byte>, i: nat): Frame
    requires i < 0x1_0000 && SectionBegin(i) <= |p|
  {
    Frame(ID_BIG_DATA, i, p[SectionBegin(i)..SectionEnd(|p|, i)])
  }

  /** The first k sections, in order. */
  function Sections(p: seq<byte>, k: nat): (s: seq<Frame>)
    requires k <= 0x1_0000 && k <= |p| / MAX_BODY + 1
    ensures |s| == k && forall i :: 0 <= i < k ==> s[i] == Section(p, i)
  {
    if k == 0 then [] else Sections(p, k - 1) + [Section(p, k - 1)]
  }

  function BeginFrame(h: BigHeader): Frame {
    Frame(ID_BIG_BEGIN, 0, EncodeHeader(h))
  }

  function EndFrame(h: BigHeader): Frame {
    Frame(ID_BIG_END, 0, EncodeHeader(h))
  }

  /** Every frame of a big message. */
  function Stream(z: Zlib, m: BigMsg): (s: seq<Frame>)
    requires m.Sendable()
    ensures |s| == HeaderOf(z, m).sectionCount + 2
  {
    var h := HeaderOf(z, m);
    [BeginFrame(h)] + Sections(Packed(z, m), h.sectionCount) + [EndFrame(h)]
  }

  /** The section count survives its two bytes, no `int` of the cutting loop overflows, a section fits a
      frame, and byte j of the payload lies in section j / MAX_BODY and in no other. */
  lemma SectionsTile(n: nat, i: nat)
    requires n < 0xFFFF * MAX_BODY && i < n / MAX_BODY + 1
    ensures (n / MAX_BODY + 1) % 0x1_0000 == n / MAX_BODY + 1
    ensures SectionBegin(i) + MAX_BODY <= INT_MAX
    ensures 0 <= SectionEnd(n, i) - SectionBegin(i) <= MAX_BODY
    ensures forall j :: 0 <= j < n ==> (SectionBegin(i) <= j < SectionEnd(n, i) <==> j / MAX_BODY == i)
    ensures SectionEnd(n, n / MAX_BODY) == n
  {
  }

  // ---- Receiver ----

  /** `m_header` and `m_recvData`. */
  datatype Rx = Rx(header: BigHeader, data: seq<byte>)

  /** What `RecvPackage` reports, an out-of-range `vector::at` that escapes as an exception; and, of the caller that
      copies a completed message, that the copy would leave its block. */
  datatype Outcome = Pending | Complete | Threw | Overran

  function RecvBegin(rx: Rx, f: Frame): Rx {
    var h := DecodeHeader(f.body);
    Rx(h, Resize(rx.data, h.dataLength))
  }

  function RecvData(rx: Rx, f: Frame): Rx {
    var at := f.id2 * rx.header.sectionLength;
    if |rx.data| != rx.header.dataLength || |rx.data| == 0 || f.id2 >= rx.header.sectionCount
       || |f.body| + at > rx.header.dataLength then rx
    else rx.(data := Overwrite(rx.data, at, f.body))
  }

  function RecvEnd(z: Zlib, rx: Rx, f: Frame): (Rx, Outcome) {
    var h := DecodeHeader(f.body);
    if h.dataLength != rx.header.dataLength || h.sectionCount != rx.header.sectionCount then (rx, Pending)
    else if rx.header.zipLevel == 0 then (rx, Complete)
    else
      var out := Resize(rx.data, rx.header.originalLength);
      if |out| == 0 || |rx.data| == 0 then (rx.(data := out), Threw)
      else
        var r := z.Inflate(rx.data, |out|);
        (rx.(data := Overwrite(out, 0, r.out)),
         if r.ok && |r.out| == rx.header.originalLength then Complete else Pending)
  }

  /** One call of `RecvPackage`. */
  function Recv(z: Zlib, rx: Rx, f: Frame): (Rx, Outcome) {
    if f.id == ID_BIG_BEGIN then (RecvBegin(rx, f), Pending)
    else if f.id == ID_BIG_DATA then (RecvData(rx, f), Pending)
    else if f.id == ID_BIG_END then RecvEnd(z, rx, f)
    else (rx, Pending)
  }

  /** The receiver after a sequence of frames. */
  function Feed(z: Zlib, rx: Rx, fs: seq<Frame>): Rx {
    if fs == [] then rx else Recv(z, Feed(z, rx, fs[..|fs| - 1]), fs[|fs| - 1]).0
  }

  /** What the call for frame k of a sequence reports. */
  function OutcomeAt(z: Zlib, rx: Rx, fs: seq<Frame>, k: nat): Outcome
    requires k < |fs|
  {
    Recv(z, Feed(z, rx, fs[..k]), fs[k]).1
  }

  /** The Data frame has a buffer to go to and lies within it. */
  predicate Fits(rx: Rx, f: Frame) {
    && 0 < |rx.data| == rx.header.dataLength
    && f.id2 < rx.header.sectionCount
    && f.id2 * rx.header.sectionLength + |f.body| <= |rx.data|
  }

  /** Whatever the peer sends: a Data frame changes the buffer if and only if it fits, and then its own slice
      only, never the header or the length; and only an End frame that agrees with the last Begin completes.
      Whether what completes can be copied out is another matter: see ReceiveQueue. */
  lemma FramesKeepToTheirSlice(z: Zlib, rx: Rx, f: Frame)
    ensures f.id == ID_BIG_DATA ==>
      var r := Recv(z, rx, f).0;
      && r.header == rx.header && |r.data| == |rx.data|
      && (!Fits(rx, f) ==> r == rx)
      && (Fits(rx, f) ==>
            var at := f.id2 * rx.header.sectionLength;
            && r.data[at..at + |f.body|] == f.body
            && r.data[..at] == rx.data[..at] && r.data[at + |f.body|..] == rx.data[at + |f.body|..])
    ensures Recv(z, rx, f).1 == Complete ==>
      var h := DecodeHeader(f.body);
      && f.id == ID_BIG_END
      && h.dataLength == rx.header.dataLength && h.sectionCount == rx.header.sectionCount
      && (rx.header.zipLevel > 0 ==> |Recv(z, rx, f).0.data| == rx.header.originalLength)
  {
    if f.id == ID_BIG_DATA && Fits(rx, f) {
      var at, r := f.id2 * rx.header.sectionLength, Recv(z, rx, f).0;
      assert r.data == Overwrite(rx.data, at, f.body);
      assert r.data[at..at + |f.body|] == f.body;
      assert r.data[..at] == rx.data[..at];
      assert r.data[at + |f.body|..] == rx.data[at + |f.body|..];
    }
  }

  /** An End frame agrees with the last Begin about the lengths that both give. */
  predicate Agrees(rx: Rx, f: Frame) {
    var h := DecodeHeader(f.body);
    f.id == ID_BIG_END && h.dataLength == rx.header.dataLength && h.sectionCount == rx.header.sectionCount
  }

  /** When an End frame completes a message, when it throws, and what it leaves in the buffer: whatever inflated, ahead
      of the bytes that were there. */
  lemma EndOutcomes(z: Zlib, rx: Rx, f: Frame)
    requires f.id == ID_BIG_END
    ensures var (r, o) := Recv(z, rx, f);
      var n, zipped := rx.header.originalLength, rx.header.zipLevel > 0;
      && (o == Threw <==> Agrees(rx, f) && zipped && (n == 0 || rx.data == []))
      && (o == Complete <==>
            && Agrees(rx, f)
            && (zipped ==> n > 0 && rx.data != [] && z.Inflate(rx.data, n).ok && |z.Inflate(rx.data, n).out| == n))
      && r.header == rx.header
      && (!Agrees(rx, f) || !zipped ==> r == rx)
      && (Agrees(rx, f) && zipped ==> |r.data| == n)
      && (Agrees(rx, f) && zipped && o != Threw ==>
            var out := z.Inflate(rx.data, n).out;
            r.data[..|out|] == out && r.data[|out|..] == Resize(rx.data, n)[|out|..])
  {
    var n := rx.header.originalLength;
    if Agrees(rx, f) && rx.header.zipLevel > 0 && n > 0 && rx.data != [] {
      var out := z.Inflate(rx.data, n).out;
      var r := Overwrite(Resize(rx.data, n), 0, out);
      assert Recv(z, rx, f).0.data == r;
      assert r[..|out|] == out && r[|out|..] == Resize(rx.data, n)[|out|..];
    }
  }

  // ---- On the wire ----

  function Bodies(fs: seq<Frame>): seq<byte> {
    if fs == [] then [] else Bodies(fs[..|fs| - 1]) + fs[|fs| - 1].body
  }

  /** Where the first k sections of n bytes end. */
  function CutAt(n: nat, k: nat): (c: nat)
    ensures c <= n
  {
    if SectionBegin(k) <= n then SectionBegin(k) else n
  }

  lemma Slices(p: seq<byte>, a: nat, b: nat)
    requires a <= b <= |p|
    ensures p[..a] + p[a..b] == p[..b]
  {
  }

  lemma {:induction false} SectionBodies(p: seq<byte>, k: nat)
    requires |p| < 0xFFFF * MAX_BODY && k <= |p| / MAX_BODY + 1
    ensures Bodies(Sections(p, k)) == p[..CutAt(|p|, k)]
  {
    if k > 0 {
      var front, last, i: nat := Sections(p, k - 1), Section(p, k - 1), k - 1;
      SectionBodies(p, i);
      assert Sections(p, k) == front + [last] && (front + [last])[..|front|] == front;
      assert CutAt(|p|, i) == SectionBegin(i) && CutAt(|p|, k) == SectionEnd(|p|, i);
      Slices(p, SectionBegin(i), SectionEnd(|p|, i));
      assert Bodies(Sections(p, k)) == Bodies(front) + last.body;
    }
  }

  /** A frame of the id given that carries a header and no number. */
  predicate Carries(f: Frame, id: u16, h: BigHeader) {
    f.id == id && f.id2 == 0 && |f.body| == BIG_HEADER_SIZE && DecodeHeader(f.body) == h
  }

  lemma HeaderFramesCarry(h: BigHeader)
    ensures Carries(BeginFrame(h), ID_BIG_BEGIN, h) && Carries(EndFrame(h), ID_BIG_END, h)
  {
    HeaderRoundTrip(h, []);
    assert EncodeHeader(h) + [] == EncodeHeader(h);
  }

  lemma SectionsNumbered(p: seq<byte>, n: nat)
    requires |p| < 0xFFFF * MAX_BODY && n == |p| / MAX_BODY + 1
    ensures forall i :: 0 <= i < n ==> Sections(p, n)[i].id == ID_BIG_DATA && Sections(p, n)[i].id2 == i
    ensures Bodies(Sections(p, n)) == p
  {
    SectionBodies(p, n);
    assert CutAt(|p|, n) == |p| && p[..|p|] == p;
  }

  /** What a sender puts on the wire: a Begin and an End frame that both carry the header, and between them numbered
      Data frames whose bodies are together the bytes to cut up. */
  lemma {:induction false} StreamOnTheWire(z: Zlib, m: BigMsg) returns (data: seq<Frame>)
    requires m.Sendable() && |Packed(z, m)| < 0xFFFF * MAX_BODY
    ensures var s, h := Stream(z, m), HeaderOf(z, m);
      && |s| == |data| + 2 && data == s[1..|s| - 1] && |data| == h.sectionCount
      && Carries(s[0], ID_BIG_BEGIN, h) && Carries(s[|s| - 1], ID_BIG_END, h)
      && (forall i :: 0 <= i < |data| ==> data[i].id == ID_BIG_DATA && data[i].id2 == i)
      && Bodies(data) == Packed(z, m)
  {
    var h, p := HeaderOf(z, m), Packed(z, m);
    SectionsTile(|p|, 0);
    HeaderFramesCarry(h);
    data := Sections(p, h.sectionCount);
    SectionsNumbered(p, h.sectionCount);
    assert Stream(z, m) == [BeginFrame(h)] + data + [EndFrame(h)];
  }

  // ---- Rebuilding ----

  ghost predicate IsSectionOf(f: Frame, p: seq<byte>, count: nat) {
    exists i :: 0 <= i < count && i < 0x1_0000 && SectionBegin(i) <= |p| && f == Section(p, i)
  }

  /** Some frame carries the section that byte j belongs to. */
  ghost predicate Covered(fs: seq<Frame>, p: seq<byte>, j: nat)
    requires |p| < 0xFFFF * MAX_BODY && j < |p|
  {
    Section(p, j / MAX_BODY) in fs
  }

  /** The receiver is between the Begin frame of payload p and its End frame. */
  ghost predicate Collecting(rx: Rx, p: seq<byte>) {
    && |p| < 0xFFFF * MAX_BODY
    && rx.header.dataLength == |p| == |rx.data|
    && rx.header.sectionLength == MAX_BODY && rx.header.sectionCount == |p| / MAX_BODY + 1
  }

  /** One section frame writes its own slice and nothing else. */
  lemma WriteSection(rx: Rx, p: seq<byte>, i: nat)
    requires Collecting(rx, p) && i < |p| / MAX_BODY + 1
    ensures var r := RecvData(rx, Section(p, i));
      && r.header == rx.header && |r.data| == |p|
      && forall j :: 0 <= j < |p| ==> r.data[j] == if j / MAX_BODY == i then p[j] else rx.data[j]
  {
  }

  /** Data frames of one message, in any order and any number, write only right bytes, and write every
      byte of the sections they carry. */
  lemma {:induction false} FeedSections(z: Zlib, rx: Rx, p: seq<byte>, fs: seq<Frame>)
    requires Collecting(rx, p)
    requires forall f :: f in fs ==> IsSectionOf(f, p, |p| / MAX_BODY + 1)
    ensures var r := Feed(z, rx, fs);
      && r.header == rx.header
      && |r.data| == |p|
      && forall j :: 0 <= j < |p| ==> r.data[j] == if Covered(fs, p, j) then p[j] else rx.data[j]
  {
    if fs == [] {
    } else {
      var front, f := fs[..|fs| - 1], fs[|fs| - 1];
      assert fs == front + [f];
      assert forall g :: g in front ==> g in fs;
      FeedSections(z, rx, p, front);
      assert f in fs;
      var i :| 0 <= i < |p| / MAX_BODY + 1 && f == Section(p, i);
      WriteSection(Feed(z, rx, front), p, i);
      forall j | 0 <= j < |p|
        ensures Covered(fs, p, j) <==> Covered(front, p, j) || j / MAX_BODY == i
      {
        SectionsTile(|p|, i);
        assert Section(p, j / MAX_BODY).id2 == j / MAX_BODY;
      }
    }
  }

  lemma {:induction false} FeedAppend(z: Zlib, rx: Rx, a: seq<Frame>, b: seq<Frame>)
    ensures Feed(z, rx, a + b) == Feed(z, Feed(z, rx, a), b)
  {
    if b == [] {
      assert a + b == a;
    } else {
      assert (a + b)[..|a + b| - 1] == a + b[..|b| - 1];
      FeedAppend(z, rx, a, b[..|b| - 1]);
    }
  }

  /** What makes a big message survive the trip: its sections can be counted in two bytes, and either the
      stored level is 0 or the data is not empty and what was cut up inflates back to it. */
  predicate Restorable(z: Zlib, m: BigMsg) {
    && |Packed(z, m)| < 0xFFFF * MAX_BODY
    && (m.zip % 0x100 == 0
        || (|m.data| > 0
            && ((m.zip > 0 && z.Deflate(m.data, m.zip, |m.data| + 2048).Some?)
                || z.Inflate(m.data, |m.data|) == Inflated(true, m.data))))
  }

  /** The last frame, and only the last, completes the message, and leaves exactly its data and header. */
  ghost predicate RebuiltBy(z: Zlib, rx: Rx, fs: seq<Frame>, m: BigMsg)
    requires m.Sendable()
  {
    && fs != []
    && Feed(z, rx, fs) == Rx(HeaderOf(z, m), m.data)
    && forall k :: 0 <= k < |fs| ==> OutcomeAt(z, rx, fs, k) == if k == |fs| - 1 then Complete else Pending
  }

  /** Between Begin and End the receiver ends up with the payload in any order of arrival. */
  lemma {:induction false} Collect(z: Zlib, rx: Rx, m: BigMsg, fs: seq<Frame>)
    requires m.Sendable() && |Packed(z, m)| < 0xFFFF * MAX_BODY
    requires forall f :: f in fs ==> IsSectionOf(f, Packed(z, m), HeaderOf(z, m).sectionCount)
    requires forall j :: 0 <= j < |Packed(z, m)| ==> Covered(fs, Packed(z, m), j)
    ensures Feed(z, rx, [BeginFrame(HeaderOf(z, m))] + fs) == Rx(HeaderOf(z, m), Packed(z, m))
  {
    var h, p := HeaderOf(z, m), Packed(z, m);
    var first := [BeginFrame(h)];
    HeaderRoundTrip(h, []);
    assert EncodeHeader(h) + [] == EncodeHeader(h);
    assert Feed(z, rx, first[..0]) == rx;
    var started := Feed(z, rx, first);
    assert started == Rx(h, Resize(rx.data, |p|));
    SectionsTile(|p|, 0);
    FeedSections(z, started, p, fs);
    FeedAppend(z, rx, first, fs);
    assert Feed(z, started, fs).data == p;
  }

  /** The End frame closes a fully collected message. */
  lemma Finish(z: Zlib, m: BigMsg)
    requires z.Sound() && m.Sendable()
    ensures var h := HeaderOf(z, m);
      (RecvEnd(z, Rx(h, Packed(z, m)), EndFrame(h)) == (Rx(h, m.data), Complete))
      <==> m.zip % 0x100 == 0 || (|m.data| > 0 && z.Inflate(Packed(z, m), |m.data|) == Inflated(true, m.data))
  {
    var h, p := HeaderOf(z, m), Packed(z, m);
    HeaderRoundTrip(h, []);
    assert EncodeHeader(h) + [] == EncodeHeader(h);
    if m.zip % 0x100 == 0 {
      assert p == m.data;
    } else if |m.data| > 0 {
      var r := z.Inflate(p, |m.data|);
      assert r.ok ==> p != [];
      if |r.out| == |m.data| {
        assert Overwrite(Resize(p, |m.data|), 0, r.out) == r.out;
      }
    }
  }

  /** Any sequence of a message's Data frames that carries every byte at least once, in any order and with
      repetitions, rebuilds the message from any receiver state. */
  lemma {:induction false} AnyOrderRebuilds(z: Zlib, rx: Rx, m: BigMsg, fs: seq<Frame>)
    requires z.Sound() && m.Sendable() && Restorable(z, m)
    requires forall f :: f in fs ==> IsSectionOf(f, Packed(z, m), HeaderOf(z, m).sectionCount)
    requires forall j :: 0 <= j < |Packed(z, m)| ==> Covered(fs, Packed(z, m), j)
    ensures RebuiltBy(z, rx, [BeginFrame(HeaderOf(z, m))] + fs + [EndFrame(HeaderOf(z, m))], m)
  {
    var h := HeaderOf(z, m);
    var front := [BeginFrame(h)] + fs;
    var all := front + [EndFrame(h)];
    forall k | 0 <= k < |front|
      ensures front[k].id == ID_BIG_BEGIN || front[k].id == ID_BIG_DATA
    {
      assert k > 0 ==> front[k] == fs[k - 1] && front[k] in fs;
    }
    assert Feed(z, rx, front) == Rx(h, Packed(z, m)) by {
      Collect(z, rx, m, fs);
    }
    assert all[..|all| - 1] == front;
    Finish(z, m);
    forall k | 0 <= k < |all| - 1
      ensures OutcomeAt(z, rx, all, k) == Pending
    {
      assert all[k] == front[k];
    }
  }

  /** Each of the first n sections is a section, and each byte lies in one of them. */
  lemma AllSections(p: seq<byte>, n: nat)
    requires |p| < 0xFFFF * MAX_BODY && n == |p| / MAX_BODY + 1
    ensures forall f :: f in Sections(p, n) ==> IsSectionOf(f, p, n)
    ensures forall j :: 0 <= j < |p| ==> Covered(Sections(p, n), p, j)
  {
    var s := Sections(p, n);
    forall f | f in s ensures IsSectionOf(f, p, n) {
      var i :| 0 <= i < |s| && s[i] == f;
      assert SectionBegin(i) <= |p| && f == Section(p, i);
    }
    forall j | 0 <= j < |p| ensures Covered(s, p, j) {
      var i := j / MAX_BODY;
      assert s[i] == Section(p, i);
    }
  }

  lemma InOrderSections(z: Zlib, m: BigMsg)
    requires m.Sendable() && |Packed(z, m)| < 0xFFFF * MAX_BODY
    ensures var p, n := Packed(z, m), HeaderOf(z, m).sectionCount;
      && (forall f :: f in Sections(p, n) ==> IsSectionOf(f, p, n))
      && (forall j :: 0 <= j < |p| ==> Covered(Sections(p, n), p, j))
  {
    SectionsTile(|Packed(z, m)|, 0);
    AllSections(Packed(z, m), HeaderOf(z, m).sectionCount);
  }

  /** Cutting a message up and feeding the frames to a receiver in any state restores the message. */
  lemma {:induction false} RoundTrip(z: Zlib, rx: Rx, m: BigMsg)
    requires z.Sound() && m.Sendable() && Restorable(z, m)
    ensures RebuiltBy(z, rx, Stream(z, m), m)
  {
    InOrderSections(z, m);
    AnyOrderRebuilds(z, rx, m, Sections(Packed(z, m), HeaderOf(z, m).sectionCount));
  }

  /** When the section count wraps to zero, the payload is whatever the receiver held before. */
  lemma {:induction false} WrappedFeed(z: Zlib, rx: Rx, m: BigMsg)
    requires m.Sendable() && |Packed(z, m)| >= 0xFFFF * MAX_BODY
    ensures var h, s := HeaderOf(z, m), Stream(z, m);
      var (r, o) := RecvEnd(z, Rx(h, Resize(rx.data, |Packed(z, m)|)), EndFrame(h));
      h.sectionCount == 0 && |s| == 2 && Feed(z, rx, s) == r && OutcomeAt(z, rx, s, 1) == o
  {
    var h := HeaderOf(z, m);
    assert h.sectionCount == 0;
    var s := Stream(z, m);
    assert s == [BeginFrame(h), EndFrame(h)];
    HeaderRoundTrip(h, []);
    assert EncodeHeader(h) + [] == EncodeHeader(h);
    assert s[..1] == [BeginFrame(h)] && s[..1][..0] == [];
    assert Feed(z, rx, s[..1]) == RecvBegin(rx, BeginFrame(h));
  }

  /** Unzipped, a first byte left over from before stays. */
  lemma WrappedPlain(z: Zlib, m: BigMsg) returns (rx: Rx)
    requires m.Sendable() && |Packed(z, m)| >= 0xFFFF * MAX_BODY && m.zip % 0x100 == 0
    ensures Feed(z, rx, Stream(z, m)).data != m.data
  {
    var h, first: int := HeaderOf(z, m), m.data[0];
    rx := Rx(h, [(first + 1) % 0x100]);
    WrappedFeed(z, rx, m);
    HeaderRoundTrip(h, []);
    assert EncodeHeader(h) + [] == EncodeHeader(h);
    assert Resize(rx.data, |m.data|)[0] != m.data[0];
  }

  /** Zipped, zeros are no stream. */
  lemma WrappedZipped(z: Zlib, m: BigMsg) returns (rx: Rx)
    requires z.Sound() && m.Sendable() && |Packed(z, m)| >= 0xFFFF * MAX_BODY && m.zip % 0x100 != 0
    ensures |Stream(z, m)| == 2 && OutcomeAt(z, rx, Stream(z, m), 1) != Complete
  {
    var h := HeaderOf(z, m);
    rx := Rx(h, []);
    WrappedFeed(z, rx, m);
    assert Resize(rx.data, |Packed(z, m)|)[0] == 0;
  }

  /** So some receiver state makes it come out wrong. */
  lemma {:induction false} WrappedCountLosesData(z: Zlib, m: BigMsg) returns (rx: Rx)
    requires z.Sound() && m.Sendable() && |Packed(z, m)| >= 0xFFFF * MAX_BODY
    ensures !RebuiltBy(z, rx, Stream(z, m), m)
  {
    if m.zip % 0x100 == 0 {
      rx := WrappedPlain(z, m);
    } else {
      rx := WrappedZipped(z, m);
    }
  }

  /** Without a wrap every section arrives, and the End frame decides. */
  lemma {:induction false} EndDecides(z: Zlib, rx: Rx, m: BigMsg)
    requires m.Sendable() && |Packed(z, m)| < 0xFFFF * MAX_BODY
    ensures var h, s := HeaderOf(z, m), Stream(z, m);
      (Feed(z, rx, s), OutcomeAt(z, rx, s, |s| - 1)) == RecvEnd(z, Rx(h, Packed(z, m)), EndFrame(h))
  {
    var h, p, s := HeaderOf(z, m), Packed(z, m), Stream(z, m);
    var front := [BeginFrame(h)] + Sections(p, h.sectionCount);
    InOrderSections(z, m);
    Collect(z, rx, m, Sections(p, h.sectionCount));
    assert s == front + [EndFrame(h)];
    LastDecides(z, rx, front, EndFrame(h));
  }

  lemma LastDecides(z: Zlib, rx: Rx, front: seq<Frame>, last: Frame)
    requires last.id == ID_BIG_END
    ensures var s := front + [last];
      (Feed(z, rx, s), OutcomeAt(z, rx, s, |front|)) == RecvEnd(z, Feed(z, rx, front), last)
  {
    assert (front + [last])[..|front|] == front;
  }

  /** A big message is restored from every receiver state if and only if it is Restorable. */
  lemma RestoredIffRestorable(z: Zlib, m: BigMsg)
    requires z.Sound() && m.Sendable()
    ensures (forall rx :: RebuiltBy(z, rx, Stream(z, m), m)) <==> Restorable(z, m)
  {
    if Restorable(z, m) {
      forall rx ensures RebuiltBy(z, rx, Stream(z, m), m) {
        RoundTrip(z, rx, m);
      }
    } else if |Packed(z, m)| >= 0xFFFF * MAX_BODY {
      var rx := WrappedCountLosesData(z, m);
    } else {
      var rx := Rx(HeaderOf(z, m), []);
      EndDecides(z, rx, m);
      Finish(z, m);
      assert !RebuiltBy(z, rx, Stream(z, m), m);
    }
  }

  // ---- Messages that are not restored ----

  function Zeros(n: nat): (r: seq<byte>)
    ensures |r| == n
  {
    seq(n, _ => 0 as byte)
  }

  lemma {:induction false} UnzippedTooLong(z: Zlib, data: seq<byte>) returns (rx: Rx)
    requires z.Sound() && 0xFFFF * MAX_BODY <= |data| <= INT_MAX - 2048
    ensures var m := BigMsg(0, 0, data, 0);
      m.Sendable() && HeaderOf(z, m).sectionCount == 0 && !RebuiltBy(z, rx, Stream(z, m), m)
  {
    var m := BigMsg(0, 0, data, 0);
    WrappedFeed(z, Rx(HeaderOf(z, m), []), m);
    rx := WrappedCountLosesData(z, m);
  }

  /** The shortest block of zeros that is too long: its header counts no section. */
  lemma {:induction false} LongBlockIsLost(z: Zlib) returns (rx: Rx)
    requires z.Sound()
    ensures var m := BigMsg(0, 0, Zeros(0xFFFF * MAX_BODY), 0);
      m.Sendable() && HeaderOf(z, m).sectionCount == 0 && !RebuiltBy(z, rx, Stream(z, m), m)
  {
    rx := UnzippedTooLong(z, Zeros(0xFFFF * MAX_BODY));
  }

  /** An empty block with a level: the last frame throws, whatever the receiver held and zlib does. */
  lemma {:induction false} EmptyZippedThrows(z: Zlib, rx: Rx, id: u16, id2: u16, zip: int)
    requires z.Sound() && zip % 0x100 != 0
    ensures var m := BigMsg(id, id2, [], zip);
      m.Sendable() && OutcomeAt(z, rx, Stream(z, m), |Stream(z, m)| - 1) == Threw
  {
    var m := BigMsg(id, id2, [], zip);
    var h := HeaderOf(z, m);
    EndDecides(z, rx, m);
    HeaderRoundTrip(h, []);
    assert EncodeHeader(h) + [] == EncodeHeader(h);
  }

  /** What was not compressed and does not inflate is never complete. */
  lemma EndRejects(z: Zlib, rx: Rx)
    requires z.Sound() && rx.data != [] && rx.data[0] % 16 != 8
    requires rx.header.zipLevel != 0 && rx.header.originalLength > 0
    ensures RecvEnd(z, rx, EndFrame(rx.header)).1 == Pending
  {
    HeaderRoundTrip(rx.header, []);
    assert EncodeHeader(rx.header) + [] == EncodeHeader(rx.header);
  }

  /** A block that does not start as a zlib stream does, such as one byte 1, with a level that zlib does not know,
      such as 10: it is sent as it is, and no receiver can inflate it. */
  lemma {:induction false} UnknownLevelIsLost(z: Zlib, rx: Rx, m: BigMsg)
    requires z.Sound() && m.zip > 9 && m.zip % 0x100 != 0
    requires 0 < |m.data| < 0xFFFF * MAX_BODY && m.data[0] % 16 != 8
    ensures m.Sendable() && Packed(z, m) == m.data
    ensures OutcomeAt(z, rx, Stream(z, m), |Stream(z, m)| - 1) == Pending
  {
    assert z.Deflate(m.data, m.zip, |m.data| + 2048).None?;
    EndDecides(z, rx, m);
    EndRejects(z, Rx(HeaderOf(z, m), m.data));
  }

  // ---- The class ----

  class BigMessageQueue {
    const zlib: Zlib
    var queue: seq<Frame>
    var header: BigHeader
    var recvData: seq<byte>

    function State(): Rx
      reads this
    {
      Rx(header, recvData)
    }

    /** The source leaves the header uninitialised, so it is a parameter. */
    constructor (zlib: Zlib, header: BigHeader)
      ensures this.zlib == zlib && queue == [] && State() == Rx(header, [])
    {
      this.zlib := zlib;
      this.header := header;
      queue, recvData := [], [];
    }

    /** The section loop of `SetBigPackage`. */
    method AddSections(data: seq<byte>)
      requires header.sectionLength == MAX_BODY && header.sectionCount <= |data| / MAX_BODY + 1
      modifies this`queue
      ensures queue == old(queue) + Sections(data, header.sectionCount)
    {
      var i := 0;
      while i < header.sectionCount
        invariant 0 <= i <= header.sectionCount
        invariant queue == old(queue) + Sections(data, i)
      {
        var begin := i * header.sectionLength;
        var count := begin + header.sectionLength;
        if count > |data| {
          count := |data|;
        }
        assert Section(data, i) == Frame(ID_BIG_DATA, i, data[begin..count]);
        queue := queue + [Frame(ID_BIG_DATA, i, data[begin..count])];
        i := i + 1;
      }
    }

    /** The compression step of `SetBigPackage`. */
    method Pack(ptr: seq<byte>, zipLevel: int) returns (data: seq<byte>)
      ensures forall id, id2 :: data == Packed(zlib, BigMsg(id, id2, ptr, zipLevel))
    {
      data := ptr;
      if zipLevel > 0 {
        var comp := zlib.Deflate(ptr, zipLevel, |ptr| + 2048);
        if comp.Some? {
          data := comp.value;
        }
      }
    }

    method SetBigPackage(id: u16, id2: u16, ptr: seq<byte>, zipLevel: int)
      requires BigMsg(id, id2, ptr, zipLevel).Sendable()
      modifies this
      ensures queue == Stream(zlib, BigMsg(id, id2, ptr, zipLevel))
      ensures header == HeaderOf(zlib, BigMsg(id, id2, ptr, zipLevel)) && recvData == old(recvData)
    {
      var originalLength := |ptr|;
      var data := Pack(ptr, zipLevel);
      assert data == Packed(zlib, BigMsg(id, id2, ptr, zipLevel));
      header := BigHeader(zipLevel % 0x100, MAX_BODY, id, id2, |data|, originalLength,
                          (|data| / MAX_BODY + 1) % 0x1_0000);
      assert header == HeaderOf(zlib, BigMsg(id, id2, ptr, zipLevel)) && header.sectionCount <= |data| / MAX_BODY + 1;
      queue := [];
      queue := queue + [Frame(ID_BIG_BEGIN, 0, EncodeHeader(header))];
      AddSections(data);
      queue := queue + [Frame(ID_BIG_END, 0, EncodeHeader(header))];
      assert queue == [BeginFrame(header)] + Sections(data, header.sectionCount) + [EndFrame(header)];
    }

    method RecvPackage(pack: Frame) returns (outcome: Outcome)
      modifies this
      ensures (State(), outcome) == Recv(zlib, old(State()), pack)
      ensures queue == if pack.id == ID_BIG_BEGIN then [] else old(queue)
    {
      outcome := Pending;
      if pack.id == ID_BIG_BEGIN {
        queue := [];
        header := DecodeHeader(pack.body);
        recvData := Resize(recvData, header.dataLength);
      } else if pack.id == ID_BIG_DATA {
        if |recvData| != header.dataLength || |recvData| == 0 {
          return;
        }
        if pack.id2 >= header.sectionCount {
          return;
        }
        var end := |pack.body| + pack.id2 * header.sectionLength;
        if end > header.dataLength {
          return;
        }
        recvData := Overwrite(recvData, pack.id2 * header.sectionLength, pack.body);
      } else if pack.id == ID_BIG_END {
        var endHeader := DecodeHeader(pack.body);
        if endHeader.dataLength == header.dataLength && endHeader.sectionCount == header.sectionCount {
          if header.zipLevel > 0 {
            var comp := recvData;
            recvData := Resize(recvData, header.originalLength);
            if |recvData| == 0 || |comp| == 0 {
              outcome := Threw;
              return;
            }
            var r := zlib.Inflate(comp, |recvData|);
            recvData := Overwrite(recvData, 0, r.out);
            if r.ok && |r.out| == header.originalLength {
              outcome := Complete;
            }
          } else {
            outcome := Complete;
          }
        }
      }
    }
  }
}
