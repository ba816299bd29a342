/** Messages as frames, and what a receiver that replays frames delivers. */
module Coding {
  import opened Wire
  import opened BigMessage
  import opened ReceiveQueue

  /** A message given to `Send`. */
  datatype Msg = Plain(f: Frame) | Big(m: BigMsg)

  /** A message with the frames its Send hands to the writer. */
  datatype Coded = Coded(msg: Msg, frames: seq<Frame>)

  /** Plain messages keep off the ids reserved for streams and heartbeats; big ones can be restored. */
  predicate Acceptable(z: Zlib, m: Msg) {
    match m
    case Plain(f) => !IsStreamFrame(f) && f.id != ID_HEARTBEAT
    case Big(b) => b.Sendable() && Restorable(z, b)
  }

  function Code(z: Zlib, m: Msg): Coded
    requires Acceptable(z, m)
  {
    Coded(m, match m case Plain(f) => [f] case Big(b) => Stream(z, b))
  }

  /** What the receiving application should see of a message. */
  function Expected(m: Msg): Delivery {
    match m
    case Plain(f) => Delivery(NO_LINK, f.id, f.id2, f.body)
    case Big(b) => Delivery(NO_LINK, b.id, b.id2, b.data)
  }

  function ExpectedAll(cs: seq<Coded>): seq<Delivery> {
    if cs == [] then [] else ExpectedAll(cs[..|cs| - 1]) + [Expected(cs[|cs| - 1].msg)]
  }

  /** The frames of all messages, each message's frames together. */
  function Flat(cs: seq<Coded>): seq<Frame> {
    if cs == [] then [] else Flat(cs[..|cs| - 1]) + cs[|cs| - 1].frames
  }

  lemma FlatSnoc(cs: seq<Coded>, c: Coded)
    ensures Flat(cs + [c]) == Flat(cs) + c.frames
  {
    assert (cs + [c])[..|cs|] == cs && (cs + [c])[|cs|] == c;
  }

  /** How many leading messages lie wholly within the first n frames. */
  function Whole(cs: seq<Coded>, n: nat): (k: nat)
    ensures k <= |cs|
  {
    if cs == [] || |Flat(cs)| <= n then |cs| else Whole(cs[..|cs| - 1], n)
  }

  /** The reassembler and everything delivered after a sequence of frames. */
  function Replay(z: Zlib, rx: Rx, fs: seq<Frame>): (Rx, seq<Delivery>) {
    if fs == [] then (rx, [])
    else
      var (r, ds) := Replay(z, rx, fs[..|fs| - 1]);
      var (r', d) := Deliver(z, r, NO_LINK, fs[|fs| - 1]);
      (r', ds + d)
  }

  function NonBeat(fs: seq<Frame>): seq<Frame> {
    if fs == [] then []
    else NonBeat(fs[..|fs| - 1]) + if fs[|fs| - 1].id == ID_HEARTBEAT then [] else [fs[|fs| - 1]]
  }

  lemma NonBeatSnoc(fs: seq<Frame>, f: Frame)
    ensures NonBeat(fs + [f]) == if f.id == ID_HEARTBEAT then NonBeat(fs) else NonBeat(fs) + [f]
  {
  }

  lemma {:induction false} NonBeatAppend(a: seq<Frame>, b: seq<Frame>)
    ensures NonBeat(a + b) == NonBeat(a) + NonBeat(b)
  {
    if b == [] {
      assert a + b == a;
    } else {
      assert (a + b)[..|a + b| - 1] == a + b[..|b| - 1];
      NonBeatAppend(a, b[..|b| - 1]);
    }
  }

  // ---- Decoding prefixes of the stream ----

  /** A stream frame that does not complete a message delivers nothing. */
  lemma SilentFrame(z: Zlib, rx: Rx, f: Frame)
    requires IsStreamFrame(f) && Recv(z, rx, f).1 != Complete
    ensures Deliver(z, rx, NO_LINK, f) == (Recv(z, rx, f).0, [])
  {
  }

  /** Over stream frames none of which completes a message, the replay is the reassembler alone. */
  lemma {:induction false} ReplaySilent(z: Zlib, rx: Rx, fs: seq<Frame>)
    requires forall k :: 0 <= k < |fs| ==> IsStreamFrame(fs[k]) && OutcomeAt(z, rx, fs, k) != Complete
    ensures Replay(z, rx, fs) == (Feed(z, rx, fs), [])
  {
    if fs != [] {
      var front, n := fs[..|fs| - 1], |fs| - 1;
      forall k | 0 <= k < n
        ensures IsStreamFrame(front[k]) && OutcomeAt(z, rx, front, k) != Complete
      {
        assert front[k] == fs[k] && front[..k] == fs[..k];
        assert OutcomeAt(z, rx, fs, k) != Complete;
      }
      ReplaySilent(z, rx, front);
      var r, none: seq<Delivery> := Feed(z, rx, front), [];
      assert OutcomeAt(z, rx, fs, n) == Recv(z, r, fs[n]).1;
      SilentFrame(z, r, fs[n]);
      assert none + none == none;
      assert Replay(z, rx, front) == (r, none) && Deliver(z, r, NO_LINK, fs[n]) == (Recv(z, r, fs[n]).0, none);
      assert Replay(z, rx, fs) == (Recv(z, r, fs[n]).0, none + none);
    }
  }

  /** The frames of a big message but the last complete nothing. */
  lemma {:induction false} StreamPart(z: Zlib, rx: Rx, m: BigMsg, k: nat)
    requires z.Sound() && Acceptable(z, Big(m)) && k < |Stream(z, m)|
    ensures Replay(z, rx, Stream(z, m)[..k]) == (Feed(z, rx, Stream(z, m)[..k]), [])
    ensures Recv(z, Feed(z, rx, Stream(z, m)[..k]), Stream(z, m)[k]).1
         == if k == |Stream(z, m)| - 1 then Complete else Pending
  {
    var s := Stream(z, m);
    var part := s[..k];
    RoundTrip(z, rx, m);
    assert OutcomeAt(z, rx, s, k) == Recv(z, Feed(z, rx, part), s[k]).1;
    forall i | 0 <= i < k
      ensures IsStreamFrame(part[i]) && OutcomeAt(z, rx, part, i) != Complete
    {
      StreamFrames(z, m, i);
      assert part[i] == s[i] && part[..i] == s[..i] && OutcomeAt(z, rx, s, i) == Pending;
    }
    ReplaySilent(z, rx, part);
  }

  /** The copy of a restored message fits, and shows its data. */
  lemma RestoredFits(z: Zlib, m: BigMsg, body: seq<byte>)
    requires m.Sendable()
    ensures CopyFits(Rx(HeaderOf(z, m), m.data)) && BigPayload(Rx(HeaderOf(z, m), m.data), body) == m.data
  {
  }

  /** A big message's frames deliver nothing before the last and the message at the last, and none breaks the
      read handler. */
  lemma {:induction false} ReplayStream(z: Zlib, rx: Rx, m: BigMsg, k: nat)
    requires z.Sound() && Acceptable(z, Big(m)) && k <= |Stream(z, m)|
    ensures Replay(z, rx, Stream(z, m)[..k]).1 == if k == |Stream(z, m)| then [Expected(Big(m))] else []
    ensures k < |Stream(z, m)| ==> !Breaks(z, Replay(z, rx, Stream(z, m)[..k]).0, Stream(z, m)[k])
  {
    var s := Stream(z, m);
    var n := if k == |s| then k - 1 else k;
    StreamPart(z, rx, m, n);
    if n == |s| - 1 {
      LastFrame(z, rx, m);
      if k == |s| {
        assert s[..k] == s;
        assert Replay(z, rx, s).1 == [] + Deliver(z, Feed(z, rx, s[..n]), NO_LINK, s[n]).1;
      }
    }
  }

  lemma {:induction false} LastFrame(z: Zlib, rx: Rx, m: BigMsg)
    requires z.Sound() && Acceptable(z, Big(m))
    ensures var s := Stream(z, m);
      var r, last := Feed(z, rx, s[..|s| - 1]), s[|s| - 1];
      && IsStreamFrame(last) && Handle(z, r, last) == (Rx(HeaderOf(z, m), m.data), Complete)
      && Deliver(z, r, NO_LINK, last).1 == [Expected(Big(m))]
  {
    var s := Stream(z, m);
    RoundTrip(z, rx, m);
    StreamFrames(z, m, |s| - 1);
    assert OutcomeAt(z, rx, s, |s| - 1) == Complete;
    RestoredFits(z, m, s[|s| - 1].body);
  }

  lemma StreamFrames(z: Zlib, m: BigMsg, k: nat)
    requires m.Sendable() && k < |Stream(z, m)|
    ensures IsStreamFrame(Stream(z, m)[k])
  {
  }

  /** From any receiver state, part of a message delivers nothing, all of it delivers the message, none of
      its frames breaks the read handler, and none is a heartbeat. */
  ghost predicate Decodes(z: Zlib, c: Coded) {
    && c.frames != []
    && (forall k :: 0 <= k < |c.frames| ==> c.frames[k].id != ID_HEARTBEAT)
    && (forall rx, k :: 0 <= k <= |c.frames| ==>
          Replay(z, rx, c.frames[..k]).1 == if k == |c.frames| then [Expected(c.msg)] else [])
    && (forall rx, k :: 0 <= k < |c.frames| ==> !Breaks(z, Replay(z, rx, c.frames[..k]).0, c.frames[k]))
  }

  lemma PlainDecodes(z: Zlib, f: Frame)
    requires Acceptable(z, Plain(f))
    ensures Decodes(z, Coded(Plain(f), [f]))
  {
    forall rx, k | 0 <= k <= 1
      ensures Replay(z, rx, [f][..k]).1 == if k == 1 then [Expected(Plain(f))] else []
    {
      assert [f][..0] == [] && [f][..1] == [f];
      assert Replay(z, rx, []) == (rx, []);
    }
  }

  lemma {:induction false} BigDecodes(z: Zlib, m: BigMsg)
    requires z.Sound() && Acceptable(z, Big(m))
    ensures Decodes(z, Coded(Big(m), Stream(z, m)))
  {
    var s := Stream(z, m);
    forall k | 0 <= k < |s| ensures s[k].id != ID_HEARTBEAT {
      StreamFrames(z, m, k);
    }
    forall rx, k | 0 <= k <= |s|
      ensures Replay(z, rx, s[..k]).1 == if k == |s| then [Expected(Big(m))] else []
    {
      ReplayStream(z, rx, m, k);
    }
    forall rx, k | 0 <= k < |s| ensures !Breaks(z, Replay(z, rx, s[..k]).0, s[k]) {
      ReplayStream(z, rx, m, k);
    }
  }

  lemma AcceptableDecodes(z: Zlib, m: Msg)
    requires z.Sound() && Acceptable(z, m)
    ensures Decodes(z, Code(z, m))
  {
    match m {
      case Plain(f) => PlainDecodes(z, f);
      case Big(b) => BigDecodes(z, b);
    }
  }

  lemma {:induction false} ReplayAppend(z: Zlib, rx: Rx, a: seq<Frame>, b: seq<Frame>)
    ensures var (r, ds) := Replay(z, rx, a);
      Replay(z, rx, a + b) == (Replay(z, r, b).0, ds + Replay(z, r, b).1)
  {
    if b == [] {
      assert a + b == a;
      assert Replay(z, rx, a).1 + [] == Replay(z, rx, a).1;
    } else {
      assert (a + b)[..|a + b| - 1] == a + b[..|b| - 1];
      assert (a + b)[|a + b| - 1] == b[|b| - 1];
      var (r, ds) := Replay(z, rx, a);
      var (r1, d1) := Replay(z, r, b[..|b| - 1]);
      ReplayAppend(z, rx, a, b[..|b| - 1]);
      var d := Deliver(z, r1, NO_LINK, b[|b| - 1]).1;
      assert Replay(z, rx, (a + b)[..|a + b| - 1]) == (r1, ds + d1);
      assert Replay(z, r, b).1 == d1 + d;
      assert Replay(z, rx, a + b).1 == (ds + d1) + d == ds + (d1 + d);
    }
  }

  ghost predicate AllDecode(z: Zlib, cs: seq<Coded>) {
    forall i :: 0 <= i < |cs| ==> Decodes(z, cs[i])
  }

  lemma AllDecodeSnoc(z: Zlib, cs: seq<Coded>, c: Coded)
    requires AllDecode(z, cs) && Decodes(z, c)
    ensures AllDecode(z, cs + [c])
  {
  }

  /** A prefix that ends within (or with) the last message delivers all messages before it. */
  lemma {:induction false} LastMessage(z: Zlib, rx: Rx, front: seq<Coded>, last: Coded, k: nat)
    requires AllDecode(z, front) && Decodes(z, last) && k <= |last.frames|
    ensures var (r, ds) := Replay(z, rx, Flat(front) + last.frames[..k]);
      && ds == ExpectedAll(front) + (if k == |last.frames| then [Expected(last.msg)] else [])
      && (k < |last.frames| ==> !Breaks(z, r, last.frames[k]))
    decreases |front|, 1
  {
    WholeDelivers(z, rx, front);
    ReplayAppend(z, rx, Flat(front), last.frames[..k]);
  }

  lemma {:induction false} WholeDelivers(z: Zlib, rx: Rx, cs: seq<Coded>)
    requires AllDecode(z, cs)
    ensures Replay(z, rx, Flat(cs)).1 == ExpectedAll(cs)
    decreases |cs|, 0
  {
    if cs != [] {
      var last := cs[|cs| - 1];
      LastMessage(z, rx, cs[..|cs| - 1], last, |last.frames|);
      assert last.frames[..|last.frames|] == last.frames;
    }
  }

  /** Every prefix of the frame stream delivers exactly the messages that lie wholly within it, and the
      frame that follows does not break the read handler. */
  lemma {:induction false} PrefixDelivers(z: Zlib, rx: Rx, cs: seq<Coded>, n: nat)
    requires AllDecode(z, cs) && n <= |Flat(cs)|
    ensures var (r, ds) := Replay(z, rx, Flat(cs)[..n]);
      && ds == ExpectedAll(cs[..Whole(cs, n)])
      && (n < |Flat(cs)| ==> !Breaks(z, r, Flat(cs)[n]))
  {
    if cs != [] {
      var front, last := cs[..|cs| - 1], cs[|cs| - 1];
      var m := |Flat(front)|;
      if n < m {
        PrefixDelivers(z, rx, front, n);
        EarlierPrefix(cs, n);
      } else {
        LastMessage(z, rx, front, last, n - m);
        LaterPrefix(cs, n);
      }
    }
  }

  /** A prefix of the stream that ends before the last message is one of the stream without it. */
  lemma EarlierPrefix(cs: seq<Coded>, n: nat)
    requires cs != [] && n < |Flat(cs[..|cs| - 1])|
    ensures var front := cs[..|cs| - 1];
      && Flat(cs)[..n] == Flat(front)[..n] && Flat(cs)[n] == Flat(front)[n]
      && cs[..Whole(cs, n)] == front[..Whole(front, n)]
  {
  }

  /** Any other consists of all earlier messages and a part, perhaps all, of the last. */
  lemma {:induction false} LaterPrefix(cs: seq<Coded>, n: nat)
    requires cs != [] && |Flat(cs[..|cs| - 1])| <= n <= |Flat(cs)| && cs[|cs| - 1].frames != []
    ensures var front, last := cs[..|cs| - 1], cs[|cs| - 1];
      var k := n - |Flat(front)|;
      && Flat(cs)[..n] == Flat(front) + last.frames[..k]
      && (n < |Flat(cs)| ==> Flat(cs)[n] == last.frames[k])
      && ExpectedAll(cs[..Whole(cs, n)]) == ExpectedAll(front) + if k == |last.frames| then [Expected(last.msg)] else []
  {
    var front, last := cs[..|cs| - 1], cs[|cs| - 1];
    if n == |Flat(cs)| {
      assert cs[..|cs|] == cs;
    } else {
      assert Whole(cs, n) == Whole(front, n) == |front|;
      assert ExpectedAll(front) + [] == ExpectedAll(front);
    }
  }

  lemma {:induction false} FlatHasNoBeats(z: Zlib, cs: seq<Coded>, k: nat)
    requires AllDecode(z, cs) && k < |Flat(cs)|
    ensures Flat(cs)[k].id != ID_HEARTBEAT
  {
    var front := cs[..|cs| - 1];
    if k < |Flat(front)| {
      FlatHasNoBeats(z, front, k);
    } else {
      assert Decodes(z, cs[|cs| - 1]);
    }
  }

  // ---- A reader in the middle of the stream ----

  /** The frame after a prefix of the messages' frames is no heartbeat. */
  lemma NextIsNoBeat(z: Zlib, cs: seq<Coded>, before: seq<Frame>, f: Frame, rest: seq<Frame>)
    requires AllDecode(z, cs) && before + [f] + rest == Flat(cs)
    ensures f.id != ID_HEARTBEAT
  {
    assert (before + [f] + rest)[|before|] == f;
    FlatHasNoBeats(z, cs, |before|);
  }

  /** Handing a frame over moves it from the sender's pending frames to the writer. */
  lemma HandOverMoves(z: Zlib, cs: seq<Coded>, sent: seq<Frame>, pending: seq<Frame>)
    requires AllDecode(z, cs) && pending != [] && NonBeat(sent) + pending == Flat(cs)
    ensures NonBeat(sent + [pending[0]]) <= Flat(cs)
    ensures NonBeat(sent + [pending[0]]) + pending[1..] == Flat(cs)
  {
    var f, before := pending[0], NonBeat(sent);
    assert before + [f] + pending[1..] == before + pending;
    NextIsNoBeat(z, cs, before, f, pending[1..]);
    NonBeatSnoc(sent, f);
    assert NonBeat(sent + [f]) == before + [f];
  }

  lemma NonBeatPrefix(a: seq<Frame>, f: Frame, b: seq<Frame>, all: seq<Frame>)
    requires NonBeat(a + [f] + b) <= all
    ensures NonBeat(a) <= all && (f.id != ID_HEARTBEAT ==> NonBeat(a) + [f] <= all)
  {
    NonBeatAppend(a + [f], b);
    NonBeatSnoc(a, f);
  }

  /** What is read of frames that are, without heartbeats, a prefix of the messages' frames. */
  lemma ReadIsPrefix(consumed: seq<Frame>, wire: seq<Frame>, all: seq<Frame>)
    requires NonBeat(consumed + wire) <= all
    ensures NonBeat(consumed) <= all
    ensures wire != [] && wire[0].id != ID_HEARTBEAT ==> NonBeat(consumed) + [wire[0]] <= all
  {
    if wire == [] {
      assert consumed + wire == consumed;
    } else {
      var f, rest := wire[0], wire[1..];
      var read := consumed + [f] + rest;
      assert read == consumed + wire;
      assert NonBeat(read) <= all;
      NonBeatPrefix(consumed, f, rest, all);
    }
  }

  /** A frame that continues the messages' frames leaves the replay in step and breaks nothing. */
  lemma ReplayNext(z: Zlib, rx0: Rx, cs: seq<Coded>, before: seq<Frame>, f: Frame)
    requires AllDecode(z, cs) && before + [f] <= Flat(cs)
    ensures var (r, ds) := Replay(z, rx0, before);
      && !Breaks(z, r, f)
      && Replay(z, rx0, before + [f]) == (Deliver(z, r, NO_LINK, f).0, ds + Deliver(z, r, NO_LINK, f).1)
  {
    assert Flat(cs)[..|before|] == before && Flat(cs)[|before|] == f;
    PrefixDelivers(z, rx0, cs, |before|);
    assert (before + [f])[..|before|] == before;
  }
}
