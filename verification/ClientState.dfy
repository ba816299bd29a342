/** The sending half and the heartbeat fields of the client, as values: `HXLibClientAccept` and
    `HXLibAsioClient`. */
module ClientState {
  import opened Wire
  import RQ = ReceiveQueue
  import W = Writer

  /** How a time is laid out in the eight bytes of a heartbeat's body. */
  datatype Doubles = Doubles(put: real -> Body, get: seq<byte> -> real)
  {
    /** A double can have the value t. */
    predicate Holds(t: real) {
      get(put(t)) == t
    }

    /** A time takes eight bytes, and reading one looks at eight bytes. */
    ghost predicate Sound() {
      && (forall t :: |put(t)| == TIME_SIZE)
      && (forall b :: get(Resize(b, TIME_SIZE)) == get(b))
    }
  }

  function Seconds(ticks: u32): real {
    var t: int := ticks;
    t as real / 1024.0
  }

  function PutTicks(t: real): Body {
    var ticks := (t * 1024.0).Floor;
    (if 0 <= ticks < 0x1_0000_0000 then Put32(ticks) else Put32(0)) + Put32(0)
  }

  function GetTicks(b: seq<byte>): real {
    Seconds(Get32(Resize(b, TIME_SIZE), 0))
  }

  lemma TicksReturn(ticks: u32)
    ensures GetTicks(PutTicks(Seconds(ticks))) == Seconds(ticks)
  {
    var t: int := ticks;
    assert Seconds(ticks) * 1024.0 == t as real;
    var b := Put32(t) + Put32(0);
    assert PutTicks(Seconds(ticks)) == b;
    assert Resize(b, TIME_SIZE)[..4] == Put32(t);
  }

  /** The assumptions on doubles can be met: one layout holds every multiple of 1/1024 below 2^22. */
  lemma DoublesExist() returns (d: Doubles)
    ensures d.Sound() && forall ticks :: d.Holds(Seconds(ticks))
  {
    d := Doubles(PutTicks, GetTicks);
    forall b: seq<byte> ensures GetTicks(Resize(b, TIME_SIZE)) == GetTicks(b) {
      assert Resize(Resize(b, TIME_SIZE), TIME_SIZE) == Resize(b, TIME_SIZE);
    }
    forall ticks ensures d.Holds(Seconds(ticks)) {
      TicksReturn(ticks);
    }
  }

  /** `m_bConnected`; the `do_write` calls not yet run; `write_msgs_`; what the io service has in hand for the
      socket, as in Writer; `m_numofWrite`; `m_bTimeLast`; `m_dTimeLast`; `m_dNetDelay`. */
  datatype State = State(
    connected: bool, posted: seq<Frame>, queue: seq<Frame>, flight: seq<W.Write>, failed: seq<W.Write>,
    numOfWrite: nat, beating: bool, timeLast: real, netDelay: real)

  const START := State(false, [], [], [], [], 0, false, 0.0, 0.0)

  /** `write`, which posts a `do_write` call. */
  function Write(c: State, f: Frame): State {
    c.(posted := c.posted + [f])
  }

  function Send(c: State, f: Frame): State {
    if c.connected then Write(c, f) else c
  }

  predicate Takes(c: State, allowLost: bool, limit: u32) {
    c.connected && !(allowLost && W.Refuses(c.numOfWrite, limit))
  }

  function SendBig(c: State, fs: seq<Frame>, allowLost: bool, limit: u32): State {
    if Takes(c, allowLost, limit) then c.(posted := c.posted + fs) else c
  }

  /** Frames written one after the other. */
  function WriteAll(c: State, fs: seq<Frame>): State {
    if fs == [] then c else Write(WriteAll(c, fs[..|fs| - 1]), fs[|fs| - 1])
  }

  lemma WriteAllSnoc(c: State, fs: seq<Frame>, f: Frame)
    ensures WriteAll(c, fs + [f]) == Write(WriteAll(c, fs), f)
  {
    assert (fs + [f])[..|fs|] == fs;
  }

  /** Frames written one by one are posted in order. */
  lemma {:induction false} WritesArePosted(c: State, fs: seq<Frame>)
    ensures WriteAll(c, fs) == c.(posted := c.posted + fs)
  {
    if fs == [] {
      assert c.posted + fs == c.posted;
    } else {
      var front := fs[..|fs| - 1];
      WritesArePosted(c, front);
      assert c.posted + front + [fs[|fs| - 1]] == c.posted + fs;
    }
  }

  /** A Send that takes its message writes all its frames, in order, and one that does not writes nothing. */
  lemma {:induction false} SendsWriteAllOrNothing(c: State, fs: seq<Frame>, allowLost: bool, limit: u32)
    ensures SendBig(c, fs, allowLost, limit) == if Takes(c, allowLost, limit) then WriteAll(c, fs) else c
    ensures |fs| == 1 ==> Send(c, fs[0]) == if Takes(c, false, limit) then WriteAll(c, fs) else c
  {
    WritesArePosted(c, fs);
    if |fs| == 1 {
      assert fs == [fs[0]];
    }
  }

  function DoWrite(c: State): State
    requires c.posted != []
  {
    var f := c.posted[0];
    c.(posted := c.posted[1..], queue := c.queue + [f], numOfWrite := |c.queue| + 1,
       flight := if c.queue == [] then c.flight + [W.Write(f, false)] else c.flight)
  }

  /** All bytes of outstanding write k are out. */
  function Transmit(c: State, k: nat): State
    requires k < |c.flight|
  {
    c.(flight := c.flight[k := c.flight[k].(sent := true)])
  }

  /** A successful `handle_write`. */
  function Written(c: State, k: nat): State
    requires k < |c.flight| && c.queue != []
  {
    var q, rest := c.queue[1..], W.Without(c.flight, k);
    c.(queue := q, numOfWrite := |q|, flight := if q == [] then rest else rest + [W.Write(q[0], false)])
  }

  /** A failed one. */
  function WriteFailed(c: State, k: nat): State
    requires k < |c.flight|
  {
    c.(connected := false, flight := W.Without(c.flight, k), failed := c.failed + [c.flight[k]])
  }

  function BeatReturned(c: State, time: real, now: real): State {
    c.(beating := false, netDelay := (now - time) * 0.5)
  }

  /** The two tests of `SwapQueue`. */
  predicate MayBeat(c: State, now: real) {
    c.connected && !c.beating && now > c.timeLast + 0.5
  }

  function Arm(c: State, time: real): State {
    c.(timeLast := time, beating := true)
  }

  function Beat(d: Doubles, c: State): Frame {
    Frame(ID_HEARTBEAT, 0, d.put(c.timeLast))
  }

  function PostBeat(d: Doubles, c: State): State {
    Write(c, Beat(d, c))
  }

  /** What the connect handler queues for the application; text is what the error says. */
  function ConnectMessage(error: bool, text: Body): RQ.Package {
    if error then RQ.Package(NO_LINK, ID_CONNECT_FAILURE, 0, |text|, text, 0)
    else RQ.Package(NO_LINK, ID_CONNECT, 0, 0, [], 0)
  }

  function CloseMessage(state: u16): RQ.Package {
    RQ.Package(NO_LINK, ID_DISCONNECT, state, 0, [], 0)
  }

  // ---- The write chain ----

  function Chain(c: State): seq<W.Write> {
    c.flight + c.failed
  }

  /** As in Writer, the queue hangs on one write, which carries its front and is outstanding or failed; here
      the length is brought up to date by every push and pop. */
  ghost predicate Chained(c: State) {
    && |Chain(c)| == (if c.queue == [] then 0 else 1)
    && (c.queue != [] ==> Chain(c)[0].f == c.queue[0])
    && c.numOfWrite == |c.queue|
  }

  lemma FlightIsChain(c: State)
    requires Chained(c) && c.flight != []
    ensures c.failed == [] && c.queue != [] && Chain(c) == c.flight == [c.flight[0]] && c.flight[0].f == c.queue[0]
  {
    assert Chain(c)[0] == c.flight[0];
  }

  lemma DoWriteChained(c: State)
    requires Chained(c) && c.posted != []
    ensures Chained(DoWrite(c))
    ensures Chain(DoWrite(c)) == if c.queue == [] then [W.Write(c.posted[0], false)] else Chain(c)
  {
  }

  lemma TransmitChained(c: State, k: nat)
    requires Chained(c) && k < |c.flight|
    ensures Chained(Transmit(c, k)) && k == 0
    ensures Chain(Transmit(c, k)) == [W.Write(c.queue[0], true)]
  {
    FlightIsChain(c);
  }

  lemma WrittenChained(c: State, k: nat)
    requires Chained(c) && k < |c.flight|
    ensures c.queue != [] && Chained(Written(c, k)) && k == 0
    ensures Chain(Written(c, k)) == if |c.queue| == 1 then [] else [W.Write(c.queue[1], false)]
  {
    FlightIsChain(c);
  }

  lemma WriteFailedChained(c: State, k: nat)
    requires Chained(c) && k < |c.flight|
    ensures Chained(WriteFailed(c, k)) && Chain(WriteFailed(c, k)) == Chain(c)
  {
    FlightIsChain(c);
  }

  /** The length counts the queue and not what is still to be posted to it; so the decision on a big message that
      may be lost is the one that everything taken and not completed calls for, for every limit, if and only if
      nothing is posted and the bytes counted fit 32 bits. */
  ghost predicate CountsQueueOnly(c: State) {
    && c.numOfWrite == |c.queue|
    && (W.RightForAll(c.numOfWrite, |c.queue| + |c.posted|)
        <==> c.posted == [] && |c.queue| * PACKAGE_SIZE < 0x1_0000_0000)
  }

  lemma RefusalIsRight(c: State)
    requires Chained(c)
    ensures CountsQueueOnly(c)
  {
    W.DecisionIsRight(c.numOfWrite, |c.posted|);
  }
}
