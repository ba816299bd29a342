/** One live link from `Send` on the server to the buffers the client application reads: concurrent senders
    under `m_linkMutex`, heartbeat echoes, the asynchronous writer, the wire, and the client's reader and the
    notices of its other handlers. */
module EndToEnd {
  import opened Wire
  import opened BigMessage
  import opened ReceiveQueue
  import opened Coding
  import C = ClientState
  import W = Writer

  // ---- The system ----

  /** The server side of the link, the wire, and the client side. */
  datatype Sys = Sys(
    accepted: seq<Coded>,   // messages Send took, in the order they got m_linkMutex
    held: bool,             // m_linkMutex is held by a Send
    pending: seq<Frame>,    // frames that Send has still to hand to the writer
    writer: W.Traced,
    wire: seq<Frame>,       // transmitted, not yet read
    consumed: seq<Frame>,   // read by the client
    broken: bool,           // the client's read handler broke: an exception, or a copy that leaves its block
    rx: Rx,                 // the client's m_bigData
    buffers: Buffers,       // the client's m_queue
    ops: seq<Op>,           // what was done to it
    events: seq<Event>)     // and what was put into it, off the wire or not

  /** The client has one session; this is its number in the events. */
  const CLIENT: nat := 0

  function Initial(rx: Rx): Sys {
    Sys([], false, [], W.FRESH, [], [], false, rx, EMPTY_BUFFERS, [], [])
  }

  datatype Step =
    | Accept(m: Msg)        // a Send gets the mutex
    | HandOver              // it passes one frame to the connection's send
    | Release               // it returns
    | Echo(f: Frame)        // the read handler answers a heartbeat, not under m_linkMutex
    | Io(a: W.Act)          // the write chain moves, fails, or the socket is closed
    | ClientRead            // the client's read handler takes a frame
    | Connected(error: bool, text: Body)  // the client's connect handler queues its notice
    | Closed(state: u16)    // another handler, or close, queues a disconnect
    | ClientSwap            // the client application swaps its queues

  predicate CanStep(z: Zlib, s: Sys, st: Step) {
    s.buffers.Shaped() &&
    match st
    case Accept(m) => !s.held && Acceptable(z, m)
    case HandOver => s.held && s.pending != []
    case Release => s.held && s.pending == []
    case Echo(f) => f.id == ID_HEARTBEAT
    case Io(a) => !a.ASend? && W.Enabled(s.writer.w, a)
    case ClientRead => s.wire != [] && !s.broken
    case _ => true
  }

  /** `handle_read_body` of the client: heartbeats are kept from the queue. */
  function Read(z: Zlib, s: Sys): Sys
    requires s.wire != [] && s.buffers.Shaped()
  {
    var f := s.wire[0];
    var t := s.(wire := s.wire[1..], consumed := s.consumed + [f]);
    if f.id == ID_HEARTBEAT then t
    else if Breaks(z, s.rx, f) then t.(broken := true)
    else
      var (rx, ds) := Deliver(z, s.rx, NO_LINK, f);
      t.(buffers := AddFrom(z, s.buffers, s.rx, NO_LINK, f), rx := rx,
         ops := s.ops + QueueOps(z, s.rx, NO_LINK, f), events := s.events + Mark(CLIENT, ds))
  }

  /** A package that the client's own handlers queue, and what it tells the application. */
  function Notify(s: Sys, p: Package, what: Delivery): Sys
    requires s.buffers.Shaped()
  {
    s.(buffers := AddOrdinary(s.buffers, p), ops := s.ops + [Ordinary(p)],
       events := s.events + [Event(CLIENT, false, what)])
  }

  /** The connection stands, or failed for the reason given. */
  function ConnectNews(error: bool, text: Body): Delivery {
    Delivery(NO_LINK, if error then ID_CONNECT_FAILURE else ID_CONNECT, 0, if error then text else [])
  }

  function CloseNews(state: u16): Delivery {
    Delivery(NO_LINK, ID_DISCONNECT, state, [])
  }

  /** A Send passes one frame on. */
  function HandOne(s: Sys): Sys
    requires s.pending != []
  {
    s.(writer := W.Next(s.writer, W.ASend(s.pending[0])), pending := s.pending[1..])
  }

  function After(z: Zlib, s: Sys, st: Step): (t: Sys)
    requires CanStep(z, s, st)
    ensures t.buffers.Shaped()
  {
    match st
    case Accept(m) => s.(accepted := s.accepted + [Code(z, m)], held := true, pending := Code(z, m).frames)
    case HandOver => HandOne(s)
    case Release => s.(held := false)
    case Echo(f) => s.(writer := W.Next(s.writer, W.ASend(f)))
    case Io(a) =>
      s.(writer := W.Next(s.writer, a), wire := if a.ATransmit? then s.wire + [s.writer.w.flight[a.k].f] else s.wire)
    case ClientRead => Read(z, s)
    case Connected(error, text) => Notify(s, C.ConnectMessage(error, text), ConnectNews(error, text))
    case Closed(state) => Notify(s, C.CloseMessage(state), CloseNews(state))
    case ClientSwap => s.(buffers := Swap(s.buffers), ops := s.ops + [Flip])
  }

  predicate Possible(z: Zlib, rx: Rx, steps: seq<Step>)
    decreases |steps|, 0
  {
    steps == []
    || (Possible(z, rx, steps[..|steps| - 1])
        && CanStep(z, Play(z, rx, steps[..|steps| - 1]), steps[|steps| - 1]))
  }

  /** The state after a sequence of steps, from any initial content of the client's reassembler. */
  function Play(z: Zlib, rx: Rx, steps: seq<Step>): Sys
    requires Possible(z, rx, steps)
    decreases |steps|, 1
  {
    if steps == [] then Initial(rx) else After(z, Play(z, rx, steps[..|steps| - 1]), steps[|steps| - 1])
  }

  // ---- One Send ----

  /** The state after n frames were handed over with nothing in between. */
  function HandedOver(s: Sys, n: nat): (t: Sys)
    requires n <= |s.pending|
    ensures t.pending == s.pending[n..]
  {
    if n == 0 then s
    else
      HandOne(HandedOver(s, n - 1))
  }

  lemma {:induction false} HandOversSendAll(s: Sys, n: nat)
    requires n <= |s.pending|
    ensures HandedOver(s, n).writer.w == W.SendAll(s.writer.w, s.pending[..n])
    ensures var t := HandedOver(s, n);
      t == s.(writer := t.writer, pending := s.pending[n..])
  {
    if n > 0 {
      HandOversSendAll(s, n - 1);
      assert s.pending[..n][..n - 1] == s.pending[..n - 1];
      assert HandedOver(s, n - 1).pending[0] == s.pending[n - 1];
    }
  }

  /** The steps of one Send: it takes a message, hands over every frame, and returns. */
  function SendSteps(n: nat): seq<Step> {
    if n == 0 then [] else SendSteps(n - 1) + [HandOver]
  }

  /** In any run, the steps of one Send that nothing interrupts leave the connection as handing it the message's
      frames at once does. */
  lemma {:induction false} SendIsSendAll(z: Zlib, rx: Rx, steps: seq<Step>, m: Msg)
    requires Possible(z, rx, steps) && CanStep(z, Play(z, rx, steps), Accept(m))
    ensures var all := steps + [Accept(m)] + SendSteps(|Code(z, m).frames|) + [Release];
      && Possible(z, rx, all)
      && Play(z, rx, all).writer.w == W.SendAll(Play(z, rx, steps).writer.w, Code(z, m).frames)
      && Play(z, rx, all).accepted == Play(z, rx, steps).accepted + [Code(z, m)]
      && !Play(z, rx, all).held
  {
    var fs, begun := Code(z, m).frames, steps + [Accept(m)];
    PlaySnoc(z, rx, steps, Accept(m));
    PlayHandOvers(z, rx, begun, |fs|);
    HandOversSendAll(Play(z, rx, begun), |fs|);
    assert fs[..|fs|] == fs;
    PlaySnoc(z, rx, begun + SendSteps(|fs|), Release);
  }

  lemma PlaySnoc(z: Zlib, rx: Rx, steps: seq<Step>, st: Step)
    requires Possible(z, rx, steps) && CanStep(z, Play(z, rx, steps), st)
    ensures Possible(z, rx, steps + [st]) && Play(z, rx, steps + [st]) == After(z, Play(z, rx, steps), st)
  {
    assert (steps + [st])[..|steps + [st]| - 1] == steps;
  }

  lemma PlayHandOne(z: Zlib, rx: Rx, steps: seq<Step>, t: Sys)
    requires Possible(z, rx, steps) && Play(z, rx, steps) == t
    requires t.held && t.buffers.Shaped() && t.pending != []
    ensures Possible(z, rx, steps + [HandOver]) && Play(z, rx, steps + [HandOver]) == HandOne(t)
  {
    PlaySnoc(z, rx, steps, HandOver);
  }

  lemma {:induction false} PlayHandOvers(z: Zlib, rx: Rx, steps: seq<Step>, n: nat)
    requires Possible(z, rx, steps) && n <= |Play(z, rx, steps).pending|
    requires Play(z, rx, steps).held && Play(z, rx, steps).buffers.Shaped()
    ensures Possible(z, rx, steps + SendSteps(n))
    ensures Play(z, rx, steps + SendSteps(n)) == HandedOver(Play(z, rx, steps), n)
  {
    var s := Play(z, rx, steps);
    if n == 0 {
      assert steps + SendSteps(0) == steps;
    } else {
      var before := steps + SendSteps(n - 1);
      PlayHandOvers(z, rx, steps, n - 1);
      HandOversSendAll(s, n - 1);
      PlayHandOne(z, rx, before, HandedOver(s, n - 1));
      assert before + [HandOver] == steps + SendSteps(n);
    }
  }

  // ---- Invariant ----

  /** The server side: messages reach the writer whole and contiguous up to heartbeats, in mutex order. */
  ghost predicate SendSide(z: Zlib, s: Sys) {
    && W.Fifo(s.writer)
    && AllDecode(z, s.accepted)
    && (!s.held ==> s.pending == [])
    && NonBeat(s.writer.accepted) <= Flat(s.accepted)
    && (s.writer.w.open ==> NonBeat(s.writer.accepted) + s.pending == Flat(s.accepted))
  }

  /** The wire is lossless, and the client replays what it consumed; what else is in its queue are notices. */
  ghost predicate ReceiveSide(z: Zlib, rx0: Rx, s: Sys) {
    && s.consumed + s.wire == s.writer.transmitted
    && Follows(s.ops, s.events)
    && s.buffers == Run(s.ops)
    && Replay(z, rx0, NonBeat(s.consumed)) == (s.rx, Received(s.events, CLIENT))
    && !s.broken
    && OthersAreNotices(s.events)
  }

  ghost predicate IsNotice(d: Delivery) {
    (exists error, text :: d == ConnectNews(error, text)) || (exists state :: d == CloseNews(state))
  }

  ghost predicate OthersAreNotices(events: seq<Event>) {
    forall e :: e in events ==> e.session == CLIENT && (e.received || IsNotice(e.what))
  }

  lemma AcceptedKeeps(z: Zlib, s: Sys, c: Coded)
    requires SendSide(z, s) && !s.held && Decodes(z, c)
    ensures SendSide(z, s.(accepted := s.accepted + [c], held := true, pending := c.frames))
  {
    FlatSnoc(s.accepted, c);
    assert NonBeat(s.writer.accepted) + [] == NonBeat(s.writer.accepted);
    AllDecodeSnoc(z, s.accepted, c);
  }

  lemma {:induction false} AcceptKeeps(z: Zlib, s: Sys, m: Msg)
    requires z.Sound() && SendSide(z, s) && CanStep(z, s, Accept(m))
    ensures SendSide(z, After(z, s, Accept(m)))
  {
    AcceptableDecodes(z, m);
    AcceptedKeeps(z, s, Code(z, m));
  }

  lemma HandOverKeeps(z: Zlib, s: Sys)
    requires SendSide(z, s) && CanStep(z, s, HandOver)
    ensures SendSide(z, After(z, s, HandOver))
  {
    W.NextFifo(s.writer, W.ASend(s.pending[0]));
    if s.writer.w.open {
      HandOverMoves(z, s.accepted, s.writer.accepted, s.pending);
    }
  }

  lemma EchoKeeps(z: Zlib, s: Sys, f: Frame)
    requires SendSide(z, s) && CanStep(z, s, Echo(f))
    ensures SendSide(z, After(z, s, Echo(f)))
  {
    W.NextFifo(s.writer, W.ASend(f));
    NonBeatSnoc(s.writer.accepted, f);
  }

  lemma IoKeeps(z: Zlib, rx0: Rx, s: Sys, a: W.Act)
    requires SendSide(z, s) && ReceiveSide(z, rx0, s) && CanStep(z, s, Io(a))
    ensures SendSide(z, After(z, s, Io(a))) && ReceiveSide(z, rx0, After(z, s, Io(a)))
  {
    W.NextFifo(s.writer, a);
    if a.ATransmit? {
      var f := s.writer.w.flight[a.k].f;
      assert s.consumed + (s.wire + [f]) == (s.consumed + s.wire) + [f];
    }
  }

  /** What was transmitted is, without heartbeats, a prefix of the accepted messages' frames. */
  lemma TransmittedIsPrefix(z: Zlib, s: Sys)
    requires SendSide(z, s)
    ensures NonBeat(s.writer.transmitted) <= Flat(s.accepted)
  {
    var t := s.writer;
    var rest := t.accepted[|t.transmitted|..];
    assert t.transmitted <= t.accepted;
    assert t.accepted == t.transmitted + rest;
    NonBeatAppend(t.transmitted, rest);
  }

  /** So is what was consumed, and the wire continues it. */
  lemma ConsumedIsPrefix(z: Zlib, rx0: Rx, s: Sys)
    requires SendSide(z, s) && ReceiveSide(z, rx0, s)
    ensures NonBeat(s.consumed) <= Flat(s.accepted)
    ensures s.wire != [] && s.wire[0].id != ID_HEARTBEAT ==> NonBeat(s.consumed) + [s.wire[0]] <= Flat(s.accepted)
  {
    TransmittedIsPrefix(z, s);
    ReadIsPrefix(s.consumed, s.wire, Flat(s.accepted));
  }

  /** What a read does to the queue and its record. */
  lemma ReadRecords(z: Zlib, s: Sys, f: Frame)
    requires s.wire != [] && s.wire[0] == f && f.id != ID_HEARTBEAT && !Breaks(z, s.rx, f)
    requires Follows(s.ops, s.events) && s.buffers == Run(s.ops) && OthersAreNotices(s.events)
    ensures var t, (rx, ds) := Read(z, s), Deliver(z, s.rx, NO_LINK, f);
      && Follows(t.ops, t.events) && t.buffers == Run(t.ops) && OthersAreNotices(t.events)
      && t.rx == rx && Received(t.events, CLIENT) == Received(s.events, CLIENT) + ds
  {
    var ds := Deliver(z, s.rx, NO_LINK, f).1;
    FollowsRead(z, s.ops, s.events, s.rx, NO_LINK, f, CLIENT);
    ReadReceived(z, s.rx, NO_LINK, f, s.events, CLIENT, CLIENT);
    DeliveredOnce(z, s.rx, NO_LINK, f);
    MarkOne(CLIENT, ds);
  }

  lemma WireMoves(consumed: seq<Frame>, wire: seq<Frame>)
    requires wire != []
    ensures (consumed + [wire[0]]) + wire[1..] == consumed + wire
  {
  }

  lemma BeatReadKeeps(z: Zlib, rx0: Rx, s: Sys)
    requires ReceiveSide(z, rx0, s) && s.wire != [] && s.wire[0].id == ID_HEARTBEAT
    ensures ReceiveSide(z, rx0, Read(z, s))
  {
    WireMoves(s.consumed, s.wire);
    NonBeatSnoc(s.consumed, s.wire[0]);
  }

  lemma DataReadKeeps(z: Zlib, rx0: Rx, s: Sys, f: Frame)
    requires ReceiveSide(z, rx0, s) && s.wire != [] && f == s.wire[0] && f.id != ID_HEARTBEAT && !Breaks(z, s.rx, f)
    requires var (rx, ds) := Deliver(z, s.rx, NO_LINK, f);
      Replay(z, rx0, NonBeat(s.consumed) + [f]) == (rx, Received(s.events, CLIENT) + ds)
    ensures ReceiveSide(z, rx0, Read(z, s))
  {
    WireMoves(s.consumed, s.wire);
    ReadRecords(z, s, f);
    NonBeatSnoc(s.consumed, f);
    assert NonBeat(Read(z, s).consumed) == NonBeat(s.consumed) + [f];
  }

  lemma ReadKeeps(z: Zlib, rx0: Rx, s: Sys)
    requires SendSide(z, s) && ReceiveSide(z, rx0, s) && CanStep(z, s, ClientRead)
    ensures ReceiveSide(z, rx0, Read(z, s))
  {
    var f := s.wire[0];
    if f.id == ID_HEARTBEAT {
      BeatReadKeeps(z, rx0, s);
    } else {
      ConsumedIsPrefix(z, rx0, s);
      ReplayNext(z, rx0, s.accepted, NonBeat(s.consumed), f);
      DataReadKeeps(z, rx0, s, f);
    }
  }

  /** The packages say what they are meant to say. */
  lemma NoticesSay(error: bool, text: Body, state: u16)
    ensures Logged(Ordinary(C.ConnectMessage(error, text))) == [ConnectNews(error, text)]
    ensures Logged(Ordinary(C.CloseMessage(state))) == [CloseNews(state)]
    ensures IsFresh(C.ConnectMessage(error, text)) && IsFresh(C.CloseMessage(state))
  {
    var p, q := C.ConnectMessage(error, text), C.CloseMessage(state);
    assert Resize(p.body, p.length) == p.body && Resize(q.body, q.length) == q.body;
  }

  lemma NotifyKeeps(z: Zlib, rx0: Rx, s: Sys, p: Package, what: Delivery)
    requires ReceiveSide(z, rx0, s) && IsFresh(p) && Logged(Ordinary(p)) == [what] && IsNotice(what)
    ensures ReceiveSide(z, rx0, Notify(s, p, what))
  {
    var e := Event(CLIENT, false, what);
    FollowsSnoc(s.ops, s.events, Ordinary(p), e);
    ReceivedSnoc(s.events, e, CLIENT);
  }

  /** Senders, and heartbeat echoes. */
  predicate ByServer(st: Step) {
    st.Accept? || st.HandOver? || st.Release? || st.Echo?
  }

  /** The handlers and the application of the client. */
  predicate ByClient(st: Step) {
    st.ClientRead? || st.Connected? || st.Closed? || st.ClientSwap?
  }

  lemma ServerStepKeeps(z: Zlib, rx0: Rx, s: Sys, st: Step)
    requires z.Sound() && SendSide(z, s) && ReceiveSide(z, rx0, s) && CanStep(z, s, st) && ByServer(st)
    ensures SendSide(z, After(z, s, st)) && ReceiveSide(z, rx0, After(z, s, st))
  {
    match st {
      case Accept(m) => AcceptKeeps(z, s, m);
      case HandOver => HandOverKeeps(z, s);
      case Echo(f) => EchoKeeps(z, s, f);
      case Release =>
    }
  }

  lemma ClientStepKeeps(z: Zlib, rx0: Rx, s: Sys, st: Step)
    requires SendSide(z, s) && ReceiveSide(z, rx0, s) && CanStep(z, s, st) && ByClient(st)
    ensures ReceiveSide(z, rx0, After(z, s, st))
  {
    match st {
      case ClientRead => ReadKeeps(z, rx0, s);
      case Connected(error, text) =>
        NoticesSay(error, text, 0);
        NotifyKeeps(z, rx0, s, C.ConnectMessage(error, text), ConnectNews(error, text));
      case Closed(state) =>
        NoticesSay(false, [], state);
        NotifyKeeps(z, rx0, s, C.CloseMessage(state), CloseNews(state));
      case ClientSwap => FollowsFlip(s.ops, s.events);
    }
  }

  lemma ClientLeavesServer(z: Zlib, s: Sys, st: Step)
    requires SendSide(z, s) && CanStep(z, s, st) && ByClient(st)
    ensures SendSide(z, After(z, s, st))
  {
    var t := After(z, s, st);
    assert t.accepted == s.accepted && t.held == s.held && t.pending == s.pending && t.writer == s.writer;
  }

  lemma {:induction false} StepKeeps(z: Zlib, rx0: Rx, s: Sys, st: Step)
    requires z.Sound() && SendSide(z, s) && ReceiveSide(z, rx0, s) && CanStep(z, s, st)
    ensures SendSide(z, After(z, s, st)) && ReceiveSide(z, rx0, After(z, s, st))
  {
    if ByServer(st) {
      ServerStepKeeps(z, rx0, s, st);
    } else if ByClient(st) {
      ClientStepKeeps(z, rx0, s, st);
      ClientLeavesServer(z, s, st);
    } else {
      IoKeeps(z, rx0, s, st.a);
    }
  }

  lemma {:induction false} InvariantHolds(z: Zlib, rx0: Rx, steps: seq<Step>)
    requires z.Sound() && Possible(z, rx0, steps)
    ensures SendSide(z, Play(z, rx0, steps)) && ReceiveSide(z, rx0, Play(z, rx0, steps))
  {
    if steps != [] {
      var front := steps[..|steps| - 1];
      InvariantHolds(z, rx0, front);
      StepKeeps(z, rx0, Play(z, rx0, front), steps[|steps| - 1]);
    }
  }

  /** Whatever the interleaving of senders, heartbeats, write completions, failures and a close: off the wire the
      client has delivered exactly the accepted messages whose frames it has wholly read, a prefix of them in
      mutex order, each byte for byte; all else in its queue are its own notices; every buffer the application
      swapped out shows its epoch of both; and the read handler never breaks. */
  lemma {:induction false} PrefixDelivery(z: Zlib, rx0: Rx, steps: seq<Step>)
    requires z.Sound() && Possible(z, rx0, steps)
    ensures var s := Play(z, rx0, steps);
      && Received(s.events, CLIENT) == ExpectedAll(s.accepted[..Whole(s.accepted, |NonBeat(s.consumed)|)])
      && OthersAreNotices(s.events)
      && ShowsEvents(s.buffers, s.ops, s.events)
      && !s.broken
  {
    InvariantHolds(z, rx0, steps);
    Delivered(z, rx0, Play(z, rx0, steps));
    FollowsShows(Play(z, rx0, steps).ops, Play(z, rx0, steps).events);
  }

  lemma {:induction false} Delivered(z: Zlib, rx0: Rx, s: Sys)
    requires SendSide(z, s) && ReceiveSide(z, rx0, s)
    ensures Received(s.events, CLIENT) == ExpectedAll(s.accepted[..Whole(s.accepted, |NonBeat(s.consumed)|)])
  {
    ConsumedIsPrefix(z, rx0, s);
    assert Flat(s.accepted)[..|NonBeat(s.consumed)|] == NonBeat(s.consumed);
    PrefixDelivers(z, rx0, s.accepted, |NonBeat(s.consumed)|);
  }

  /** When an open link has come to rest, every accepted message has been delivered. */
  lemma {:induction false} QuiescentDelivery(z: Zlib, rx0: Rx, steps: seq<Step>)
    requires z.Sound() && Possible(z, rx0, steps)
    requires var s := Play(z, rx0, steps);
      s.writer.w.open && !s.held && s.writer.w.queue == [] && s.wire == []
    ensures Received(Play(z, rx0, steps).events, CLIENT) == ExpectedAll(Play(z, rx0, steps).accepted)
  {
    var s := Play(z, rx0, steps);
    InvariantHolds(z, rx0, steps);
    assert s.writer.accepted == s.writer.completed == s.writer.transmitted == s.consumed;
    assert NonBeat(s.consumed) == Flat(s.accepted);
    WholeDelivers(z, rx0, s.accepted);
  }
}
