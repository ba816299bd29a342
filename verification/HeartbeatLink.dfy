/** One link with real frames: the client's state, both wires and the server's writer, and the proof that it
    moves as Heartbeat does. Writes may fail and either side may close at any point. */
module HeartbeatLink {
  import opened Wire
  import opened ClientState
  import H = Heartbeat
  import W = Writer

  datatype Link = Link(
    main: H.Main,             // where the application thread is in SwapQueue
    client: State,
    toServer: seq<Frame>,     // transmitted, not yet read
    server: W.State,
    toClient: seq<Frame>,
    dropped: bool,            // an echo went to a closed socket
    now: real,
    sends: seq<real>,
    arrivals: seq<real>,
    written: seq<Frame>,      // handed to the client's write, in order
    consumed: seq<Frame>)     // read by the server

  function Start(now: real): Link {
    Link(H.Ready, START.(connected := true), [], W.START, [], false, now, [], [], [], [])
  }

  datatype Step =
    | Tick(d: real)
    | Check
    | Arm
    | Post
    | ClientSend(f: Frame)
    | DoWrite
    | ClientTransmit(k: nat)
    | ClientWritten(k: nat)
    | ClientFail(k: nat)
    | ClientClose
    | ServerRead
    | ServerSend(f: Frame)
    | ServerIo(a: W.Act)
    | ClientRead

  /** The clock shows values that a double can have; the applications leave the heartbeat id alone. */
  predicate CanStep(d: Doubles, l: Link, st: Step) {
    match st
    case Tick(dt) => dt >= 0.0 && d.Holds(l.now + dt)
    case Check => l.main == H.Ready && MayBeat(l.client, l.now)
    case Arm => l.main.Checked?
    case Post => l.main == H.Armed
    case ClientSend(f) => f.id != ID_HEARTBEAT
    case DoWrite => l.client.posted != []
    case ClientTransmit(k) => l.client.connected && k < |l.client.flight| && !l.client.flight[k].sent
    case ClientWritten(k) => k < |l.client.flight| && l.client.flight[k].sent && l.client.queue != []
    case ClientFail(k) => k < |l.client.flight|
    case ClientClose => true
    case ServerRead => l.toServer != []
    case ServerSend(f) => f.id != ID_HEARTBEAT
    case ServerIo(a) => !a.ASend? && W.Enabled(l.server, a)
    case ClientRead => l.toClient != []
  }

  /** What the server's read handler sends back. */
  function Answer(w: W.State, f: Frame): W.State {
    if f.id == ID_HEARTBEAT then W.Send(w, Echo(f)) else w
  }

  /** What the client's read handler does apart from the receive queue. */
  function Heed(d: Doubles, c: State, f: Frame, now: real): State {
    if f.id == ID_HEARTBEAT then BeatReturned(c, d.get(f.body), now) else c
  }

  function Posted(l: Link, f: Frame): Link {
    l.(client := Write(l.client, f), written := l.written + [f])
  }

  function After(d: Doubles, l: Link, st: Step): Link
    requires CanStep(d, l, st)
  {
    match st
    case Tick(dt) => l.(now := l.now + dt)
    case Check => l.(main := H.Checked(l.now))
    case Arm =>
      l.(main := H.Armed, client := ClientState.Arm(l.client, l.main.time), sends := l.sends + [l.main.time])
    case Post => Posted(l, Beat(d, l.client)).(main := H.Ready)
    case ClientSend(f) => Posted(l, f)
    case DoWrite => l.(client := ClientState.DoWrite(l.client))
    case ClientTransmit(k) =>
      l.(client := Transmit(l.client, k), toServer := l.toServer + [l.client.flight[k].f])
    case ClientWritten(k) => l.(client := Written(l.client, k))
    case ClientFail(k) => l.(client := WriteFailed(l.client, k))
    case ClientClose => l.(client := l.client.(connected := false))
    case ServerRead =>
      l.(toServer := l.toServer[1..], server := Answer(l.server, l.toServer[0]), dropped := l.dropped || Drops(l),
         consumed := l.consumed + [l.toServer[0]])
    case ServerSend(f) => l.(server := W.Send(l.server, f))
    case ServerIo(a) =>
      l.(server := W.Moved(l.server, a),
         toClient := if a.ATransmit? then l.toClient + [l.server.flight[a.k].f] else l.toClient)
    case ClientRead =>
      var f := l.toClient[0];
      l.(toClient := l.toClient[1..], client := Heed(d, l.client, f, l.now),
         arrivals := if f.id == ID_HEARTBEAT then l.arrivals + [l.now] else l.arrivals)
  }

  /** The server is about to answer a heartbeat on a closed socket. */
  predicate Drops(l: Link)
    requires l.toServer != []
  {
    l.toServer[0].id == ID_HEARTBEAT && !l.server.open
  }

  predicate Possible(d: Doubles, now: real, steps: seq<Step>)
    decreases |steps|, 0
  {
    steps == []
    || (Possible(d, now, steps[..|steps| - 1])
        && CanStep(d, Play(d, now, steps[..|steps| - 1]), steps[|steps| - 1]))
  }

  function Play(d: Doubles, now: real, steps: seq<Step>): Link
    requires Possible(d, now, steps)
    decreases |steps|, 1
  {
    if steps == [] then Start(now) else After(d, Play(d, now, steps[..|steps| - 1]), steps[|steps| - 1])
  }

  // ---- Seen as heartbeats ----

  function ItemOf(d: Doubles, f: Frame): H.Item {
    if f.id == ID_HEARTBEAT then H.Beat(d.get(f.body)) else H.Other
  }

  function Items(d: Doubles, fs: seq<Frame>): (r: seq<H.Item>)
    ensures |r| == |fs| && forall i :: 0 <= i < |fs| ==> r[i] == ItemOf(d, fs[i])
  {
    seq(|fs|, i requires 0 <= i < |fs| => ItemOf(d, fs[i]))
  }

  lemma ItemsAppend(d: Doubles, a: seq<Frame>, b: seq<Frame>)
    ensures Items(d, a + b) == Items(d, a) + Items(d, b)
  {
  }

  lemma ItemsTail(d: Doubles, fs: seq<Frame>)
    requires fs != []
    ensures Items(d, fs[1..]) == Items(d, fs)[1..] && Items(d, fs)[0] == ItemOf(d, fs[0])
  {
  }

  lemma ItemsSnoc(d: Doubles, fs: seq<Frame>, f: Frame)
    ensures Items(d, fs + [f]) == Items(d, fs) + [ItemOf(d, f)]
  {
  }

  /** The part of a write queue whose bytes are not out yet. */
  function Unsent(queue: seq<Frame>, chain: seq<W.Write>): seq<Frame> {
    if queue != [] && chain != [] && chain[0].sent then queue[1..] else queue
  }

  function ClientUnsent(c: State): seq<Frame> {
    Unsent(c.queue, Chain(c))
  }

  function ServerUnsent(w: W.State): seq<Frame> {
    Unsent(w.queue, W.Chain(w))
  }

  function View(d: Doubles, l: Link): H.State {
    H.State(l.main, l.client.beating, l.client.timeLast, l.client.netDelay, l.now,
            Items(d, l.client.posted), Items(d, ClientUnsent(l.client)), Items(d, l.toServer),
            Items(d, ServerUnsent(l.server)), Items(d, l.toClient), l.dropped, l.sends, l.arrivals)
  }

  /** Both write chains are in order, and the times that a heartbeat may carry fit a double. */
  ghost predicate Sane(d: Doubles, l: Link) {
    && Chained(l.client)
    && W.Chained(l.server)
    && d.Holds(l.now)
    && (l.main.Checked? ==> d.Holds(l.main.time))
    && (l.main == H.Armed ==> d.Holds(l.client.timeLast))
  }

  /** The step of Heartbeat that a step is, if it is one; the others change nothing that it looks at. */
  function Mirror(l: Link, st: Step): Option<H.Step> {
    match st
    case Tick(dt) => Some(H.Tick(dt))
    case Check => Some(H.Check)
    case Arm => Some(H.Arm)
    case Post => Some(H.Post)
    case ClientSend(_) => Some(H.ClientSend)
    case DoWrite => Some(H.DoWrite)
    case ClientTransmit(_) => Some(H.ClientTransmit)
    case ServerRead => Some(if l.toServer != [] && Drops(l) then H.ServerDrop else H.ServerRead)
    case ServerSend(_) => if l.server.open then Some(H.ServerSend) else None
    case ServerIo(a) => if a.ATransmit? then Some(H.ServerTransmit) else None
    case ClientRead => Some(H.ClientRead)
    case _ => None
  }

  ghost predicate Mirrors(d: Doubles, l: Link, st: Step)
    requires CanStep(d, l, st)
  {
    match Mirror(l, st)
    case None => View(d, After(d, l, st)) == View(d, l)
    case Some(a) => H.CanStep(View(d, l), a) && H.After(View(d, l), a) == View(d, After(d, l, st))
  }

  /** Sending on an open socket puts the package at the end of what is unsent. */
  lemma SendUnsent(w: W.State, f: Frame)
    requires W.Chained(w)
    ensures W.Chained(W.Send(w, f))
    ensures ServerUnsent(W.Send(w, f)) == if w.open then ServerUnsent(w) + [f] else ServerUnsent(w)
  {
    W.MovedChain(w, W.ASend(f));
    W.MovedLength(w, W.ASend(f));
  }

  /** Of the io service's steps only a transmission takes from it, and takes its front. */
  lemma IoUnsent(w: W.State, a: W.Act)
    requires W.Chained(w) && W.Enabled(w, a) && !a.ASend?
    ensures W.Chained(W.Moved(w, a))
    ensures var u, u' := ServerUnsent(w), ServerUnsent(W.Moved(w, a));
      if a.ATransmit? then u != [] && w.flight[a.k].f == u[0] && u' == u[1..] else u' == u
  {
    W.MovedChain(w, a);
    W.MovedLength(w, a);
    if a.ATransmit? || a.APop? {
      assert W.Chain(w)[0] == w.flight[0];
    }
  }

  lemma DoWriteUnsent(c: State)
    requires Chained(c) && c.posted != []
    ensures ClientUnsent(ClientState.DoWrite(c)) == ClientUnsent(c) + [c.posted[0]]
  {
    DoWriteChained(c);
  }

  lemma TransmitUnsent(c: State, k: nat)
    requires Chained(c) && k < |c.flight| && !c.flight[k].sent
    ensures var u := ClientUnsent(c);
      u != [] && c.flight[k].f == u[0] && ClientUnsent(Transmit(c, k)) == u[1..]
  {
    FlightIsChain(c);
    TransmitChained(c, k);
  }

  lemma WrittenUnsent(c: State, k: nat)
    requires Chained(c) && k < |c.flight| && c.flight[k].sent
    ensures c.queue != [] && ClientUnsent(Written(c, k)) == ClientUnsent(c)
  {
    FlightIsChain(c);
    WrittenChained(c, k);
  }

  lemma MainMirrors(d: Doubles, l: Link, st: Step)
    requires d.Sound() && Sane(d, l) && CanStep(d, l, st) && (st.Tick? || st.Check? || st.Arm? || st.Post?)
    ensures Sane(d, After(d, l, st)) && Mirrors(d, l, st)
  {
    if st.Post? {
      ItemsSnoc(d, l.client.posted, Frame(ID_HEARTBEAT, 0, d.put(l.client.timeLast)));
    }
  }

  lemma DoWriteMirrors(d: Doubles, l: Link)
    requires Sane(d, l) && CanStep(d, l, DoWrite)
    ensures Sane(d, After(d, l, DoWrite)) && Mirrors(d, l, DoWrite)
  {
    var c := l.client;
    DoWriteChained(c);
    DoWriteUnsent(c);
    ItemsTail(d, c.posted);
    ItemsSnoc(d, ClientUnsent(c), c.posted[0]);
  }

  lemma ClientTransmitMirrors(d: Doubles, l: Link, k: nat)
    requires Sane(d, l) && CanStep(d, l, ClientTransmit(k))
    ensures Sane(d, After(d, l, ClientTransmit(k))) && Mirrors(d, l, ClientTransmit(k))
  {
    var c := l.client;
    TransmitChained(c, k);
    TransmitUnsent(c, k);
    ItemsTail(d, ClientUnsent(c));
    ItemsSnoc(d, l.toServer, ClientUnsent(c)[0]);
  }

  lemma ClientMirrors(d: Doubles, l: Link, st: Step)
    requires Sane(d, l) && CanStep(d, l, st)
    requires st.ClientSend? || st.ClientWritten? || st.ClientFail? || st.ClientClose?
    ensures Sane(d, After(d, l, st)) && Mirrors(d, l, st)
  {
    var c := l.client;
    match st {
      case ClientSend(f) => ItemsSnoc(d, c.posted, f);
      case ClientWritten(k) =>
        WrittenChained(c, k);
        WrittenUnsent(c, k);
      case ClientFail(k) => WriteFailedChained(c, k);
      case ClientClose =>
    }
  }

  /** Reading the echo finds the time that was read. */
  lemma EchoItem(d: Doubles, f: Frame)
    requires d.Sound() && f.id == ID_HEARTBEAT
    ensures ItemOf(d, Echo(f)) == ItemOf(d, f)
    ensures |Echo(f).body| == TIME_SIZE && (TIME_SIZE <= |f.body| ==> Echo(f).body == f.body[..TIME_SIZE])
  {
  }

  /** A client's beat comes back as it was sent. */
  lemma BeatReturnsWhole(d: Doubles, c: State)
    requires d.Sound()
    ensures Echo(Beat(d, c)) == Beat(d, c)
  {
    assert Resize(Beat(d, c).body, TIME_SIZE) == Beat(d, c).body;
  }

  lemma ServerReadMirrors(d: Doubles, l: Link)
    requires d.Sound() && Sane(d, l) && CanStep(d, l, ServerRead)
    ensures Sane(d, After(d, l, ServerRead)) && Mirrors(d, l, ServerRead)
  {
    var f, u := l.toServer[0], ServerUnsent(l.server);
    ItemsTail(d, l.toServer);
    if f.id == ID_HEARTBEAT {
      EchoItem(d, f);
      SendUnsent(l.server, Echo(f));
      ItemsSnoc(d, u, Echo(f));
    } else {
      assert Items(d, u) + [] == Items(d, u);
    }
  }

  lemma ServerIoMirrors(d: Doubles, l: Link, a: W.Act)
    requires Sane(d, l) && CanStep(d, l, ServerIo(a))
    ensures Sane(d, After(d, l, ServerIo(a))) && Mirrors(d, l, ServerIo(a))
  {
    IoUnsent(l.server, a);
    if a.ATransmit? {
      ItemsTail(d, ServerUnsent(l.server));
      ItemsSnoc(d, l.toClient, ServerUnsent(l.server)[0]);
    }
  }

  lemma ServerSendMirrors(d: Doubles, l: Link, f: Frame)
    requires Sane(d, l) && CanStep(d, l, ServerSend(f))
    ensures Sane(d, After(d, l, ServerSend(f))) && Mirrors(d, l, ServerSend(f))
  {
    SendUnsent(l.server, f);
    ItemsSnoc(d, ServerUnsent(l.server), f);
  }

  lemma HeedKeeps(d: Doubles, c: State, f: Frame, now: real)
    requires Chained(c)
    ensures var c' := Heed(d, c, f, now);
      && Chained(c') && c'.posted == c.posted && ClientUnsent(c') == ClientUnsent(c) && c'.timeLast == c.timeLast
      && c'.beating == (c.beating && f.id != ID_HEARTBEAT)
      && c'.netDelay == if f.id == ID_HEARTBEAT then (now - d.get(f.body)) * 0.5 else c.netDelay
  {
  }

  lemma ReadMirrors(d: Doubles, l: Link)
    requires Sane(d, l) && CanStep(d, l, ClientRead)
    ensures Sane(d, After(d, l, ClientRead)) && Mirrors(d, l, ClientRead)
  {
    HeedKeeps(d, l.client, l.toClient[0], l.now);
    ItemsTail(d, l.toClient);
    assert ItemOf(d, l.toClient[0]).Beat? <==> l.toClient[0].id == ID_HEARTBEAT;
  }

  /** Every step of the link is a step of Heartbeat or invisible to it. */
  lemma StepMirrors(d: Doubles, l: Link, st: Step)
    requires d.Sound() && Sane(d, l) && CanStep(d, l, st)
    ensures Sane(d, After(d, l, st)) && Mirrors(d, l, st)
  {
    match st {
      case DoWrite => DoWriteMirrors(d, l);
      case ClientTransmit(k) => ClientTransmitMirrors(d, l, k);
      case ServerRead => ServerReadMirrors(d, l);
      case ServerSend(f) => ServerSendMirrors(d, l, f);
      case ServerIo(a) => ServerIoMirrors(d, l, a);
      case ClientRead => ReadMirrors(d, l);
      case Tick(_) => MainMirrors(d, l, st);
      case Check => MainMirrors(d, l, st);
      case Arm => MainMirrors(d, l, st);
      case Post => MainMirrors(d, l, st);
      case _ => ClientMirrors(d, l, st);
    }
  }

  // ---- What holds of the frames ----

  /** Every frame on its way round, the one nearest to the client's read handler first. */
  function Underway(l: Link): seq<Frame> {
    l.toClient + ServerUnsent(l.server) + l.toServer + ClientUnsent(l.client) + l.client.posted
  }

  /** The times that the heartbeats among some frames carry. */
  function BeatTimes(d: Doubles, fs: seq<Frame>): seq<real> {
    H.Beats(Items(d, fs))
  }

  lemma UnderwayIsRing(d: Doubles, l: Link)
    ensures BeatTimes(d, Underway(l)) == H.InFlight(View(d, l))
  {
    var a, b, c := l.toClient, ServerUnsent(l.server), l.toServer;
    ItemsAppend(d, a, b);
    ItemsAppend(d, a + b, c);
    ItemsAppend(d, a + b + c, ClientUnsent(l.client));
    ItemsAppend(d, a + b + c + ClientUnsent(l.client), l.client.posted);
  }

  lemma {:induction false} RunMirrors(d: Doubles, now: real, steps: seq<Step>)
    requires d.Sound() && d.Holds(now) && Possible(d, now, steps)
    ensures var l := Play(d, now, steps);
      Sane(d, l) && H.OneBeat(View(d, l)) && H.Timed(View(d, l))
  {
    if steps != [] {
      var front, st := steps[..|steps| - 1], steps[|steps| - 1];
      RunMirrors(d, now, front);
      var l := Play(d, now, front);
      StepMirrors(d, l, st);
      if Mirror(l, st).Some? {
        H.StepKeepsOneBeat(View(d, l), Mirror(l, st).value);
        H.StepKeepsTimed(View(d, l), Mirror(l, st).value);
      }
    }
  }

  ghost predicate BeatsInOrder(d: Doubles, l: Link) {
    && BeatTimes(d, Underway(l))
       == (if l.client.beating && l.main != H.Armed && !l.dropped then [l.client.timeLast] else [])
    && H.RoundTrips(l.sends, l.arrivals, l.client.netDelay)
    && l.client.netDelay >= 0.0
  }

  lemma InOrder(d: Doubles, l: Link)
    requires H.OneBeat(View(d, l)) && H.Timed(View(d, l))
    ensures BeatsInOrder(d, l)
  {
    UnderwayIsRing(d, l);
    H.DelayNotNegative(l.sends, l.arrivals, l.client.netDelay);
  }

  /** Over any run of one link, whatever fails or closes: while `m_bTimeLast` is up exactly one heartbeat frame
      is on its way and carries the time recorded, unless the server dropped its echo; while it is down there is
      none; and `m_dNetDelay` is half of the last round trip and not negative. */
  lemma {:induction false} HeartbeatsOnTheLink(d: Doubles, now: real, steps: seq<Step>)
    requires d.Sound() && d.Holds(now) && Possible(d, now, steps)
    ensures BeatsInOrder(d, Play(d, now, steps))
  {
    RunMirrors(d, now, steps);
    InOrder(d, Play(d, now, steps));
  }

  // ---- From the client to the server ----

  /** What the client wrote is what the server read followed by everything still on its way there, in order. */
  ghost predicate Upward(l: Link) {
    l.consumed + l.toServer + ClientUnsent(l.client) + l.client.posted == l.written
  }

  /** A queue's front goes to the end of the one ahead. */
  lemma Onward(a: seq<Frame>, b: seq<Frame>, c: seq<Frame>)
    requires b != []
    ensures a + [b[0]] + b[1..] + c == a + b + c
  {
  }

  lemma WriteUpward(l: Link, f: Frame)
    requires Upward(l)
    ensures Upward(Posted(l, f))
  {
    var ahead := l.consumed + l.toServer + ClientUnsent(l.client);
    assert ahead + (l.client.posted + [f]) == ahead + l.client.posted + [f];
  }

  lemma DoWriteUpward(d: Doubles, l: Link)
    requires Sane(d, l) && Upward(l) && CanStep(d, l, DoWrite)
    ensures Upward(After(d, l, DoWrite))
  {
    DoWriteUnsent(l.client);
    var ahead, u, p := l.consumed + l.toServer, ClientUnsent(l.client), l.client.posted;
    Onward(ahead + u, p, []);
    assert ahead + (u + [p[0]]) == ahead + u + [p[0]];
    assert ahead + u + [p[0]] + p[1..] + [] == ahead + u + [p[0]] + p[1..];
    assert ahead + u + p + [] == ahead + u + p;
  }

  lemma TransmitUpward(d: Doubles, l: Link, k: nat)
    requires Sane(d, l) && Upward(l) && CanStep(d, l, ClientTransmit(k))
    ensures Upward(After(d, l, ClientTransmit(k)))
  {
    TransmitUnsent(l.client, k);
    var u := ClientUnsent(l.client);
    Onward(l.consumed + l.toServer, u, l.client.posted);
    assert l.consumed + (l.toServer + [u[0]]) == l.consumed + l.toServer + [u[0]];
  }

  lemma ServerReadUpward(d: Doubles, l: Link)
    requires Upward(l) && CanStep(d, l, ServerRead)
    ensures Upward(After(d, l, ServerRead))
  {
    var behind := ClientUnsent(l.client) + l.client.posted;
    Onward(l.consumed, l.toServer, behind);
    var front := l.consumed + [l.toServer[0]];
    assert front + l.toServer[1..] + behind == front + l.toServer[1..] + ClientUnsent(l.client) + l.client.posted;
    assert l.consumed + l.toServer + behind == l.consumed + l.toServer + ClientUnsent(l.client) + l.client.posted;
  }

  /** The client's reader, the application's clock and the server's writer do not touch the way up. */
  lemma QuietUpward(l: Link, m: Link)
    requires Upward(l) && m.consumed == l.consumed && m.toServer == l.toServer && m.written == l.written
    requires ClientUnsent(m.client) == ClientUnsent(l.client) && m.client.posted == l.client.posted
    ensures Upward(m)
  {
  }

  lemma StepUpward(d: Doubles, l: Link, st: Step)
    requires Sane(d, l) && Upward(l) && CanStep(d, l, st)
    ensures Upward(After(d, l, st))
  {
    match st {
      case Post => WriteUpward(l, Beat(d, l.client));
      case ClientSend(f) => WriteUpward(l, f);
      case DoWrite => DoWriteUpward(d, l);
      case ClientTransmit(k) => TransmitUpward(d, l, k);
      case ServerRead => ServerReadUpward(d, l);
      case ClientWritten(k) =>
        WrittenUnsent(l.client, k);
        QuietUpward(l, After(d, l, st));
      case ClientFail(k) =>
        WriteFailedChained(l.client, k);
        QuietUpward(l, After(d, l, st));
      case ClientRead =>
        HeedKeeps(d, l.client, l.toClient[0], l.now);
        QuietUpward(l, After(d, l, st));
      case _ => QuietUpward(l, After(d, l, st));
    }
  }

  // ---- When the client beats, and how long it is connected ----

  /** `SwapQueue` sends a beat exactly when Heartbeat does, on a connected client. */
  lemma BeatsWhenHeartbeatDoes(d: Doubles, l: Link)
    ensures CanStep(d, l, Check) <==> l.client.connected && H.CanStep(View(d, l), H.Check)
  {
  }

  lemma {:induction false} StepConnected(d: Doubles, l: Link, st: Step)
    requires CanStep(d, l, st)
    ensures After(d, l, st).client.connected == (l.client.connected && !st.ClientFail? && !st.ClientClose?)
  {
  }

  /** Over any run the client is connected exactly until a write fails or the connection is closed. */
  lemma {:induction false} ConnectedUntil(d: Doubles, now: real, steps: seq<Step>)
    requires Possible(d, now, steps)
    ensures Play(d, now, steps).client.connected
            <==> forall st :: st in steps ==> !st.ClientFail? && !st.ClientClose?
  {
    if steps != [] {
      var front, last := steps[..|steps| - 1], steps[|steps| - 1];
      assert steps == front + [last];
      ConnectedUntil(d, now, front);
      StepConnected(d, Play(d, now, front), last);
    }
  }

  // ---- The client's backlog ----

  /** In every reachable state the client refuses a big message that may be lost rightly, whatever the limit, if
      and only if no `do_write` call is waiting and the bytes counted fit 32 bits. */
  lemma {:induction false} ClientRefusalIsRightIff(d: Doubles, now: real, steps: seq<Step>)
    requires d.Sound() && d.Holds(now) && Possible(d, now, steps)
    ensures CountsQueueOnly(Play(d, now, steps).client)
  {
    RunMirrors(d, now, steps);
    RefusalIsRight(Play(d, now, steps).client);
  }
}
