/** The way from `Send` of the client to the server's application: the link of HeartbeatLink with the messages that
    its client takes, and the session of the server that reads it. */
module Uplink {
  import opened Wire
  import opened BigMessage
  import opened ReceiveQueue
  import opened Coding
  import C = ClientState
  import L = HeartbeatLink
  import S = Sessions
  import W = Writer

  /** The link, the messages taken so far, and the frames of the last one that are still to be written. */
  datatype Up = Up(link: L.Link, taken: seq<Coded>, pending: seq<Frame>)

  datatype Step =
    | Take(m: Msg, allowLost: bool, limit: u32)  // a Send takes a message
    | Hand                                       // it writes one frame
    | Other(st: L.Step)

  /** One thread sends at a time. */
  predicate CanStep(z: Zlib, d: C.Doubles, u: Up, st: Step) {
    match st
    case Take(m, allowLost, limit) =>
      u.pending == [] && Acceptable(z, m) && C.Takes(u.link.client, allowLost && m.Big?, limit)
    case Hand => u.pending != []
    case Other(lst) => !lst.ClientSend? && L.CanStep(d, u.link, lst)
  }

  /** A Send writes one frame. */
  function HandOne(u: Up): Up
    requires u.pending != []
  {
    u.(link := L.Posted(u.link, u.pending[0]), pending := u.pending[1..])
  }

  function After(z: Zlib, d: C.Doubles, u: Up, st: Step): Up
    requires CanStep(z, d, u, st)
  {
    match st
    case Take(m, _, _) => u.(taken := u.taken + [Code(z, m)], pending := Code(z, m).frames)
    case Hand => HandOne(u)
    case Other(lst) => u.(link := L.After(d, u.link, lst))
  }

  /** The client's part of one Send: what its contract says the call leaves behind. */
  function Sent(z: Zlib, c: C.State, m: Msg, allowLost: bool, limit: u32): C.State
    requires Acceptable(z, m)
  {
    match m
    case Plain(f) => C.Send(c, f)
    case Big(b) => C.SendBig(c, Stream(z, b), allowLost, limit)
  }

  /** The link after n frames were written with nothing in between. */
  function Handed(u: Up, n: nat): (v: Up)
    requires n <= |u.pending|
    ensures v.pending == u.pending[n..]
  {
    if n == 0 then u
    else
      HandOne(Handed(u, n - 1))
  }

  lemma {:induction false} HandedWrites(u: Up, n: nat)
    requires n <= |u.pending|
    ensures Handed(u, n).link.client == C.WriteAll(u.link.client, u.pending[..n])
  {
    if n > 0 {
      var k: nat, f := n - 1, u.pending[n - 1];
      HandedWrites(u, k);
      assert u.pending[..n] == u.pending[..k] + [f];
      C.WriteAllSnoc(u.link.client, u.pending[..k], f);
      assert Handed(u, k).pending[0] == f;
    }
  }

  lemma SentIsAllOrNothing(z: Zlib, c: C.State, m: Msg, allowLost: bool, limit: u32)
    requires Acceptable(z, m)
    ensures Sent(z, c, m, allowLost, limit)
         == if C.Takes(c, allowLost && m.Big?, limit) then C.WriteAll(c, Code(z, m).frames) else c
  {
    var fs := Code(z, m).frames;
    match m {
      case Plain(f) => C.SendsWriteAllOrNothing(c, fs, false, limit);
      case Big(b) => C.SendsWriteAllOrNothing(c, fs, allowLost, limit);
    }
  }

  lemma TakenIsWritten(z: Zlib, d: C.Doubles, u: Up, m: Msg, allowLost: bool, limit: u32)
    requires CanStep(z, d, u, Take(m, allowLost, limit))
    ensures var v := After(z, d, u, Take(m, allowLost, limit));
      Handed(v, |v.pending|).link.client == C.WriteAll(u.link.client, Code(z, m).frames)
  {
    var v := After(z, d, u, Take(m, allowLost, limit));
    HandedWrites(v, |v.pending|);
    assert v.pending[..|v.pending|] == v.pending;
  }

  /** A Send is taken exactly if there is a connection and it is not refused; taking it and writing every frame leaves
      the client as the method does; not taken, the method leaves it as it was. */
  lemma TakeAndHandIsSend(z: Zlib, d: C.Doubles, u: Up, m: Msg, allowLost: bool, limit: u32)
    requires u.pending == [] && Acceptable(z, m)
    ensures var c := u.link.client;
      CanStep(z, d, u, Take(m, allowLost, limit))
      <==> c.connected && (allowLost && m.Big? ==> !W.Refuses(c.numOfWrite, limit))
    ensures var sent := Sent(z, u.link.client, m, allowLost, limit);
      if CanStep(z, d, u, Take(m, allowLost, limit)) then
        var v := After(z, d, u, Take(m, allowLost, limit));
        Handed(v, |v.pending|).link.client == sent
      else sent == u.link.client
  {
    SentIsAllOrNothing(z, u.link.client, m, allowLost, limit);
    if CanStep(z, d, u, Take(m, allowLost, limit)) {
      TakenIsWritten(z, d, u, m, allowLost, limit);
    }
  }

  predicate Possible(z: Zlib, d: C.Doubles, now: real, steps: seq<Step>)
    decreases |steps|, 0
  {
    steps == []
    || (Possible(z, d, now, steps[..|steps| - 1])
        && CanStep(z, d, Play(z, d, now, steps[..|steps| - 1]), steps[|steps| - 1]))
  }

  function Play(z: Zlib, d: C.Doubles, now: real, steps: seq<Step>): Up
    requires Possible(z, d, now, steps)
    decreases |steps|, 1
  {
    if steps == [] then Up(L.Start(now), [], [])
    else After(z, d, Play(z, d, now, steps[..|steps| - 1]), steps[|steps| - 1])
  }

  /** The messages taken are written whole and in order, heartbeats between their frames, and the link keeps what
      was written in order. */
  ghost predicate InOrder(z: Zlib, d: C.Doubles, u: Up) {
    && L.Sane(d, u.link) && L.Upward(u.link)
    && AllDecode(z, u.taken)
    && NonBeat(u.link.written) + u.pending == Flat(u.taken)
  }

  lemma TakeInOrder(z: Zlib, d: C.Doubles, u: Up, c: Coded)
    requires InOrder(z, d, u) && u.pending == [] && Decodes(z, c)
    ensures InOrder(z, d, u.(taken := u.taken + [c], pending := c.frames))
  {
    assert NonBeat(u.link.written) + [] == NonBeat(u.link.written);
    FlatSnoc(u.taken, c);
    AllDecodeSnoc(z, u.taken, c);
  }

  lemma HandInOrder(z: Zlib, d: C.Doubles, u: Up)
    requires d.Sound() && InOrder(z, d, u) && u.pending != []
    ensures InOrder(z, d, HandOne(u))
  {
    var f, before := u.pending[0], NonBeat(u.link.written);
    assert before + [f] + u.pending[1..] == before + u.pending;
    NextIsNoBeat(z, u.taken, before, f, u.pending[1..]);
    HandOverMoves(z, u.taken, u.link.written, u.pending);
    L.StepMirrors(d, u.link, L.ClientSend(f));
    L.WriteUpward(u.link, f);
  }

  /** A step of the link writes nothing but heartbeats. */
  lemma OtherWrites(d: C.Doubles, l: L.Link, st: L.Step)
    requires L.CanStep(d, l, st) && !st.ClientSend?
    ensures NonBeat(L.After(d, l, st).written) == NonBeat(l.written)
  {
    if st.Post? {
      NonBeatSnoc(l.written, C.Beat(d, l.client));
    }
  }

  lemma OtherInOrder(z: Zlib, d: C.Doubles, u: Up, st: L.Step)
    requires d.Sound() && InOrder(z, d, u) && CanStep(z, d, u, Other(st))
    ensures InOrder(z, d, u.(link := L.After(d, u.link, st)))
  {
    L.StepMirrors(d, u.link, st);
    L.StepUpward(d, u.link, st);
    OtherWrites(d, u.link, st);
  }

  lemma StepInOrder(z: Zlib, d: C.Doubles, u: Up, st: Step)
    requires z.Sound() && d.Sound() && InOrder(z, d, u) && CanStep(z, d, u, st)
    ensures InOrder(z, d, After(z, d, u, st))
  {
    match st {
      case Take(m, _, _) =>
        AcceptableDecodes(z, m);
        TakeInOrder(z, d, u, Code(z, m));
      case Hand => HandInOrder(z, d, u);
      case Other(lst) => OtherInOrder(z, d, u, lst);
    }
  }

  lemma {:induction false} AlwaysInOrder(z: Zlib, d: C.Doubles, now: real, steps: seq<Step>)
    requires z.Sound() && d.Sound() && d.Holds(now) && Possible(z, d, now, steps)
    ensures InOrder(z, d, Play(z, d, now, steps))
  {
    if steps != [] {
      AlwaysInOrder(z, d, now, steps[..|steps| - 1]);
      StepInOrder(z, d, Play(z, d, now, steps[..|steps| - 1]), steps[|steps| - 1]);
    }
  }

  /** What the server has read is, without heartbeats, a prefix of the frames of the messages taken, and the wire
      continues it. */
  lemma ReadInOrder(z: Zlib, d: C.Doubles, u: Up)
    requires InOrder(z, d, u)
    ensures var l := u.link;
      && NonBeat(l.consumed) <= Flat(u.taken)
      && (l.toServer != [] && l.toServer[0].id != ID_HEARTBEAT ==>
            NonBeat(l.consumed) + [l.toServer[0]] <= Flat(u.taken))
  {
    var l := u.link;
    var rest := l.toServer + L.ClientUnsent(l.client) + l.client.posted;
    assert l.consumed + rest == l.written;
    ReadIsPrefix(l.consumed, rest, Flat(u.taken));
  }

  /** Session s reads at the other end of the link. */
  predicate Joined(v: S.Server, s: nat, u: Up) {
    s in v.sessions && v.sessions[s].input == u.link.consumed
  }

  /** Whatever becomes of the link and whatever the other sessions do: the server has delivered from this session
      exactly the messages that its client took and it has wholly read, a prefix of them in order, each byte for
      byte; and the next frame on the wire does not break the session's read handler. */
  lemma {:induction false} UplinkDelivery(z: Zlib, d: C.Doubles, now: real, steps: seq<Step>,
                                          maxLinks: nat, serverSteps: seq<S.Step>, s: nat)
    requires z.Sound() && d.Sound() && d.Holds(now) && Possible(z, d, now, steps)
    requires S.Possible(z, maxLinks, serverSteps)
    requires Joined(S.Play(z, maxLinks, serverSteps), s, Play(z, d, now, steps))
    ensures var u, v := Play(z, d, now, steps), S.Play(z, maxLinks, serverSteps);
      && Received(v.events, s) == ExpectedAll(u.taken[..Whole(u.taken, |NonBeat(u.link.consumed)|)])
      && (u.link.toServer != [] ==> !Breaks(z, v.sessions[s].rx, u.link.toServer[0]))
  {
    var u, v := Play(z, d, now, steps), S.Play(z, maxLinks, serverSteps);
    AlwaysInOrder(z, d, now, steps);
    ReadInOrder(z, d, u);
    S.SessionDelivers(z, maxLinks, serverSteps, s, u.taken);
    S.Demultiplexing(z, maxLinks, serverSteps);
    assert S.DemuxedAt(z, v, s);
    var c := v.sessions[s];
    if u.link.toServer != [] && u.link.toServer[0].id != ID_HEARTBEAT {
      ReplayNext(z, c.rx0, u.taken, NonBeat(c.input), u.link.toServer[0]);
    }
  }

  /** When nothing is on its way up, everything taken has been delivered. */
  lemma {:induction false} UplinkAtRest(z: Zlib, d: C.Doubles, now: real, steps: seq<Step>,
                                        maxLinks: nat, serverSteps: seq<S.Step>, s: nat)
    requires z.Sound() && d.Sound() && d.Holds(now) && Possible(z, d, now, steps)
    requires S.Possible(z, maxLinks, serverSteps)
    requires Joined(S.Play(z, maxLinks, serverSteps), s, Play(z, d, now, steps))
    requires var u := Play(z, d, now, steps);
      u.pending == [] && u.link.client.posted == [] && L.ClientUnsent(u.link.client) == [] && u.link.toServer == []
    ensures Received(S.Play(z, maxLinks, serverSteps).events, s) == ExpectedAll(Play(z, d, now, steps).taken)
  {
    var u := Play(z, d, now, steps);
    AlwaysInOrder(z, d, now, steps);
    UplinkDelivery(z, d, now, steps, maxLinks, serverSteps, s);
    assert u.link.consumed == u.link.written;
    assert NonBeat(u.link.written) == Flat(u.taken);
    assert u.taken[..|u.taken|] == u.taken;
  }
}
