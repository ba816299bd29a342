/** The client's heartbeat: sent from `SwapQueue`, echoed by the server, timed by `OnRecvHeartbeat`. */
module Heartbeat {

  /** A package as far as heartbeats go; a beat carries the time at which it was sent. */
  datatype Item = Beat(time: real) | Other

  /** Where the application thread is in `SwapQueue`: outside; past both tests, with the time it read; or past
      setting the flag, with the write still to come. */
  datatype Main = Ready | Checked(time: real) | Armed

  /** Packages on their way round, and the client's fields. A package counts as written from the moment its
      bytes are out. */
  datatype State = State(
    main: Main,
    beating: bool,        // m_bTimeLast
    last: real,           // m_dTimeLast
    delay: real,          // m_dNetDelay
    now: real,
    posted: seq<Item>,    // do_write calls posted to the io service
    clientQueue: seq<Item>,
    toServer: seq<Item>,
    serverQueue: seq<Item>,
    toClient: seq<Item>,
    dropped: bool,         // the server had closed the socket when it answered a beat
    sends: seq<real>,     // when beats were sent
    arrivals: seq<real>)   // when they came back

  function Start(now: real): State {
    State(Ready, false, 0.0, 0.0, now, [], [], [], [], [], false, [], [])
  }

  datatype Step =
    | Tick(d: real)
    | Check            // SwapQueue finds no beat outstanding and more than half a second gone
    | Arm              // it records the time and raises the flag
    | Post             // it posts the beat
    | ClientSend       // the application sends something else
    | DoWrite
    | ClientTransmit
    | ServerRead       // beats are echoed
    | ServerDrop       // a beat is read and its echo goes to a closed socket
    | ServerSend
    | ServerTransmit
    | ClientRead       // beats end in OnRecvHeartbeat

  predicate CanStep(s: State, st: Step) {
    match st
    case Tick(d) => d >= 0.0
    case Check => s.main == Ready && !s.beating && s.now > s.last + 0.5
    case Arm => s.main.Checked?
    case Post => s.main == Armed
    case ClientSend => true
    case DoWrite => s.posted != []
    case ClientTransmit => s.clientQueue != []
    case ServerRead => s.toServer != []
    case ServerDrop => s.toServer != [] && s.toServer[0].Beat?
    case ServerSend => true
    case ServerTransmit => s.serverQueue != []
    case ClientRead => s.toClient != []
  }

  function After(s: State, st: Step): State
    requires CanStep(s, st)
  {
    match st
    case Tick(d) => s.(now := s.now + d)
    case Check => s.(main := Checked(s.now))
    case Arm => s.(main := Armed, last := s.main.time, beating := true, sends := s.sends + [s.main.time])
    case Post => s.(main := Ready, posted := s.posted + [Beat(s.last)])
    case ClientSend => s.(posted := s.posted + [Other])
    case DoWrite => s.(posted := s.posted[1..], clientQueue := s.clientQueue + [s.posted[0]])
    case ClientTransmit => s.(clientQueue := s.clientQueue[1..], toServer := s.toServer + [s.clientQueue[0]])
    case ServerRead =>
      var echo := if s.toServer[0].Beat? then [s.toServer[0]] else [];
      s.(toServer := s.toServer[1..], serverQueue := s.serverQueue + echo)
    case ServerDrop => s.(toServer := s.toServer[1..], dropped := true)
    case ServerSend => s.(serverQueue := s.serverQueue + [Other])
    case ServerTransmit => s.(serverQueue := s.serverQueue[1..], toClient := s.toClient + [s.serverQueue[0]])
    case ClientRead =>
      var t := s.(toClient := s.toClient[1..]);
      match s.toClient[0]
      case Beat(time) => t.(beating := false, delay := (s.now - time) * 0.5, arrivals := s.arrivals + [s.now])
      case Other => t
  }

  predicate Possible(now: real, steps: seq<Step>)
    decreases |steps|, 0
  {
    steps == []
    || (Possible(now, steps[..|steps| - 1]) && CanStep(Play(now, steps[..|steps| - 1]), steps[|steps| - 1]))
  }

  function Play(now: real, steps: seq<Step>): State
    requires Possible(now, steps)
    decreases |steps|, 1
  {
    if steps == [] then Start(now) else After(Play(now, steps[..|steps| - 1]), steps[|steps| - 1])
  }

  /** The send times of the beats in a queue. */
  function Beats(q: seq<Item>): seq<real> {
    if q == [] then [] else BeatOf(q[0]) + Beats(q[1..])
  }

  function BeatOf(p: Item): seq<real> {
    if p.Beat? then [p.time] else []
  }

  lemma {:induction false} BeatsAppend(a: seq<Item>, b: seq<Item>)
    ensures Beats(a + b) == Beats(a) + Beats(b)
  {
    if a == [] {
      assert a + b == b;
    } else {
      assert (a + b)[1..] == a[1..] + b;
      BeatsAppend(a[1..], b);
      assert BeatOf(a[0]) + (Beats(a[1..]) + Beats(b)) == BeatOf(a[0]) + Beats(a[1..]) + Beats(b);
    }
  }

  /** Everything on the way round, the package nearest to returning first. */
  function Ring(s: State): seq<Item> {
    s.toClient + s.serverQueue + s.toServer + s.clientQueue + s.posted
  }

  function InFlight(s: State): seq<real> {
    Beats(Ring(s))
  }

  /** Exactly one beat, carrying the time last recorded, is on its way while the flag is up (once it is
      posted), and none otherwise; unless its echo was dropped: then none is, and the flag stays up. */
  ghost predicate OneBeat(s: State) {
    && InFlight(s) == (if s.beating && s.main != Armed && !s.dropped then [s.last] else [])
    && (s.main.Checked? ==> !s.beating)
    && (s.main == Armed ==> s.beating)
    && (s.dropped ==> s.beating && s.main == Ready)
  }

  predicate Spaced(times: seq<real>) {
    forall i, j :: 0 <= i < j < |times| ==> times[j] > times[i] + 0.5
  }

  lemma SpacedSnoc(times: seq<real>, t: real)
    requires Spaced(times) && (times != [] ==> t > times[|times| - 1] + 0.5)
    ensures Spaced(times + [t])
  {
    var last := |times| - 1;
    forall i, j | 0 <= i < j < |times + [t]| ensures (times + [t])[j] > (times + [t])[i] + 0.5 {
      if j == |times| && i < last {
        assert times[last] > times[i] + 0.5;
      }
    }
  }

  /** Beats are sent more than half a second apart and return in order, each after it was sent; the delay is
      half of the last round trip. */
  ghost predicate RoundTrips(sends: seq<real>, arrivals: seq<real>, delay: real) {
    && |arrivals| <= |sends| <= |arrivals| + 1
    && Spaced(sends)
    && (forall i :: 0 <= i < |arrivals| ==> sends[i] <= arrivals[i])
    && delay == if arrivals == [] then 0.0 else (arrivals[|arrivals| - 1] - sends[|arrivals| - 1]) * 0.5
  }

  ghost predicate Timed(s: State) {
    && |s.sends| == |s.arrivals| + (if s.beating then 1 else 0)
    && RoundTrips(s.sends, s.arrivals, s.delay)
    && (s.sends != [] ==> s.last == s.sends[|s.sends| - 1])
    && (s.sends == [] ==> s.last == 0.0)
    && (s.sends == [] || s.last <= s.now)
    && (s.main.Checked? ==> s.last + 0.5 < s.main.time <= s.now)
  }

  /** A package that is no beat does not show among the beats. */
  lemma OtherUnseen(a: seq<Item>, b: seq<Item>)
    ensures Beats(a + [Other] + b) == Beats(a + b)
  {
    BeatsAppend(a + [Other], b);
    BeatsAppend(a, [Other]);
    BeatsAppend(a, b);
    assert Beats([Other]) == [] + Beats([]);
    assert Beats(a) + [] == Beats(a);
  }

  /** Taking the front of one queue and putting it at the back of the one ahead changes no order. */
  lemma Shift(p: seq<Item>, a: seq<Item>, b: seq<Item>, q: seq<Item>)
    requires b != []
    ensures p + (a + [b[0]]) + b[1..] + q == p + a + b + q
  {
  }

  lemma RingOf(s: State)
    ensures Ring(s) == s.toClient + s.serverQueue + s.toServer + (s.clientQueue + s.posted)
    ensures Ring(s) == (s.toClient + s.serverQueue) + (s.toServer + (s.clientQueue + s.posted))
  {
  }

  lemma ServerReadRing(s: State)
    requires s.toServer != []
    ensures InFlight(After(s, ServerRead)) == InFlight(s)
  {
    var t, q := After(s, ServerRead), s.clientQueue + s.posted;
    RingOf(s);
    RingOf(t);
    if s.toServer[0].Beat? {
      Shift(s.toClient, s.serverQueue, s.toServer, q);
    } else {
      var a := s.toClient + s.serverQueue;
      assert s.serverQueue + [] == s.serverQueue;
      assert s.toServer + q == [Other] + (s.toServer[1..] + q);
      OtherUnseen(a, s.toServer[1..] + q);
      assert a + [Other] + (s.toServer[1..] + q) == a + ([Other] + (s.toServer[1..] + q));
    }
  }

  /** Taking out one beat leaves the others. */
  lemma ServerDropRing(s: State)
    requires CanStep(s, ServerDrop)
    ensures var a, b := s.toClient + s.serverQueue, s.toServer[1..] + (s.clientQueue + s.posted);
      && InFlight(s) == Beats(a) + [s.toServer[0].time] + Beats(b)
      && InFlight(After(s, ServerDrop)) == Beats(a) + Beats(b)
  {
    var a, b, beat := s.toClient + s.serverQueue, s.toServer[1..] + (s.clientQueue + s.posted), s.toServer[0];
    RingOf(s);
    RingOf(After(s, ServerDrop));
    assert s.toServer + (s.clientQueue + s.posted) == [beat] + b;
    BeatsAppend(a, [beat] + b);
    BeatsAppend([beat], b);
    BeatsAppend(a, b);
    assert Beats([beat]) == [beat.time] + Beats([]);
    assert Beats(a) + ([beat.time] + Beats(b)) == Beats(a) + [beat.time] + Beats(b);
  }

  lemma ServerSendRing(s: State)
    ensures InFlight(After(s, ServerSend)) == InFlight(s)
  {
    var t := After(s, ServerSend);
    RingOf(s);
    RingOf(t);
    OtherUnseen(s.toClient + s.serverQueue, s.toServer + (s.clientQueue + s.posted));
    assert s.toClient + (s.serverQueue + [Other]) == s.toClient + s.serverQueue + [Other];
  }

  /** A queue passes its front on to the one ahead. */
  lemma PassOnRing(s: State, st: Step)
    requires CanStep(s, st) && (st == DoWrite || st == ClientTransmit || st == ServerTransmit)
    ensures Ring(After(s, st)) == Ring(s)
  {
  }

  /** What a step does to the ring: nothing, or a package of no interest comes or goes, or the beat posted
      goes in last, or the first package comes out. */
  lemma RingAfter(s: State, st: Step)
    requires CanStep(s, st)
    ensures var t := After(s, st);
      match st
      case Post => Ring(t) == Ring(s) + [Beat(s.last)]
      case ClientRead => Ring(s) == [s.toClient[0]] + Ring(t)
      case ServerDrop => InFlight(s) == [s.toServer[0].time] ==> InFlight(t) == []
      case _ => InFlight(t) == InFlight(s)
  {
    var t := After(s, st);
    match st {
      case Post =>
        var p := s.toClient + s.serverQueue + s.toServer + s.clientQueue;
        assert p + (s.posted + [Beat(s.last)]) == p + s.posted + [Beat(s.last)];
      case ClientRead =>
        var q := s.serverQueue + (s.toServer + (s.clientQueue + s.posted));
        RingOf(s);
        RingOf(t);
        assert s.toClient + s.serverQueue == [s.toClient[0]] + (t.toClient + s.serverQueue);
      case ClientSend =>
        OtherUnseen(Ring(s), []);
        var p := s.toClient + s.serverQueue + s.toServer + s.clientQueue;
        assert p + (s.posted + [Other]) == p + s.posted + [Other] + [];
        assert Ring(s) + [] == Ring(s);
      case ServerSend => ServerSendRing(s);
      case ServerRead => ServerReadRing(s);
      case ServerDrop => ServerDropRing(s);
      case DoWrite => PassOnRing(s, st);
      case ClientTransmit => PassOnRing(s, st);
      case ServerTransmit => PassOnRing(s, st);
      case _ =>
    }
  }

  lemma ReadKeepsOneBeat(s: State)
    requires OneBeat(s) && CanStep(s, ClientRead)
    ensures OneBeat(After(s, ClientRead))
    ensures s.toClient[0].Beat? ==>
      s.beating && s.main == Ready && !s.dropped && s.toClient[0].time == s.last
  {
    RingAfter(s, ClientRead);
    BeatsAppend([s.toClient[0]], Ring(After(s, ClientRead)));
    assert [s.toClient[0]][1..] == [];
    if s.toClient[0].Beat? {
      assert InFlight(s) == [s.toClient[0].time] + InFlight(After(s, ClientRead));
      assert InFlight(s)[0] == s.toClient[0].time;
    }
  }

  lemma DropKeepsOneBeat(s: State)
    requires OneBeat(s) && CanStep(s, ServerDrop)
    ensures OneBeat(After(s, ServerDrop))
  {
    ServerDropRing(s);
    var a, b := Beats(s.toClient + s.serverQueue), Beats(s.toServer[1..] + (s.clientQueue + s.posted));
    assert |InFlight(s)| == |a| + 1 + |b|;
  }

  lemma StepKeepsOneBeat(s: State, st: Step)
    requires OneBeat(s) && CanStep(s, st)
    ensures OneBeat(After(s, st))
    ensures st.ClientRead? && s.toClient[0].Beat? ==> s.beating && s.main == Ready && s.toClient[0].time == s.last
  {
    if st == Post {
      RingAfter(s, st);
      BeatsAppend(Ring(s), [Beat(s.last)]);
      assert Beats([Beat(s.last)]) == [s.last] + Beats([]);
    } else if st == ClientRead {
      ReadKeepsOneBeat(s);
    } else if st == ServerDrop {
      DropKeepsOneBeat(s);
    } else {
      RingAfter(s, st);
    }
  }

  lemma ArmTimed(s: State)
    requires OneBeat(s) && Timed(s) && CanStep(s, Arm)
    ensures Timed(After(s, Arm))
  {
    SpacedSnoc(s.sends, s.main.time);
  }

  lemma ReturnTimed(s: State)
    requires Timed(s) && CanStep(s, ClientRead) && s.toClient[0].Beat? && s.beating && s.toClient[0].time == s.last
    ensures Timed(After(s, ClientRead))
  {
  }

  lemma UntouchedTimed(s: State, t: State)
    requires Timed(s) && t.sends == s.sends && t.arrivals == s.arrivals && t.beating == s.beating && t.last == s.last
    requires t.delay == s.delay && t.now >= s.now
    requires t.main.Checked? ==> t.main == s.main || s.last + 0.5 < t.main.time <= t.now
    ensures Timed(t)
  {
  }

  lemma StepKeepsTimed(s: State, st: Step)
    requires OneBeat(s) && Timed(s) && CanStep(s, st)
    ensures Timed(After(s, st))
  {
    if st == Arm {
      ArmTimed(s);
    } else if st == ClientRead && s.toClient[0].Beat? {
      StepKeepsOneBeat(s, st);
      ReturnTimed(s);
    } else {
      UntouchedTimed(s, After(s, st));
    }
  }

  lemma DelayNotNegative(sends: seq<real>, arrivals: seq<real>, delay: real)
    requires RoundTrips(sends, arrivals, delay)
    ensures delay >= 0.0
  {
  }

  /** Over any run the heartbeat is conserved and timed. */
  lemma {:induction false} HeartbeatRuns(now: real, steps: seq<Step>)
    requires Possible(now, steps)
    ensures OneBeat(Play(now, steps)) && Timed(Play(now, steps))
    ensures Play(now, steps).delay >= 0.0
  {
    if steps != [] {
      var front := steps[..|steps| - 1];
      HeartbeatRuns(now, front);
      StepKeepsOneBeat(Play(now, front), steps[|steps| - 1]);
      StepKeepsTimed(Play(now, front), steps[|steps| - 1]);
    }
  }
}
