/** The asynchronous writer of one server connection: `HXLibAccept::send` and `handle_write`. */
module Writer {
  import opened Wire

  /** An `async_write` that was started; sent once all its bytes are out. */
  datatype Write = Write(f: Frame, sent: bool)

  /** `write_msgs_`; the writes started whose handler has not run; the frame that a handler took out of the
      mutex section and will start next; the writes whose handler got an error; whether the socket is open;
      and `m_numofWrite`. */
  datatype State = State(
    queue: seq<Frame>, flight: seq<Write>, gap: Option<Frame>, failed: seq<Write>, open: bool, numOfWrite: nat)

  const START := State([], [], None, [], true, 0)

  /** `send`, one mutex section. */
  function Send(w: State, f: Frame): State {
    if !w.open then w
    else if w.queue == [] then w.(queue := [f], numOfWrite := 1, flight := w.flight + [Write(f, false)])
    else w.(queue := w.queue + [f])
  }

  function Without(ws: seq<Write>, k: nat): (r: seq<Write>)
    requires k < |ws|
    ensures |r| == |ws| - 1 && forall i :: 0 <= i < |r| ==> r[i] == if i < k then ws[i] else ws[i + 1]
  {
    ws[..k] + ws[k + 1..]
  }

  /** The mutex section of a successful `handle_write`. */
  function Pop(w: State, k: nat): State
    requires w.queue != [] && k < |w.flight|
  {
    var q := w.queue[1..];
    w.(queue := q, numOfWrite := |q|, flight := Without(w.flight, k), gap := if q == [] then None else Some(q[0]))
  }

  /** The rest of that handler. */
  function Restart(w: State): State {
    if w.gap.Some? then w.(gap := None, flight := w.flight + [Write(w.gap.value, false)]) else w
  }

  function SendAll(w: State, fs: seq<Frame>): State {
    if fs == [] then w else Send(SendAll(w, fs[..|fs| - 1]), fs[|fs| - 1])
  }

  /** On a closed socket a whole message goes nowhere. */
  lemma {:induction false} SendAllClosed(w: State, fs: seq<Frame>)
    requires !w.open
    ensures SendAll(w, fs) == w
  {
    if fs != [] {
      SendAllClosed(w, fs[..|fs| - 1]);
    }
  }

  /** On an open one it goes to the end of the queue, frame by frame; and a write is started, and the length brought
      up to date, only if the queue was empty. */
  lemma {:induction false} SendAllOpen(w: State, fs: seq<Frame>)
    requires w.open && fs != []
    ensures SendAll(w, fs) ==
      if w.queue != [] then w.(queue := w.queue + fs)
      else w.(queue := fs, numOfWrite := 1, flight := w.flight + [Write(fs[0], false)])
  {
    var front, last := fs[..|fs| - 1], fs[|fs| - 1];
    assert fs == front + [last];
    if front == [] {
      assert SendAll(w, front) == w;
    } else {
      SendAllOpen(w, front);
      assert w.queue + front + [last] == w.queue + fs;
    }
  }

  /** What the io service, the peer and the application may do to a connection; k picks one of the writes
      outstanding. */
  datatype Act = ASend(f: Frame) | ATransmit(k: nat) | APop(k: nat) | ARestart | AFail(k: nat) | AClose

  predicate Enabled(w: State, a: Act) {
    match a
    case ASend(_) => true
    case ATransmit(k) => w.open && k < |w.flight| && !w.flight[k].sent
    case APop(k) => w.queue != [] && k < |w.flight| && w.flight[k].sent
    case ARestart => w.gap.Some?
    case AFail(k) => k < |w.flight|
    case AClose => true
  }

  function Moved(w: State, a: Act): State
    requires Enabled(w, a)
  {
    match a
    case ASend(f) => Send(w, f)
    case ATransmit(k) => w.(flight := w.flight[k := w.flight[k].(sent := true)])
    case APop(k) => Pop(w, k)
    case ARestart => Restart(w)
    case AFail(k) => w.(flight := Without(w.flight, k), failed := w.failed + [w.flight[k]])
    case AClose => w.(open := false)
  }

  // ---- Runs ----

  /** The writer with a record of what was accepted, transmitted and completed, and its share of the counters
      `sendPackages` and `sendPackagesComplete`. */
  datatype Traced = Traced(w: State, accepted: seq<Frame>, transmitted: seq<Frame>, completed: seq<Frame>,
                           sendPackages: nat, sendPackagesComplete: nat)

  const FRESH := Traced(START, [], [], [], 0, 0)

  function Next(t: Traced, a: Act): Traced
    requires Enabled(t.w, a)
  {
    var u := t.(w := Moved(t.w, a));
    match a
    case ASend(f) =>
      u.(sendPackages := t.sendPackages + 1, accepted := if t.w.open then t.accepted + [f] else t.accepted)
    case ATransmit(k) => u.(transmitted := t.transmitted + [t.w.flight[k].f])
    case APop(k) =>
      u.(completed := t.completed + [t.w.flight[k].f], sendPackagesComplete := t.sendPackagesComplete + 1)
    case _ => u
  }

  /** The writes on which the chain hangs: outstanding, failed, or about to be started. */
  function Chain(w: State): seq<Write> {
    w.flight + w.failed + if w.gap.Some? then [Write(w.gap.value, false)] else []
  }

  function SentIn(ws: seq<Write>): seq<Frame> {
    if ws != [] && ws[0].sent then [ws[0].f] else []
  }

  /** The chain has exactly one link while the queue is not empty, and that carries the front; so at most one
      write is outstanding, and none only when the queue is empty, before a restart, or after an error. The
      cached length never exceeds the backlog. */
  ghost predicate Chained(w: State) {
    && |Chain(w)| == (if w.queue == [] then 0 else 1)
    && (w.queue != [] ==> Chain(w)[0].f == w.queue[0])
    && w.numOfWrite <= |w.queue|
    && (w.numOfWrite == 0 <==> w.queue == [])
  }

  /** The writer is a FIFO: what was accepted is what completed followed by the queue, in order; at most one
      write is outstanding; and completions never overtake requests. */
  ghost predicate Fifo(t: Traced) {
    && t.completed + t.w.queue == t.accepted
    && Chained(t.w)
    && |t.w.flight| <= 1
    && t.transmitted == t.completed + SentIn(Chain(t.w))
    && t.sendPackagesComplete + |t.w.queue| <= t.sendPackages
  }

  /** An outstanding write is the whole chain, and so is a frame about to be started. */
  lemma ChainIsFlight(w: State)
    requires Chained(w) && w.flight != []
    ensures w.queue != [] && w.flight == [w.flight[0]] && w.flight[0].f == w.queue[0]
    ensures w.failed == [] && w.gap.None? && Chain(w) == w.flight
  {
    assert Chain(w)[0] == w.flight[0];
  }

  lemma ChainIsGap(w: State)
    requires Chained(w) && w.gap.Some?
    ensures w.flight == [] && w.failed == [] && Chain(w) == [Write(w.gap.value, false)]
  {
    assert Chain(w)[|w.flight| + |w.failed|] == Write(w.gap.value, false);
  }

  /** What a step does to the chain: nothing, or it makes its first link, drops it, or marks it sent. */
  lemma MovedChain(w: State, a: Act)
    requires Chained(w) && Enabled(w, a)
    ensures var c, c' := Chain(w), Chain(Moved(w, a));
      match a
      case ASend(f) => c' == if w.open && w.queue == [] then [Write(f, false)] else c
      case ATransmit(k) => k == 0 && c == [Write(w.queue[0], false)] && c' == [Write(w.queue[0], true)]
      case APop(k) =>
        k == 0 && c == [Write(w.queue[0], true)] && c' == if |w.queue| == 1 then [] else [Write(w.queue[1], false)]
      case _ => c' == c
  {
    if w.flight != [] {
      ChainIsFlight(w);
    } else if w.gap.Some? {
      ChainIsGap(w);
    }
  }

  lemma MovedLength(w: State, a: Act)
    requires Enabled(w, a)
    ensures var v := Moved(w, a);
      match a
      case ASend(_) =>
        if !w.open then v == w
        else if w.queue == [] then |v.queue| == v.numOfWrite
        else |v.queue| == |w.queue| + 1 && v.numOfWrite == w.numOfWrite
      case APop(_) => |v.queue| == v.numOfWrite
      case _ => v.queue == w.queue && v.numOfWrite == w.numOfWrite
  {
  }

  lemma FrontMoves(done: seq<Frame>, queue: seq<Frame>)
    requires queue != []
    ensures (done + [queue[0]]) + queue[1..] == done + queue
  {
  }

  /** A completion takes the front out of the queue and hands it to the record. */
  lemma PopFifo(t: Traced, k: nat)
    requires Fifo(t) && Enabled(t.w, APop(k))
    ensures Fifo(Next(t, APop(k)))
  {
    MovedChain(t.w, APop(k));
    MovedLength(t.w, APop(k));
    FrontMoves(t.completed, t.w.queue);
    var u, done := Next(t, APop(k)), t.completed + [t.w.queue[0]];
    assert t.w.flight[0] == Chain(t.w)[0];
    assert u.completed == done && t.transmitted == done;
    assert |u.w.flight| <= |Chain(u.w)|;
    assert done + [] == done;
  }

  lemma TransmitFifo(t: Traced, k: nat)
    requires Fifo(t) && Enabled(t.w, ATransmit(k))
    ensures Fifo(Next(t, ATransmit(k)))
  {
    MovedChain(t.w, ATransmit(k));
    assert t.w.flight[0] == Chain(t.w)[0];
    assert t.completed + [] == t.completed;
  }

  lemma SendFifo(t: Traced, f: Frame)
    requires Fifo(t)
    ensures Fifo(Next(t, ASend(f)))
  {
    MovedChain(t.w, ASend(f));
    var u := Next(t, ASend(f));
    assert |u.w.flight| <= |Chain(u.w)|;
    assert t.completed + (t.w.queue + [f]) == (t.completed + t.w.queue) + [f];
  }

  /** Restarts, errors and closes move the chain's link at most. */
  lemma QuietFifo(t: Traced, w: State)
    requires Fifo(t) && w.queue == t.w.queue && w.numOfWrite == t.w.numOfWrite && Chain(w) == Chain(t.w)
    ensures Fifo(t.(w := w))
  {
    assert |w.flight| <= |Chain(w)|;
  }

  lemma NextFifo(t: Traced, a: Act)
    requires Fifo(t) && Enabled(t.w, a)
    ensures Fifo(Next(t, a))
  {
    match a {
      case ASend(f) => SendFifo(t, f);
      case ATransmit(k) => TransmitFifo(t, k);
      case APop(k) => PopFifo(t, k);
      case _ =>
        MovedChain(t.w, a);
        QuietFifo(t, Moved(t.w, a));
    }
  }

  predicate Possible(t: Traced, acts: seq<Act>)
    decreases |acts|, 0
  {
    acts == [] || (Possible(t, acts[..|acts| - 1]) && Enabled(Play(t, acts[..|acts| - 1]).w, acts[|acts| - 1]))
  }

  function Play(t: Traced, acts: seq<Act>): Traced
    requires Possible(t, acts)
    decreases |acts|, 1
  {
    if acts == [] then t else Next(Play(t, acts[..|acts| - 1]), acts[|acts| - 1])
  }

  /** The frames handed to `send` before the socket was closed. */
  function SendsBeforeClose(acts: seq<Act>): seq<Frame> {
    if acts == [] then []
    else
      var front := acts[..|acts| - 1];
      match acts[|acts| - 1]
      case ASend(f) => if AClose in front then SendsBeforeClose(front) else SendsBeforeClose(front) + [f]
      case _ => SendsBeforeClose(front)
  }

  /** What one step does to acceptance. */
  lemma NextAccepts(t: Traced, a: Act)
    requires Enabled(t.w, a)
    ensures Next(t, a).w.open == (t.w.open && !a.AClose?)
    ensures Next(t, a).accepted == if a.ASend? && t.w.open then t.accepted + [a.f] else t.accepted
  {
  }

  lemma {:induction false} AcceptedBeforeClose(acts: seq<Act>)
    requires Possible(FRESH, acts)
    ensures Play(FRESH, acts).accepted == SendsBeforeClose(acts)
    ensures Play(FRESH, acts).w.open <==> AClose !in acts
  {
    if acts != [] {
      var front, a := acts[..|acts| - 1], acts[|acts| - 1];
      assert acts == front + [a];
      AcceptedBeforeClose(front);
      NextAccepts(Play(FRESH, front), a);
    }
  }

  /** Every run of a connection keeps the FIFO discipline over exactly the frames sent before a close. */
  lemma {:induction false} RunsAreFifo(acts: seq<Act>)
    requires Possible(FRESH, acts)
    ensures Fifo(Play(FRESH, acts))
    ensures Play(FRESH, acts).accepted == SendsBeforeClose(acts)
    ensures Play(FRESH, acts).w.open <==> AClose !in acts
  {
    AcceptedBeforeClose(acts);
    if acts != [] {
      RunsAreFifo(acts[..|acts| - 1]);
      NextFifo(Play(FRESH, acts[..|acts| - 1]), acts[|acts| - 1]);
    }
  }

  /** After a write error nothing more is transmitted or completed, whatever happens next. */
  lemma {:induction false} FailureIsFinal(t: Traced, acts: seq<Act>)
    requires Fifo(t) && t.w.failed != [] && Possible(t, acts)
    ensures var r := Play(t, acts);
      && Fifo(r) && r.w.failed == t.w.failed && r.w.flight == []
      && r.completed == t.completed && r.transmitted == t.transmitted && t.accepted <= r.accepted
  {
    if acts != [] {
      FailureIsFinal(t, acts[..|acts| - 1]);
      NextFifo(Play(t, acts[..|acts| - 1]), acts[|acts| - 1]);
    }
  }

  // ---- Refusals ----

  /** The bytes that n queued packages are taken to occupy, cut to 32 bits: what `Send` compares with the limit
      of a big message that may be lost. */
  function Counted(n: nat): u32 {
    n * PACKAGE_SIZE % 0x1_0000_0000
  }

  /** The decision `Send` takes when it counts n packages. */
  predicate Refuses(n: nat, limit: u32) {
    Counted(n) >= limit
  }

  predicate Fills(backlog: nat, limit: u32) {
    backlog * PACKAGE_SIZE >= limit
  }

  /** The decision is the one the backlog calls for, whatever the limit. */
  ghost predicate RightForAll(n: nat, backlog: nat) {
    forall limit: u32 :: Refuses(n, limit) <==> Fills(backlog, limit)
  }

  lemma Cut(bytes: nat)
    ensures bytes % 0x1_0000_0000 <= bytes
    ensures bytes % 2 == 0 ==> bytes % 0x1_0000_0000 % 2 == 0
    ensures bytes % 0x1_0000_0000 == bytes <==> bytes < 0x1_0000_0000
  {
  }

  /** An even number of bytes, cut to 32 bits, is below some limit that the whole backlog reaches, unless the two
      are the same. */
  lemma CutMisses(bytes: nat, backlog: nat) returns (limit: u32)
    requires bytes % 2 == 0 && bytes <= backlog && (bytes < backlog || bytes >= 0x1_0000_0000)
    ensures bytes % 0x1_0000_0000 < limit <= backlog
  {
    Cut(bytes);
    limit := bytes % 0x1_0000_0000 + 1;
  }

  lemma EvenSize(n: nat)
    ensures n * PACKAGE_SIZE % 2 == 0
  {
    assert n * PACKAGE_SIZE == 2 * (n * (PACKAGE_SIZE / 2));
  }

  /** Where n packages are counted and n + lag wait, the decision is right for every limit if and only if
      nothing lags and the bytes counted fit 32 bits. */
  lemma DecisionIsRight(n: nat, lag: nat)
    ensures RightForAll(n, n + lag)
            <==> lag == 0 && n * PACKAGE_SIZE < 0x1_0000_0000
  {
    var bytes := n * PACKAGE_SIZE;
    assert (n + lag) * PACKAGE_SIZE == bytes + lag * PACKAGE_SIZE;
    EvenSize(n);
    if lag == 0 && bytes < 0x1_0000_0000 {
      Cut(bytes);
    } else {
      var limit := CutMisses(bytes, (n + lag) * PACKAGE_SIZE);
      assert Fills(n + lag, limit) && !Refuses(n, limit);
    }
  }

  lemma RefusalIsHonest(n: nat, lag: nat, limit: u32)
    requires Refuses(n, limit)
    ensures Fills(n + lag, limit)
  {
    var bytes := n * PACKAGE_SIZE;
    Cut(bytes);
    assert (n + lag) * PACKAGE_SIZE == bytes + lag * PACKAGE_SIZE;
  }

  /** The frames accepted since the cached length was last brought up to date: by a pop, or by a push on the
      empty queue. */
  function Lag(acts: seq<Act>): nat
    requires Possible(FRESH, acts)
  {
    if acts == [] then 0
    else
      var front := acts[..|acts| - 1];
      var w := Play(FRESH, front).w;
      match acts[|acts| - 1]
      case ASend(_) => if !w.open then Lag(front) else if w.queue == [] then 0 else Lag(front) + 1
      case APop(_) => 0
      case _ => Lag(front)
  }

  lemma {:induction false} CachedLength(acts: seq<Act>)
    requires Possible(FRESH, acts)
    ensures var w := Play(FRESH, acts).w;
      |w.queue| == w.numOfWrite + Lag(acts)
  {
    if acts != [] {
      CachedLength(acts[..|acts| - 1]);
      MovedLength(Play(FRESH, acts[..|acts| - 1]).w, acts[|acts| - 1]);
    }
  }

  lemma Backlog(acts: seq<Act>)
    requires Possible(FRESH, acts)
    ensures var t := Play(FRESH, acts);
      |t.accepted| == |t.completed| + t.w.numOfWrite + Lag(acts)
  {
    RunsAreFifo(acts);
    CachedLength(acts);
  }

  /** Over any run: the refusal of a big message that may be lost agrees with the true backlog for every limit
      if and only if nothing was accepted since the cached length was last brought up to date, and the bytes
      counted fit 32 bits. */
  lemma {:induction false} RefusalIsRightIff(acts: seq<Act>)
    requires Possible(FRESH, acts)
    ensures var t := Play(FRESH, acts);
      && |t.accepted| >= |t.completed|
      && (RightForAll(t.w.numOfWrite, |t.accepted| - |t.completed|)
          <==> Lag(acts) == 0 && t.w.numOfWrite * PACKAGE_SIZE < 0x1_0000_0000)
  {
    Backlog(acts);
    var t := Play(FRESH, acts);
    DecisionIsRight(t.w.numOfWrite, Lag(acts));
  }

  /** One half holds always: a refusal is honest, the frames accepted and not completed really fill the limit. */
  lemma RefusalMeansBacklog(acts: seq<Act>, limit: u32)
    requires Possible(FRESH, acts) && Refuses(Play(FRESH, acts).w.numOfWrite, limit)
    ensures var t := Play(FRESH, acts);
      |t.accepted| >= |t.completed| && Fills(|t.accepted| - |t.completed|, limit)
  {
    Backlog(acts);
    var t := Play(FRESH, acts);
    RefusalIsHonest(t.w.numOfWrite, Lag(acts), limit);
  }

  /** The other fails: until the first write completes the cached length stays 1 however much is sent, so a
      backlog of any size is let through. */
  lemma {:induction false} CachedLengthLags(fs: seq<Frame>)
    requires fs != []
    ensures var w := SendAll(START, fs);
      w.open && w.queue == fs && w.numOfWrite == 1
  {
    var front := fs[..|fs| - 1];
    assert fs == front + [fs[|fs| - 1]];
    if front == [] {
      assert SendAll(START, front) == START;
    } else {
      CachedLengthLags(front);
    }
  }
}
