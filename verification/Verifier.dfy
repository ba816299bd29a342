/** The two-stage verifier of the centre server: `UserVerifier` over two `MsgQueue`s. */
module Verifier {
  import opened Wire
  import opened Monitor

  const ID_USER_VERIFY: u16 := 1004
  const S2C_RSP_ID_VERIFY: u16 := 113
  const CAPACITY := 10000

  /** A package with the link it came from or goes to. */
  datatype Msg = Msg(link: LinkID, f: Frame)

  /** A package carried inside another one's body: its link, header and a user id (as a bit pattern). */
  datatype Nested = Nested(link: LinkID, id: u16, id2: u16, length: u32, user: u32)

  const NESTED_SIZE := 16

  /** What the cast of a body reads; bytes a short body lacks are read as zero here. */
  function ReadNested(body: seq<byte>): Nested {
    var s := Resize(body, NESTED_SIZE);
    Nested(LinkID(Get16(s, 0), Get16(s, 2)), Get16(s, 4), Get16(s, 6), Get32(s, 8), Get32(s, 12))
  }

  /** What the `memcpy` of a package copies: `m_linkid`, then the header, then the body. */
  function WriteNested(n: Nested): seq<byte> {
    Put16(n.link.sid) + Put16(n.link.sindex) + Put16(n.id) + Put16(n.id2) + Put32(n.length) + Put32(n.user)
  }

  lemma NestedRoundTrip(n: Nested)
    ensures |WriteNested(n)| == NESTED_SIZE && ReadNested(WriteNested(n)) == n
  {
  }

  /** `VerifyUserID`: the package put on the out queue. */
  function Verify(user: u32, link: LinkID, userLink: LinkID): Msg {
    Msg(link, Frame(ID_USER_VERIFY, S2C_RSP_ID_VERIFY,
                    WriteNested(Nested(userLink, ID_USER_VERIFY, S2C_RSP_ID_VERIFY, 4, user))))
  }

  /** The replies that one package taken from the in queue causes. */
  function Reply(m: Msg): Option<Msg> {
    if m.f.id == ID_USER_VERIFY then
      var n := ReadNested(m.f.body);
      Some(Verify(n.user, m.link, n.link))
    else None
  }

  /** A reply goes back over the link the request came by, and names that request's user and user link. */
  lemma ReplyNamesRequester(m: Msg)
    requires m.f.id == ID_USER_VERIFY
    ensures var r := Reply(m).value;
      && r.link == m.link && r.f.id == ID_USER_VERIFY && r.f.id2 == S2C_RSP_ID_VERIFY
      && ReadNested(r.f.body)
         == Nested(ReadNested(m.f.body).link, ID_USER_VERIFY, S2C_RSP_ID_VERIFY, 4, ReadNested(m.f.body).user)
  {
  }

  function Opt(m: Option<Msg>): seq<Msg> {
    if m.Some? then [m.value] else []
  }

  function Replies(ms: seq<Msg>): seq<Msg> {
    if ms == [] then [] else Replies(ms[..|ms| - 1]) + Opt(Reply(ms[|ms| - 1]))
  }

  // ---- The pipeline ----

  const IN: Tid := 0
  const OUT: Tid := 1

  /** Both queues, the reply the in thread is putting, the package the out thread is sending, and all sent. */
  datatype Pipe = Pipe(inQ: State<Msg>, outQ: State<Msg>, heldIn: Option<Msg>, heldOut: Option<Msg>, sent: seq<Msg>)

  datatype Move =
    | Produce(s: Step<Msg>)  // AddMsgPackage by any other thread
    | InGet(s: Step<Msg>)
    | InPut(s: Step<Msg>)
    | OutGet(s: Step<Msg>)
    | OutSend
    | NoiseIn(t: Tid)        // spurious wakeups
    | NoiseOut(t: Tid)

  function Idle(): Pipe {
    Pipe(Fresh(CAPACITY), Fresh(CAPACITY), None, None, [])
  }

  predicate IsPut(s: Step<Msg>) {
    s.PutCall? || s.PutResume?
  }

  predicate IsGet(s: Step<Msg>) {
    s.GetCall? || s.GetResume?
  }

  predicate CanMove(p: Pipe, v: Move) {
    match v
    case Produce(s) => IsPut(s) && s.t != IN && s.t != OUT && CanStep(p.inQ, s)
    case InGet(s) => p.heldIn == None && IsGet(s) && s.t == IN && CanStep(p.inQ, s)
    case InPut(s) =>
      p.heldIn.Some? && IsPut(s) && s.t == IN && (s.PutCall? ==> s.x == p.heldIn.value) && CanStep(p.outQ, s)
    case OutGet(s) => p.heldOut == None && IsGet(s) && s.t == OUT && CanStep(p.outQ, s)
    case OutSend => p.heldOut.Some?
    case NoiseIn(t) => CanStep(p.inQ, Spurious(t))
    case NoiseOut(t) => CanStep(p.outQ, Spurious(t))
  }

  function Moved(p: Pipe, v: Move): Pipe
    requires CanMove(p, v)
  {
    match v
    case Produce(s) => p.(inQ := After(p.inQ, s))
    case InGet(s) => p.(inQ := After(p.inQ, s), heldIn := if p.inQ.queue == [] then None else Reply(p.inQ.queue[0]))
    case InPut(s) => p.(outQ := After(p.outQ, s), heldIn := if p.outQ.Full() then p.heldIn else None)
    case OutGet(s) =>
      p.(outQ := After(p.outQ, s), heldOut := if p.outQ.queue == [] then None else Some(p.outQ.queue[0]))
    case OutSend => p.(sent := p.sent + [p.heldOut.value], heldOut := None)
    case NoiseIn(t) => p.(inQ := After(p.inQ, Spurious(t)))
    case NoiseOut(t) => p.(outQ := After(p.outQ, Spurious(t)))
  }

  predicate Possible(moves: seq<Move>)
    decreases |moves|, 0
  {
    moves == [] || (Possible(moves[..|moves| - 1]) && CanMove(Play(moves[..|moves| - 1]), moves[|moves| - 1]))
  }

  function Play(moves: seq<Move>): Pipe
    requires Possible(moves)
    decreases |moves|, 1
  {
    if moves == [] then Idle() else Moved(Play(moves[..|moves| - 1]), moves[|moves| - 1])
  }

  /** The stages pass packages on one by one. */
  ghost predicate Conserved(p: Pipe) {
    && p.outQ.gets == p.sent + Opt(p.heldOut)
    && p.outQ.puts + Opt(p.heldIn) == Replies(p.inQ.gets)
  }

  ghost predicate Queues(p: Pipe) {
    && Sane(p.inQ) && NoLostWakeup(p.inQ) && p.inQ.maxSize == CAPACITY
    && Sane(p.outQ) && NoLostWakeup(p.outQ) && p.outQ.maxSize == CAPACITY
  }

  /** Only the in thread gets from the in queue and puts to the out queue, only the out thread gets from the
      latter, and a thread that waits to put holds the package it puts. */
  ghost predicate Roles(p: Pipe) {
    && (forall t :: t in p.inQ.getWaiting || t in p.inQ.getWoken ==> t == IN && p.heldIn == None)
    && (forall t :: t in p.outQ.getWaiting || t in p.outQ.getWoken ==> t == OUT && p.heldOut == None)
    && (forall t :: t in p.outQ.putWaiting ==> t == IN && p.heldIn == Some(p.outQ.putWaiting[t]))
    && (forall t :: t in p.outQ.putWoken ==> t == IN && p.heldIn == Some(p.outQ.putWoken[t]))
  }

  lemma RepliesSnoc(ms: seq<Msg>, m: Msg)
    ensures Replies(ms + [m]) == Replies(ms) + Opt(Reply(m))
  {
  }

  lemma InGetConserves(p: Pipe, s: Step<Msg>)
    requires Conserved(p) && CanMove(p, InGet(s))
    ensures Conserved(Moved(p, InGet(s)))
  {
    if p.inQ.queue != [] {
      RepliesSnoc(p.inQ.gets, p.inQ.queue[0]);
      assert p.outQ.puts + [] == p.outQ.puts;
    }
  }

  /** A put that goes through appends the held package, whether the thread just called or was woken. */
  lemma InPutConserves(p: Pipe, s: Step<Msg>)
    requires Conserved(p) && Roles(p) && CanMove(p, InPut(s))
    ensures Conserved(Moved(p, InPut(s)))
  {
  }

  lemma OutGetConserves(p: Pipe, s: Step<Msg>)
    requires Conserved(p) && CanMove(p, OutGet(s))
    ensures Conserved(Moved(p, OutGet(s)))
  {
    if p.outQ.queue != [] {
      assert p.sent + [] == p.sent;
      assert After(p.outQ, s).gets == p.outQ.gets + [p.outQ.queue[0]];
      assert After(p.outQ, s).puts == p.outQ.puts;
    }
  }

  /** A put takes nothing out of the in queue. */
  lemma ProduceConserves(p: Pipe, s: Step<Msg>)
    requires Conserved(p) && CanMove(p, Produce(s))
    ensures Conserved(Moved(p, Produce(s)))
  {
    assert After(p.inQ, s).gets == p.inQ.gets;
  }

  /** A spurious wakeup moves no package. */
  lemma NoisePasses(q: State<Msg>, t: Tid)
    requires CanStep(q, Spurious(t))
    ensures After(q, Spurious(t)).gets == q.gets && After(q, Spurious(t)).puts == q.puts
  {
  }

  lemma NoiseInConserves(p: Pipe, t: Tid)
    requires Conserved(p) && CanMove(p, NoiseIn(t))
    ensures Conserved(Moved(p, NoiseIn(t)))
  {
    NoisePasses(p.inQ, t);
  }

  lemma NoiseOutConserves(p: Pipe, t: Tid)
    requires Conserved(p) && CanMove(p, NoiseOut(t))
    ensures Conserved(Moved(p, NoiseOut(t)))
  {
    NoisePasses(p.outQ, t);
  }

  lemma SendConserves(p: Pipe)
    requires Conserved(p) && CanMove(p, OutSend)
    ensures Conserved(Moved(p, OutSend))
  {
    assert (p.sent + [p.heldOut.value]) + [] == p.sent + Opt(p.heldOut);
  }

  lemma MoveConserves(p: Pipe, v: Move)
    requires Conserved(p) && Roles(p) && CanMove(p, v)
    ensures Conserved(Moved(p, v))
  {
    match v {
      case InGet(s) => InGetConserves(p, s);
      case InPut(s) => InPutConserves(p, s);
      case OutGet(s) => OutGetConserves(p, s);
      case OutSend => SendConserves(p);
      case Produce(s) => ProduceConserves(p, s);
      case NoiseIn(t) => NoiseInConserves(p, t);
      case NoiseOut(t) => NoiseOutConserves(p, t);
    }
  }

  lemma MoveQueues(p: Pipe, v: Move)
    requires Queues(p) && CanMove(p, v)
    ensures Queues(Moved(p, v))
  {
    match v {
      case Produce(s) => StepKeeps(p.inQ, s);
      case InGet(s) => StepKeeps(p.inQ, s);
      case InPut(s) => StepKeeps(p.outQ, s);
      case OutGet(s) => StepKeeps(p.outQ, s);
      case OutSend =>
      case NoiseIn(t) => StepKeeps(p.inQ, Spurious(t));
      case NoiseOut(t) => StepKeeps(p.outQ, Spurious(t));
    }
  }

  lemma InGetRoles(p: Pipe, s: Step<Msg>)
    requires Roles(p) && Sane(p.inQ) && CanMove(p, InGet(s))
    ensures Roles(Moved(p, InGet(s)))
  {
    assert OnePlace(p.inQ, IN);
    assert IN !in p.inQ.getWaiting;
  }

  lemma InPutRoles(p: Pipe, s: Step<Msg>)
    requires Roles(p) && Sane(p.outQ) && CanMove(p, InPut(s))
    ensures Roles(Moved(p, InPut(s)))
  {
    assert OnePlace(p.outQ, IN);
    assert IN !in p.outQ.putWaiting;
  }

  lemma OutGetRoles(p: Pipe, s: Step<Msg>)
    requires Roles(p) && Sane(p.outQ) && CanMove(p, OutGet(s))
    ensures Roles(Moved(p, OutGet(s)))
  {
    assert OnePlace(p.outQ, OUT);
    assert OUT !in p.outQ.getWaiting;
  }

  lemma NoiseRoles(p: Pipe, v: Move, t: Tid)
    requires Roles(p) && CanMove(p, v) && (v == NoiseIn(t) || v == NoiseOut(t))
    ensures Roles(Moved(p, v))
  {
  }

  lemma MoveRoles(p: Pipe, v: Move)
    requires Roles(p) && Queues(p) && CanMove(p, v)
    ensures Roles(Moved(p, v))
  {
    match v {
      case Produce(s) =>
      case InGet(s) => InGetRoles(p, s);
      case InPut(s) => InPutRoles(p, s);
      case OutGet(s) => OutGetRoles(p, s);
      case OutSend =>
      case NoiseIn(t) => NoiseRoles(p, v, t);
      case NoiseOut(t) => NoiseRoles(p, v, t);
    }
  }

  lemma {:induction false} RunInvariant(moves: seq<Move>)
    requires Possible(moves)
    ensures Conserved(Play(moves)) && Queues(Play(moves)) && Roles(Play(moves))
  {
    if moves != [] {
      var p, v := Play(moves[..|moves| - 1]), moves[|moves| - 1];
      RunInvariant(moves[..|moves| - 1]);
      MoveConserves(p, v);
      MoveQueues(p, v);
      MoveRoles(p, v);
    }
  }

  /** In every reachable state, what was sent, what the out thread holds, the out queue and what the in thread
      holds are together the replies to the packages taken in, in order; neither queue exceeds its capacity. */
  lemma {:induction false} PipelineConserves(moves: seq<Move>)
    requires Possible(moves)
    ensures var p := Play(moves);
      && p.sent + Opt(p.heldOut) + p.outQ.queue + Opt(p.heldIn) == Replies(p.inQ.gets)
      && p.inQ.gets + p.inQ.queue == p.inQ.puts
      && |p.inQ.queue| <= CAPACITY && |p.outQ.queue| <= CAPACITY
  {
    RunInvariant(moves);
  }

  /** The in thread waits for an un-given signal, on either queue. */
  predicate InBlocked(p: Pipe) {
    IN in p.inQ.getWaiting || IN in p.outQ.putWaiting
  }

  /** The two threads are both blocked only when every package ever put in has been answered; and then no
      producer is stuck, for each that waits there is one that was woken. */
  lemma {:induction false} BlockedMeansDone(moves: seq<Move>)
    requires Possible(moves)
    requires InBlocked(Play(moves)) && OUT in Play(moves).outQ.getWaiting
    ensures var p := Play(moves);
      && p.sent == Replies(p.inQ.puts)
      && (p.inQ.putWaiting != map[] ==> |p.inQ.putWoken| >= CAPACITY)
  {
    RunInvariant(moves);
    BlockedIsEmpty(Play(moves));
    var p := Play(moves);
    assert p.inQ.gets == p.inQ.puts && p.outQ.gets == p.outQ.puts;
  }

  lemma BlockedIsEmpty(p: Pipe)
    requires Queues(p) && Roles(p) && InBlocked(p) && OUT in p.outQ.getWaiting
    ensures p.heldIn == None && p.heldOut == None && p.inQ.queue == [] && p.outQ.queue == []
  {
    assert OnePlace(p.outQ, OUT) && OnePlace(p.outQ, IN) && OnePlace(p.inQ, IN);
    assert p.outQ.getWoken == {};
    assert |p.outQ.queue| <= 0;
    assert IN !in p.outQ.putWaiting by {
      assert IN in p.outQ.putWaiting ==> p.outQ.putWoken == map[];
    }
    assert p.inQ.getWoken == {};
  }

  /** The object. The two consumer loops are cut at the points where they give up a queue's mutex. */
  class UserVerifier {
    const queueIn: MsgQueue<Msg>
    const queueOut: MsgQueue<Msg>
    var heldIn: Option<Msg>
    var heldOut: Option<Msg>
    ghost var sent: seq<Msg>

    ghost function Now(): Pipe
      reads this, queueIn, queueOut
    {
      Pipe(queueIn.Now(), queueOut.Now(), heldIn, heldOut, sent)
    }

    constructor ()
      ensures Now() == Idle() && queueIn != queueOut
    {
      var a := new MsgQueue<Msg>(CAPACITY);
      var b := new MsgQueue<Msg>(CAPACITY);
      queueIn, queueOut, heldIn, heldOut, sent := a, b, None, None, [];
    }

    method AddMsgPackage(t: Tid, msg: Msg) returns (ghost wake: Option<Tid>)
      requires queueIn != queueOut
      modifies queueIn
      ensures Now() == old(Now()).(inQ := Put(old(Now()).inQ, t, msg, wake))
    {
      var done;
      done, wake := queueIn.PutSection(t, msg);
    }

    method VerifyUserID(userID: u32, linkID: LinkID, usrLinkID: LinkID) returns (msgPackage: Msg)
      ensures msgPackage == Verify(userID, linkID, usrLinkID)
    {
      var verify := Nested(usrLinkID, ID_USER_VERIFY, S2C_RSP_ID_VERIFY, 4, userID);
      msgPackage := Msg(linkID, Frame(ID_USER_VERIFY, S2C_RSP_ID_VERIFY, WriteNested(verify)));
    }

    /** The in thread: take a package and work out its reply, or put the reply it holds. */
    method HandleQueueIn() returns (ghost wake: Option<Tid>)
      requires queueIn != queueOut
      modifies this, queueIn, queueOut
      ensures var p := old(Now());
        Now() == if p.heldIn == None then
            p.(inQ := Get(p.inQ, IN, wake), heldIn := if p.inQ.queue == [] then None else Reply(p.inQ.queue[0]))
          else
            p.(outQ := Put(p.outQ, IN, p.heldIn.value, wake), heldIn := if p.outQ.Full() then p.heldIn else None)
    {
      if heldIn.None? {
        var x;
        x, wake := queueIn.GetSection(IN);
        if x.Some? && x.value.f.id == ID_USER_VERIFY {
          var n := ReadNested(x.value.f.body);
          var r := VerifyUserID(n.user, x.value.link, n.link);
          heldIn := Some(r);
        }
      } else {
        var done;
        done, wake := queueOut.PutSection(IN, heldIn.value);
        if done {
          heldIn := None;
        }
      }
    }

    /** The out thread: take a reply, or send the one it holds. */
    method HandleQueueOut() returns (ghost wake: Option<Tid>)
      requires queueIn != queueOut
      modifies this, queueOut
      ensures var p := old(Now());
        Now() == if p.heldOut == None then
            p.(outQ := Get(p.outQ, OUT, wake), heldOut := if p.outQ.queue == [] then None else Some(p.outQ.queue[0]))
          else
            p.(sent := p.sent + [p.heldOut.value], heldOut := None)
    {
      wake := None;
      if heldOut.None? {
        heldOut, wake := queueOut.GetSection(OUT);
      } else {
        sent := sent + [heldOut.value];
        heldOut := None;
      }
    }
  }
}
