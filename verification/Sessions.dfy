/** The server's handlers over many sessions: who joins, what is read, who leaves, and the packages the
    application finds in the receive queue. */
module Sessions {
  import opened Wire
  import opened BigMessage
  import opened ReceiveQueue
  import opened Pool
  import opened Coding

  /** One `HXLibAccept`: `m_linkid`, `m_bigData`, and whether its read chain goes on; with a record of the
      handle it was given, the number of the Join that gave it, and the frames it read. */
  datatype Session = Session(
    linkid: LinkID, rx: Rx, reading: bool,
    handle: LinkID, joined: nat, rx0: Rx, input: seq<Frame>)

  /** The pool, the sessions, everything queued, the number of Joins, and what was done to the receive queue. */
  datatype Server = Server(
    table: Table<nat>, sessions: map<nat, Session>, events: seq<Event>, joins: nat, ops: seq<Op>)

  datatype Step =
    | Accept(s: nat, ip: seq<byte>, rx: Rx)  // a connection is accepted
    | Read(s: nat, f: Frame)                 // its read handler takes a frame
    | ReadError(s: nat)
    | WriteError(s: nat)
    | AppSwap                                // the application swaps the receive queue

  function Start(maxLinks: nat): Server {
    Server(EmptyTable(maxLinks), map[], [], 0, [])
  }

  /** A package that the application would take for a connect or a disconnect. */
  predicate IsReserved(d: Delivery) {
    d.id == ID_CONNECT || d.id == ID_DISCONNECT
  }

  /** What reading f makes session s deliver. */
  function DeliveredBy(z: Zlib, v: Server, s: nat, f: Frame): seq<Delivery>
    requires s in v.sessions
  {
    if f.id == ID_HEARTBEAT then [] else Deliver(z, v.sessions[s].rx, v.sessions[s].linkid, f).1
  }

  /** A frame on which the read handler breaks is not a step: an exception ends the io thread, and of a copy that
      leaves its block nothing is said. Peers may send any id, reserved or not, and any header. */
  predicate CanStep(z: Zlib, v: Server, st: Step) {
    match st
    case Accept(s, ip, _) =>
      s !in v.sessions && |ip| < MAX_BODY && |v.table.slots| <= MAX_ACCEPT_ITEM && v.table.lastId <= MAXSHORT
    case Read(s, f) => s in v.sessions && v.sessions[s].reading && !Breaks(z, v.sessions[s].rx, f)
    case ReadError(s) => s in v.sessions && v.sessions[s].reading
    case WriteError(s) => s in v.sessions
    case AppSwap => true
  }

  /** `start`: join, then read; without a slot the connection is dropped. */
  function AcceptStep(v: Server, s: nat, ip: seq<byte>, rx: Rx): Server
    requires |v.table.slots| <= MAX_ACCEPT_ITEM && v.table.lastId <= MAXSHORT
  {
    var (table, id) := Join(v.table, s, ip);
    if id == NO_LINK then v.(table := table, joins := v.joins + 1)
    else
      Server(table, v.sessions[s := Session(id, rx, true, id, v.joins + 1, rx, [])],
             v.events + [Event(s, false, Delivery(id, ID_CONNECT, 0, ip + [0]))], v.joins + 1,
             v.ops + [Ordinary(ConnectPackage(id, ip))])
  }

  /** `handle_read_body`: heartbeats are answered, everything else is stamped with `m_linkid` and queued. */
  function ReadStep(z: Zlib, v: Server, s: nat, f: Frame): Server
    requires s in v.sessions
  {
    var c := v.sessions[s];
    if f.id == ID_HEARTBEAT then v.(sessions := v.sessions[s := c.(input := c.input + [f])])
    else
      var (rx, ds) := Deliver(z, c.rx, c.linkid, f);
      v.(sessions := v.sessions[s := c.(rx := rx, input := c.input + [f])], events := v.events + Mark(s, ds),
         ops := v.ops + QueueOps(z, c.rx, c.linkid, f))
  }

  /** `Leave`: the session's handle is reset, its slot freed, and a disconnect queued if it had a handle. */
  function LeaveStep(v: Server, s: nat, why: u16): Server
    requires s in v.sessions
  {
    var id := v.sessions[s].linkid;
    v.(table := Pool.Leave(v.table, id), sessions := v.sessions[s := v.sessions[s].(linkid := NO_LINK)],
       events := v.events + (if id != NO_LINK then [Event(s, false, Delivery(id, ID_DISCONNECT, why, []))] else []),
       ops := v.ops + if id != NO_LINK then [Ordinary(DisconnectPackage(id, why))] else [])
  }

  /** A session whose read handler got an error. */
  function Deaf(v: Server, s: nat): Server
    requires s in v.sessions
  {
    v.(sessions := v.sessions[s := v.sessions[s].(reading := false)])
  }

  function After(z: Zlib, v: Server, st: Step): Server
    requires CanStep(z, v, st)
  {
    match st
    case Accept(s, ip, rx) => AcceptStep(v, s, ip, rx)
    case Read(s, f) => ReadStep(z, v, s, f)
    case ReadError(s) => LeaveStep(Deaf(v, s), s, 1)
    case WriteError(s) => LeaveStep(v, s, 2)
    case AppSwap => v.(ops := v.ops + [Flip])
  }

  predicate Possible(z: Zlib, maxLinks: nat, steps: seq<Step>)
    decreases |steps|, 0
  {
    steps == []
    || (Possible(z, maxLinks, steps[..|steps| - 1])
        && CanStep(z, Play(z, maxLinks, steps[..|steps| - 1]), steps[|steps| - 1]))
  }

  function Play(z: Zlib, maxLinks: nat, steps: seq<Step>): Server
    requires Possible(z, maxLinks, steps)
    decreases |steps|, 1
  {
    if steps == [] then Start(maxLinks)
    else After(z, Play(z, maxLinks, steps[..|steps| - 1]), steps[|steps| - 1])
  }

  // ---- Pool invariant over runs ----

  /** The serial number given by the n-th Join. */
  function SidOf(n: nat): nat {
    if n == 0 then 0 else (n - 1) % MAXSHORT + 1
  }

  /** A session holds the handle its Join gave until it leaves; while it does it is the link of the slot
      named there; and no later occupant of that slot joined before it. */
  ghost predicate SessionOk(v: Server, s: nat)
    requires s in v.sessions
  {
    var c := v.sessions[s];
    && 1 <= c.joined <= v.joins
    && c.handle.sid == SidOf(c.joined) && c.handle.sindex < |v.table.slots|
    && (c.linkid == c.handle || c.linkid == NO_LINK)
    && var slot := v.table.slots[c.handle.sindex];
    && (c.linkid != NO_LINK ==> slot.link == Some(s))
    && (slot.link.Some? && slot.link.value in v.sessions ==> c.joined <= v.sessions[slot.link.value].joined)
  }

  /** An occupied slot's link is a session that holds the slot's handle. */
  ghost predicate SlotLinked(v: Server, i: nat)
    requires i < |v.table.slots|
  {
    var slot := v.table.slots[i];
    slot.link.Some? ==> slot.link.value in v.sessions && v.sessions[slot.link.value].linkid == slot.id
  }

  ghost predicate PoolInv(v: Server) {
    && WellFormed(v.table)
    && v.table.lastId == SidOf(v.joins)
    && (forall s :: s in v.sessions ==> SessionOk(v, s))
    && (forall i :: 0 <= i < |v.table.slots| ==> SlotLinked(v, i))
    && (forall s, o :: s in v.sessions && o in v.sessions && s != o ==> v.sessions[s].joined != v.sessions[o].joined)
  }

  lemma {:induction false} EmptyWellFormed(maxLinks: nat, n: nat)
    requires n <= maxLinks
    ensures Occupied(EmptyTable<nat>(maxLinks).slots[..n]) == 0
  {
    if n > 0 {
      EmptyWellFormed(maxLinks, n - 1);
      assert EmptyTable<nat>(maxLinks).slots[..n][..n - 1] == EmptyTable<nat>(maxLinks).slots[..n - 1];
    }
  }

  lemma StartInv(maxLinks: nat)
    requires maxLinks <= MAX_ACCEPT_ITEM
    ensures PoolInv(Start(maxLinks))
  {
    EmptyWellFormed(maxLinks, maxLinks);
    assert EmptyTable<nat>(maxLinks).slots[..maxLinks] == EmptyTable<nat>(maxLinks).slots;
  }

  lemma NextSid(n: nat)
    ensures NextId(SidOf(n)) == SidOf(n + 1)
  {
  }

  /** A full pool takes nobody and only counts the Join. */
  lemma TurnedAway(v: Server, v': Server)
    requires PoolInv(v) && WellFormed(v'.table) && v'.sessions == v.sessions && v'.joins == v.joins + 1
    requires v'.table.slots == v.table.slots && v'.table.lastId == NextId(v.table.lastId)
    ensures PoolInv(v')
  {
    NextSid(v.joins);
    forall i | 0 <= i < |v'.table.slots| ensures SlotLinked(v', i) {
      assert SlotLinked(v, i);
    }
    forall c | c in v'.sessions ensures SessionOk(v', c) {
      assert SessionOk(v, c);
    }
  }

  /** A newcomer in a slot that was free. */
  lemma Welcomed(v: Server, s: nat, v': Server, id: LinkID, rx: Rx)
    requires PoolInv(v) && s !in v.sessions && WellFormed(v'.table) && v'.joins == v.joins + 1
    requires id != NO_LINK && id.sid == v'.table.lastId == NextId(v.table.lastId)
    requires id.sindex < |v.table.slots| == |v'.table.slots| && v.table.slots[id.sindex].id == NO_LINK
    requires v'.table.slots[id.sindex].id == id && v'.table.slots[id.sindex].link == Some(s)
    requires forall j :: 0 <= j < |v.table.slots| && j != id.sindex ==> v'.table.slots[j] == v.table.slots[j]
    requires v'.sessions == v.sessions[s := Session(id, rx, true, id, v.joins + 1, rx, [])]
    ensures PoolInv(v')
  {
    NextSid(v.joins);
    assert SlotOk(v.table.slots[id.sindex], id.sindex);
    forall i | 0 <= i < |v'.table.slots| ensures SlotLinked(v', i) {
      assert SlotLinked(v, i);
    }
    forall c | c in v'.sessions ensures SessionOk(v', c) {
      if c != s {
        assert SessionOk(v, c) && SlotLinked(v, v.sessions[c].handle.sindex);
      }
    }
  }

  lemma AcceptInv(v: Server, s: nat, ip: seq<byte>, rx: Rx)
    requires PoolInv(v) && s !in v.sessions
    ensures PoolInv(AcceptStep(v, s, ip, rx))
  {
    JoinTakesLowestFree(v.table, s, ip);
    var id, v' := Join(v.table, s, ip).1, AcceptStep(v, s, ip, rx);
    if id == NO_LINK {
      TurnedAway(v, v');
    } else {
      Welcomed(v, s, v', id, rx);
    }
  }

  /** Reads and swaps touch neither the pool nor the handles. */
  lemma QuietInv(v: Server, v': Server)
    requires PoolInv(v) && v'.table == v.table && v'.joins == v.joins && v'.sessions.Keys == v.sessions.Keys
    requires forall s :: s in v.sessions ==> SameHandle(v.sessions[s], v'.sessions[s])
    ensures PoolInv(v')
  {
    forall i | 0 <= i < |v'.table.slots| ensures SlotLinked(v', i) {
      assert SlotLinked(v, i);
    }
    forall c | c in v'.sessions ensures SessionOk(v', c) {
      assert SessionOk(v, c);
    }
  }

  predicate SameHandle(c: Session, d: Session) {
    c.linkid == d.linkid && c.handle == d.handle && c.joined == d.joined
  }

  /** A session that holds a handle gives it and its slot back. */
  lemma HolderLeaves(v: Server, s: nat, v': Server)
    requires PoolInv(v) && s in v.sessions && v.sessions[s].linkid != NO_LINK
    requires v'.table == Pool.Leave(v.table, v.sessions[s].linkid) && v'.joins == v.joins
    requires v'.sessions == v.sessions[s := v.sessions[s].(linkid := NO_LINK)]
    ensures PoolInv(v')
  {
    var id := v.sessions[s].linkid;
    assert SessionOk(v, s) && SlotLinked(v, id.sindex);
    LeaveFreesSlot(v.table, id);
    var freed := v'.table.slots[id.sindex];
    assert SlotOk(freed, id.sindex) && freed.link.None?;
    forall i | 0 <= i < |v'.table.slots| ensures SlotLinked(v', i) {
      assert SlotLinked(v, i);
      assert i != id.sindex ==> v.table.slots[i].link != Some(s);
    }
    forall c | c in v'.sessions ensures SessionOk(v', c) {
      assert SessionOk(v, c);
    }
  }

  lemma LeaveInv(v: Server, s: nat, why: u16)
    requires PoolInv(v) && s in v.sessions
    ensures PoolInv(LeaveStep(v, s, why))
  {
    if v.sessions[s].linkid == NO_LINK {
      LeaveFreesSlot(v.table, NO_LINK);
      QuietInv(v, LeaveStep(v, s, why));
    } else {
      HolderLeaves(v, s, LeaveStep(v, s, why));
    }
  }

  lemma ReadErrorInv(v: Server, s: nat)
    requires PoolInv(v) && s in v.sessions
    ensures PoolInv(LeaveStep(Deaf(v, s), s, 1))
  {
    QuietInv(v, Deaf(v, s));
    LeaveInv(Deaf(v, s), s, 1);
  }

  lemma ReadInv(z: Zlib, v: Server, s: nat, f: Frame)
    requires PoolInv(v) && s in v.sessions
    ensures PoolInv(ReadStep(z, v, s, f))
  {
    QuietInv(v, ReadStep(z, v, s, f));
  }

  lemma StepInv(z: Zlib, v: Server, st: Step)
    requires PoolInv(v) && CanStep(z, v, st)
    ensures PoolInv(After(z, v, st))
  {
    match st {
      case Accept(s, ip, rx) => AcceptInv(v, s, ip, rx);
      case Read(s, f) => ReadInv(z, v, s, f);
      case ReadError(s) => ReadErrorInv(v, s);
      case WriteError(s) => LeaveInv(v, s, 2);
      case AppSwap => QuietInv(v, After(z, v, AppSwap));
    }
  }

  lemma {:induction false} PoolInvariant(z: Zlib, maxLinks: nat, steps: seq<Step>)
    requires maxLinks <= MAX_ACCEPT_ITEM && Possible(z, maxLinks, steps)
    ensures PoolInv(Play(z, maxLinks, steps))
  {
    if steps == [] {
      StartInv(maxLinks);
    } else {
      PoolInvariant(z, maxLinks, steps[..|steps| - 1]);
      StepInv(z, Play(z, maxLinks, steps[..|steps| - 1]), steps[|steps| - 1]);
    }
  }

  /** In every reachable state, sessions that hold handles hold different ones, and each handle addresses its
      own session. */
  lemma {:induction false} HandlesIdentifySessions(z: Zlib, maxLinks: nat, steps: seq<Step>, s: nat, o: nat)
    requires maxLinks <= MAX_ACCEPT_ITEM && Possible(z, maxLinks, steps)
    requires var v := Play(z, maxLinks, steps);
      s in v.sessions && o in v.sessions && v.sessions[s].linkid != NO_LINK && v.sessions[o].linkid != NO_LINK
    ensures var v := Play(z, maxLinks, steps);
      var id := v.sessions[s].linkid;
      && (s != o ==> id != v.sessions[o].linkid)
      && Addresses(v.table, id) && v.table.slots[id.sindex].link == Some(s)
  {
    PoolInvariant(z, maxLinks, steps);
    var v := Play(z, maxLinks, steps);
    assert SessionOk(v, s) && SessionOk(v, o);
    assert SlotLinked(v, v.sessions[s].handle.sindex);
  }

  /** The slot that session s was given is now held by a session that joined a positive multiple of MAXSHORT
      Joins later. */
  predicate SlotReissued(v: Server, s: nat)
    requires s in v.sessions
  {
    var c := v.sessions[s];
    && c.handle.sindex < |v.table.slots|
    && var link := v.table.slots[c.handle.sindex].link;
    && link.Some? && link.value in v.sessions
    && var later := v.sessions[link.value].joined - c.joined;
    && later > 0 && later % MAXSHORT == 0
  }

  /** The handle of a session that has left addresses a session if and only if it was issued again; so never
      before MAXSHORT further Joins. */
  lemma {:induction false} StaleHandle(z: Zlib, maxLinks: nat, steps: seq<Step>, s: nat)
    requires maxLinks <= MAX_ACCEPT_ITEM && Possible(z, maxLinks, steps)
    requires s in Play(z, maxLinks, steps).sessions && Play(z, maxLinks, steps).sessions[s].linkid == NO_LINK
    ensures var v := Play(z, maxLinks, steps);
      && (Addresses(v.table, v.sessions[s].handle) <==> SlotReissued(v, s))
      && (Addresses(v.table, v.sessions[s].handle) ==> v.joins >= v.sessions[s].joined + MAXSHORT)
  {
    PoolInvariant(z, maxLinks, steps);
    StaleHandleIn(Play(z, maxLinks, steps), s);
  }

  lemma StaleHandleIn(v: Server, s: nat)
    requires PoolInv(v) && s in v.sessions && v.sessions[s].linkid == NO_LINK
    ensures Addresses(v.table, v.sessions[s].handle) <==> SlotReissued(v, s)
    ensures Addresses(v.table, v.sessions[s].handle) ==> v.joins >= v.sessions[s].joined + MAXSHORT
  {
    var c := v.sessions[s];
    assert SessionOk(v, s) && SlotLinked(v, c.handle.sindex) && SlotOk(v.table.slots[c.handle.sindex], c.handle.sindex);
    var slot := v.table.slots[c.handle.sindex];
    if slot.link.Some? {
      var o := slot.link.value;
      assert SessionOk(v, o) && o != s;
      SameSid(c.joined, v.sessions[o].joined);
    }
  }

  lemma SameSid(a: nat, b: nat)
    requires 1 <= a <= b
    ensures SidOf(a) == SidOf(b) <==> (b - a) % MAXSHORT == 0
    ensures SidOf(a) == SidOf(b) && a != b ==> b >= a + MAXSHORT
  {
  }

  /** A one-slot pool after n sessions joined and left in turn. */
  function PassedThrough(n: nat, link: nat, ip: seq<byte>): (t: Table<nat>)
    ensures |t.slots| <= MAX_ACCEPT_ITEM && t.lastId <= MAXSHORT
  {
    if n == 0 then EmptyTable(1)
    else
      var (t, id) := Join(PassedThrough(n - 1, link, ip), link, ip);
      Pool.Leave(t, id)
  }

  /** A free one-slot pool gives its slot to the next Join and has it back after the Leave. */
  lemma OneSlotCycle(t: Table<nat>, n: nat, link: nat, ip: seq<byte>)
    requires |t.slots| == 1 && t.slots[0].id == NO_LINK && t.lastId == SidOf(n)
    ensures var (u, id) := Join(t, link, ip);
      && id == LinkID(SidOf(n + 1), 0) && Addresses(u, id)
      && var v := Pool.Leave(u, id);
      && |v.slots| == 1 && v.slots[0].id == NO_LINK && v.lastId == SidOf(n + 1)
  {
  }

  lemma {:induction false} PassThrough(n: nat, link: nat, ip: seq<byte>)
    ensures var t := PassedThrough(n, link, ip);
      |t.slots| == 1 && t.slots[0].id == NO_LINK && t.lastId == SidOf(n)
  {
    if n > 0 {
      PassThrough(n - 1, link, ip);
      OneSlotCycle(PassedThrough(n - 1, link, ip), n - 1, link, ip);
    }
  }

  /** The window is tight: a pool of one slot through which n sessions have passed hands out at the next Join
      the handle it hands out MAXSHORT Joins later, so the first one's handle then addresses the second. */
  lemma HandleReturns(n: nat, link: nat, ip: seq<byte>)
    ensures var (t, id) := Join(PassedThrough(n, link, ip), link, ip);
      var (t', id') := Join(PassedThrough(n + MAXSHORT, link, ip), link, ip);
      id == id' != NO_LINK && Addresses(t', id)
  {
    var m := n + MAXSHORT;
    PassThrough(n, link, ip);
    OneSlotCycle(PassedThrough(n, link, ip), n, link, ip);
    PassThrough(m, link, ip);
    OneSlotCycle(PassedThrough(m, link, ip), m, link, ip);
    assert SidOf(n + 1) == SidOf(m + 1) by {
      SameSid(n + 1, m + 1);
    }
  }

  // ---- What the application sees ----

  datatype Trace = Closed | Opened | Bad

  /** A package of one handle after its others: what came off the wire is data, the rest is a connect or a
      disconnect. */
  function Advance(t: Trace, e: Event): Trace {
    if e.received then (if t == Opened then Opened else Bad)
    else if e.what.id == ID_CONNECT then (if t == Closed then Opened else Bad)
    else if e.what.id == ID_DISCONNECT then (if t == Opened then Closed else Bad)
    else Bad
  }

  /** The packages stamped with one handle, read as connect, data, disconnect. */
  function TraceOf(events: seq<Event>, id: LinkID): Trace {
    if events == [] then Closed
    else
      var t, e := TraceOf(events[..|events| - 1], id), events[|events| - 1];
      if e.what.link == id then Advance(t, e) else t
  }

  /** How often a handle was connected. */
  function Connects(events: seq<Event>, id: LinkID): nat {
    if events == [] then 0
    else
      var e := events[|events| - 1];
      Connects(events[..|events| - 1], id)
      + if e.what.link == id && !e.received && e.what.id == ID_CONNECT then 1 else 0
  }

  /** How many of the first n Joins gave serial number sid. */
  function Issued(n: nat, sid: nat): nat {
    if sid == 0 || n < sid then 0 else (n - sid) / MAXSHORT + 1
  }

  predicate Live(v: Server, id: LinkID) {
    id.sindex < |v.table.slots| && v.table.slots[id.sindex].id == id
  }

  ghost predicate TraceInv(v: Server) {
    && (forall id :: id != NO_LINK ==> TraceOf(v.events, id) == if Live(v, id) then Opened else Closed)
    && (forall id :: id != NO_LINK ==> Connects(v.events, id) <= Issued(v.joins, id.sid))
  }

  lemma AcceptTraceAt(v: Server, s: nat, ip: seq<byte>, rx: Rx, id: LinkID)
    requires WellFormed(v.table) && id != NO_LINK
    requires TraceOf(v.events, id) == if Live(v, id) then Opened else Closed
    ensures var v', given := AcceptStep(v, s, ip, rx), Join(v.table, s, ip).1;
      && TraceOf(v'.events, id) == (if Live(v', id) then Opened else Closed)
      && Connects(v'.events, id) == Connects(v.events, id) + (if given == id then 1 else 0)
      && (given == id ==> id.sid == NextId(v.table.lastId))
  {
    JoinTakesLowestFree(v.table, s, ip);
    var v', given := AcceptStep(v, s, ip, rx), Join(v.table, s, ip).1;
    if given != NO_LINK {
      EventSnoc(v.events, v'.events[|v.events|]);
    }
  }

  lemma AcceptTrace(v: Server, s: nat, ip: seq<byte>, rx: Rx)
    requires PoolInv(v) && TraceInv(v)
    ensures TraceInv(AcceptStep(v, s, ip, rx))
  {
    assert NextId(SidOf(v.joins)) == SidOf(v.joins + 1);
    forall id: LinkID | id != NO_LINK
      ensures var v' := AcceptStep(v, s, ip, rx);
        && TraceOf(v'.events, id) == (if Live(v', id) then Opened else Closed)
        && Connects(v'.events, id) <= Issued(v.joins + 1, id.sid)
    {
      assert Connects(v.events, id) <= Issued(v.joins, id.sid);
      AcceptTraceAt(v, s, ip, rx, id);
      IssuedGrows(v.joins, id.sid);
    }
  }

  /** The next Join may add one to the count of its serial number. */
  lemma IssuedGrows(n: nat, sid: nat)
    ensures Issued(n + 1, sid) >= Issued(n, sid) + if SidOf(n + 1) == sid then 1 else 0
  {
  }

  lemma HandleIsLive(v: Server, s: nat)
    requires PoolInv(v) && s in v.sessions && v.sessions[s].linkid != NO_LINK
    ensures Live(v, v.sessions[s].linkid)
  {
    assert SessionOk(v, s) && SlotLinked(v, v.sessions[s].handle.sindex);
  }

  lemma LeaveTraceAt(v: Server, s: nat, why: u16, id: LinkID)
    requires WellFormed(v.table) && s in v.sessions && id != NO_LINK
    requires v.sessions[s].linkid != NO_LINK ==> Live(v, v.sessions[s].linkid)
    requires TraceOf(v.events, id) == if Live(v, id) then Opened else Closed
    ensures var v' := LeaveStep(v, s, why);
      && TraceOf(v'.events, id) == (if Live(v', id) then Opened else Closed)
      && Connects(v'.events, id) == Connects(v.events, id)
  {
    var left, v' := v.sessions[s].linkid, LeaveStep(v, s, why);
    LeaveFreesSlot(v.table, left);
    if left == NO_LINK {
      assert v'.events == v.events;
    } else {
      EventSnoc(v.events, v'.events[|v.events|]);
    }
  }

  lemma LeaveTrace(v: Server, s: nat, why: u16)
    requires PoolInv(v) && TraceInv(v) && s in v.sessions
    ensures TraceInv(LeaveStep(v, s, why))
  {
    if v.sessions[s].linkid != NO_LINK {
      HandleIsLive(v, s);
    }
    forall id: LinkID | id != NO_LINK
      ensures var v' := LeaveStep(v, s, why);
        && TraceOf(v'.events, id) == (if Live(v', id) then Opened else Closed)
        && Connects(v'.events, id) <= Issued(v'.joins, id.sid)
    {
      LeaveTraceAt(v, s, why, id);
    }
  }

  /** A read adds at most one event. */
  lemma ReadAppends(z: Zlib, v: Server, s: nat, f: Frame)
    requires s in v.sessions
    ensures var v', ds := ReadStep(z, v, s, f), DeliveredBy(z, v, s, f);
      && v'.table == v.table && v'.joins == v.joins
      && (ds == [] ==> v'.events == v.events)
      && (ds != [] ==>
            ds == [ds[0]] && ds[0].link == v.sessions[s].linkid && v'.events == v.events + [Event(s, true, ds[0])])
  {
    var c := v.sessions[s];
    DeliveredOnce(z, c.rx, c.linkid, f);
    MarkOne(s, DeliveredBy(z, v, s, f));
  }

  /** A package off the wire, stamped with a live handle or none, leaves every trace as it was. */
  lemma OneReadTrace(v: Server, v': Server, e: Event)
    requires v'.events == v.events + [e] && v'.table == v.table && v'.joins == v.joins
    requires TraceInv(v) && e.received && (e.what.link != NO_LINK ==> Live(v, e.what.link))
    ensures TraceInv(v')
  {
    EventSnoc(v.events, e);
    forall id: LinkID | id != NO_LINK
      ensures TraceOf(v'.events, id) == (if Live(v', id) then Opened else Closed)
      ensures Connects(v'.events, id) <= Issued(v'.joins, id.sid)
    {
      assert Connects(v.events, id) <= Issued(v.joins, id.sid);
    }
  }

  lemma ReadTrace(z: Zlib, v: Server, s: nat, f: Frame)
    requires PoolInv(v) && TraceInv(v) && s in v.sessions
    ensures TraceInv(ReadStep(z, v, s, f))
  {
    var v', ds := ReadStep(z, v, s, f), DeliveredBy(z, v, s, f);
    ReadAppends(z, v, s, f);
    if ds == [] {
      SameEventsTrace(v, v');
    } else {
      if v.sessions[s].linkid != NO_LINK {
        HandleIsLive(v, s);
      }
      OneReadTrace(v, v', Event(s, true, ds[0]));
    }
  }

  lemma SameEventsTrace(v: Server, v': Server)
    requires TraceInv(v) && v'.table == v.table && v'.events == v.events && v'.joins == v.joins
    ensures TraceInv(v')
  {
    forall id: LinkID | id != NO_LINK
      ensures TraceOf(v'.events, id) == (if Live(v', id) then Opened else Closed)
      ensures Connects(v'.events, id) <= Issued(v'.joins, id.sid)
    {
      assert Connects(v.events, id) <= Issued(v.joins, id.sid);
    }
  }

  lemma StepTrace(z: Zlib, v: Server, st: Step)
    requires PoolInv(v) && TraceInv(v) && CanStep(z, v, st)
    ensures TraceInv(After(z, v, st))
  {
    match st {
      case Accept(s, ip, rx) => AcceptTrace(v, s, ip, rx);
      case Read(s, f) => ReadTrace(z, v, s, f);
      case ReadError(s) =>
        QuietInv(v, Deaf(v, s));
        SameEventsTrace(v, Deaf(v, s));
        LeaveTrace(Deaf(v, s), s, 1);
      case WriteError(s) => LeaveTrace(v, s, 2);
      case AppSwap => SameEventsTrace(v, After(z, v, AppSwap));
    }
  }

  /** For any run, whatever ids the peers use: by where they come from, the packages with a nonzero handle read
      Connect, data, Disconnect, over and over, with a Connect outstanding exactly while some session holds the
      handle, though errors may call Leave twice and reads may follow it; and among the first MAXSHORT Joins no
      handle is connected twice. */
  lemma {:induction false} SessionTraces(z: Zlib, maxLinks: nat, steps: seq<Step>)
    requires maxLinks <= MAX_ACCEPT_ITEM && Possible(z, maxLinks, steps)
    ensures TraceInv(Play(z, maxLinks, steps))
    ensures var v := Play(z, maxLinks, steps);
      forall id :: id != NO_LINK && v.joins <= MAXSHORT ==> Connects(v.events, id) <= 1
  {
    if steps != [] {
      var front := steps[..|steps| - 1];
      SessionTraces(z, maxLinks, front);
      PoolInvariant(z, maxLinks, front);
      StepTrace(z, Play(z, maxLinks, front), steps[|steps| - 1]);
    }
    var v := Play(z, maxLinks, steps);
    forall id | id != NO_LINK && v.joins <= MAXSHORT ensures Connects(v.events, id) <= 1 {
      assert Connects(v.events, id) <= Issued(v.joins, id.sid);
    }
  }

  // ---- What the application can tell ----

  /** A package off the wire that the application takes for a connect or a disconnect of a session. The ids are
      reserved, but the server does not keep peers from sending them. */
  predicate IsForged(e: Event) {
    e.received && IsReserved(e.what) && e.what.link != NO_LINK
  }

  predicate Forged(events: seq<Event>) {
    exists e :: e in events && IsForged(e)
  }

  /** The application has only the ids to go by. */
  function Seen(events: seq<Event>): seq<Event> {
    if events == [] then []
    else
      var e := events[|events| - 1];
      Seen(events[..|events| - 1]) + [e.(received := !IsReserved(e.what))]
  }

  ghost predicate SeenInOrder(v: Server) {
    forall id :: id != NO_LINK ==> TraceOf(Seen(v.events), id) == if Live(v, id) then Opened else Closed
  }

  /** At every moment of the run the ids tell the application the truth. */
  ghost predicate AlwaysSeenInOrder(z: Zlib, maxLinks: nat, steps: seq<Step>)
    requires Possible(z, maxLinks, steps)
    decreases |steps|
  {
    && SeenInOrder(Play(z, maxLinks, steps))
    && (steps != [] ==> AlwaysSeenInOrder(z, maxLinks, steps[..|steps| - 1]))
  }

  /** The server's own packages have the reserved ids. */
  ghost predicate Authentic(events: seq<Event>) {
    forall e :: e in events && !e.received ==> IsReserved(e.what)
  }

  /** A step queues at most one package, and only a read one off the wire, stamped with its session's handle. */
  lemma StepAppends(z: Zlib, v: Server, st: Step) returns (news: seq<Event>)
    requires CanStep(z, v, st)
    ensures After(z, v, st).events == v.events + news && |news| <= 1
    ensures news != [] && !news[0].received ==> IsReserved(news[0].what)
    ensures news != [] && news[0].received ==>
      && st.Read? && news[0].what.link == v.sessions[st.s].linkid
      && After(z, v, st).table == v.table
  {
    news := After(z, v, st).events[|v.events|..];
    match st {
      case Read(s, f) => ReadAppends(z, v, s, f);
      case _ =>
    }
  }

  lemma SeenSnoc(events: seq<Event>, e: Event, id: LinkID)
    ensures var seen := e.(received := !IsReserved(e.what));
      TraceOf(Seen(events + [e]), id)
      == if e.what.link == id then Advance(TraceOf(Seen(events), id), seen) else TraceOf(Seen(events), id)
  {
    EventSnoc(events, e);
    EventSnoc(Seen(events), e.(received := !IsReserved(e.what)));
  }

  lemma {:induction false} SeenSame(events: seq<Event>, id: LinkID)
    requires Authentic(events) && !Forged(events) && id != NO_LINK
    ensures TraceOf(Seen(events), id) == TraceOf(events, id)
  {
    if events != [] {
      var front, e := events[..|events| - 1], events[|events| - 1];
      assert events == front + [e];
      SeenSame(front, id);
      SeenSnoc(front, e, id);
      assert e in events && !IsForged(e);
    }
  }

  lemma UnforgedInOrder(v: Server)
    requires TraceInv(v) && Authentic(v.events) && !Forged(v.events)
    ensures SeenInOrder(v)
  {
    forall id: LinkID | id != NO_LINK
      ensures TraceOf(Seen(v.events), id) == if Live(v, id) then Opened else Closed
    {
      SeenSame(v.events, id);
    }
  }

  /** The first forged package makes the application take the session for gone, or for connected twice. */
  lemma ForgerySpoils(v: Server, v': Server, e: Event)
    requires SeenInOrder(v) && v'.events == v.events + [e] && v'.table == v.table
    requires IsForged(e) && Live(v, e.what.link)
    ensures !SeenInOrder(v')
  {
    SeenSnoc(v.events, e, e.what.link);
    assert TraceOf(Seen(v'.events), e.what.link) != Opened;
  }

  lemma {:induction false} EventsAuthentic(z: Zlib, maxLinks: nat, steps: seq<Step>)
    requires Possible(z, maxLinks, steps)
    ensures Authentic(Play(z, maxLinks, steps).events)
  {
    if steps != [] {
      EventsAuthentic(z, maxLinks, steps[..|steps| - 1]);
      var news := StepAppends(z, Play(z, maxLinks, steps[..|steps| - 1]), steps[|steps| - 1]);
    }
  }

  lemma ForgedAppend(events: seq<Event>, news: seq<Event>)
    ensures Forged(events + news) <==> Forged(events) || Forged(news)
  {
    if Forged(events) {
      var e :| e in events && IsForged(e);
      assert e in events + news;
    }
    if Forged(news) {
      var e :| e in news && IsForged(e);
      assert e in events + news;
    }
  }

  /** As long as nothing was forged, a step keeps the ids right exactly if it delivers no forgery. */
  lemma ForgedStep(z: Zlib, v: Server, st: Step)
    requires CanStep(z, v, st) && PoolInv(v)
    requires TraceInv(After(z, v, st)) && Authentic(After(z, v, st).events)
    ensures var v' := After(z, v, st);
      && (Forged(v.events) ==> Forged(v'.events))
      && (!Forged(v.events) && SeenInOrder(v) ==> (SeenInOrder(v') <==> !Forged(v'.events)))
  {
    var v' := After(z, v, st);
    var news := StepAppends(z, v, st);
    ForgedAppend(v.events, news);
    if !Forged(v'.events) {
      UnforgedInOrder(v');
    } else if !Forged(v.events) && SeenInOrder(v) {
      var e :| e in news && IsForged(e);
      assert news == [e];
      HandleIsLive(v, st.s);
      ForgerySpoils(v, v', e);
    }
  }

  /** In every run: the ids alone tell the application the truth at every moment if and only if no session that
      held a handle delivered a package with a reserved id. */
  lemma {:induction false} IdsTellTheTruthIff(z: Zlib, maxLinks: nat, steps: seq<Step>)
    requires maxLinks <= MAX_ACCEPT_ITEM && Possible(z, maxLinks, steps)
    ensures AlwaysSeenInOrder(z, maxLinks, steps) <==> !Forged(Play(z, maxLinks, steps).events)
  {
    SessionTraces(z, maxLinks, steps);
    EventsAuthentic(z, maxLinks, steps);
    if steps == [] {
      UnforgedInOrder(Play(z, maxLinks, steps));
    } else {
      var front := steps[..|steps| - 1];
      IdsTellTheTruthIff(z, maxLinks, front);
      PoolInvariant(z, maxLinks, front);
      ForgedStep(z, Play(z, maxLinks, front), steps[|steps| - 1]);
    }
  }

  lemma RunSnoc(z: Zlib, maxLinks: nat, steps: seq<Step>, st: Step)
    requires Possible(z, maxLinks, steps) && CanStep(z, Play(z, maxLinks, steps), st)
    ensures Possible(z, maxLinks, steps + [st])
    ensures Play(z, maxLinks, steps + [st]) == After(z, Play(z, maxLinks, steps), st)
  {
    assert (steps + [st])[..|steps + [st]| - 1] == steps;
  }

  /** A peer that joins and sends one package with the connect id: for the application its handle, the first one
      given out, is connected twice. */
  function Impostor(s: nat, ip: seq<byte>, rx: Rx): seq<Step> {
    [Accept(s, ip, rx)] + [Read(s, Frame(ID_CONNECT, 0, []))]
  }

  lemma FirstJoin(maxLinks: nat, s: nat, ip: seq<byte>, rx: Rx)
    requires 0 < maxLinks <= MAX_ACCEPT_ITEM
    ensures var v := AcceptStep(Start(maxLinks), s, ip, rx);
      && v.sessions == map[s := Session(LinkID(1, 0), rx, true, LinkID(1, 0), 1, rx, [])]
      && v.events == [Event(s, false, Delivery(LinkID(1, 0), ID_CONNECT, 0, ip + [0]))]
  {
    assert FirstFree(EmptyTable<nat>(maxLinks).slots, 0) == 0;
  }

  lemma {:induction false} ImpostorConnectsTwice(z: Zlib, maxLinks: nat, s: nat, ip: seq<byte>, rx: Rx)
    requires 0 < maxLinks <= MAX_ACCEPT_ITEM && |ip| < MAX_BODY
    ensures Possible(z, maxLinks, Impostor(s, ip, rx))
    ensures var v := Play(z, maxLinks, Impostor(s, ip, rx));
      Forged(v.events) && TraceOf(Seen(v.events), LinkID(1, 0)) == Bad
  {
    var id, f, v := LinkID(1, 0), Frame(ID_CONNECT, 0, []), AcceptStep(Start(maxLinks), s, ip, rx);
    RunSnoc(z, maxLinks, [], Accept(s, ip, rx));
    assert [] + [Accept(s, ip, rx)] == [Accept(s, ip, rx)];
    FirstJoin(maxLinks, s, ip, rx);
    RunSnoc(z, maxLinks, [Accept(s, ip, rx)], Read(s, f));
    ReadAppends(z, v, s, f);
    var e0, e1 := v.events[0], Event(s, true, Delivery(id, ID_CONNECT, 0, []));
    assert ReadStep(z, v, s, f).events == [e0] + [e1];
    SeenSnoc([], e0, id);
    SeenSnoc([e0], e1, id);
    assert [] + [e0] == [e0];
    assert e1 in [e0] + [e1] && IsForged(e1);
  }

  // ---- Demultiplexing ----

  /** Session s has delivered what its own frames deliver, and holds the reassembler they leave. */
  ghost predicate DemuxedAt(z: Zlib, v: Server, s: nat) {
    if s in v.sessions then
      Replay(z, v.sessions[s].rx0, NonBeat(v.sessions[s].input)) == (v.sessions[s].rx, Received(v.events, s))
    else Received(v.events, s) == []
  }

  ghost predicate Demuxed(z: Zlib, v: Server) {
    forall s :: DemuxedAt(z, v, s)
  }

  lemma ReplaySnoc(z: Zlib, rx: Rx, fs: seq<Frame>, f: Frame)
    ensures var (r, ds) := Replay(z, rx, fs);
      Replay(z, rx, fs + [f]) == (Deliver(z, r, NO_LINK, f).0, ds + Deliver(z, r, NO_LINK, f).1)
  {
  }

  lemma ReadDemuxedSelf(z: Zlib, v: Server, s: nat, f: Frame)
    requires DemuxedAt(z, v, s) && s in v.sessions
    ensures DemuxedAt(z, ReadStep(z, v, s, f), s)
  {
    var c := v.sessions[s];
    NonBeatSnoc(c.input, f);
    if f.id != ID_HEARTBEAT {
      ReadReceived(z, c.rx, c.linkid, f, v.events, s, s);
      DeliveredOnce(z, c.rx, c.linkid, f);
      ReplaySnoc(z, c.rx0, NonBeat(c.input), f);
    }
  }

  lemma ReadDemuxed(z: Zlib, v: Server, s: nat, f: Frame)
    requires Demuxed(z, v) && s in v.sessions
    ensures Demuxed(z, ReadStep(z, v, s, f))
  {
    forall o ensures DemuxedAt(z, ReadStep(z, v, s, f), o) {
      assert DemuxedAt(z, v, o);
      if o == s {
        ReadDemuxedSelf(z, v, s, f);
      } else if f.id != ID_HEARTBEAT {
        ReadReceived(z, v.sessions[s].rx, v.sessions[s].linkid, f, v.events, s, o);
      }
    }
  }

  /** Joins and leaves add no data. */
  lemma HandlerDemuxed(z: Zlib, v: Server, v': Server, news: seq<Event>)
    requires Demuxed(z, v) && v'.events == v.events + news && |news| <= 1 && (news != [] ==> !news[0].received)
    requires forall s :: s in v'.sessions ==>
      if s in v.sessions then
        && v'.sessions[s].rx == v.sessions[s].rx && v'.sessions[s].rx0 == v.sessions[s].rx0
        && v'.sessions[s].input == v.sessions[s].input
      else v'.sessions[s].input == [] && v'.sessions[s].rx == v'.sessions[s].rx0
    requires forall s :: s in v.sessions ==> s in v'.sessions
    ensures Demuxed(z, v')
  {
    forall s ensures DemuxedAt(z, v', s) {
      assert DemuxedAt(z, v, s);
      if news == [] {
        assert v'.events == v.events;
      } else {
        assert news == [news[0]];
        ReceivedSnoc(v.events, news[0], s);
      }
    }
  }

  lemma StepDemuxed(z: Zlib, v: Server, st: Step)
    requires Demuxed(z, v) && CanStep(z, v, st)
    ensures Demuxed(z, After(z, v, st))
  {
    var v' := After(z, v, st);
    match st {
      case Accept(s, ip, rx) => HandlerDemuxed(z, v, v', v'.events[|v.events|..]);
      case Read(s, f) => ReadDemuxed(z, v, s, f);
      case ReadError(s) => HandlerDemuxed(z, v, v', v'.events[|v.events|..]);
      case WriteError(s) => HandlerDemuxed(z, v, v', v'.events[|v.events|..]);
      case AppSwap => HandlerDemuxed(z, v, v', []);
    }
  }

  /** Each session's data reaches the queue as if its frames had been read alone, from its own reassembler. */
  lemma {:induction false} Demultiplexing(z: Zlib, maxLinks: nat, steps: seq<Step>)
    requires Possible(z, maxLinks, steps)
    ensures Demuxed(z, Play(z, maxLinks, steps))
  {
    if steps != [] {
      Demultiplexing(z, maxLinks, steps[..|steps| - 1]);
      StepDemuxed(z, Play(z, maxLinks, steps[..|steps| - 1]), steps[|steps| - 1]);
    }
  }

  /** So a session whose peer sends acceptable messages, heartbeats between them, has delivered exactly those
      it has sent whole, however the sessions interleave. */
  lemma {:induction false} SessionDelivers(z: Zlib, maxLinks: nat, steps: seq<Step>, s: nat, cs: seq<Coded>)
    requires Possible(z, maxLinks, steps) && s in Play(z, maxLinks, steps).sessions
    requires AllDecode(z, cs) && NonBeat(Play(z, maxLinks, steps).sessions[s].input) <= Flat(cs)
    ensures var v := Play(z, maxLinks, steps);
      Received(v.events, s) == ExpectedAll(cs[..Whole(cs, |NonBeat(v.sessions[s].input)|)])
  {
    Demultiplexing(z, maxLinks, steps);
    assert DemuxedAt(z, Play(z, maxLinks, steps), s);
    var c := Play(z, maxLinks, steps).sessions[s];
    assert Flat(cs)[..|NonBeat(c.input)|] == NonBeat(c.input);
    PrefixDelivers(z, c.rx0, cs, |NonBeat(c.input)|);
  }

  // ---- Where a read breaks ----

  lemma {:induction false} ReplayIsFeed(z: Zlib, rx: Rx, fs: seq<Frame>)
    ensures Replay(z, rx, fs).0 == Feed(z, rx, fs)
  {
    if fs != [] {
      ReplayIsFeed(z, rx, fs[..|fs| - 1]);
    }
  }

  /** In every run: the next frame that a session reads overruns if and only if it completes a message and the header
      of the session's last Begin is not honest. */
  lemma {:induction false} SessionOverrunsIff(z: Zlib, maxLinks: nat, steps: seq<Step>, s: nat, before: seq<Frame>,
                                              begin: Frame, fs: seq<Frame>, f: Frame)
    requires Possible(z, maxLinks, steps) && s in Play(z, maxLinks, steps).sessions
    requires NonBeat(Play(z, maxLinks, steps).sessions[s].input) == before + ([begin] + fs)
    requires begin.id == ID_BIG_BEGIN && forall g :: g in fs ==> g.id != ID_BIG_BEGIN
    ensures var rx := Play(z, maxLinks, steps).sessions[s].rx;
      Handle(z, rx, f).1 == Overran <==> Recv(z, rx, f).1 == Complete && !Honest(DecodeHeader(begin.body))
  {
    Demultiplexing(z, maxLinks, steps);
    assert DemuxedAt(z, Play(z, maxLinks, steps), s);
    var rx0 := Play(z, maxLinks, steps).sessions[s].rx0;
    ReplayIsFeed(z, rx0, before + ([begin] + fs));
    FeedAppend(z, rx0, before, [begin] + fs);
    OverrunIffDishonest(z, Feed(z, rx0, before), begin, fs, f);
  }

  /** A peer that joins and sends a header that is not honest: the End frame with it completes and overruns. */
  function Liar(s: nat, ip: seq<byte>, rx: Rx): seq<Step> {
    [Accept(s, ip, rx)] + [Read(s, BeginFrame(DISHONEST))]
  }

  lemma {:induction false} LiarOverruns(z: Zlib, maxLinks: nat, s: nat, ip: seq<byte>, rx: Rx)
    requires 0 < maxLinks <= MAX_ACCEPT_ITEM && |ip| < MAX_BODY
    ensures Possible(z, maxLinks, Liar(s, ip, rx))
    ensures var v, last := Play(z, maxLinks, Liar(s, ip, rx)), EndFrame(DISHONEST);
      && s in v.sessions && v.sessions[s].reading
      && Recv(z, v.sessions[s].rx, last).1 == Complete && Handle(z, v.sessions[s].rx, last).1 == Overran
      && !CanStep(z, v, Read(s, last))
  {
    var begin, v := BeginFrame(DISHONEST), AcceptStep(Start(maxLinks), s, ip, rx);
    DishonestOverruns(z, rx);
    RunSnoc(z, maxLinks, [], Accept(s, ip, rx));
    assert [] + [Accept(s, ip, rx)] == [Accept(s, ip, rx)];
    FirstJoin(maxLinks, s, ip, rx);
    assert v.sessions[s].rx == rx;
    RunSnoc(z, maxLinks, [Accept(s, ip, rx)], Read(s, begin));
    assert ReadStep(z, v, s, begin).sessions[s].rx == Recv(z, rx, begin).0;
  }

  // ---- The receive queue ----

  ghost predicate QueueInv(v: Server) {
    Follows(v.ops, v.events)
  }

  lemma ReadQueue(z: Zlib, v: Server, s: nat, f: Frame)
    requires QueueInv(v) && s in v.sessions
    ensures QueueInv(ReadStep(z, v, s, f))
  {
    if f.id != ID_HEARTBEAT {
      FollowsRead(z, v.ops, v.events, v.sessions[s].rx, v.sessions[s].linkid, f, s);
    }
  }

  lemma AcceptQueue(v: Server, s: nat, ip: seq<byte>, rx: Rx)
    requires QueueInv(v) && |v.table.slots| <= MAX_ACCEPT_ITEM && v.table.lastId <= MAXSHORT && |ip| < MAX_BODY
    ensures QueueInv(AcceptStep(v, s, ip, rx))
  {
    var id, v' := Join(v.table, s, ip).1, AcceptStep(v, s, ip, rx);
    if id != NO_LINK {
      var op := v'.ops[|v.ops|];
      assert Resize(op.p.body, op.p.length) == ip + [0];
      FollowsSnoc(v.ops, v.events, op, v'.events[|v.events|]);
    }
  }

  lemma LeaveQueue(v: Server, s: nat, why: u16)
    requires QueueInv(v) && s in v.sessions
    ensures QueueInv(LeaveStep(v, s, why))
  {
    var v' := LeaveStep(v, s, why);
    if v.sessions[s].linkid == NO_LINK {
      assert v'.events == v.events && v'.ops == v.ops;
    } else {
      var op := v'.ops[|v.ops|];
      assert Resize(op.p.body, op.p.length) == [];
      FollowsSnoc(v.ops, v.events, op, v'.events[|v.events|]);
    }
  }

  lemma StepQueue(z: Zlib, v: Server, st: Step)
    requires QueueInv(v) && CanStep(z, v, st)
    ensures QueueInv(After(z, v, st))
  {
    match st {
      case Accept(s, ip, rx) => AcceptQueue(v, s, ip, rx);
      case Read(s, f) => ReadQueue(z, v, s, f);
      case ReadError(s) => LeaveQueue(Deaf(v, s), s, 1);
      case WriteError(s) => LeaveQueue(v, s, 2);
      case AppSwap => FollowsFlip(v.ops, v.events);
    }
  }

  lemma {:induction false} QueueFollowsEvents(z: Zlib, maxLinks: nat, steps: seq<Step>)
    requires Possible(z, maxLinks, steps)
    ensures QueueInv(Play(z, maxLinks, steps))
  {
    if steps != [] {
      QueueFollowsEvents(z, maxLinks, steps[..|steps| - 1]);
      StepQueue(z, Play(z, maxLinks, steps[..|steps| - 1]), steps[|steps| - 1]);
    }
  }

  /** The buffers the application swaps out show, epoch by epoch and with nothing in between, what the handlers
      of all sessions queued, in the order they queued it. */
  lemma {:induction false} ApplicationView(z: Zlib, maxLinks: nat, steps: seq<Step>)
    requires Possible(z, maxLinks, steps)
    ensures var v := Play(z, maxLinks, steps);
      Clean(v.ops) && ShowsEvents(Run(v.ops), v.ops, v.events)
  {
    QueueFollowsEvents(z, maxLinks, steps);
    FollowsShows(Play(z, maxLinks, steps).ops, Play(z, maxLinks, steps).events);
  }
}
