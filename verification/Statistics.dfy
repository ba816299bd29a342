/** The server's package counters, fed by all its connections: `AddSendStat` and `AddSendCompleteStat`. */
module Statistics {
  import opened Wire
  import W = Writer

  /** A connection; the sends that have counted themselves and not yet taken its mutex; and whether the handler
      of a write has counted it and not yet popped it. */
  datatype Conn = Conn(t: W.Traced, announced: nat, settled: bool)

  /** All connections ever accepted, and the counters `sendPackages` and `sendPackagesComplete`. */
  datatype Fleet = Fleet(conns: seq<Conn>, packages: u32, complete: u32)

  const WRAP := 0x1_0000_0000

  datatype Step =
    | Accept                  // a new connection
    | Announce(i: nat)        // a send counts its package
    | Settle(i: nat, k: nat)  // the handler of outstanding write k counts it
    | Do(i: nat, a: W.Act)

  predicate CanStep(v: Fleet, st: Step) {
    match st
    case Accept => true
    case Announce(i) => i < |v.conns|
    case Settle(i, k) =>
      i < |v.conns| && var c := v.conns[i];
      !c.settled && k < |c.t.w.flight| && c.t.w.flight[k].sent
    case Do(i, a) =>
      i < |v.conns| && var c := v.conns[i];
      W.Enabled(c.t.w, a) && (a.ASend? ==> c.announced > 0) && (a.APop? ==> c.settled) && (a.AFail? ==> !c.settled)
  }

  /** `++` on an `unsigned int`. */
  function Inc(n: u32): u32 {
    if n == WRAP - 1 then 0 else n + 1
  }

  /** The clamp of `AddSendCompleteStat` would take effect. */
  predicate Clamps(v: Fleet) {
    Inc(v.complete) > v.packages
  }

  function Announced(c: Conn): Conn {
    c.(announced := c.announced + 1)
  }

  function Settled(c: Conn): Conn {
    c.(settled := true)
  }

  function DoConn(c: Conn, a: W.Act): Conn
    requires W.Enabled(c.t.w, a) && (a.ASend? ==> c.announced > 0)
  {
    Conn(W.Next(c.t, a), if a.ASend? then c.announced - 1 else c.announced, if a.APop? then false else c.settled)
  }

  function After(v: Fleet, st: Step): Fleet
    requires CanStep(v, st)
  {
    match st
    case Accept => v.(conns := v.conns + [Conn(W.FRESH, 0, false)])
    case Announce(i) =>
      v.(conns := v.conns[i := Announced(v.conns[i])], packages := Inc(v.packages))
    case Settle(i, _) =>
      v.(conns := v.conns[i := Settled(v.conns[i])],
         complete := if Clamps(v) then v.packages else Inc(v.complete))
    case Do(i, a) => v.(conns := v.conns[i := DoConn(v.conns[i], a)])
  }

  predicate Possible(steps: seq<Step>)
    decreases |steps|, 0
  {
    steps == [] || (Possible(steps[..|steps| - 1]) && CanStep(Play(steps[..|steps| - 1]), steps[|steps| - 1]))
  }

  function Play(steps: seq<Step>): Fleet
    requires Possible(steps)
    decreases |steps|, 1
  {
    if steps == [] then Fleet([], 0, 0) else After(Play(steps[..|steps| - 1]), steps[|steps| - 1])
  }

  // ---- True counts ----

  function SentBy(c: Conn): nat {
    c.t.sendPackages + c.announced
  }

  function DoneBy(c: Conn): nat {
    c.t.sendPackagesComplete + if c.settled then 1 else 0
  }

  /** The packages handed to `send` over all connections. */
  function Sent(cs: seq<Conn>): nat {
    if cs == [] then 0 else Sent(cs[..|cs| - 1]) + SentBy(cs[|cs| - 1])
  }

  /** The writes completed over all connections. */
  function Done(cs: seq<Conn>): nat {
    if cs == [] then 0 else Done(cs[..|cs| - 1]) + DoneBy(cs[|cs| - 1])
  }

  lemma {:induction false} TotalsUpdate(cs: seq<Conn>, i: nat, c: Conn)
    requires i < |cs|
    ensures Sent(cs[i := c]) == Sent(cs) - SentBy(cs[i]) + SentBy(c)
    ensures Done(cs[i := c]) == Done(cs) - DoneBy(cs[i]) + DoneBy(c)
  {
    var front, after := cs[..|cs| - 1], cs[i := c];
    if i < |front| {
      TotalsUpdate(front, i, c);
      assert after[..|after| - 1] == front[i := c];
    } else {
      assert after[..|after| - 1] == front;
    }
  }

  ghost predicate ConnOk(c: Conn) {
    W.Fifo(c.t) && (c.settled ==> c.t.w.flight != [])
  }

  ghost predicate AllOk(cs: seq<Conn>) {
    forall i :: 0 <= i < |cs| ==> ConnOk(cs[i])
  }

  lemma UpdateOk(cs: seq<Conn>, i: nat, c: Conn)
    requires AllOk(cs) && i < |cs| && ConnOk(c)
    ensures AllOk(cs[i := c])
  {
  }

  /** On one connection completions never overtake requests, counted early as they are. */
  lemma DoneWithinSent(c: Conn)
    requires ConnOk(c)
    ensures DoneBy(c) <= SentBy(c)
  {
    assert |c.t.w.flight| <= |W.Chain(c.t.w)|;
  }

  lemma {:induction false} DoneWithinAllSent(cs: seq<Conn>)
    requires AllOk(cs)
    ensures Done(cs) <= Sent(cs)
  {
    if cs != [] {
      DoneWithinAllSent(cs[..|cs| - 1]);
      DoneWithinSent(cs[|cs| - 1]);
    }
  }

  lemma DoOk(c: Conn, a: W.Act)
    requires ConnOk(c) && W.Enabled(c.t.w, a) && (a.ASend? ==> c.announced > 0)
    requires (a.APop? ==> c.settled) && (a.AFail? ==> !c.settled)
    ensures ConnOk(DoConn(c, a)) && SentBy(DoConn(c, a)) == SentBy(c) && DoneBy(DoConn(c, a)) == DoneBy(c)
  {
    W.NextFifo(c.t, a);
  }

  /** What a counter shows after n increments. */
  function Shown(n: nat): u32 {
    if n == 0 then 0 else Inc(Shown(n - 1))
  }

  lemma ShownStep(n: nat)
    ensures Shown(n + 1) == Inc(Shown(n))
  {
  }

  lemma IncWraps(n: nat)
    ensures Inc(n % WRAP) == (n + 1) % WRAP
  {
  }

  lemma {:induction false} ShownWraps(n: nat)
    ensures Shown(n) == n % WRAP
  {
    if n > 0 {
      ShownWraps(n - 1);
      IncWraps(n - 1);
    }
  }

  lemma ShownExact(n: nat)
    ensures Shown(n) == n <==> n < WRAP
  {
    ShownWraps(n);
  }

  /** The request counter counts all requests modulo 2^32, and up to there the completion counter is exact. */
  ghost predicate Counting(v: Fleet) {
    && AllOk(v.conns)
    && v.packages == Shown(Sent(v.conns))
    && (Sent(v.conns) < WRAP ==> v.complete == Done(v.conns))
  }

  lemma AnnouncedOk(c: Conn)
    requires ConnOk(c)
    ensures ConnOk(Announced(c)) && SentBy(Announced(c)) == SentBy(c) + 1 && DoneBy(Announced(c)) == DoneBy(c)
  {
  }

  lemma AnnounceTo(v: Fleet, cs: seq<Conn>)
    requires Counting(v) && AllOk(cs) && Sent(cs) == Sent(v.conns) + 1 && Done(cs) == Done(v.conns)
    ensures Counting(Fleet(cs, Inc(v.packages), v.complete))
  {
    ShownStep(Sent(v.conns));
  }

  lemma AnnounceCounting(v: Fleet, i: nat)
    requires Counting(v) && CanStep(v, Announce(i))
    ensures Counting(After(v, Announce(i)))
  {
    AnnouncedOk(v.conns[i]);
    UpdateOk(v.conns, i, Announced(v.conns[i]));
    TotalsUpdate(v.conns, i, Announced(v.conns[i]));
    AnnounceTo(v, v.conns[i := Announced(v.conns[i])]);
  }

  lemma SettledOk(c: Conn)
    requires ConnOk(c) && !c.settled && c.t.w.flight != []
    ensures ConnOk(Settled(c)) && SentBy(Settled(c)) == SentBy(c) && DoneBy(Settled(c)) == DoneBy(c) + 1
  {
  }

  lemma SettleCounts(v: Fleet, sent: nat, done: nat)
    requires done + 1 <= sent && v.packages == Shown(sent) && (sent < WRAP ==> v.complete == done)
    ensures sent < WRAP ==> !Clamps(v) && Inc(v.complete) == done + 1
  {
    ShownExact(sent);
  }

  /** No completion is clamped while fewer than 2^32 sends were counted. */
  lemma SettleTo(v: Fleet, cs: seq<Conn>)
    requires Counting(v) && AllOk(cs) && Sent(cs) == Sent(v.conns) && Done(cs) == Done(v.conns) + 1
    ensures Sent(v.conns) < WRAP ==> !Clamps(v)
    ensures Counting(Fleet(cs, v.packages, if Clamps(v) then v.packages else Inc(v.complete)))
  {
    DoneWithinAllSent(cs);
    SettleCounts(v, Sent(v.conns), Done(v.conns));
  }

  lemma SettleCounting(v: Fleet, i: nat, k: nat)
    requires Counting(v) && CanStep(v, Settle(i, k))
    ensures Counting(After(v, Settle(i, k)))
    ensures Sent(v.conns) < WRAP ==> !Clamps(v)
  {
    SettledOk(v.conns[i]);
    UpdateOk(v.conns, i, Settled(v.conns[i]));
    TotalsUpdate(v.conns, i, Settled(v.conns[i]));
    SettleTo(v, v.conns[i := Settled(v.conns[i])]);
  }

  lemma SameTotals(v: Fleet, cs: seq<Conn>)
    requires Counting(v) && AllOk(cs) && Sent(cs) == Sent(v.conns) && Done(cs) == Done(v.conns)
    ensures Counting(v.(conns := cs))
  {
  }

  lemma DoCounting(v: Fleet, i: nat, a: W.Act)
    requires Counting(v) && CanStep(v, Do(i, a))
    ensures Counting(After(v, Do(i, a)))
  {
    var c, d := v.conns[i], DoConn(v.conns[i], a);
    assert ConnOk(c);
    DoOk(c, a);
    UpdateOk(v.conns, i, d);
    TotalsUpdate(v.conns, i, d);
    SameTotals(v, v.conns[i := d]);
    assert After(v, Do(i, a)) == v.(conns := v.conns[i := d]);
  }

  lemma StepCounts(v: Fleet, st: Step)
    requires Counting(v) && CanStep(v, st)
    ensures Counting(After(v, st))
  {
    match st {
      case Accept => assert After(v, st).conns[..|v.conns|] == v.conns;
      case Announce(i) => AnnounceCounting(v, i);
      case Settle(i, k) => SettleCounting(v, i, k);
      case Do(i, a) => DoCounting(v, i, a);
    }
  }

  lemma {:induction false} CountingHolds(steps: seq<Step>)
    requires Possible(steps)
    ensures Counting(Play(steps))
  {
    if steps != [] {
      CountingHolds(steps[..|steps| - 1]);
      StepCounts(Play(steps[..|steps| - 1]), steps[|steps| - 1]);
    }
  }

  /** Over any run of any connections: completions never outnumber requests, and both counters are the sums over
      the connections if and only if fewer than 2^32 packages were sent. */
  lemma {:induction false} CountersAreSums(steps: seq<Step>)
    requires Possible(steps)
    ensures var v := Play(steps);
      && Done(v.conns) <= Sent(v.conns)
      && ((v.packages == Sent(v.conns) && v.complete == Done(v.conns)) <==> Sent(v.conns) < WRAP)
  {
    CountingHolds(steps);
    DoneWithinAllSent(Play(steps).conns);
    ShownExact(Sent(Play(steps).conns));
  }

  /** So the clamp never takes effect before the request counter wraps. */
  lemma ClampIsIdle(steps: seq<Step>, i: nat, k: nat)
    requires Possible(steps) && CanStep(Play(steps), Settle(i, k)) && Sent(Play(steps).conns) < WRAP
    ensures !Clamps(Play(steps))
  {
    CountingHolds(steps);
    SettleCounting(Play(steps), i, k);
  }

  // ---- After the wrap ----

  lemma Snoc(steps: seq<Step>, st: Step)
    requires Possible(steps) && CanStep(Play(steps), st)
    ensures Possible(steps + [st]) && Play(steps + [st]) == After(Play(steps), st)
  {
    assert (steps + [st])[..|steps + [st]| - 1] == steps;
  }

  function Announces(n: nat): seq<Step> {
    if n == 0 then [] else Announces(n - 1) + [Announce(0)]
  }

  /** The first connection's sends count n packages more. */
  function Crowded(v: Fleet, n: nat): (u: Fleet)
    requires v.conns != []
    ensures u.conns != []
  {
    if n == 0 then v else After(Crowded(v, n - 1), Announce(0))
  }

  lemma {:induction false} PlayCrowded(steps: seq<Step>, n: nat)
    requires Possible(steps) && Play(steps).conns != []
    ensures Possible(steps + Announces(n)) && Play(steps + Announces(n)) == Crowded(Play(steps), n)
  {
    if n == 0 {
      assert steps + Announces(n) == steps;
    } else {
      var before := steps + Announces(n - 1);
      PlayCrowded(steps, n - 1);
      Snoc(before, Announce(0));
      assert before + [Announce(0)] == steps + Announces(n);
    }
  }

  lemma {:induction false} CrowdedCounts(c: Conn, m: nat, complete: u32, n: nat)
    ensures Crowded(Fleet([c], Shown(m), complete), n)
         == Fleet([c.(announced := c.announced + n)], Shown(m + n), complete)
  {
    if n > 0 {
      var k: nat := n - 1;
      var d := c.(announced := c.announced + k);
      CrowdedCounts(c, m, complete, k);
      ShownStep(m + k);
      assert [d][0 := Announced(d)] == [Announced(d)];
    }
  }

  /** One write on its way. */
  function Underway(f: Frame): seq<Step> {
    [Accept] + [Announce(0)] + [Do(0, W.ASend(f))] + [Do(0, W.ATransmit(0))]
  }

  function Sending(f: Frame, sent: bool): W.Traced {
    W.Traced(W.State([f], [W.Write(f, sent)], None, [], true, 1), [f], if sent then [f] else [], [], 1, 0)
  }

  /** A connection alone, with one package counted. */
  function Alone(t: W.Traced, announced: nat): Fleet {
    Fleet([Conn(t, announced, false)], 1, 0)
  }

  lemma FirstWrite(f: Frame)
    ensures After(After(Fleet([], 0, 0), Accept), Announce(0)) == Alone(W.FRESH, 1)
    ensures CanStep(Alone(W.FRESH, 1), Do(0, W.ASend(f)))
    ensures After(Alone(W.FRESH, 1), Do(0, W.ASend(f))) == Alone(Sending(f, false), 0)
    ensures CanStep(Alone(Sending(f, false), 0), Do(0, W.ATransmit(0)))
    ensures After(Alone(Sending(f, false), 0), Do(0, W.ATransmit(0))) == Alone(Sending(f, true), 0)
  {
    assert W.Next(W.FRESH, W.ASend(f)) == Sending(f, false);
    assert W.Next(Sending(f, false), W.ATransmit(0)) == Sending(f, true);
  }

  lemma OneUnderway(f: Frame)
    ensures Possible(Underway(f)) && Play(Underway(f)) == Alone(Sending(f, true), 0)
  {
    FirstWrite(f);
    assert Play([]) == Fleet([], 0, 0);
    Snoc([], Accept);
    assert [] + [Accept] == [Accept];
    Snoc([Accept], Announce(0));
    Snoc([Accept] + [Announce(0)], Do(0, W.ASend(f)));
    Snoc([Accept] + [Announce(0)] + [Do(0, W.ASend(f))], Do(0, W.ATransmit(0)));
  }

  /** What the counters make of it when n more sends were counted. */
  lemma CrowdedOverflow(f: Frame, n: nat)
    requires n == WRAP - 1
    ensures var v := Crowded(Alone(Sending(f, true), 0), n);
      && CanStep(v, Settle(0, 0)) && Clamps(v) && Sent(v.conns) == WRAP
      && After(v, Settle(0, 0)).complete == 0 && Done(After(v, Settle(0, 0)).conns) == 1
  {
    var c := Conn(Sending(f, true), 0, false);
    var d := c.(announced := n);
    ShownStep(0);
    CrowdedCounts(c, 1, 0, n);
    ShownWraps(1 + n);
    TotalOfOne(d);
    TotalOfOne(Settled(d));
    assert [d][0 := Settled(d)] == [Settled(d)];
  }

  lemma TotalOfOne(c: Conn)
    ensures Sent([c]) == SentBy(c) && Done([c]) == DoneBy(c)
  {
    assert [c][..0] == [];
  }

  /** After the wrap the clamp does: when the 2^32nd send is counted before the first write completes, that
      completion is clamped away. */
  lemma {:induction false} WrapClamps(f: Frame, n: nat)
    requires n == WRAP - 1
    ensures var steps := Underway(f) + Announces(n);
      && Possible(steps) && CanStep(Play(steps), Settle(0, 0)) && Clamps(Play(steps))
      && Sent(Play(steps).conns) == WRAP
      && var u := After(Play(steps), Settle(0, 0));
      u.complete == 0 && Done(u.conns) == 1
  {
    OneUnderway(f);
    PlayCrowded(Underway(f), n);
    CrowdedOverflow(f, n);
  }
}
