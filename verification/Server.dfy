/** `HXLibAccept` and `HXLibAsioServer` as objects, refining Writer and Pool. */
module ServerObjects {
  import opened Wire
  import opened BigMessage
  import RQ = ReceiveQueue
  import opened MessageQueues
  import W = Writer
  import P = Pool

  /** One accepted connection. */
  class Connection {
    var linkid: LinkID
    var writeMsgs: seq<Frame>
    var numOfWrite: nat
    var isOpen: bool
    const bigData: BigMessageQueue
    // what the io service has in hand for this socket
    ghost var flight: seq<W.Write>
    ghost var gap: Option<Frame>
    ghost var failed: seq<W.Write>

    ghost function Writer(): W.State
      reads this
    {
      W.State(writeMsgs, flight, gap, failed, isOpen, numOfWrite)
    }

    constructor (bigData: BigMessageQueue)
      ensures Writer() == W.START && linkid == NO_LINK && this.bigData == bigData
    {
      this.bigData := bigData;
      linkid, writeMsgs, numOfWrite, isOpen := NO_LINK, [], 0, true;
      flight, gap, failed := [], None, [];
    }

    /** Start `async_write` of a frame. */
    ghost method StartWrite(f: Frame)
      modifies this`flight
      ensures flight == old(flight) + [W.Write(f, false)]
    {
      flight := flight + [W.Write(f, false)];
    }

    method Send(msg: Frame)
      modifies this
      ensures Writer() == W.Send(old(Writer()), msg) && linkid == old(linkid)
    {
      if !isOpen {
        return;
      }
      if writeMsgs == [] {
        writeMsgs := writeMsgs + [msg];
        numOfWrite := |writeMsgs|;
        StartWrite(writeMsgs[0]);
      } else {
        writeMsgs := writeMsgs + [msg];
      }
    }

    /** The handler of outstanding write k, which succeeded. */
    method HandleWrite(ghost k: nat)
      requires W.Enabled(Writer(), W.APop(k))
      modifies this
      ensures Writer() == W.Restart(W.Pop(old(Writer()), k)) && linkid == old(linkid)
    {
      var front: Option<Frame> := None;
      writeMsgs := writeMsgs[1..];
      numOfWrite := |writeMsgs|;
      if writeMsgs != [] {
        front := Some(writeMsgs[0]);
      }
      flight, gap := W.Without(flight, k), front;
      assert Writer() == W.Pop(old(Writer()), k);
      if front.Some? {
        gap := None;
        StartWrite(front.value);
      }
    }

    method Close()
      modifies this
      ensures Writer() == old(Writer()).(open := false) && linkid == old(linkid)
    {
      isOpen := false;
    }
  }

  class Server {
    const links: array<P.Slot<Connection>>
    const maxLinks: nat
    var lastId: nat
    var onlineLinks: int
    const queue: MessageQueueAB

    function Table(): P.Table<Connection>
      requires maxLinks <= links.Length
      reads this, links
    {
      P.Table(links[..maxLinks], lastId, onlineLinks)
    }

    ghost predicate Valid()
      reads this, links, queue, queue.first, queue.second, queue.heap
    {
      && maxLinks <= links.Length <= P.MAX_ACCEPT_ITEM
      && lastId <= P.MAXSHORT
      && links !in queue.Repr && this !in queue.Repr
      && queue.Valid()
      && forall i :: 0 <= i < maxLinks ==> (links[i].id != NO_LINK <==> links[i].link.Some?)
                                           && (links[i].id.sid == 0 ==> links[i].id == NO_LINK)
    }

    constructor (maxLinks: nat)
      requires maxLinks < P.MAX_ACCEPT_ITEM
      ensures Valid() && Table() == P.EmptyTable(maxLinks) && queue.State() == RQ.EMPTY_BUFFERS
    {
      this.maxLinks, lastId, onlineLinks := maxLinks, 0, 0;
      links := new P.Slot<Connection>[P.MAX_ACCEPT_ITEM](_ => P.Slot(None, NO_LINK, "", []));
      queue := new MessageQueueAB();
    }

    /** The mutex section of `Join`. */
    method JoinSlot(link: Connection, ip: seq<byte>) returns (linkid: LinkID)
      requires Valid()
      modifies this, links
      ensures Valid() && (Table(), linkid) == P.Join(old(Table()), link, ip)
    {
      linkid := NO_LINK;
      if lastId >= P.MAXSHORT {
        lastId := 0;
      }
      lastId := lastId + 1;
      ghost var slots := old(links[..maxLinks]);
      var i := 0;
      while i < maxLinks && links[i].id != NO_LINK
        invariant 0 <= i <= maxLinks
        invariant links[..maxLinks] == slots && lastId == P.NextId(old(lastId)) && onlineLinks == old(onlineLinks)
        invariant P.FirstFree(slots, 0) == P.FirstFree(slots, i)
      {
        i := i + 1;
      }
      if i < maxLinks {
        linkid := LinkID(lastId, i);
        links[i] := links[i].(link := Some(link), id := linkid, ip := if |ip| <= 31 then ip else ip[..31]);
        onlineLinks := onlineLinks + 1;
        assert links[..maxLinks] == slots[i := links[i]];
      }
    }

    method Join(link: Connection, ip: seq<byte>) returns (linkid: LinkID)
      requires Valid()
      modifies this, links, queue.Repr
      ensures Valid() && (Table(), linkid) == P.Join(old(Table()), link, ip)
      ensures queue.State() == if linkid == NO_LINK then old(queue.State())
                               else RQ.AddOrdinary(old(queue.State()), RQ.ConnectPackage(linkid, ip))
    {
      linkid := JoinSlot(link, ip);
      if linkid != NO_LINK {
        queue.Push(RQ.ConnectPackage(linkid, ip));
      }
    }

    /** `start` of an accepted connection: join, or close if the pool is full. */
    method Start(link: Connection, ip: seq<byte>)
      requires Valid() && link !in queue.Repr
      modifies this, links, link, queue.Repr
      ensures Valid() && (Table(), link.linkid) == P.Join(old(Table()), link, ip)
      ensures link.Writer() == if link.linkid == NO_LINK then old(link.Writer()).(open := false) else old(link.Writer())
      ensures queue.State() == if link.linkid == NO_LINK then old(queue.State())
                               else RQ.AddOrdinary(old(queue.State()), RQ.ConnectPackage(link.linkid, ip))
    {
      var linkid := Join(link, ip);
      link.linkid := linkid;
      if linkid == NO_LINK {
        link.Close();
      }
    }

    /** The mutex section of `Leave`. */
    method LeaveSlot(link: Connection) returns (linkid: LinkID)
      requires Valid()
      modifies this, links, link
      ensures Valid() && linkid == old(link.linkid) && link.linkid == NO_LINK && link.Writer() == old(link.Writer())
      ensures Table() == P.Leave(old(Table()), linkid)
    {
      linkid := link.linkid;
      link.linkid := NO_LINK;
      if linkid.sindex < maxLinks && linkid.sid == links[linkid.sindex].id.sid {
        ghost var slots := links[..maxLinks];
        if links[linkid.sindex].link.Some? {
          onlineLinks := onlineLinks - 1;
        }
        links[linkid.sindex] := links[linkid.sindex].(id := NO_LINK);
        links[linkid.sindex] := links[linkid.sindex].(link := None);
        assert links[..maxLinks] == slots[linkid.sindex := links[linkid.sindex]];
      }
    }

    method Leave(link: Connection, state: u16)
      requires Valid() && link !in queue.Repr
      modifies this, links, link, queue.Repr
      ensures Valid() && Table() == P.Leave(old(Table()), old(link.linkid)) && link.linkid == NO_LINK
      ensures queue.State() == if old(link.linkid) == NO_LINK then old(queue.State())
                               else RQ.AddOrdinary(old(queue.State()), RQ.DisconnectPackage(old(link.linkid), state))
    {
      var linkid := LeaveSlot(link);
      if linkid != NO_LINK {
        queue.Push(RQ.DisconnectPackage(linkid, state));
      }
    }

    /** `handle_read_body`: heartbeats are answered with the eight bytes they carry, everything else is stamped
        with the connection's handle and queued. Where a copy would leave its block nothing is promised about
        the queue. */
    method HandleReadBody(link: Connection, f: Frame) returns (outcome: Outcome)
      requires Valid() && link !in queue.Repr && link.bigData !in queue.Repr
      modifies link, link.bigData, queue.Repr
      ensures maxLinks <= links.Length && Table() == old(Table()) && link.linkid == old(link.linkid)
      ensures (link.bigData.State(), outcome) ==
        if f.id == ID_HEARTBEAT then (old(link.bigData.State()), Pending)
        else RQ.Handle(link.bigData.zlib, old(link.bigData.State()), f)
      ensures link.Writer() == if f.id == ID_HEARTBEAT then W.Send(old(link.Writer()), Echo(f)) else old(link.Writer())
      ensures outcome != Overran ==>
        && Valid()
        && queue.State() ==
           if f.id == ID_HEARTBEAT then old(queue.State())
           else RQ.AddFrom(link.bigData.zlib, old(queue.State()), old(link.bigData.State()), link.linkid, f)
    {
      outcome := Pending;
      if f.id != ID_HEARTBEAT {
        outcome := queue.Add(link.linkid, f, link.bigData);
      } else {
        link.Send(Echo(f));
      }
    }

    /** The connection a handle addresses. */
    function Target(linkid: LinkID): set<Connection>
      requires Valid() && linkid.sid != 0
      reads this, links, queue, queue.first, queue.second, queue.heap
    {
      if P.Addresses(Table(), linkid) then
        assert links[linkid.sindex].id.sid != 0;
        {links[linkid.sindex].link.value}
      else {}
    }

    /** `Send` of one package. A zero serial number, which free slots also carry, is never sent to. */
    method Send(linkid: LinkID, msg: Frame) returns (ok: bool)
      requires Valid() && linkid.sid != 0
      modifies Target(linkid)
      ensures Valid() && ok == P.Addresses(Table(), linkid) && Table() == old(Table())
      ensures forall c :: c in Target(linkid) ==>
        c.linkid == old(c.linkid) && c.Writer() == W.Send(old(c.Writer()), msg)
    {
      if linkid.sindex < maxLinks && linkid.sid == links[linkid.sindex].id.sid {
        links[linkid.sindex].link.value.Send(msg);
        return true;
      }
      return false;
    }

    /** `Send` of a big message: refused as a whole exactly when no connection is addressed or the counted
        backlog reached the limit, else all its frames are handed over in order. */
    method SendBig(linkid: LinkID, msg: seq<Frame>, allowLost: bool, maxOfMemory: u32) returns (ok: bool)
      requires Valid() && linkid.sid != 0
      modifies Target(linkid)
      ensures Valid() && Table() == old(Table())
      ensures ok <==>
        && P.Addresses(Table(), linkid)
        && !(allowLost && exists c :: c in Target(linkid) && old(W.Refuses(c.numOfWrite, maxOfMemory)))
      ensures forall c :: c in Target(linkid) ==>
        && c.linkid == old(c.linkid)
        && c.Writer() == if ok then W.SendAll(old(c.Writer()), msg) else old(c.Writer())
    {
      if linkid.sindex < maxLinks && linkid.sid == links[linkid.sindex].id.sid {
        var link := links[linkid.sindex].link.value;
        if allowLost {
          var allocMemory := link.numOfWrite * PACKAGE_SIZE % 0x1_0000_0000;
          assert allocMemory == W.Counted(link.numOfWrite);
          if allocMemory >= maxOfMemory {
            return false;
          }
        }
        var i := 0;
        while i < |msg|
          invariant 0 <= i <= |msg|
          invariant link.Writer() == W.SendAll(old(link.Writer()), msg[..i]) && link.linkid == old(link.linkid)
        {
          link.Send(msg[i]);
          assert msg[..i + 1][..i] == msg[..i];
          i := i + 1;
        }
        assert msg[..i] == msg;
        return true;
      }
      return false;
    }

    method Close(linkid: LinkID)
      requires Valid() && linkid.sid != 0
      modifies Target(linkid)
      ensures Valid() && Table() == old(Table())
      ensures forall c :: c in Target(linkid) ==>
        c.linkid == old(c.linkid) && c.Writer() == old(c.Writer()).(open := false)
    {
      if linkid.sindex < maxLinks && linkid.sid == links[linkid.sindex].id.sid {
        links[linkid.sindex].link.value.Close();
      }
    }

    /** A zero serial number is let through here and sets a free slot's context. */
    method SetContext(linkid: LinkID, context: string)
      requires Valid()
      modifies links
      ensures Valid() && Table() == P.WithContext(old(Table()), linkid, context)
    {
      if linkid.sindex < maxLinks && linkid.sid == links[linkid.sindex].id.sid {
        ghost var slots := links[..maxLinks];
        links[linkid.sindex] := links[linkid.sindex].(context := context);
        assert links[..maxLinks] == slots[linkid.sindex := links[linkid.sindex]];
      }
    }

    method GetContext(linkid: LinkID) returns (context: Option<string>)
      requires Valid()
      ensures context == P.ContextOf(Table(), linkid)
    {
      if linkid.sindex < maxLinks && linkid.sid == links[linkid.sindex].id.sid {
        return Some(links[linkid.sindex].context);
      }
      return None;
    }
  }
}
