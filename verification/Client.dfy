/** `HXLibClientAccept` and `HXLibAsioClient` as one object, refining ClientState. Work for the io thread is
    posted and run later. */
module ClientObjects {
  import opened Wire
  import opened BigMessage
  import RQ = ReceiveQueue
  import opened MessageQueues
  import W = Writer
  import C = ClientState

  class Client {
    const doubles: C.Doubles
    const queue: MessageQueueAB
    const bigData: BigMessageQueue
    var connected: bool
    var posted: seq<Frame>     // do_write calls not yet run
    var writeMsgs: seq<Frame>
    var numOfWrite: nat
    var timeLast: real
    var beating: bool
    var netDelay: real
    // what the io service has in hand for the socket
    ghost var flight: seq<W.Write>
    ghost var failed: seq<W.Write>

    ghost function State(): C.State
      reads this
    {
      C.State(connected, posted, writeMsgs, flight, failed, numOfWrite, beating, timeLast, netDelay)
    }

    ghost predicate Valid()
      reads this, queue, queue.first, queue.second, queue.heap
    {
      queue.Valid() && this !in queue.Repr && bigData !in queue.Repr && C.Chained(State())
    }

    constructor (doubles: C.Doubles, bigData: BigMessageQueue)
      ensures Valid() && State() == C.START && queue.State() == RQ.EMPTY_BUFFERS
      ensures this.bigData == bigData && this.doubles == doubles
    {
      var q := new MessageQueueAB();
      this.doubles, this.bigData, queue := doubles, bigData, q;
      connected, posted, writeMsgs, numOfWrite, flight, failed := false, [], [], 0, [], [];
      timeLast, beating, netDelay := 0.0, false, 0.0;
    }

    /** The handler of the connection attempt; text is what the error says. */
    method HandleConnect(error: bool, text: Body)
      requires Valid()
      modifies this, queue.Repr
      ensures Valid() && State() == if error then old(State()) else old(State()).(connected := true)
      ensures queue.State() == RQ.AddOrdinary(old(queue.State()), C.ConnectMessage(error, text))
    {
      queue.Push(C.ConnectMessage(error, text));
      if !error {
        connected := true;
      }
    }

    method Send(msg: Frame) returns (ok: bool)
      requires Valid()
      modifies this`posted
      ensures Valid() && State() == C.Send(old(State()), msg) && ok == connected
      ensures posted == old(posted) + if ok then [msg] else []
    {
      if connected {
        posted := posted + [msg];
        return true;
      }
      return false;
    }

    /** A big message is refused as a whole, exactly when there is no connection or the queue reached the limit,
        or all its frames are posted in order. */
    method SendBig(msg: seq<Frame>, allowLost: bool, maxOfMemory: u32) returns (ok: bool)
      requires Valid()
      modifies this`posted
      ensures Valid() && State() == C.SendBig(old(State()), msg, allowLost, maxOfMemory)
      ensures posted == old(posted) + if ok then msg else []
      ensures ok <==> connected && !(allowLost && |writeMsgs| * PACKAGE_SIZE % 0x1_0000_0000 >= maxOfMemory)
    {
      assert W.Refuses(numOfWrite, maxOfMemory) <==> numOfWrite * PACKAGE_SIZE % 0x1_0000_0000 >= maxOfMemory;
      if connected {
        if allowLost {
          var allocMemory := numOfWrite * PACKAGE_SIZE % 0x1_0000_0000;
          if allocMemory >= maxOfMemory {
            return false;
          }
        }
        var i := 0;
        while i < |msg|
          invariant 0 <= i <= |msg| && posted == old(posted) + msg[..i]
        {
          posted := posted + [msg[i]];
          i := i + 1;
        }
        assert msg[..i] == msg;
        return true;
      }
      return false;
    }

    /** The oldest posted call runs. */
    method DoWrite()
      requires Valid() && posted != []
      modifies this
      ensures Valid() && State() == C.DoWrite(old(State()))
    {
      C.DoWriteChained(State());
      var msg := posted[0];
      posted := posted[1..];
      var writeInProgress := writeMsgs != [];
      writeMsgs := writeMsgs + [msg];
      numOfWrite := |writeMsgs|;
      if !writeInProgress {
        flight := flight + [W.Write(writeMsgs[0], false)];
      }
    }

    /** The handler of outstanding write k: go on with the next package, or close and tell the application. */
    method HandleWrite(error: bool, ghost k: nat)
      requires Valid() && k < |flight| && (!error ==> flight[k].sent)
      modifies this, queue.Repr
      ensures Valid()
      ensures State() == if error then C.WriteFailed(old(State()), k) else C.Written(old(State()), k)
      ensures queue.State() ==
        if error then RQ.AddOrdinary(old(queue.State()), C.CloseMessage(2)) else old(queue.State())
    {
      if !error {
        C.WrittenChained(State(), k);
        writeMsgs := writeMsgs[1..];
        numOfWrite := |writeMsgs|;
        flight := W.Without(flight, k);
        if writeMsgs != [] {
          flight := flight + [W.Write(writeMsgs[0], false)];
        }
      } else {
        C.WriteFailedChained(State(), k);
        flight, failed := W.Without(flight, k), failed + [flight[k]];
        DoClose();
        queue.Push(C.CloseMessage(2));
      }
    }

    method DoClose()
      modifies this`connected
      ensures !connected
    {
      connected := false;
    }

    /** Heartbeats are kept from the application; everything else goes through the reassembler. Where a copy would
        leave its block nothing is promised about the queue. */
    method HandleReadBody(f: Frame, now: real) returns (outcome: Outcome)
      requires Valid()
      modifies this, queue.Repr, bigData
      ensures (bigData.State(), outcome) == if f.id == ID_HEARTBEAT then (old(bigData.State()), Pending)
                                            else RQ.Handle(bigData.zlib, old(bigData.State()), f)
      ensures State() == if f.id == ID_HEARTBEAT then C.BeatReturned(old(State()), doubles.get(f.body), now)
                         else old(State())
      ensures outcome != Overran ==>
        && Valid()
        && queue.State() == if f.id == ID_HEARTBEAT then old(queue.State())
                            else RQ.AddFrom(bigData.zlib, old(queue.State()), old(bigData.State()), NO_LINK, f)
    {
      outcome := Pending;
      if f.id != ID_HEARTBEAT {
        outcome := queue.Add(NO_LINK, f, bigData);
      } else {
        OnRecvHeartbeat(doubles.get(f.body), now);
      }
    }

    method OnRecvHeartbeat(time: real, now: real)
      modifies this`beating, this`netDelay
      ensures State() == C.BeatReturned(old(State()), time, now)
    {
      beating := false;
      netDelay := (now - time) * 0.5;
    }

    /** Post a heartbeat if none is outstanding and half a second has gone, then swap the receive queues. */
    method SwapQueue(now: real) returns (handed: MessageQueue)
      requires Valid()
      modifies this, queue.Repr
      ensures Valid()
      ensures State() == var c := old(State());
        if C.MayBeat(c, now) then C.PostBeat(doubles, C.Arm(c, now)) else c
      ensures posted ==
        if old(connected && !beating && now > timeLast + 0.5)
        then old(posted) + [Frame(ID_HEARTBEAT, 0, doubles.put(now))]
        else old(posted)
      ensures queue.State() == RQ.Swap(old(queue.State())) && handed.queue == old(queue.State().Filling())
    {
      if connected && !beating {
        if now > timeLast + 0.5 {
          timeLast := now;
          beating := true;
          posted := posted + [Frame(ID_HEARTBEAT, 0, doubles.put(timeLast))];
        }
      }
      handed := queue.Swap();
    }
  }
}
