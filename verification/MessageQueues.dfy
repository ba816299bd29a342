/** The receive queue as mutable objects, refining the operations of ReceiveQueue. */
module MessageQueues {
  import opened Wire
  import opened BigMessage
  import opened ReceiveQueue

  /** `new char[]` and `delete[]`; deleting needs a live block. */
  class Heap {
    var blocks: HeapMap
    var next: nat

    /** Addresses from next on were never handed out. */
    ghost predicate Valid()
      reads this
    {
      0 < next && forall k :: k in blocks ==> 0 < k < next
    }

    constructor ()
      ensures Valid() && blocks == map[] && next == 1
    {
      blocks, next := map[], 1;
    }

    method New(size: nat) returns (ptr: nat)
      requires Valid()
      modifies this
      ensures Valid() && ptr != 0 && ptr !in old(blocks) && blocks == old(blocks)[ptr := Block(size, [])]
      ensures ptr == old(next) && next == old(next) + 1
    {
      ptr := next;
      blocks, next := blocks[ptr := Block(size, [])], next + 1;
    }

    /** `memcpy` to the start of a block, which must hold what is copied. */
    method Copy(ptr: nat, bytes: seq<byte>)
      requires Valid() && ptr in blocks && |bytes| <= blocks[ptr].size
      modifies this
      ensures Valid() && blocks == old(blocks)[ptr := Block(old(blocks[ptr].size), bytes)] && next == old(next)
    {
      blocks := blocks[ptr := Block(blocks[ptr].size, bytes)];
    }

    method Delete(ptr: nat)
      requires ptr in blocks
      modifies this
      ensures blocks == old(blocks) - {ptr} && next == old(next)
    {
      blocks := blocks - {ptr};
    }
  }

  class MessageQueue {
    var queue: seq<Package>

    constructor ()
      ensures queue == []
    {
      queue := [];
    }

    method Add(msg: Package)
      modifies this
      ensures queue == old(queue) + [msg]
    {
      queue := queue + [msg];
    }

    method RemoveFront(heap: Heap)
      requires queue != [] && (queue[0].ptr != 0 ==> queue[0].ptr in heap.blocks)
      modifies this, heap
      ensures queue == old(queue[1..])
      ensures heap.blocks == Free(old(heap.blocks), old(queue[0].ptr)) && heap.next == old(heap.next)
    {
      if |queue| > 0 {
        if queue[0].ptr != 0 {
          heap.Delete(queue[0].ptr);
        }
        queue := queue[0 := queue[0].(ptr := 0)];
      }
      queue := queue[1..];
    }

    method Reset(heap: Heap)
      requires NoSharing(queue) && forall k :: k != 0 && Holds(queue, k) ==> k in heap.blocks
      modifies this, heap
      ensures queue == [] && heap.blocks == FreeAll(old(heap.blocks), old(queue)) && heap.next == old(heap.next)
    {
      ghost var q, blocks := queue, heap.blocks;
      var i := 0;
      while i < |queue|
        invariant 0 <= i <= |queue| == |q|
        invariant forall j :: i <= j < |q| ==> queue[j] == q[j]
        invariant heap.blocks == FreeAll(blocks, q[..i]) && heap.next == old(heap.next)
      {
        assert q[..i + 1][..i] == q[..i];
        if queue[i].ptr != 0 {
          assert Holds(q, q[i].ptr);
          FreeAllKeeps(blocks, q[..i], q[i].ptr);
          heap.Delete(queue[i].ptr);
          queue := queue[i := queue[i].(ptr := 0)];
        }
        i := i + 1;
      }
      assert q[..i] == q;
      queue := [];
    }
  }

  class MessageQueueAB {
    const first: MessageQueue
    const second: MessageQueue
    const heap: Heap
    var current: nat

    ghost const Repr: set<object>

    function State(): Buffers
      reads this, first, second, heap
    {
      Buffers([first.queue, second.queue], current, heap.blocks, heap.next)
    }

    ghost predicate Valid()
      reads this, first, second, heap
    {
      && Repr == {this, first, second, heap}
      && first != second
      && Owned(State())
    }

    constructor ()
      ensures Valid() && fresh(Repr) && State() == EMPTY_BUFFERS
    {
      var a := new MessageQueue();
      var b := new MessageQueue();
      var h := new Heap();
      first, second, heap, current := a, b, h, 0;
      Repr := {this, a, b, h};
    }

    function At(i: nat): MessageQueue {
      if i == 0 then first else second
    }

    /** Queue a package as it is, then drop the oldest if the queue became too long. */
    method Push(msg: Package)
      requires Valid() && msg.ptr == 0
      modifies Repr
      ensures Valid() && State() == AddOrdinary(old(State()), msg)
    {
      AddOrdinaryOwned(State(), msg);
      AppendOwned(State(), msg);
      ghost var a := Append(State(), msg);
      At(current).Add(msg);
      assert State() == a;
      if |At(current).queue| >= QUEUE_MAX {
        assert At(current).queue[0].ptr != 0 ==> Holds(a.Filling(), At(current).queue[0].ptr);
        At(current).RemoveFront(heap);
      }
    }

    /** Queue a message that the reassembler has just completed, in a block of its own. */
    method PushCompleted(msg: Package, bigData: BigMessageQueue)
      requires Valid() && msg.ptr == 0 && CopyFits(bigData.State())
      modifies Repr
      ensures Valid() && State() == AddCompleted(old(State()), msg, bigData.State())
    {
      AddCompletedOwned(State(), msg, bigData.State());
      var temp := msg.(id := bigData.header.id, id2 := bigData.header.id2, length := bigData.header.originalLength);
      if |bigData.recvData| > 0 {
        var ptr := heap.New(|bigData.recvData|);
        temp := temp.(ptr := ptr);
        heap.Copy(ptr, bigData.recvData[..bigData.header.originalLength]);
        assert heap.blocks == old(heap.blocks)[ptr := Block(|bigData.recvData|, BigCopy(bigData.State()))];
      }
      At(current).Add(temp);
    }

    /** `add(msg, &bigData)`. The source does not look whether the copy of a completed message fits; where it does
        not, the method reports that and promises nothing about the queues. */
    method Add(link: LinkID, f: Frame, bigData: BigMessageQueue) returns (outcome: Outcome)
      requires Valid()
      modifies Repr, bigData
      ensures (bigData.State(), outcome) == Handle(bigData.zlib, old(bigData.State()), f)
      ensures outcome != Overran ==>
        Valid() && State() == AddFrom(bigData.zlib, old(State()), old(bigData.State()), link, f)
    {
      outcome := Pending;
      var msg := FromFrame(link, f);
      if f.id == ID_BIG_BEGIN || f.id == ID_BIG_DATA || f.id == ID_BIG_END {
        outcome := bigData.RecvPackage(f);
        if outcome == Complete {
          if !CopyFits(bigData.State()) {
            return Overran;
          }
          PushCompleted(msg, bigData);
        }
        return;
      }
      Push(msg);
    }

    /** Exchange the queues and hand out the one filled so far. */
    method Swap() returns (handed: MessageQueue)
      requires Valid()
      modifies Repr
      ensures Valid() && State() == ReceiveQueue.Swap(old(State()))
      ensures handed.queue == State().Handed() == old(State().Filling()) && handed == Handed()
    {
      SwapOwned(State());
      handed := At(current);
      current := (current + 1) % 2;
      At(current).Reset(heap);
    }

    /** `get`: the queue the application may read. */
    function Handed(): (q: MessageQueue)
      requires Valid()
      reads this, first, second, heap
      ensures q.queue == State().Handed()
    {
      if current == 0 then second else first
    }
  }
}
