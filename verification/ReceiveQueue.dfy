/** The double-buffered receive queue (`HXMessageQueue`, `HXMessageQueueAB`) and the heap blocks it owns. */
module ReceiveQueue {
  import opened Wire
  import opened BigMessage

  /** A queued package; `ptr` is `bigDataPointer`, 0 for null. */
  datatype Package = Package(link: LinkID, id: u16, id2: u16, length: nat, body: seq<byte>, ptr: nat)

  /** What the application sees of one package. */
  datatype Delivery = Delivery(link: LinkID, id: u16, id2: u16, payload: seq<byte>)

  /** A block from `new char[size]` and the bytes copied into it so far, from its start. */
  datatype Block = Block(size: nat, bytes: seq<byte>)

  type HeapMap = map<nat, Block>

  /** `m_queueMax`. */
  const QUEUE_MAX := 8162

  /** Both queues, the index the network side appends to, and the blocks allocated with `new char[]`. */
  datatype Buffers = Buffers(queues: seq<seq<Package>>, current: nat, heap: HeapMap, next: nat)
  {
    predicate Shaped() {
      |queues| == 2 && current < 2
    }

    function Filling(): seq<Package>
      requires Shaped()
    {
      queues[current]
    }

    /** The queue that `get` denotes. */
    function Handed(): seq<Package>
      requires Shaped()
    {
      queues[1 - current]
    }
  }

  const EMPTY_BUFFERS := Buffers([[], []], 0, map[], 1)

  /** The package that tells the server's application of a new session: the peer's address as a C string. */
  function ConnectPackage(id: LinkID, ip: seq<byte>): Package {
    Package(id, ID_CONNECT, 0, |ip| + 1, ip + [0], 0)
  }

  function DisconnectPackage(id: LinkID, state: u16): Package {
    Package(id, ID_DISCONNECT, state, 0, [], 0)
  }

  function FromFrame(link: LinkID, f: Frame): Package {
    Package(link, f.id, f.id2, |f.body|, f.body, 0)
  }

  function View(heap: HeapMap, p: Package): Delivery {
    Delivery(p.link, p.id, p.id2,
             if p.ptr == 0 then Resize(p.body, p.length) else if p.ptr in heap then heap[p.ptr].bytes else [])
  }

  function Views(heap: HeapMap, q: seq<Package>): (v: seq<Delivery>)
    ensures |v| == |q| && forall i :: 0 <= i < |q| ==> v[i] == View(heap, q[i])
  {
    seq(|q|, i requires 0 <= i < |q| => View(heap, q[i]))
  }

  // ---- Operations ----

  /** `delete[]`, skipped for null. */
  function Free(heap: HeapMap, ptr: nat): HeapMap {
    if ptr == 0 then heap else heap - {ptr}
  }

  function FreeAll(heap: HeapMap, q: seq<Package>): HeapMap {
    if q == [] then heap else Free(FreeAll(heap, q[..|q| - 1]), q[|q| - 1].ptr)
  }

  function Append(b: Buffers, p: Package): Buffers
    requires b.Shaped()
  {
    b.(queues := b.queues[b.current := b.Filling() + [p]])
  }

  function AddOrdinary(b: Buffers, p: Package): Buffers
    requires b.Shaped()
  {
    var a := Append(b, p);
    if |a.Filling()| >= QUEUE_MAX then
      a.(queues := a.queues[a.current := a.Filling()[1..]], heap := Free(a.heap, a.Filling()[0].ptr))
    else a
  }

  /** An ordinary add makes room for itself: it drops the oldest package, and no other, exactly when the queue would
      otherwise hold QUEUE_MAX. */
  lemma AddDropsOldest(b: Buffers, p: Package)
    requires b.Shaped()
    ensures var q, a := b.Filling(), AddOrdinary(b, p);
      a.Shaped() && a.Filling() == if |q| + 1 < QUEUE_MAX then q + [p] else (q + [p])[1..]
  {
  }

  /** The bytes a completed message shows: `originalLength` bytes of the receive buffer, or of the End
      package itself when the receive buffer is empty. */
  function BigPayload(rx: Rx, body: seq<byte>): seq<byte> {
    Resize(if rx.data != [] then rx.data else body, rx.header.originalLength)
  }

  /** A completed message fits where its bytes are: `originalLength` bytes are copied into a new block of the
      receive buffer's size or, when that is empty, read out of the package. The source does not check it. */
  predicate CopyFits(rx: Rx) {
    rx.header.originalLength <= if rx.data != [] then |rx.data| else MAX_BODY
  }

  /** The bytes that are copied. */
  function BigCopy(rx: Rx): seq<byte>
    requires rx.data != [] && CopyFits(rx)
  {
    rx.data[..rx.header.originalLength]
  }

  function AddCompleted(b: Buffers, p: Package, rx: Rx): Buffers
    requires b.Shaped() && CopyFits(rx)
  {
    var temp := p.(id := rx.header.id, id2 := rx.header.id2, length := rx.header.originalLength);
    if rx.data != [] then
      Append(b, temp.(ptr := b.next)).(heap := b.heap[b.next := Block(|rx.data|, BigCopy(rx))], next := b.next + 1)
    else
      Append(b, temp)
  }

  function Swap(b: Buffers): Buffers
    requires b.Shaped()
  {
    b.(current := 1 - b.current, queues := b.queues[1 - b.current := []], heap := FreeAll(b.heap, b.Handed()))
  }

  /** What becomes of a frame given to `add`: the reassembler after it, and how the call ends. */
  function Handle(z: Zlib, rx: Rx, f: Frame): (Rx, Outcome) {
    if !IsStreamFrame(f) then (rx, Pending)
    else
      var (rx', o) := Recv(z, rx, f);
      (rx', if o == Complete && !CopyFits(rx') then Overran else o)
  }

  /** `add(msg, &bigData)`: stream frames go through the reassembler, everything else is queued. Of a copy that
      leaves its block nothing is said. */
  function AddFrom(z: Zlib, b: Buffers, rx: Rx, link: LinkID, f: Frame): Buffers
    requires b.Shaped() && Handle(z, rx, f).1 != Overran
  {
    if !IsStreamFrame(f) then AddOrdinary(b, FromFrame(link, f))
    else
      var (rx', o) := Handle(z, rx, f);
      if o == Complete then AddCompleted(b, FromFrame(link, f), rx') else b
  }

  /** What that call delivers. */
  function Deliver(z: Zlib, rx: Rx, link: LinkID, f: Frame): (Rx, seq<Delivery>) {
    if !IsStreamFrame(f) then (rx, [Delivery(link, f.id, f.id2, f.body)])
    else
      var (rx', o) := Handle(z, rx, f);
      (rx', if o == Complete then [Delivery(link, rx'.header.id, rx'.header.id2, BigPayload(rx', f.body))] else [])
  }

  /** The call ends in an exception, or its copy leaves the block: the read handler gets no further. */
  predicate Breaks(z: Zlib, rx: Rx, f: Frame) {
    Handle(z, rx, f).1 == Threw || Handle(z, rx, f).1 == Overran
  }

  // ---- Ownership ----

  ghost predicate Holds(q: seq<Package>, ptr: nat) {
    exists i :: 0 <= i < |q| && q[i].ptr == ptr
  }

  ghost predicate NoSharing(q: seq<Package>) {
    forall i, j :: 0 <= i < j < |q| && q[i].ptr != 0 ==> q[i].ptr != q[j].ptr
  }

  /** Live blocks are exactly the non-null pointers in the two queues, and each is held once. */
  ghost predicate Owned(b: Buffers) {
    && b.Shaped()
    && 0 < b.next
    && (forall k :: k in b.heap ==> 0 < k < b.next)
    && NoSharing(b.Filling()) && NoSharing(b.Handed())
    && (forall k :: k != 0 ==> !(Holds(b.Filling(), k) && Holds(b.Handed(), k)))
    && (forall k :: k != 0 ==> (k in b.heap <==> Holds(b.Filling(), k) || Holds(b.Handed(), k)))
  }

  lemma HoldsAppend(q: seq<Package>, p: Package, k: nat)
    ensures Holds(q + [p], k) <==> Holds(q, k) || p.ptr == k
  {
    var r := q + [p];
    if Holds(q, k) {
      var i :| 0 <= i < |q| && q[i].ptr == k;
      assert r[i].ptr == k;
    }
    if p.ptr == k {
      assert r[|q|].ptr == k;
    }
    if Holds(r, k) && p.ptr != k {
      var i :| 0 <= i < |r| && r[i].ptr == k;
      assert q[i].ptr == k;
    }
  }

  lemma HoldsTail(q: seq<Package>, k: nat)
    requires q != [] && NoSharing(q) && k != 0
    ensures Holds(q[1..], k) <==> Holds(q, k) && q[0].ptr != k
  {
  }

  /** Freeing a queue's pointers removes them and touches no other block. */
  lemma {:induction false} FreeAllKeeps(heap: HeapMap, q: seq<Package>, k: nat)
    requires k != 0
    ensures k in FreeAll(heap, q) <==> k in heap && !Holds(q, k)
    ensures k in FreeAll(heap, q) ==> FreeAll(heap, q)[k] == heap[k]
  {
    if q != [] {
      var front := q[..|q| - 1];
      assert q == front + [q[|q| - 1]];
      HoldsAppend(front, q[|q| - 1], k);
      FreeAllKeeps(heap, front, k);
    }
  }

  lemma {:induction false} FreeAllNull(heap: HeapMap, q: seq<Package>)
    requires 0 !in heap
    ensures 0 !in FreeAll(heap, q)
  {
    if q != [] {
      FreeAllNull(heap, q[..|q| - 1]);
    }
  }

  lemma AppendOwned(b: Buffers, p: Package)
    requires Owned(b) && p.ptr == 0
    ensures Owned(Append(b, p))
  {
    forall k { HoldsAppend(b.Filling(), p, k); }
  }

  lemma AddOrdinaryOwned(b: Buffers, p: Package)
    requires Owned(b) && p.ptr == 0
    ensures Owned(AddOrdinary(b, p))
  {
    AppendOwned(b, p);
    var a := Append(b, p);
    forall k | k != 0 { HoldsTail(a.Filling(), k); }
  }

  lemma AddCompletedOwned(b: Buffers, p: Package, rx: Rx)
    requires Owned(b) && p.ptr == 0 && CopyFits(rx)
    ensures Owned(AddCompleted(b, p, rx))
  {
    var temp := p.(id := rx.header.id, id2 := rx.header.id2, length := rx.header.originalLength);
    if rx.data != [] {
      var r := AddCompleted(b, p, rx);
      assert r.Filling() == b.Filling() + [temp.(ptr := b.next)] && r.Handed() == b.Handed();
      forall k { HoldsAppend(b.Filling(), temp.(ptr := b.next), k); }
      assert forall i :: 0 <= i < |b.Filling()| && b.Filling()[i].ptr != 0 ==> Holds(b.Filling(), b.Filling()[i].ptr);
    } else {
      AppendOwned(b, temp);
    }
  }

  lemma SwapOwned(b: Buffers)
    requires Owned(b)
    ensures Owned(Swap(b))
  {
    var r := Swap(b);
    assert r.Filling() == [] && r.Handed() == b.Filling();
    FreeAllNull(b.heap, b.Handed());
    forall k | k != 0 { FreeAllKeeps(b.heap, b.Handed(), k); }
  }

  // ---- Runs ----

  datatype Op = Ordinary(p: Package) | Completed(p: Package, rx: Rx) | Flip

  /** A package fresh from its maker: no block, and a body that fits. */
  predicate IsFresh(p: Package) {
    p.ptr == 0 && p.length == |p.body| <= MAX_BODY
  }

  predicate Allowed(op: Op) {
    match op
    case Ordinary(p) => IsFresh(p)
    case Completed(p, rx) => IsFresh(p) && CopyFits(rx)
    case Flip => true
  }

  predicate Clean(ops: seq<Op>) {
    ops == [] || (Clean(ops[..|ops| - 1]) && Allowed(ops[|ops| - 1]))
  }

  function Apply(b: Buffers, op: Op): Buffers
    requires b.Shaped() && Allowed(op)
  {
    match op
    case Ordinary(p) => AddOrdinary(b, p)
    case Completed(p, rx) => AddCompleted(b, p, rx)
    case Flip => Swap(b)
  }

  function Run(ops: seq<Op>): (b: Buffers)
    requires Clean(ops)
    ensures b.Shaped()
  {
    if ops == [] then EMPTY_BUFFERS else Apply(Run(ops[..|ops| - 1]), ops[|ops| - 1])
  }

  function Logged(op: Op): seq<Delivery> {
    match op
    case Ordinary(p) => [Delivery(p.link, p.id, p.id2, Resize(p.body, p.length))]
    case Completed(p, rx) => [Delivery(p.link, rx.header.id, rx.header.id2, BigPayload(rx, p.body))]
    case Flip => []
  }

  function LogOf(ops: seq<Op>): seq<Delivery> {
    if ops == [] then [] else LogOf(ops[..|ops| - 1]) + Logged(ops[|ops| - 1])
  }

  /** Everything appended, cut at the swaps; the last epoch is the one being filled. */
  function Epochs(ops: seq<Op>): (e: seq<seq<Delivery>>)
    ensures e != []
  {
    if ops == [] then [[]]
    else
      var front, op := Epochs(ops[..|ops| - 1]), ops[|ops| - 1];
      if op.Flip? then front + [[]] else front[|front| - 1 := front[|front| - 1] + Logged(op)]
  }

  /** Big messages completed since the last swap. */
  function Bigs(ops: seq<Op>): nat {
    if ops == [] || ops[|ops| - 1].Flip? then 0
    else Bigs(ops[..|ops| - 1]) + if ops[|ops| - 1].Completed? then 1 else 0
  }

  function Concat(e: seq<seq<Delivery>>): seq<Delivery> {
    if e == [] then [] else Concat(e[..|e| - 1]) + e[|e| - 1]
  }

  /** The bytes that a package shows lie within its body area, or are exactly those copied into its block. */
  predicate Within(heap: HeapMap, p: Package) {
    if p.ptr == 0 then p.length <= MAX_BODY
    else p.ptr in heap && p.length == |heap[p.ptr].bytes| <= heap[p.ptr].size
  }

  /** q shows the end of epoch e: all of it when fewer than QUEUE_MAX messages were appended, and else at least the
      last QUEUE_MAX - 1. */
  ghost predicate Shows(heap: HeapMap, q: seq<Package>, e: seq<Delivery>) {
    && |q| <= |e|
    && (forall i :: 0 <= i < |q| ==> Within(heap, q[i]))
    && Views(heap, q) == e[|e| - |q|..]
    && (|e| < QUEUE_MAX ==> |q| == |e|)
    && (|e| >= QUEUE_MAX ==> |q| >= QUEUE_MAX - 1)
  }

  /** Blocks that a queue points to keep their content. */
  ghost predicate Kept(heap: HeapMap, heap': HeapMap, q: seq<Package>) {
    forall i :: 0 <= i < |q| && q[i].ptr != 0 ==>
      q[i].ptr in heap && q[i].ptr in heap' && heap'[q[i].ptr] == heap[q[i].ptr]
  }

  lemma KeptShows(heap: HeapMap, heap': HeapMap, q: seq<Package>, e: seq<Delivery>)
    requires Kept(heap, heap', q) && Shows(heap, q, e)
    ensures Shows(heap', q, e)
  {
  }

  lemma ShowsAppend(heap: HeapMap, q: seq<Package>, p: Package, e: seq<Delivery>)
    requires Shows(heap, q, e) && Within(heap, p)
    ensures Shows(heap, q + [p], e + [View(heap, p)])
  {
  }

  lemma ShowsTail(heap: HeapMap, q: seq<Package>, e: seq<Delivery>)
    requires Shows(heap, q, e) && |q| >= QUEUE_MAX
    ensures Shows(heap, q[1..], e)
  {
  }

  /** Where a block of one queue lives, the other queue and its own trimmed front do not. */
  lemma OrdinaryKeeps(b: Buffers, p: Package)
    requires Owned(b) && p.ptr == 0
    ensures var a := AddOrdinary(b, p);
      && a.current == b.current && a.Handed() == b.Handed()
      && Kept(b.heap, a.heap, a.Filling()) && Kept(b.heap, a.heap, a.Handed())
  {
    var f := b.Filling() + [p];
    AppendOwned(b, p);
    assert Append(b, p).Filling() == f;
    var a := AddOrdinary(b, p);
    forall i | 0 <= i < |a.Filling()| && a.Filling()[i].ptr != 0
      ensures a.Filling()[i].ptr in a.heap && a.heap[a.Filling()[i].ptr] == b.heap[a.Filling()[i].ptr]
    {
      var j := i + |f| - |a.Filling()|;
      assert f[j] == a.Filling()[i];
      assert Holds(f, f[j].ptr);
      assert j != 0 ==> f[0].ptr != 0 ==> f[0].ptr != f[j].ptr;
    }
    forall i | 0 <= i < |b.Handed()| && b.Handed()[i].ptr != 0
      ensures b.Handed()[i].ptr in a.heap && a.heap[b.Handed()[i].ptr] == b.heap[b.Handed()[i].ptr]
    {
      assert Holds(b.Handed(), b.Handed()[i].ptr);
      assert Holds(f, f[0].ptr);
    }
  }

  lemma OrdinaryShows(b: Buffers, p: Package, e: seq<Delivery>)
    requires Owned(b) && IsFresh(p) && Shows(b.heap, b.Filling(), e)
    ensures Shows(AddOrdinary(b, p).heap, AddOrdinary(b, p).Filling(), e + Logged(Ordinary(p)))
  {
    OrdinaryKeeps(b, p);
    var a, f := AddOrdinary(b, p), b.Filling() + [p];
    var e' := e + Logged(Ordinary(p));
    ShowsAppend(b.heap, b.Filling(), p, e);
    if |f| >= QUEUE_MAX {
      ShowsTail(b.heap, f, e');
      assert a.Filling() == f[1..];
    }
    KeptShows(b.heap, a.heap, a.Filling(), e');
  }

  lemma BlocksKept(b: Buffers, heap: HeapMap, q: seq<Package>)
    requires Owned(b) && (q == b.Filling() || q == b.Handed())
    requires forall k :: k in b.heap ==> k in heap && heap[k] == b.heap[k]
    ensures Kept(b.heap, heap, q)
  {
  }

  lemma CompletedShape(b: Buffers, p: Package, rx: Rx) returns (added: Package)
    requires Owned(b) && p.ptr == 0 && CopyFits(rx)
    ensures var a := AddCompleted(b, p, rx);
      && a.current == b.current && a.Shaped()
      && a.Filling() == b.Filling() + [added] && a.Handed() == b.Handed()
      && Logged(Completed(p, rx)) == [View(a.heap, added)] && Within(a.heap, added)
      && forall k :: k in b.heap ==> k in a.heap && a.heap[k] == b.heap[k]
  {
    var temp := p.(id := rx.header.id, id2 := rx.header.id2, length := rx.header.originalLength);
    added := if rx.data != [] then temp.(ptr := b.next) else temp;
  }

  lemma CompletedShows(b: Buffers, p: Package, rx: Rx, e: seq<Delivery>)
    requires Owned(b) && p.ptr == 0 && CopyFits(rx) && Shows(b.heap, b.Filling(), e)
    ensures var a := AddCompleted(b, p, rx);
      && a.current == b.current && a.Handed() == b.Handed() && Kept(b.heap, a.heap, a.Handed())
      && Shows(a.heap, a.Filling(), e + Logged(Completed(p, rx)))
  {
    var added := CompletedShape(b, p, rx);
    var heap := AddCompleted(b, p, rx).heap;
    BlocksKept(b, heap, b.Filling());
    BlocksKept(b, heap, b.Handed());
    KeptShows(b.heap, heap, b.Filling(), e);
    ShowsAppend(heap, b.Filling(), added, e);
  }

  lemma SwapKeeps(b: Buffers, e: seq<Delivery>)
    requires Owned(b) && Shows(b.heap, b.Filling(), e)
    ensures Swap(b).Filling() == [] && Swap(b).Handed() == b.Filling() && Shows(Swap(b).heap, b.Filling(), e)
  {
    var a := Swap(b);
    forall i | 0 <= i < |b.Filling()| && b.Filling()[i].ptr != 0
      ensures var k := b.Filling()[i].ptr; k in a.heap && k in b.heap && a.heap[k] == b.heap[k]
    {
      var k := b.Filling()[i].ptr;
      assert Holds(b.Filling(), k);
      FreeAllKeeps(b.heap, b.Handed(), k);
    }
    KeptShows(b.heap, a.heap, b.Filling(), e);
  }

  /** Every live block is held once, the buffer being filled and the one last handed out show the ends of
      their epochs byte for byte, each package from within its own body or block, complete unless QUEUE_MAX was
      reached, and only big messages can push the filling buffer past QUEUE_MAX - 1. */
  ghost predicate Faithful(b: Buffers, e: seq<seq<Delivery>>, bigs: nat)
    requires e != []
  {
    && Owned(b)
    && Shows(b.heap, b.Filling(), e[|e| - 1])
    && (if |e| == 1 then b.Handed() == [] else Shows(b.heap, b.Handed(), e[|e| - 2]))
    && |b.Filling()| <= QUEUE_MAX - 1 + bigs
  }

  lemma OrdinaryFaithful(b: Buffers, e: seq<seq<Delivery>>, bigs: nat, p: Package)
    requires e != [] && Faithful(b, e, bigs) && IsFresh(p)
    ensures Faithful(AddOrdinary(b, p), e[|e| - 1 := e[|e| - 1] + Logged(Ordinary(p))], bigs)
  {
    AddOrdinaryOwned(b, p);
    OrdinaryKeeps(b, p);
    OrdinaryShows(b, p, e[|e| - 1]);
    if |e| > 1 {
      KeptShows(b.heap, AddOrdinary(b, p).heap, b.Handed(), e[|e| - 2]);
    }
  }

  lemma CompletedFaithful(b: Buffers, e: seq<seq<Delivery>>, bigs: nat, p: Package, rx: Rx)
    requires e != [] && Faithful(b, e, bigs) && IsFresh(p) && CopyFits(rx)
    ensures Faithful(AddCompleted(b, p, rx), e[|e| - 1 := e[|e| - 1] + Logged(Completed(p, rx))], bigs + 1)
  {
    AddCompletedOwned(b, p, rx);
    CompletedShows(b, p, rx, e[|e| - 1]);
    if |e| > 1 {
      KeptShows(b.heap, AddCompleted(b, p, rx).heap, b.Handed(), e[|e| - 2]);
    }
  }

  lemma SwapFaithful(b: Buffers, e: seq<seq<Delivery>>, bigs: nat)
    requires e != [] && Faithful(b, e, bigs)
    ensures Faithful(Swap(b), e + [[]], 0)
  {
    SwapOwned(b);
    SwapKeeps(b, e[|e| - 1]);
    assert Views(Swap(b).heap, []) == [];
  }

  // ---- What is dropped ----

  /** How many packages the queue being filled holds: an ordinary add counts only below QUEUE_MAX - 1, a big message
      always does. */
  function Held(ops: seq<Op>): nat {
    if ops == [] || ops[|ops| - 1].Flip? then 0
    else
      var n := Held(ops[..|ops| - 1]);
      if ops[|ops| - 1].Ordinary? && n >= QUEUE_MAX - 1 then n else n + 1
  }

  /** How many of this epoch's ordinary adds were made on at least QUEUE_MAX - 1 packages. */
  function Trims(ops: seq<Op>): nat {
    if ops == [] || ops[|ops| - 1].Flip? then 0
    else
      var front := ops[..|ops| - 1];
      Trims(front) + if ops[|ops| - 1].Ordinary? && Held(front) >= QUEUE_MAX - 1 then 1 else 0
  }

  /** The operations before the last swap. */
  function BeforeFlip(ops: seq<Op>): seq<Op> {
    if ops == [] then []
    else if ops[|ops| - 1].Flip? then ops[..|ops| - 1]
    else BeforeFlip(ops[..|ops| - 1])
  }

  /** Each of the two epochs in the buffers has lost exactly one package for each add on a full queue. */
  ghost predicate LosesTrims(b: Buffers, e: seq<seq<Delivery>>, ops: seq<Op>)
    requires b.Shaped() && e != []
  {
    && |b.Filling()| == Held(ops) && |e[|e| - 1]| == |b.Filling()| + Trims(ops)
    && (|e| > 1 ==>
          && |b.Handed()| == Held(BeforeFlip(ops))
          && |e[|e| - 2]| == |b.Handed()| + Trims(BeforeFlip(ops)))
  }

  /** What one operation does to the lengths. */
  lemma ApplyLengths(b: Buffers, op: Op)
    requires b.Shaped() && Allowed(op)
    ensures var a, n := Apply(b, op), |b.Filling()|;
      && a.Shaped()
      && (op.Flip? ==> a.Filling() == [] && a.Handed() == b.Filling())
      && (!op.Flip? ==> a.Handed() == b.Handed() && |Logged(op)| == 1)
      && (op.Completed? ==> |a.Filling()| == n + 1)
      && (op.Ordinary? ==> |a.Filling()| == if n >= QUEUE_MAX - 1 then n else n + 1)
  {
  }

  lemma {:induction false} DropsAreTrims(ops: seq<Op>)
    requires Clean(ops)
    ensures LosesTrims(Run(ops), Epochs(ops), ops)
  {
    if ops != [] {
      var front, op := ops[..|ops| - 1], ops[|ops| - 1];
      DropsAreTrims(front);
      ApplyLengths(Run(front), op);
      var e, e' := Epochs(front), Epochs(ops);
      assert Run(ops) == Apply(Run(front), op);
      if op.Flip? {
        assert e' == e + [[]];
      } else {
        assert e' == e[|e| - 1 := e[|e| - 1] + Logged(op)];
      }
    }
  }

  /** Over any run of adds and swaps, from empty buffers, the buffers stay faithful to what was added and lose no
      more than the oldest package for each ordinary add on a full queue. */
  lemma {:induction false} DoubleBuffering(ops: seq<Op>)
    requires Clean(ops)
    ensures Faithful(Run(ops), Epochs(ops), Bigs(ops))
    ensures LosesTrims(Run(ops), Epochs(ops), ops)
  {
    DropsAreTrims(ops);
    RunFaithful(ops);
  }

  lemma {:induction false} RunFaithful(ops: seq<Op>)
    requires Clean(ops)
    ensures Faithful(Run(ops), Epochs(ops), Bigs(ops))
  {
    if ops == [] {
      assert Views(map[], []) == [];
    } else {
      var front, op := ops[..|ops| - 1], ops[|ops| - 1];
      RunFaithful(front);
      var b, e, k := Run(front), Epochs(front), Bigs(front);
      match op {
        case Ordinary(p) =>
          OrdinaryFaithful(b, e, k, p);
          assert Run(ops) == AddOrdinary(b, p) && Bigs(ops) == k;
          assert Epochs(ops) == e[|e| - 1 := e[|e| - 1] + Logged(op)];
        case Completed(p, rx) =>
          CompletedFaithful(b, e, k, p, rx);
          assert Run(ops) == AddCompleted(b, p, rx) && Bigs(ops) == k + 1;
          assert Epochs(ops) == e[|e| - 1 := e[|e| - 1] + Logged(op)];
        case Flip =>
          SwapFaithful(b, e, k);
          assert Run(ops) == Swap(b) && Bigs(ops) == 0 && Epochs(ops) == e + [[]];
      }
    }
  }

  /** Adding never touches the queue that `get` denotes, nor the blocks it points to. */
  lemma AddLeavesHandedAlone(z: Zlib, b: Buffers, rx: Rx, link: LinkID, f: Frame)
    requires Owned(b) && Handle(z, rx, f).1 != Overran
    ensures var a := AddFrom(z, b, rx, link, f);
      a.Shaped() && a.Handed() == b.Handed() && Views(a.heap, b.Handed()) == Views(b.heap, b.Handed())
  {
    var p, a := FromFrame(link, f), AddFrom(z, b, rx, link, f);
    if !IsStreamFrame(f) {
      OrdinaryKeeps(b, p);
    } else if Handle(z, rx, f).1 == Complete {
      var added := CompletedShape(b, p, Handle(z, rx, f).0);
      BlocksKept(b, a.heap, b.Handed());
    }
  }

  /** The epochs are the log of all additions, in order, with nothing lost, repeated or moved. */
  lemma {:induction false} EpochsPartitionLog(ops: seq<Op>)
    ensures Concat(Epochs(ops)) == LogOf(ops)
  {
    if ops == [] {
      assert Concat([[]]) == Concat([]) + [];
    } else {
      var front, op := ops[..|ops| - 1], ops[|ops| - 1];
      EpochsPartitionLog(front);
      var e, e' := Epochs(front), Epochs(ops);
      if op.Flip? {
        assert e'[..|e'| - 1] == e;
      } else {
        var done, last := Concat(e[..|e| - 1]), e[|e| - 1];
        assert e'[..|e'| - 1] == e[..|e| - 1];
        assert done + (last + Logged(op)) == (done + last) + Logged(op);
      }
    }
  }

  // ---- Reading a frame ----

  /** What `add` does to the buffers for one frame. */
  function QueueOps(z: Zlib, rx: Rx, link: LinkID, f: Frame): seq<Op> {
    if !IsStreamFrame(f) then [Ordinary(FromFrame(link, f))]
    else if Handle(z, rx, f).1 == Complete then [Completed(FromFrame(link, f), Handle(z, rx, f).0)]
    else []
  }

  /** It is at most one operation, which does what `add` does and logs what the frame delivers. */
  lemma OpsLogDeliveries(z: Zlib, rx: Rx, link: LinkID, f: Frame)
    ensures var ops, ds := QueueOps(z, rx, link, f), Deliver(z, rx, link, f).1;
      if ops == [] then ds == []
      else ops == [ops[0]] && !ops[0].Flip? && Allowed(ops[0]) && Logged(ops[0]) == ds
  {
    assert Resize(f.body, |f.body|) == f.body;
  }

  lemma OpsAreAdd(z: Zlib, b: Buffers, rx: Rx, link: LinkID, f: Frame)
    requires b.Shaped() && Handle(z, rx, f).1 != Overran
    ensures var ops := QueueOps(z, rx, link, f);
      AddFrom(z, b, rx, link, f) == if ops == [] then b else Apply(b, ops[0])
  {
  }

  lemma OpsSnoc(ops: seq<Op>, op: Op)
    requires Clean(ops) && Allowed(op)
    ensures Clean(ops + [op]) && Run(ops + [op]) == Apply(Run(ops), op) && LogOf(ops + [op]) == LogOf(ops) + Logged(op)
  {
    assert (ops + [op])[..|ops|] == ops;
  }

  /** A package put into a receive queue, marked with the session whose handler put it there and whether it came
      off the wire. */
  datatype Event = Event(session: nat, received: bool, what: Delivery)

  function Mark(s: nat, ds: seq<Delivery>): seq<Event> {
    if ds == [] then [] else Mark(s, ds[..|ds| - 1]) + [Event(s, true, ds[|ds| - 1])]
  }

  function Whats(events: seq<Event>): seq<Delivery> {
    if events == [] then [] else Whats(events[..|events| - 1]) + [events[|events| - 1].what]
  }

  /** What the queue got off the wire from session s, in order, whatever handle it was stamped with. */
  function Received(events: seq<Event>, s: nat): seq<Delivery> {
    if events == [] then []
    else
      var e := events[|events| - 1];
      Received(events[..|events| - 1], s) + if e.session == s && e.received then [e.what.(link := NO_LINK)] else []
  }

  lemma EventSnoc(events: seq<Event>, e: Event)
    ensures (events + [e])[..|events|] == events && (events + [e])[|events|] == e
  {
  }

  lemma ReceivedSnoc(events: seq<Event>, e: Event, s: nat)
    ensures Received(events + [e], s)
         == if e.session == s && e.received then Received(events, s) + [e.what.(link := NO_LINK)]
            else Received(events, s)
  {
  }

  /** A frame delivers at most one package, stamped with the session's handle. */
  lemma DeliveredOnce(z: Zlib, rx: Rx, link: LinkID, f: Frame)
    ensures var (r, ds) := Deliver(z, rx, link, f);
      var (r0, ds0) := Deliver(z, rx, NO_LINK, f);
      && r == r0 && |ds| == |ds0| <= 1
      && (ds != [] ==> ds[0].link == link && ds0[0] == ds[0].(link := NO_LINK))
  {
  }

  lemma MarkOne(s: nat, ds: seq<Delivery>)
    requires |ds| <= 1
    ensures Mark(s, ds) == if ds == [] then [] else [Event(s, true, ds[0])]
  {
  }

  /** What a session's read adds to the data it has delivered, and to no other session's. */
  lemma ReadReceived(z: Zlib, rx: Rx, link: LinkID, f: Frame, events: seq<Event>, s: nat, o: nat)
    ensures Received(events + Mark(s, Deliver(z, rx, link, f).1), o)
         == if o == s then Received(events, o) + Deliver(z, rx, NO_LINK, f).1 else Received(events, o)
  {
    var ds := Deliver(z, rx, link, f).1;
    DeliveredOnce(z, rx, link, f);
    MarkOne(s, ds);
    if ds == [] {
      assert events + [] == events;
      assert Received(events, o) + [] == Received(events, o);
    } else {
      ReceivedSnoc(events, Event(s, true, ds[0]), o);
    }
  }

  /** The queue was given what the events say. */
  ghost predicate Follows(ops: seq<Op>, events: seq<Event>) {
    Clean(ops) && LogOf(ops) == Whats(events)
  }

  /** One package queued is one operation logged. */
  lemma FollowsSnoc(ops: seq<Op>, events: seq<Event>, op: Op, e: Event)
    requires Follows(ops, events) && Allowed(op) && Logged(op) == [e.what]
    ensures Follows(ops + [op], events + [e]) && Run(ops + [op]) == Apply(Run(ops), op)
  {
    EventSnoc(events, e);
    OpsSnoc(ops, op);
  }

  lemma FollowsFlip(ops: seq<Op>, events: seq<Event>)
    requires Follows(ops, events)
    ensures Follows(ops + [Flip], events) && Run(ops + [Flip]) == Swap(Run(ops))
  {
    OpsSnoc(ops, Flip);
    assert LogOf(ops) + [] == LogOf(ops);
  }

  /** Reading a frame that does not overrun keeps the queue in step with the events. */
  lemma FollowsRead(z: Zlib, ops: seq<Op>, events: seq<Event>, rx: Rx, link: LinkID, f: Frame, s: nat)
    requires Follows(ops, events)
    ensures var ops', events' := ops + QueueOps(z, rx, link, f), events + Mark(s, Deliver(z, rx, link, f).1);
      && Follows(ops', events')
      && (Handle(z, rx, f).1 != Overran ==> Run(ops') == AddFrom(z, Run(ops), rx, link, f))
  {
    var news, ds := QueueOps(z, rx, link, f), Deliver(z, rx, link, f).1;
    OpsLogDeliveries(z, rx, link, f);
    DeliveredOnce(z, rx, link, f);
    MarkOne(s, ds);
    if Handle(z, rx, f).1 != Overran {
      OpsAreAdd(z, Run(ops), rx, link, f);
    }
    if news == [] {
      assert ops + [] == ops && events + [] == events;
    } else {
      FollowsSnoc(ops, events, news[0], Event(s, true, ds[0]));
    }
  }

  /** What the buffers show of a queue that was given what the events say. */
  ghost predicate ShowsEvents(b: Buffers, ops: seq<Op>, events: seq<Event>) {
    && b.Shaped()
    && Concat(Epochs(ops)) == Whats(events)
    && Faithful(b, Epochs(ops), Bigs(ops))
    && LosesTrims(b, Epochs(ops), ops)
  }

  lemma FollowsShows(ops: seq<Op>, events: seq<Event>)
    requires Follows(ops, events)
    ensures ShowsEvents(Run(ops), ops, events)
  {
    DoubleBuffering(ops);
    EpochsPartitionLog(ops);
  }

  // ---- When the copy fits ----

  /** An unzipped message's receive buffer has the length that its header gives. */
  predicate Consistent(rx: Rx) {
    rx.header.zipLevel == 0 ==> |rx.data| == rx.header.dataLength
  }

  /** What a Begin's header must promise for the message to be copied out safely: it is zipped, or no longer in the
      original than as sent; an empty one may be as long as a package's body. */
  predicate Honest(h: BigHeader) {
    h.zipLevel > 0 || h.originalLength <= if h.dataLength > 0 then h.dataLength else MAX_BODY
  }

  lemma BeginConsistent(z: Zlib, rx: Rx, f: Frame)
    requires f.id == ID_BIG_BEGIN
    ensures Consistent(Recv(z, rx, f).0) && Recv(z, rx, f).0.header == DecodeHeader(f.body)
  {
  }

  lemma RecvConsistent(z: Zlib, rx: Rx, f: Frame)
    requires Consistent(rx)
    ensures Consistent(Recv(z, rx, f).0)
    ensures f.id != ID_BIG_BEGIN ==> Recv(z, rx, f).0.header == rx.header
  {
  }

  /** After a Begin, what completes can be copied out if and only if the header is honest. */
  lemma CompleteFitsIffHonest(z: Zlib, rx: Rx, f: Frame)
    requires Consistent(rx) && Recv(z, rx, f).1 == Complete
    ensures CopyFits(Recv(z, rx, f).0) <==> Honest(rx.header)
  {
  }

  /** Whatever frames follow a Begin without another among them: the next call overruns if and only if it completes the
      message and that Begin's header is not honest. */
  lemma {:induction false} OverrunIffDishonest(z: Zlib, rx: Rx, begin: Frame, fs: seq<Frame>, f: Frame)
    requires begin.id == ID_BIG_BEGIN && forall g :: g in fs ==> g.id != ID_BIG_BEGIN
    ensures var r := Feed(z, rx, [begin] + fs);
      Handle(z, r, f).1 == Overran <==> Recv(z, r, f).1 == Complete && !Honest(DecodeHeader(begin.body))
  {
    AfterBegin(z, rx, begin, fs);
    if Recv(z, Feed(z, rx, [begin] + fs), f).1 == Complete {
      CompleteFitsIffHonest(z, Feed(z, rx, [begin] + fs), f);
    }
  }

  lemma {:induction false} AfterBegin(z: Zlib, rx: Rx, begin: Frame, fs: seq<Frame>)
    requires begin.id == ID_BIG_BEGIN && forall g :: g in fs ==> g.id != ID_BIG_BEGIN
    ensures var r := Feed(z, rx, [begin] + fs);
      Consistent(r) && r.header == DecodeHeader(begin.body)
  {
    var all := [begin] + fs;
    if fs == [] {
      assert all == [begin] && all[..0] == [];
      assert Feed(z, rx, all[..0]) == rx;
      BeginConsistent(z, rx, begin);
    } else {
      var front, last := fs[..|fs| - 1], fs[|fs| - 1];
      assert all[..|all| - 1] == [begin] + front && all[|all| - 1] == last;
      assert last in fs;
      AfterBegin(z, rx, begin, front);
      RecvConsistent(z, Feed(z, rx, [begin] + front), last);
    }
  }

  /** Every header that `SetBigPackage` stores is honest. */
  lemma SendersAreHonest(z: Zlib, m: BigMsg)
    requires z.Sound() && m.Sendable()
    ensures Honest(HeaderOf(z, m))
  {
    if m.zip % 0x100 == 0 {
      assert z.Deflate(m.data, m.zip, |m.data| + 2048).None? || 1 <= m.zip <= 9;
      assert Packed(z, m) == m.data;
    }
  }

  /** A header that gives one byte as sent and a hundred in the original. */
  const DISHONEST := BigHeader(0, 1, 1000, 0, 1, 100, 1)

  /** With it, Begin and End alone complete a message whose copy does not fit, whatever the receiver held. */
  lemma {:induction false} DishonestOverruns(z: Zlib, rx: Rx)
    ensures var r := Recv(z, rx, BeginFrame(DISHONEST)).0;
      && Handle(z, rx, BeginFrame(DISHONEST)) == (r, Pending)
      && Recv(z, r, EndFrame(DISHONEST)).1 == Complete
      && |r.data| == 1 && r.header.originalLength == 100 && Handle(z, r, EndFrame(DISHONEST)).1 == Overran
  {
    HeaderRoundTrip(DISHONEST, []);
    assert EncodeHeader(DISHONEST) + [] == EncodeHeader(DISHONEST);
  }
}
