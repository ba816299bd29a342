/** The bounded blocking queue `MsgQueue`: a mutex, two condition variables and `notify_one`, for any number of
    threads, with barging and spurious wakeups. */
module Monitor {
  import opened Wire

  type Tid = nat

  /** The queue and where its threads are. A thread waits un-signalled, or was woken and competes for the mutex
      again; a putter keeps the element it brought. The last two fields record all puts and gets. */
  datatype State<T> = State(
    queue: seq<T>, maxSize: int,
    putWaiting: map<Tid, T>, putWoken: map<Tid, T>, getWaiting: set<Tid>, getWoken: set<Tid>,
    puts: seq<T>, gets: seq<T>)
  {
    predicate Full() {
      |queue| == maxSize
    }

    predicate Outside(t: Tid) {
      t !in putWaiting && t !in putWoken && t !in getWaiting && t !in getWoken
    }
  }

  function Fresh<T>(maxSize: int): State<T> {
    State([], maxSize, map[], map[], {}, {}, [], [])
  }

  /** `notify_one` wakes some waiting thread if there is one. */
  predicate WakesGetter<T>(m: State<T>, wake: Option<Tid>) {
    if m.getWaiting == {} then wake == None else wake.Some? && wake.value in m.getWaiting
  }

  predicate WakesPutter<T>(m: State<T>, wake: Option<Tid>) {
    if m.putWaiting == map[] then wake == None else wake.Some? && wake.value in m.putWaiting
  }

  /** `put` of thread t from the point where it holds the mutex to where it gives it up. */
  function Put<T>(m: State<T>, t: Tid, x: T, wake: Option<Tid>): State<T> {
    var n := m.(putWoken := m.putWoken - {t});
    if m.Full() then n.(putWaiting := m.putWaiting[t := x])
    else
      var w := if wake.Some? then {wake.value} else {};
      n.(queue := m.queue + [x], puts := m.puts + [x], getWaiting := m.getWaiting - w, getWoken := m.getWoken + w)
  }

  /** Likewise for `get`. */
  function Get<T>(m: State<T>, t: Tid, wake: Option<Tid>): State<T> {
    var n := m.(getWoken := m.getWoken - {t});
    if m.queue == [] then n.(getWaiting := m.getWaiting + {t})
    else
      var p := n.(queue := m.queue[1..], gets := m.gets + [m.queue[0]]);
      if wake.Some? && wake.value in m.putWaiting then
        p.(putWaiting := m.putWaiting - {wake.value}, putWoken := m.putWoken[wake.value := m.putWaiting[wake.value]])
      else p
  }

  datatype Step<T> =
    | PutCall(t: Tid, x: T, wake: Option<Tid>)   // a thread calls put and gets the mutex
    | PutResume(t: Tid, wake: Option<Tid>)       // a woken putter gets it again
    | GetCall(t: Tid, wake: Option<Tid>)
    | GetResume(t: Tid, wake: Option<Tid>)
    | Spurious(t: Tid)                           // a wait returns without a signal

  predicate CanStep<T(==)>(m: State<T>, s: Step<T>) {
    match s
    case PutCall(t, x, wake) => m.Outside(t) && (m.Full() || WakesGetter(m, wake))
    case PutResume(t, wake) => t in m.putWoken && (m.Full() || WakesGetter(m, wake))
    case GetCall(t, wake) => m.Outside(t) && (m.queue == [] || WakesPutter(m, wake))
    case GetResume(t, wake) => t in m.getWoken && (m.queue == [] || WakesPutter(m, wake))
    case Spurious(t) => t in m.putWaiting || t in m.getWaiting
  }

  function After<T>(m: State<T>, s: Step<T>): State<T>
    requires CanStep(m, s)
  {
    match s
    case PutCall(t, x, wake) => Put(m, t, x, wake)
    case PutResume(t, wake) => Put(m, t, m.putWoken[t], wake)
    case GetCall(t, wake) => Get(m, t, wake)
    case GetResume(t, wake) => Get(m, t, wake)
    case Spurious(t) =>
      if t in m.putWaiting then
        m.(putWaiting := m.putWaiting - {t}, putWoken := m.putWoken[t := m.putWaiting[t]])
      else m.(getWaiting := m.getWaiting - {t}, getWoken := m.getWoken + {t})
  }

  predicate Possible<T(==)>(maxSize: int, steps: seq<Step<T>>)
    decreases |steps|, 0
  {
    steps == []
    || (Possible(maxSize, steps[..|steps| - 1]) && CanStep(Play(maxSize, steps[..|steps| - 1]), steps[|steps| - 1]))
  }

  function Play<T>(maxSize: int, steps: seq<Step<T>>): State<T>
    requires Possible(maxSize, steps)
    decreases |steps|, 1
  {
    if steps == [] then Fresh(maxSize) else After(Play(maxSize, steps[..|steps| - 1]), steps[|steps| - 1])
  }

  /** No wakeup is lost: while a getter waits un-signalled, the items do not outnumber the woken getters, and
      while a putter does, the free slots do not outnumber the woken putters. */
  ghost predicate NoLostWakeup<T(!new)>(m: State<T>) {
    && (m.getWaiting != {} ==> |m.queue| <= |m.getWoken|)
    && (m.putWaiting != map[] ==> m.maxSize - |m.queue| <= |m.putWoken|)
  }

  /** A thread is in one place only. */
  predicate OnePlace<T>(m: State<T>, t: Tid) {
    && !(t in m.putWaiting && t in m.putWoken)
    && !(t in m.getWaiting && t in m.getWoken)
    && !((t in m.putWaiting || t in m.putWoken) && (t in m.getWaiting || t in m.getWoken))
  }

  /** First in, first out, within capacity. */
  ghost predicate Sane<T(!new)>(m: State<T>) {
    && m.gets + m.queue == m.puts
    && (m.maxSize >= 0 ==> |m.queue| <= m.maxSize)
    && (m.maxSize < 0 ==> m.putWaiting == map[])
    && forall t :: OnePlace(m, t)
  }

  lemma CardRemove(s: set<Tid>, t: Tid)
    ensures |s - {t}| == if t in s then |s| - 1 else |s|
  {
  }

  lemma CardAdd(s: set<Tid>, t: Tid)
    ensures |s + {t}| == if t in s then |s| else |s| + 1
  {
    if t in s {
      assert s + {t} == s;
    }
  }

  lemma MapCard<T>(a: map<Tid, T>, t: Tid, v: T)
    ensures |a - {t}| == if t in a then |a| - 1 else |a|
    ensures |a[t := v]| == if t in a then |a| else |a| + 1
  {
  }

  lemma PutSane<T(!new)>(m: State<T>, t: Tid, x: T, wake: Option<Tid>)
    requires Sane(m) && (m.Outside(t) || t in m.putWoken)
    requires m.Full() || WakesGetter(m, wake)
    ensures Sane(Put(m, t, x, wake))
  {
    var n := Put(m, t, x, wake);
    assert m.gets + (m.queue + [x]) == (m.gets + m.queue) + [x];
    forall u ensures OnePlace(n, u) {
      assert OnePlace(m, u);
    }
  }

  lemma PutKeeps<T(!new)>(m: State<T>, t: Tid, x: T, wake: Option<Tid>)
    requires Sane(m) && NoLostWakeup(m) && (m.Outside(t) || t in m.putWoken)
    requires m.Full() || WakesGetter(m, wake)
    ensures NoLostWakeup(Put(m, t, x, wake))
  {
    MapCard(m.putWoken, t, x);
    if wake.Some? {
      assert OnePlace(m, wake.value);
      CardAdd(m.getWoken, wake.value);
    }
  }

  lemma GetSane<T(!new)>(m: State<T>, t: Tid, wake: Option<Tid>)
    requires Sane(m) && (m.Outside(t) || t in m.getWoken)
    requires m.queue == [] || WakesPutter(m, wake)
    ensures Sane(Get(m, t, wake))
  {
    var n := Get(m, t, wake);
    if m.queue != [] {
      assert m.queue == [m.queue[0]] + m.queue[1..];
    }
    forall u ensures OnePlace(n, u) {
      assert OnePlace(m, u);
    }
  }

  lemma GetKeeps<T(!new)>(m: State<T>, t: Tid, wake: Option<Tid>)
    requires Sane(m) && NoLostWakeup(m) && (m.Outside(t) || t in m.getWoken)
    requires m.queue == [] || WakesPutter(m, wake)
    ensures NoLostWakeup(Get(m, t, wake))
  {
    CardRemove(m.getWoken, t);
    if m.queue != [] && wake.Some? && wake.value in m.putWaiting {
      assert OnePlace(m, wake.value);
      MapCard(m.putWoken, wake.value, m.putWaiting[wake.value]);
    }
  }

  lemma SpuriousKeeps<T(!new)>(m: State<T>, t: Tid)
    requires Sane(m) && NoLostWakeup(m) && CanStep(m, Spurious(t))
    ensures Sane(After(m, Spurious(t))) && NoLostWakeup(After(m, Spurious(t)))
  {
    var n := After(m, Spurious(t));
    forall u ensures OnePlace(n, u) {
      assert OnePlace(m, u);
    }
    if t in m.putWaiting {
      MapCard(m.putWoken, t, m.putWaiting[t]);
    } else {
      CardAdd(m.getWoken, t);
    }
  }

  lemma {:induction false} StepKeeps<T(!new)>(m: State<T>, s: Step<T>)
    requires Sane(m) && NoLostWakeup(m) && CanStep(m, s)
    ensures Sane(After(m, s)) && NoLostWakeup(After(m, s))
  {
    match s {
      case PutCall(t, x, wake) => PutSane(m, t, x, wake); PutKeeps(m, t, x, wake);
      case PutResume(t, wake) => PutSane(m, t, m.putWoken[t], wake); PutKeeps(m, t, m.putWoken[t], wake);
      case GetCall(t, wake) => GetSane(m, t, wake); GetKeeps(m, t, wake);
      case GetResume(t, wake) => GetSane(m, t, wake); GetKeeps(m, t, wake);
      case Spurious(t) => SpuriousKeeps(m, t);
    }
  }

  /** Whatever the threads do, the queue is a bounded FIFO and no wakeup is lost. */
  lemma {:induction false} RunsLoseNoWakeup<T(!new)>(maxSize: int, steps: seq<Step<T>>)
    requires Possible(maxSize, steps)
    ensures Sane(Play(maxSize, steps)) && NoLostWakeup(Play(maxSize, steps)) && Play(maxSize, steps).maxSize == maxSize
  {
    if steps != [] {
      RunsLoseNoWakeup(maxSize, steps[..|steps| - 1]);
      StepKeeps(Play(maxSize, steps[..|steps| - 1]), steps[|steps| - 1]);
    }
  }

  /** Putters and getters exist and every one of them waits un-signalled. */
  predicate Deadlocked<T(==)>(m: State<T>) {
    m.putWaiting != map[] && m.getWaiting != {} && m.putWoken == map[] && m.getWoken == {}
  }

  ghost predicate CanDeadlock<T(!new)>(maxSize: int) {
    exists steps: seq<Step<T>> :: Possible(maxSize, steps) && Deadlocked(Play(maxSize, steps))
  }

  /** The queue can deadlock if and only if it was made with capacity zero. */
  lemma DeadlockIffNoCapacity<T(!new)>(maxSize: int, x: T)
    ensures CanDeadlock<T>(maxSize) <==> maxSize == 0
  {
    forall steps: seq<Step<T>> | Possible(maxSize, steps) && Deadlocked(Play(maxSize, steps))
      ensures maxSize == 0
    {
      RunsLoseNoWakeup(maxSize, steps);
    }
    if maxSize == 0 {
      var a: seq<Step<T>> := [PutCall(0, x, None)];
      var b := a + [GetCall(1, None)];
      assert a[..0] == [] && b[..1] == a;
      assert Play<T>(0, []) == Fresh(0);
      assert Possible(0, a);
      assert Play(0, a) == Put(Fresh(0), 0, x, None);
      assert Possible(0, b);
      assert Play(0, b) == Get(Play(0, a), 1, None);
      assert Deadlocked(Play(0, b));
    }
  }

  /** The object: each method is one tenure of the mutex by thread t. */
  class MsgQueue<T(!new)> {
    var queue: seq<T>
    const maxSize: int
    ghost var putWaiting: map<Tid, T>
    ghost var putWoken: map<Tid, T>
    ghost var getWaiting: set<Tid>
    ghost var getWoken: set<Tid>
    ghost var puts: seq<T>
    ghost var gets: seq<T>

    ghost function Now(): State<T>
      reads this
    {
      State(queue, maxSize, putWaiting, putWoken, getWaiting, getWoken, puts, gets)
    }

    constructor (maxSize: int)
      ensures Now() == Fresh(maxSize)
    {
      this.maxSize := maxSize;
      queue, putWaiting, putWoken, getWaiting, getWoken, puts, gets := [], map[], map[], {}, {}, [], [];
    }

    /** Either the thread goes to wait on not-full, or it appends and signals not-empty. */
    method PutSection(t: Tid, x: T) returns (done: bool, ghost wake: Option<Tid>)
      modifies this
      ensures Now() == Put(old(Now()), t, x, wake)
      ensures done == !old(Now().Full()) && (done ==> WakesGetter(old(Now()), wake))
    {
      wake := None;
      putWoken := putWoken - {t};
      if |queue| == maxSize {
        putWaiting := putWaiting[t := x];
        return false, wake;
      }
      queue := queue + [x];
      puts := puts + [x];
      if getWaiting != {} {
        ghost var w :| w in getWaiting;
        wake := Some(w);
        getWaiting, getWoken := getWaiting - {w}, getWoken + {w};
      }
      return true, wake;
    }

    /** Either the thread goes to wait on not-empty, or it takes the front and signals not-full. */
    method GetSection(t: Tid) returns (x: Option<T>, ghost wake: Option<Tid>)
      modifies this
      ensures Now() == Get(old(Now()), t, wake)
      ensures x == if old(queue) == [] then None else Some(old(queue)[0])
      ensures x.Some? ==> WakesPutter(old(Now()), wake)
    {
      wake := None;
      getWoken := getWoken - {t};
      if queue == [] {
        getWaiting := getWaiting + {t};
        return None, wake;
      }
      x := Some(queue[0]);
      gets := gets + [queue[0]];
      queue := queue[1..];
      if putWaiting != map[] {
        ghost var w :| w in putWaiting;
        wake := Some(w);
        putWoken := putWoken[w := putWaiting[w]];
        putWaiting := putWaiting - {w};
      }
    }
  }
}
