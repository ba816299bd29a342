/** The connection pool of `HXLibAsioServer`: slots, recycled serial numbers and the handles made of them. */
module Pool {
  import opened Wire

  /** `MAXSHORT`: serial numbers run from 1 to this and start again. */
  const MAXSHORT := 0x7FFF

  /** `MAX_ACCEPT_ITEM`. */
  const MAX_ACCEPT_ITEM := 10000

  /** `AcceptItem`. */
  datatype Slot<+S> = Slot(link: Option<S>, id: LinkID, context: string, ip: seq<byte>)

  /** The first `m_maxLinks` slots, `m_id` and `m_onlineLinks`. */
  datatype Table<+S> = Table(slots: seq<Slot<S>>, lastId: nat, online: int)

  function NextId(lastId: nat): nat {
    (if lastId >= MAXSHORT then 0 else lastId) + 1
  }

  /** The first free slot from i on, or the number of slots. */
  function FirstFree<S>(slots: seq<Slot<S>>, i: nat): (r: nat)
    requires i <= |slots|
    ensures i <= r <= |slots|
    decreases |slots| - i
  {
    if i < |slots| && slots[i].id != NO_LINK then FirstFree(slots, i + 1) else i
  }

  /** The pool's part of `Join`. */
  function Join<S>(t: Table<S>, link: S, ip: seq<byte>): (Table<S>, LinkID)
    requires |t.slots| <= MAX_ACCEPT_ITEM && t.lastId <= MAXSHORT
  {
    var sid := NextId(t.lastId);
    var i := FirstFree(t.slots, 0);
    if i == |t.slots| then (t.(lastId := sid), NO_LINK)
    else
      var slot := t.slots[i].(link := Some(link), id := LinkID(sid, i), ip := if |ip| <= 31 then ip else ip[..31]);
      (Table(t.slots[i := slot], sid, t.online + 1), slot.id)
  }

  /** The test that guards every use of a handle. */
  predicate Addresses<S>(t: Table<S>, id: LinkID) {
    id.sindex < |t.slots| && id.sid == t.slots[id.sindex].id.sid
  }

  /** The pool's part of `Leave`. */
  function Leave<S>(t: Table<S>, id: LinkID): Table<S> {
    if Addresses(t, id) then
      var slot := t.slots[id.sindex];
      t.(slots := t.slots[id.sindex := slot.(link := None, id := NO_LINK)],
         online := t.online - if slot.link.Some? then 1 else 0)
    else t
  }

  function WithContext<S>(t: Table<S>, id: LinkID, context: string): Table<S> {
    if Addresses(t, id) then t.(slots := t.slots[id.sindex := t.slots[id.sindex].(context := context)]) else t
  }

  function ContextOf<S>(t: Table<S>, id: LinkID): Option<string> {
    if Addresses(t, id) then Some(t.slots[id.sindex].context) else None
  }

  function EmptyTable<S>(maxLinks: nat): Table<S> {
    Table(seq(maxLinks, _ => Slot(None, NO_LINK, "", [])), 0, 0)
  }

  function Occupied<S>(slots: seq<Slot<S>>): nat {
    if slots == [] then 0
    else Occupied(slots[..|slots| - 1]) + if slots[|slots| - 1].id != NO_LINK then 1 else 0
  }

  /** A slot is occupied if and only if its id is not zero if and only if it has a link; an occupied slot's
      handle names that slot and a serial number in range; the counter counts the occupied slots. */
  ghost predicate WellFormed<S(!new)>(t: Table<S>) {
    && |t.slots| <= MAX_ACCEPT_ITEM
    && t.lastId <= MAXSHORT
    && (forall i :: 0 <= i < |t.slots| ==> SlotOk(t.slots[i], i))
    && t.online == Occupied(t.slots)
  }

  predicate SlotOk<S>(slot: Slot<S>, i: nat) {
    && (slot.id != NO_LINK <==> slot.link.Some?)
    && (slot.id != NO_LINK ==> slot.id.sindex == i && 1 <= slot.id.sid <= MAXSHORT)
  }

  lemma {:induction false} FirstFreeIsLowest<S>(slots: seq<Slot<S>>, i: nat)
    requires i <= |slots|
    ensures var r := FirstFree(slots, i);
      && (forall j :: i <= j < r ==> slots[j].id != NO_LINK)
      && (r < |slots| ==> slots[r].id == NO_LINK)
    decreases |slots| - i
  {
    if i < |slots| && slots[i].id != NO_LINK {
      FirstFreeIsLowest(slots, i + 1);
    }
  }

  lemma {:induction false} OccupiedUpdate<S>(slots: seq<Slot<S>>, i: nat, slot: Slot<S>)
    requires i < |slots|
    ensures Occupied(slots[i := slot])
         == Occupied(slots) + (if slot.id != NO_LINK then 1 else 0) - (if slots[i].id != NO_LINK then 1 else 0)
  {
    var front := slots[..|slots| - 1];
    var after := slots[i := slot];
    if i < |front| {
      OccupiedUpdate(front, i, slot);
      assert after[..|after| - 1] == front[i := slot];
    } else {
      assert after[..|after| - 1] == front;
    }
  }

  lemma {:induction false} OccupiedAll<S>(slots: seq<Slot<S>>)
    ensures Occupied(slots) <= |slots|
    ensures Occupied(slots) == |slots| <==> forall i :: 0 <= i < |slots| ==> slots[i].id != NO_LINK
  {
    if slots != [] {
      OccupiedAll(slots[..|slots| - 1]);
      if Occupied(slots) == |slots| {
        forall i | 0 <= i < |slots| ensures slots[i].id != NO_LINK {
          assert i < |slots| - 1 ==> slots[..|slots| - 1][i].id != NO_LINK;
        }
      }
    }
  }

  /** `Join` keeps the pool well formed. It fails exactly when every slot is occupied; otherwise it takes the
      lowest free slot, leaves every other slot and the slot's old context alone, and the handle it returns
      addresses that slot. */
  lemma JoinTakesLowestFree<S(!new)>(t: Table<S>, link: S, ip: seq<byte>)
    requires WellFormed(t)
    ensures var (t', id) := Join(t, link, ip);
      && WellFormed(t') && 1 <= t'.lastId == NextId(t.lastId)
      && (id == NO_LINK <==> t.online == |t.slots|)
      && (id == NO_LINK ==> t' == t.(lastId := t'.lastId))
      && (id != NO_LINK ==>
            && id.sid == t'.lastId && Addresses(t', id) && t'.online == t.online + 1
            && |t'.slots| == |t.slots|
            && t.slots[id.sindex].id == NO_LINK
            && t'.slots[id.sindex].id == id && t'.slots[id.sindex].link == Some(link)
            && t'.slots[id.sindex].context == t.slots[id.sindex].context
            && t'.slots[id.sindex].ip <= ip && |t'.slots[id.sindex].ip| == (if |ip| < 31 then |ip| else 31)
            && (forall j :: 0 <= j < |t.slots| && j != id.sindex ==> t'.slots[j] == t.slots[j])
            && (forall j :: 0 <= j < id.sindex ==> t.slots[j].id != NO_LINK))
  {
    FirstFreeIsLowest(t.slots, 0);
    OccupiedAll(t.slots);
    var i := FirstFree(t.slots, 0);
    if i < |t.slots| {
      OccupiedUpdate(t.slots, i, Join(t, link, ip).0.slots[i]);
    }
  }

  /** `Leave` keeps the pool well formed; with a live handle it frees exactly that slot, which a following
      `Join` may take again, and with the zero handle of a session that already left it changes nothing. */
  lemma LeaveFreesSlot<S(!new)>(t: Table<S>, id: LinkID)
    requires WellFormed(t)
    ensures var t' := Leave(t, id);
      && WellFormed(t')
      && (id != NO_LINK && id.sindex < |t.slots| && t.slots[id.sindex].id == id ==>
            && t'.online == t.online - 1 && t'.slots[id.sindex].id == NO_LINK
            && t'.slots[id.sindex].context == t.slots[id.sindex].context
            && t'.slots[id.sindex].ip == t.slots[id.sindex].ip
            && forall j :: 0 <= j < |t.slots| && j != id.sindex ==> t'.slots[j] == t.slots[j])
      && (id == NO_LINK ==> t' == t)
      && t'.lastId == t.lastId && |t'.slots| == |t.slots|
  {
    if Addresses(t, id) {
      OccupiedUpdate(t.slots, id.sindex, t.slots[id.sindex].(link := None, id := NO_LINK));
      if id == NO_LINK {
        assert SlotOk(t.slots[0], 0);
        assert t.slots[0].(link := None, id := NO_LINK) == t.slots[0];
        assert t.slots[0 := t.slots[0]] == t.slots;
      }
    }
  }

  // ---- Contexts ----

  /** A handle addresses a slot that holds it or, with serial number 0, a free slot. */
  lemma AddressesHolderOrFree<S(!new)>(t: Table<S>, id: LinkID)
    requires WellFormed(t)
    ensures Addresses(t, id) <==>
      && id.sindex < |t.slots|
      && (t.slots[id.sindex].id == id != NO_LINK || (id.sid == 0 && t.slots[id.sindex].id == NO_LINK))
  {
    if id.sindex < |t.slots| {
      assert SlotOk(t.slots[id.sindex], id.sindex);
    }
  }

  /** The context set is the one got, by the same handle and by no other, and nothing else changes. */
  lemma ContextReturns<S>(t: Table<S>, id: LinkID, context: string, other: LinkID)
    ensures var u := WithContext(t, id, context);
      && ContextOf(u, other) == (if Addresses(t, id) && other == id then Some(context) else ContextOf(t, other))
      && (Addresses(u, other) <==> Addresses(t, other))
      && u.online == t.online && u.lastId == t.lastId
  {
  }

  /** A context outlives its session: the next one in the slot finds it. */
  lemma ContextOutlives<S(!new)>(t: Table<S>, id: LinkID, link: S, ip: seq<byte>)
    requires WellFormed(t) && id != NO_LINK && Addresses(t, id) && t.slots[id.sindex].id == id
    ensures var (u, next) := Join(Leave(t, id), link, ip);
      next != NO_LINK && (next.sindex == id.sindex ==> ContextOf(u, next) == ContextOf(t, id))
  {
    LeaveFreesSlot(t, id);
    JoinTakesLowestFree(Leave(t, id), link, ip);
    OccupiedAll(Leave(t, id).slots);
  }
}
