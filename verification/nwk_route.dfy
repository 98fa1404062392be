/** The routing table (nwkRoute.c): ranked and of fixed size, it stands for a finite map, with eviction. */
module Routing {
  import opened Types

  const TABLE_SIZE: nat := 100
  const UNKNOWN: Word := 0xffff
  const BROADCAST: Word := 0xffff
  const NON_ROUTING: Word := 0x8000
  const MAX_RANK: nat := 255
  const DEFAULT_RANK: Byte := 128
  const DEFAULT_SCORE: nat := 3

  datatype Entry = Entry(fixed: bool, multicast: Byte, score: nat, dst: Word, nextHop: Word, rank: Byte, lqi: Byte) {
    predicate Live() { dst != UNKNOWN }

    predicate Free() { !fixed && dst == UNKNOWN }

    function Key(): (Word, Byte) { (dst, multicast) }
  }

  /** The header fields and link quality that routing reads from a received frame. */
  datatype Heard = Heard(macDstPan: Word, macDst: Word, macSrc: Word, nwkSrc: Word, nwkDst: Word, lqi: Byte)

  /** The table after nwkRouteInit. */
  function EmptyTable(): (t: seq<Entry>)
    ensures |t| == 100 && forall i | 0 <= i < |t| :: t[i].Free() && t[i].rank == 0
  {
    seq(TABLE_SIZE, _ => Entry(false, 0, 0, UNKNOWN, 0, 0, 0))
  }

  // ----- the operations as functions on the table -----

  function Find(t: seq<Entry>, dst: Word, multicast: Byte, i: nat := 0): (r: Option<nat>)
    requires i <= |t|
    ensures r.Some? ==> i <= r.value < |t| && t[r.value].Key() == (dst, multicast)
    ensures r.Some? ==> forall k | i <= k < r.value :: t[k].Key() != (dst, multicast)
    ensures r.None? ==> forall k | i <= k < |t| :: t[k].Key() != (dst, multicast)
    decreases |t| - i
  {
    if i == |t| then None
    else if t[i].dst == dst && t[i].multicast == multicast then Some(i)
    else Find(t, dst, multicast, i + 1)
  }

  ghost predicate LeastRank(t: seq<Entry>, n: nat, v: nat)
    requires n <= |t|
  {
    && v < n && !t[v].fixed
    && forall k | 0 <= k < n && !t[k].fixed :: t[v].rank <= t[k].rank
  }

  /** The slot NWK_RouteNewEntry settles on when it goes on searching at `i` with `best` in hand. */
  function Victim(t: seq<Entry>, i: nat := 0, best: Option<nat> := None): (r: Option<nat>)
    requires i <= |t|
    requires best.Some? ==> LeastRank(t, i, best.value)
    requires best.None? ==> forall k | 0 <= k < i :: t[k].fixed
    ensures r.Some? ==> LeastRank(t, |t|, r.value)
    ensures r.None? ==> forall k | 0 <= k < |t| :: t[k].fixed
    decreases |t| - i
  {
    if i == |t| then best
    else if t[i].fixed then Victim(t, i + 1, best)
    else if t[i].rank == 0 then Some(i)
    else if best.None? || t[i].rank < t[best.value].rank then Victim(t, i + 1, Some(i))
    else Victim(t, i + 1, best)
  }

  ghost predicate HasSpare(t: seq<Entry>) {
    exists k | 0 <= k < |t| :: !t[k].fixed
  }

  lemma KeepsSpare(t: seq<Entry>, i: nat, e: Entry)
    requires i < |t| && e.fixed == t[i].fixed
    ensures HasSpare(t) ==> HasSpare(t[i := e])
  {
    if k :| 0 <= k < |t| && !t[k].fixed {
      assert !t[i := e][k].fixed;
    }
  }

  function NewEntry(t: seq<Entry>): (r: (seq<Entry>, nat))
    requires HasSpare(t)
    ensures |r.0| == |t| && r.1 < |t| && LeastRank(t, |t|, r.1) && HasSpare(r.0)
  {
    var v := Victim(t).value;
    var e := t[v].(multicast := 0, score := DEFAULT_SCORE, rank := DEFAULT_RANK);
    KeepsSpare(t, v, e);
    (t[v := e], v)
  }

  function FreeEntry(t: seq<Entry>, i: nat): (r: seq<Entry>)
    requires i < |t|
    ensures |r| == |t|
    ensures HasSpare(t) ==> HasSpare(r)
  {
    if t[i].fixed then t
    else
      KeepsSpare(t, i, t[i].(dst := UNKNOWN, rank := 0));
      t[i := t[i].(dst := UNKNOWN, rank := 0)]
  }

  function NextHop(t: seq<Entry>, dst: Word, multicast: Byte): Word {
    match Find(t, dst, multicast)
    case Some(i) => t[i].nextHop
    case None => UNKNOWN
  }

  function Remove(t: seq<Entry>, dst: Word, multicast: Byte): (r: seq<Entry>)
    ensures |r| == |t|
    ensures HasSpare(t) ==> HasSpare(r)
  {
    match Find(t, dst, multicast)
    case Some(i) => FreeEntry(t, i)
    case None => t
  }

  /** Whether a received frame is looked at at all. */
  predicate Usable(h: Heard) {
    !(h.macSrc >= NON_ROUTING && h.macSrc != h.nwkSrc) && h.macDstPan != 0xffff
  }

  function FrameReceived(t: seq<Entry>, addr: Word, h: Heard): (r: seq<Entry>)
    requires HasSpare(t)
    ensures |r| == |t|
    ensures HasSpare(t) ==> HasSpare(r)
  {
    if !Usable(h) then t
    else
      match Find(t, h.nwkSrc, 0)
      case Some(i) =>
        var discovery := h.macDst == BROADCAST && h.nwkDst == addr;
        var e := if (t[i].nextHop != h.macSrc && h.lqi > t[i].lqi) || discovery
                 then t[i].(nextHop := h.macSrc, score := DEFAULT_SCORE) else t[i];
        KeepsSpare(t, i, e.(lqi := h.lqi));
        t[i := e.(lqi := h.lqi)]
      case None =>
        var (fresh', v) := NewEntry(t);
        var e := fresh'[v].(dst := h.nwkSrc, nextHop := h.macSrc, lqi := h.lqi);
        KeepsSpare(fresh', v, e);
        fresh'[v := e]
  }

  function NormalizeRanks(t: seq<Entry>): (r: seq<Entry>)
    ensures |r| == |t|
    ensures HasSpare(t) ==> HasSpare(r)
  {
    var r := seq(|t|, i requires 0 <= i < |t| => t[i].(rank := t[i].rank / 2 + 1));
    assert HasSpare(t) ==> HasSpare(r) by {
      if k :| 0 <= k < |t| && !t[k].fixed { assert !r[k].fixed; }
    }
    r
  }

  /** Route `i` served a transmission. */
  function Succeed(t: seq<Entry>, i: nat): (r: seq<Entry>)
    requires i < |t|
    ensures |r| == |t|
    ensures HasSpare(t) ==> HasSpare(r)
  {
    var e := t[i].(score := DEFAULT_SCORE, rank := ToByte(t[i].rank + 1));
    KeepsSpare(t, i, e);
    if e.rank == MAX_RANK then NormalizeRanks(t[i := e]) else t[i := e]
  }

  /** Route `i` failed a transmission; the score is a 4-bit field. */
  function Fail(t: seq<Entry>, i: nat): (r: seq<Entry>)
    requires i < |t|
    ensures |r| == |t|
    ensures HasSpare(t) ==> HasSpare(r)
  {
    var e := t[i].(score := (t[i].score - 1) % 0x10);
    KeepsSpare(t, i, e);
    if e.score == 0 then FreeEntry(t[i := e], i) else t[i := e]
  }

  function FrameSent(t: seq<Entry>, dst: Word, multicast: Byte, success: bool): (r: seq<Entry>)
    ensures |r| == |t|
    ensures HasSpare(t) ==> HasSpare(r)
  {
    var found := Find(t, dst, multicast);
    if dst == BROADCAST || found.None? || t[found.value].fixed then t
    else if success then Succeed(t, found.value)
    else Fail(t, found.value)
  }

  // ----- invariant -----

  ghost predicate UniqueKeys(t: seq<Entry>) {
    forall i, j | 0 <= i < j < |t| && t[i].Live() && t[j].Live() :: t[i].Key() != t[j].Key()
  }

  predicate GoodSlot(e: Entry) {
    !e.fixed ==> if e.Live() then 2 <= e.rank <= 254 && 1 <= e.score <= DEFAULT_SCORE else e.rank <= 1
  }

  ghost predicate Inv(t: seq<Entry>) {
    HasSpare(t) && UniqueKeys(t) && forall i | 0 <= i < |t| :: GoodSlot(t[i])
  }

  /** The finite map that the table stands for: the route, if any, to a destination. */
  ghost function Route(t: seq<Entry>, dst: Word, multicast: Byte): (r: Option<Word>) {
    if dst == UNKNOWN then None
    else
      match Find(t, dst, multicast)
      case Some(i) => Some(t[i].nextHop)
      case None => None
  }

  /** The map after a slot changed: the route of the new content is set, that of the old content
      is gone, every other one is as before. */
  ghost predicate RoutesChange(t: seq<Entry>, u: seq<Entry>, gone: Entry, e: Entry) {
    forall dst: Word, multicast: Byte :: Route(u, dst, multicast) ==
      if e.Live() && (dst, multicast) == e.Key() then Some(e.nextHop)
      else if gone.Live() && (dst, multicast) == gone.Key() then None
      else Route(t, dst, multicast)
  }

  ghost predicate SameRoutes(t: seq<Entry>, u: seq<Entry>) {
    forall dst: Word, multicast: Byte :: Route(u, dst, multicast) == Route(t, dst, multicast)
  }

  /** The route of `dst` is gone, and no other one. */
  ghost predicate RouteDropped(t: seq<Entry>, u: seq<Entry>, dst: Word, multicast: Byte) {
    forall d: Word, m: Byte :: Route(u, d, m) == if (d, m) == (dst, multicast) then None else Route(t, d, m)
  }

  lemma RouteOfSlot(t: seq<Entry>, i: nat)
    requires i < |t| && UniqueKeys(t) && t[i].Live()
    ensures Find(t, t[i].dst, t[i].multicast) == Some(i)
  {
    var found := Find(t, t[i].dst, t[i].multicast).value;
    assert found <= i && (found == i || t[found].Key() != t[i].Key());
  }

  lemma RoutesAfter(t: seq<Entry>, i: nat, e: Entry)
    requires i < |t| && UniqueKeys(t)
    requires e.Live() ==> forall k | 0 <= k < |t| && k != i && t[k].Live() :: t[k].Key() != e.Key()
    ensures UniqueKeys(t[i := e]) && RoutesChange(t, t[i := e], t[i], e)
  {
    var u := t[i := e];
    forall dst: Word, multicast: Byte
      ensures Route(u, dst, multicast) ==
        if e.Live() && (dst, multicast) == e.Key() then Some(e.nextHop)
        else if t[i].Live() && (dst, multicast) == t[i].Key() then None
        else Route(t, dst, multicast)
    {
      RouteAfter(t, i, e, dst, multicast);
    }
  }

  lemma RouteAfter(t: seq<Entry>, i: nat, e: Entry, dst: Word, multicast: Byte)
    requires i < |t| && UniqueKeys(t) && UniqueKeys(t[i := e])
    ensures Route(t[i := e], dst, multicast) ==
      if e.Live() && (dst, multicast) == e.Key() then Some(e.nextHop)
      else if t[i].Live() && (dst, multicast) == t[i].Key() then None
      else Route(t, dst, multicast)
  {
    var u := t[i := e];
    if t[i].Live() { RouteOfSlot(t, i); }
    if e.Live() { RouteOfSlot(u, i); }
    if dst != UNKNOWN {
      var before, after := Find(t, dst, multicast), Find(u, dst, multicast);
      if before.Some? && before.value != i {
        assert u[before.value] == t[before.value];
        RouteOfSlot(u, before.value);
      }
      if after.Some? && after.value != i {
        assert u[after.value] == t[after.value];
        RouteOfSlot(t, after.value);
      }
    }
  }

  /** A lookup in the table is a lookup in the map. */
  lemma NextHopIsLookup(t: seq<Entry>, dst: Word, multicast: Byte)
    requires dst != UNKNOWN
    ensures NextHop(t, dst, multicast)
         == match Route(t, dst, multicast) case Some(hop) => hop case None => UNKNOWN
  {}

  /** A new entry never takes a live route while a slot is free; otherwise it takes a route of
      least rank; it never takes a fixed one. */
  lemma EvictionIsFair(t: seq<Entry>)
    requires Inv(t)
    ensures var v := NewEntry(t).1;
            && !t[v].fixed
            && ((exists k | 0 <= k < |t| :: t[k].Free()) <==> t[v].Free())
            && forall k | 0 <= k < |t| && !t[k].fixed :: t[v].rank <= t[k].rank
  {
    var v := NewEntry(t).1;
    if k :| 0 <= k < |t| && t[k].Free() {
      assert GoodSlot(t[k]) && GoodSlot(t[v]);
    }
  }

  /** Learning from a received frame. A known source keeps its route, or gets the new hop, with three
      attempts, when it is better or answers a discovery; an unknown source gets a route, at the cost of
      the evicted one, if any. No other route is touched. */
  lemma FrameReceivedRefines(t: seq<Entry>, addr: Word, h: Heard)
    requires Inv(t) && h.nwkSrc != UNKNOWN
    ensures Inv(FrameReceived(t, addr, h))
    ensures !Usable(h) ==> FrameReceived(t, addr, h) == t
    ensures Usable(h) && Route(t, h.nwkSrc, 0).Some? ==>
      var after, found := FrameReceived(t, addr, h), Find(t, h.nwkSrc, 0).value;
      && RoutesChange(t, after, t[found], after[found])
      && after[found].Key() == t[found].Key() == (h.nwkSrc, 0)
      && after[found].nextHop == (if h.lqi > t[found].lqi || (h.macDst == BROADCAST && h.nwkDst == addr) then h.macSrc
                                  else t[found].nextHop)
      && after[found].lqi == h.lqi && after[found].rank == t[found].rank
      && after[found].score ==
         (if (h.lqi > t[found].lqi && t[found].nextHop != h.macSrc) || (h.macDst == BROADCAST && h.nwkDst == addr)
          then 3 else t[found].score)
    ensures Usable(h) && Route(t, h.nwkSrc, 0).None? ==>
      var after, victim := FrameReceived(t, addr, h), t[NewEntry(t).1];
      && RoutesChange(t, after, victim, after[NewEntry(t).1])
      && after[NewEntry(t).1] == Entry(false, 0, 3, h.nwkSrc, h.macSrc, 128, h.lqi)
      && Route(after, h.nwkSrc, 0) == Some(h.macSrc)
  {
    if Usable(h) {
      var after := FrameReceived(t, addr, h);
      var found := Find(t, h.nwkSrc, 0);
      var i := if found.Some? then found.value else NewEntry(t).1;
      if found.Some? {
        assert t[i].Live() && GoodSlot(t[i]);
      }
      assert after == t[i := after[i]] && after[i].Key() == (h.nwkSrc, 0);
      RoutesAfter(t, i, after[i]);
      SlotKept(t, i, after[i]);
    }
  }

  lemma SlotKept(t: seq<Entry>, i: nat, e: Entry)
    requires Inv(t) && i < |t| && UniqueKeys(t[i := e]) && GoodSlot(e) && e.fixed == t[i].fixed
    ensures Inv(t[i := e])
  {
    KeepsSpare(t, i, e);
  }

  /** Frames that claim the source 0xffff: the invariant survives exactly when the frame is
      ignored or an unused slot with that pattern is found. */
  lemma UnknownSource(t: seq<Entry>, addr: Word, h: Heard)
    requires Inv(t) && h.nwkSrc == UNKNOWN
    ensures Inv(FrameReceived(t, addr, h)) <==> (!Usable(h) || Find(t, UNKNOWN, 0).Some?)
  {
    var after := FrameReceived(t, addr, h);
    if Usable(h) {
      var found := Find(t, UNKNOWN, 0);
      if found.Some? {
        assert after == t[found.value := after[found.value]];
        assert GoodSlot(t[found.value]);
        RoutesAfter(t, found.value, after[found.value]);
        SlotKept(t, found.value, after[found.value]);
      } else {
        var v := NewEntry(t).1;
        assert !GoodSlot(after[v]);
      }
    }
  }

  /** The table after link-local broadcasts of the neighbours 1, 2, ..., `n`. */
  function Filled(n: nat): (t: seq<Entry>)
    requires n <= TABLE_SIZE
    ensures |t| == TABLE_SIZE
    ensures forall i | 0 <= i < |t| :: t[i] == if i < n then Entry(false, 0, DEFAULT_SCORE, i + 1, i + 1, 128, 1)
                                               else Entry(false, 0, 0, UNKNOWN, 0, 0, 0)
    ensures HasSpare(t)
  {
    var t := seq(TABLE_SIZE, i requires 0 <= i < TABLE_SIZE =>
      if i < n then Entry(false, 0, DEFAULT_SCORE, i + 1, i + 1, 128, 1) else Entry(false, 0, 0, UNKNOWN, 0, 0, 0));
    assert !t[0].fixed;
    t
  }

  /** What routing reads from such a broadcast of `src`. */
  function HeardFrom(src: Word): Heard {
    Heard(0, BROADCAST, src, src, BROADCAST, 1)
  }

  lemma {:induction false} VictimIs(t: seq<Entry>, i: nat, best: Option<nat>, v: nat)
    requires i <= v < |t| && !t[v].fixed && t[v].rank == 0
    requires forall k | 0 <= k < v :: !t[k].fixed && t[k].rank > 0
    requires best.Some? ==> LeastRank(t, i, best.value)
    requires best.None? ==> i == 0
    ensures Victim(t, i, best) == Some(v)
    decreases v - i
  {
    if i < v {
      VictimIs(t, i + 1, if best.None? || t[i].rank < t[best.value].rank then Some(i) else best, v);
    }
  }

  lemma NextFilled(n: nat, addr: Word)
    requires n < TABLE_SIZE && addr != BROADCAST
    ensures FrameReceived(Filled(n), addr, HeardFrom(n + 1)) == Filled(n + 1)
  {
    var t := Filled(n);
    VictimIs(t, 0, None, n);
    assert Find(t, n + 1, 0).None?;
  }

  lemma FilledIsGood(n: nat)
    requires n <= TABLE_SIZE
    ensures Inv(Filled(n))
  {}

  /** A full table does break: one more broadcast that claims the source 0xffff is enough. */
  lemma UnknownSourceBreaks(addr: Word)
    ensures Inv(Filled(TABLE_SIZE)) && !Inv(FrameReceived(Filled(TABLE_SIZE), addr, HeardFrom(UNKNOWN)))
  {
    FilledIsGood(TABLE_SIZE);
    UnknownSource(Filled(TABLE_SIZE), addr, HeardFrom(UNKNOWN));
  }

  /** Removing a route removes one key of the map, unless the route is fixed. */
  lemma RemoveRefines(t: seq<Entry>, dst: Word, multicast: Byte)
    requires Inv(t)
    ensures var after, found := Remove(t, dst, multicast), Find(t, dst, multicast);
            && Inv(after)
            && (found.Some? && t[found.value].fixed ==> after == t)
            && (!(found.Some? && t[found.value].fixed) ==> RouteDropped(t, after, dst, multicast))
            && (found.Some? && !t[found.value].fixed ==>
                  after == t[found.value := t[found.value].(dst := 0xffff, rank := 0)])
  {
    var found := Find(t, dst, multicast);
    if found.Some? && !t[found.value].fixed {
      var i := found.value;
      RoutesAfter(t, i, t[i].(dst := UNKNOWN, rank := 0));
      SlotKept(t, i, t[i].(dst := UNKNOWN, rank := 0));
    }
  }

  /** The aging step of the ranks: it keeps every route, and brings all ranks to the half of the scale, in
      their order. */
  lemma NormalizeKeeps(t: seq<Entry>)
    requires HasSpare(t) && UniqueKeys(t)
    requires forall i | 0 <= i < |t| ::
      GoodSlot(t[i]) || (t[i].Live() && 1 <= t[i].score <= DEFAULT_SCORE && t[i].rank == MAX_RANK)
    ensures Inv(NormalizeRanks(t)) && SameRoutes(t, NormalizeRanks(t))
    ensures forall i, j | 0 <= i < |t| && 0 <= j < |t| && t[i].rank <= t[j].rank ::
              NormalizeRanks(t)[i].rank <= NormalizeRanks(t)[j].rank
    ensures forall i | 0 <= i < |t| :: t[i].rank < 2 * NormalizeRanks(t)[i].rank <= t[i].rank + 2
  {
    var n := NormalizeRanks(t);
    forall dst: Word, multicast: Byte ensures Route(n, dst, multicast) == Route(t, dst, multicast) {
      SameFind(t, n, dst, multicast, 0);
    }
  }

  lemma {:induction false} SameFind(t: seq<Entry>, u: seq<Entry>, dst: Word, multicast: Byte, i: nat)
    requires i <= |t| == |u|
    requires forall k | 0 <= k < |t| :: u[k].dst == t[k].dst && u[k].multicast == t[k].multicast
    ensures Find(u, dst, multicast, i) == Find(t, dst, multicast, i)
    decreases |t| - i
  {
    if i < |t| { SameFind(t, u, dst, multicast, i + 1); }
  }

  /** Reporting a transmission. Success changes no route; a failure drops the route exactly when
      its score was down to 1. Ranks stay below the maximum through every normalization. */
  lemma FrameSentRefines(t: seq<Entry>, dst: Word, multicast: Byte, success: bool)
    requires Inv(t)
    ensures var after, found := FrameSent(t, dst, multicast, success), Find(t, dst, multicast);
            && Inv(after)
            && if !success && dst != BROADCAST && found.Some? && !t[found.value].fixed && t[found.value].score == 1
               then RouteDropped(t, after, dst, multicast) else SameRoutes(t, after)
  {
    var found := Find(t, dst, multicast);
    if dst != BROADCAST && found.Some? && !t[found.value].fixed {
      var i := found.value;
      assert GoodSlot(t[i]) && t[i].Live();
      RouteOfSlot(t, i);
      if success {
        Succeeded(t, i);
      } else {
        Failed(t, i);
      }
    }
  }

  /** A slot rewritten with the same key and next hop. */
  lemma Retouch(t: seq<Entry>, i: nat, e: Entry)
    requires UniqueKeys(t) && i < |t| && t[i].Live() && e.Key() == t[i].Key() && e.nextHop == t[i].nextHop
    ensures UniqueKeys(t[i := e]) && SameRoutes(t, t[i := e])
  {
    RoutesAfter(t, i, e);
    RouteOfSlot(t, i);
  }

  lemma Vacate(t: seq<Entry>, i: nat, gone: Entry)
    requires UniqueKeys(t) && i < |t| && t[i].Live() && !gone.Live()
    ensures UniqueKeys(t[i := gone]) && RouteDropped(t, t[i := gone], t[i].dst, t[i].multicast)
  {
    RoutesAfter(t, i, gone);
  }

  lemma Succeeded(t: seq<Entry>, i: nat)
    requires Inv(t) && i < |t| && !t[i].fixed && t[i].Live()
    ensures Inv(Succeed(t, i)) && SameRoutes(t, Succeed(t, i))
  {
    assert GoodSlot(t[i]);
    var e := t[i].(score := DEFAULT_SCORE, rank := ToByte(t[i].rank + 1));
    Retouch(t, i, e);
    KeepsSpare(t, i, e);
    if e.rank == MAX_RANK {
      NormalizeKeeps(t[i := e]);
    } else {
      SlotKept(t, i, e);
    }
  }

  lemma Failed(t: seq<Entry>, i: nat)
    requires Inv(t) && i < |t| && !t[i].fixed && t[i].Live()
    ensures Inv(Fail(t, i))
    ensures if t[i].score == 1 then RouteDropped(t, Fail(t, i), t[i].dst, t[i].multicast)
            else SameRoutes(t, Fail(t, i))
  {
    assert GoodSlot(t[i]);
    var e := t[i].(score := (t[i].score - 1) % 0x10);
    if e.score == 0 {
      var gone := e.(dst := UNKNOWN, rank := 0);
      Vacate(t, i, gone);
      SlotKept(t, i, gone);
      assert t[i := e][i := gone] == t[i := gone];
    } else {
      Retouch(t, i, e);
      SlotKept(t, i, e);
    }
  }

  /** `k` failed transmissions in a row. */
  function Failures(t: seq<Entry>, dst: Word, multicast: Byte, k: nat): (r: seq<Entry>)
    ensures |r| == |t|
  {
    if k == 0 then t else FrameSent(Failures(t, dst, multicast, k - 1), dst, multicast, false)
  }

  /** The table after these reports, in their order, about frames to one destination. */
  function Reported(t: seq<Entry>, dst: Word, multicast: Byte, reports: seq<bool>): (r: seq<Entry>)
    ensures |r| == |t|
  {
    if reports == [] then t
    else
      var n := |reports| - 1;
      FrameSent(Reported(t, dst, multicast, reports[..n]), dst, multicast, reports[n])
  }

  /** How many of the last reports were failures, without a success in between. */
  function Streak(reports: seq<bool>): nat {
    if reports == [] || reports[|reports| - 1] then 0 else Streak(reports[..|reports| - 1]) + 1
  }

  predicate ThirdAt(reports: seq<bool>, k: nat)
    requires k <= |reports|
  {
    Streak(reports[..k]) >= 3
  }

  /** Three failures in a row have been reported at some time. */
  predicate ThreeInARow(reports: seq<bool>) {
    exists k | 0 <= k <= |reports| :: ThirdAt(reports, k)
  }

  lemma ThreeInARowGrows(reports: seq<bool>)
    requires reports != []
    ensures ThreeInARow(reports) <==> ThreeInARow(reports[..|reports| - 1]) || Streak(reports) >= 3
  {
    hide Streak;
    var n := |reports| - 1;
    var shorter := reports[..n];
    forall k | 0 <= k <= n ensures ThirdAt(reports, k) <==> ThirdAt(shorter, k) { assert shorter[..k] == reports[..k]; }
    assert reports[..n + 1] == reports;
    assert ThirdAt(reports, n + 1) <==> Streak(reports) >= 3;
    hide ThirdAt;
  }

  /** The entry of this key is in use, is not fixed, and has stood this many failures. */
  predicate Patient(t: seq<Entry>, dst: Word, multicast: Byte, hop: Word, misses: nat) {
    var found := Find(t, dst, multicast);
    && found.Some? && !t[found.value].fixed && t[found.value].nextHop == hop
    && t[found.value].score + misses == 3
  }

  /** Where reports about one key lead from a patient entry: it goes on, with its failures in a row counted,
      until there are three, and then it is gone. No other route is touched. */
  lemma {:induction false} ReportsCount(t: seq<Entry>, dst: Word, multicast: Byte, hop: Word, reports: seq<bool>)
    requires Inv(t) && dst != BROADCAST && Patient(t, dst, multicast, hop, 0)
    ensures var u := Reported(t, dst, multicast, reports);
            && Inv(u)
            && (if ThreeInARow(reports) then Find(u, dst, multicast).None?
                else Streak(reports) < 3 && Patient(u, dst, multicast, hop, Streak(reports)))
            && forall d: Word, m: Byte | (d, m) != (dst, multicast) :: Route(u, d, m) == Route(t, d, m)
  {
    hide Inv, Route, Find, FrameSent;
    if reports == [] {
      assert !ThreeInARow(reports) by { assert forall k | 0 <= k <= 0 :: !ThirdAt(reports, k); }
    } else {
      var n := |reports| - 1;
      ReportsCount(t, dst, multicast, hop, reports[..n]);
      ThreeInARowGrows(reports);
      assert reports[..|reports|] == reports;
      hide ThreeInARow;
      var u := Reported(t, dst, multicast, reports[..n]);
      if ThreeInARow(reports[..n]) {
        GoneStaysGone(u, dst, multicast, reports[n]);
      } else {
        OneReport(u, dst, multicast, hop, Streak(reports[..n]), reports[n]);
      }
    }
  }

  lemma GoneStaysGone(t: seq<Entry>, dst: Word, multicast: Byte, success: bool)
    requires Find(t, dst, multicast).None?
    ensures FrameSent(t, dst, multicast, success) == t
  {}

  lemma OneReport(t: seq<Entry>, dst: Word, multicast: Byte, hop: Word, misses: nat, success: bool)
    requires Inv(t) && dst != BROADCAST && misses < 3 && Patient(t, dst, multicast, hop, misses)
    ensures var u := FrameSent(t, dst, multicast, success);
            && Inv(u)
            && (if success then Patient(u, dst, multicast, hop, 0)
                else if misses == 2 then Find(u, dst, multicast).None?
                else Patient(u, dst, multicast, hop, misses + 1))
            && forall d: Word, m: Byte | (d, m) != (dst, multicast) :: Route(u, d, m) == Route(t, d, m)
  {
    FrameSentRefines(t, dst, multicast, success);
    var i := Find(t, dst, multicast).value;
    assert GoodSlot(t[i]) && t[i].Live();
    if success {
      SuccessSlot(t, dst, multicast);
    } else if misses == 2 {
      var u := FrameSent(t, dst, multicast, false);
      assert Route(u, dst, multicast).None?;
    } else {
      SameSlot(t, dst, multicast);
    }
  }

  /** A success restores the entry's patience and raises its rank by one, which normalizes all ranks when it
      gets to the top; the slots stay where they are. */
  lemma SuccessSlot(t: seq<Entry>, dst: Word, multicast: Byte)
    requires Inv(t) && dst != BROADCAST
    requires var found := Find(t, dst, multicast); found.Some? && !t[found.value].fixed
    ensures var u, found := FrameSent(t, dst, multicast, true), Find(t, dst, multicast);
            var i := found.value;
            && Find(u, dst, multicast) == found && !u[i].fixed && u[i].nextHop == t[i].nextHop && u[i].score == 3
            && (t[i].rank < 254 ==> u[i].rank == t[i].rank + 1 && forall k | 0 <= k < |t| && k != i :: u[k] == t[k])
            && (t[i].rank == 254 ==>
                  u[i].rank == 128 && forall k | 0 <= k < |t| && k != i :: u[k] == t[k].(rank := t[k].rank / 2 + 1))
  {
    var i := Find(t, dst, multicast).value;
    assert GoodSlot(t[i]) && t[i].Live();
    var u := FrameSent(t, dst, multicast, true);
    assert u == Succeed(t, i);
    hide FrameSent, Inv, GoodSlot;
    SucceededSlot(t, i);
    SameFind(t, u, dst, multicast, 0);
  }

  lemma SucceededSlot(t: seq<Entry>, i: nat)
    requires i < |t| && 2 <= t[i].rank <= 254
    ensures var u := Succeed(t, i);
            && (forall k | 0 <= k < |t| :: u[k].Key() == t[k].Key())
            && u[i].fixed == t[i].fixed && u[i].nextHop == t[i].nextHop && u[i].score == 3
            && (t[i].rank < 254 ==> u[i].rank == t[i].rank + 1 && forall k | 0 <= k < |t| && k != i :: u[k] == t[k])
            && (t[i].rank == 254 ==>
                  u[i].rank == 128 && forall k | 0 <= k < |t| && k != i :: u[k] == t[k].(rank := t[k].rank / 2 + 1))
  {}

  /** A route that served is preferred to those that it was level with, unless the ranks were brought down. */
  lemma SuccessIsPreferred(t: seq<Entry>, dst: Word, multicast: Byte, k: nat)
    requires Inv(t) && dst != BROADCAST && k < |t|
    requires var found := Find(t, dst, multicast); found.Some? && !t[found.value].fixed && found.value != k
    ensures var u, i := FrameSent(t, dst, multicast, true), Find(t, dst, multicast).value;
            t[i].rank < 254 && t[k].rank <= t[i].rank ==> u[k].rank < u[i].rank
  {
    SuccessSlot(t, dst, multicast);
  }

  /** A route is fresh when its source was unknown, or when it got its hop just now. */
  predicate Fresh(t: seq<Entry>, addr: Word, h: Heard) {
    && Usable(h) && h.nwkSrc != UNKNOWN
    && var found := Find(t, h.nwkSrc, 0);
       found.Some? ==>
         && !t[found.value].fixed
         && ((t[found.value].nextHop != h.macSrc && h.lqi > t[found.value].lqi)
             || (h.macDst == BROADCAST && h.nwkDst == addr))
  }

  lemma FreshIsPatient(t: seq<Entry>, addr: Word, h: Heard)
    requires Inv(t) && Fresh(t, addr, h)
    ensures Inv(FrameReceived(t, addr, h)) && Patient(FrameReceived(t, addr, h), h.nwkSrc, 0, h.macSrc, 0)
  {
    FrameReceivedRefines(t, addr, h);
    var u, found := FrameReceived(t, addr, h), Find(t, h.nwkSrc, 0);
    var i := if found.Some? then found.value else NewEntry(t).1;
    assert u[i].Key() == (h.nwkSrc, 0) && u[i].Live();
    RouteOfSlot(u, i);
  }

  /** Three failures in a row: over every sequence of reports about a fresh route, it is dropped exactly at the
      first report that is the third failure since the last success, and no other route is touched. */
  lemma DroppedByThreeInARow(t: seq<Entry>, addr: Word, h: Heard, reports: seq<bool>)
    requires Inv(t) && Fresh(t, addr, h)
    ensures var fresh' := FrameReceived(t, addr, h);
            var u := Reported(fresh', h.nwkSrc, 0, reports);
            && Inv(u)
            && Route(u, h.nwkSrc, 0) == (if ThreeInARow(reports) then None else Some(h.macSrc))
            && forall d: Word, m: Byte | (d, m) != (h.nwkSrc, 0) :: Route(u, d, m) == Route(fresh', d, m)
  {
    FreshIsPatient(t, addr, h);
    ReportsCount(FrameReceived(t, addr, h), h.nwkSrc, 0, h.macSrc, reports);
  }

  /** A route that has just been learned or confirmed survives two failures in a row and is
      dropped by the third, and no other route is touched. */
  lemma ThirdFailureDrops(t: seq<Entry>, dst: Word, multicast: Byte)
    requires Inv(t) && dst != BROADCAST
    requires var found := Find(t, dst, multicast);
             found.Some? && !t[found.value].fixed && t[found.value].score == DEFAULT_SCORE
    ensures Inv(Failures(t, dst, multicast, 2)) && SameRoutes(t, Failures(t, dst, multicast, 2))
    ensures Inv(Failures(t, dst, multicast, 3))
    ensures RouteDropped(t, Failures(t, dst, multicast, 3), dst, multicast)
  {
    var t1 := Failures(t, dst, multicast, 1);
    assert Failures(t, dst, multicast, 0) == t;
    assert t1 == FrameSent(t, dst, multicast, false);
    FrameSentRefines(t, dst, multicast, false);
    SameSlot(t, dst, multicast);
    var t2 := FrameSent(t1, dst, multicast, false);
    assert Failures(t, dst, multicast, 2) == t2;
    FrameSentRefines(t1, dst, multicast, false);
    SameSlot(t1, dst, multicast);
    assert Failures(t, dst, multicast, 3) == FrameSent(t2, dst, multicast, false);
    FrameSentRefines(t2, dst, multicast, false);
  }

  lemma SameSlot(t: seq<Entry>, dst: Word, multicast: Byte)
    requires Inv(t) && dst != BROADCAST
    requires var found := Find(t, dst, multicast);
             found.Some? && !t[found.value].fixed && t[found.value].score > 1
    ensures var after, found := FrameSent(t, dst, multicast, false), Find(t, dst, multicast);
            && Find(after, dst, multicast) == found
            && after[found.value] == t[found.value].(score := t[found.value].score - 1)
  {
    var i := Find(t, dst, multicast).value;
    assert GoodSlot(t[i]) && t[i].Live();
    var after := FrameSent(t, dst, multicast, false);
    assert after == t[i := t[i].(score := t[i].score - 1)];
    var j := Find(after, dst, multicast);
    assert after[i].Key() == (dst, multicast);
  }

  // ----- the table in memory -----

  class Table {
    const entries: array<Entry>

    constructor ()
      ensures fresh(entries) && entries[..] == EmptyTable() && Inv(entries[..])
      ensures forall dst: Word, multicast: Byte :: Route(entries[..], dst, multicast).None?
    {
      entries := new Entry[TABLE_SIZE](_ => Entry(false, 0, 0, UNKNOWN, 0, 0, 0));
      new;
      assert entries[..] == EmptyTable();
      assert !entries[..][0].fixed;
    }

    method FindEntry(dst: Word, multicast: Byte) returns (r: Option<nat>)
      ensures r == Find(entries[..], dst, multicast)
    {
      for i := 0 to entries.Length
        invariant Find(entries[..], dst, multicast) == Find(entries[..], dst, multicast, i)
      {
        if entries[i].dst == dst && entries[i].multicast == multicast {
          return Some(i);
        }
      }
      r := None;
    }

    method RouteNewEntry() returns (v: nat)
      requires HasSpare(entries[..])
      modifies entries
      ensures (entries[..], v) == NewEntry(old(entries[..]))
    {
      ghost var was := entries[..];
      var entry: Option<nat> := None;
      var i := 0;
      while i < entries.Length
        invariant 0 <= i <= entries.Length && entries[..] == was
        invariant entry.Some? ==> LeastRank(was, i, entry.value)
        invariant entry.None? ==> forall k | 0 <= k < i :: was[k].fixed
        invariant Victim(was) == Victim(was, i, entry)
      {
        if !entries[i].fixed {
          if entries[i].rank == 0 {
            entry := Some(i);
            break;
          }
          if entry.None? || entries[i].rank < entries[entry.value].rank {
            entry := Some(i);
          }
        }
        i := i + 1;
      }
      v := entry.value;
      entries[v] := entries[v].(multicast := 0, score := DEFAULT_SCORE, rank := DEFAULT_RANK);
    }

    method RouteFreeEntry(i: nat)
      requires i < entries.Length
      modifies entries
      ensures entries[..] == FreeEntry(old(entries[..]), i)
    {
      if !entries[i].fixed {
        entries[i] := entries[i].(dst := UNKNOWN, rank := 0);
      }
    }

    method RouteNextHop(dst: Word, multicast: Byte) returns (hop: Word)
      ensures hop == NextHop(entries[..], dst, multicast)
    {
      var found := FindEntry(dst, multicast);
      hop := if found.Some? then entries[found.value].nextHop else UNKNOWN;
    }

    method RouteRemove(dst: Word, multicast: Byte)
      modifies entries
      ensures entries[..] == Remove(old(entries[..]), dst, multicast)
    {
      var found := FindEntry(dst, multicast);
      if found.Some? {
        RouteFreeEntry(found.value);
      }
    }

    method RouteFrameReceived(addr: Word, h: Heard)
      requires HasSpare(entries[..])
      modifies entries
      ensures entries[..] == FrameReceived(old(entries[..]), addr, h)
    {
      if h.macSrc >= NON_ROUTING && h.macSrc != h.nwkSrc {
        return;
      }
      if h.macDstPan == 0xffff {
        return;
      }
      var found := FindEntry(h.nwkSrc, 0);
      if found.Some? {
        var i := found.value;
        var discovery := h.macDst == BROADCAST && h.nwkDst == addr;
        if (entries[i].nextHop != h.macSrc && h.lqi > entries[i].lqi) || discovery {
          entries[i] := entries[i].(nextHop := h.macSrc, score := DEFAULT_SCORE);
        }
        entries[i] := entries[i].(lqi := h.lqi);
      } else {
        var i := RouteNewEntry();
        entries[i] := entries[i].(dst := h.nwkSrc, nextHop := h.macSrc);
        entries[i] := entries[i].(lqi := h.lqi);
      }
    }

    method RouteFrameSent(dst: Word, multicast: Byte, success: bool)
      modifies entries
      ensures entries[..] == FrameSent(old(entries[..]), dst, multicast, success)
    {
      if dst == BROADCAST {
        return;
      }
      var found := FindEntry(dst, multicast);
      if found.None? || entries[found.value].fixed {
        return;
      }
      var i := found.value;
      if success {
        entries[i] := entries[i].(score := DEFAULT_SCORE, rank := ToByte(entries[i].rank + 1));
        if entries[i].rank == MAX_RANK {
          RouteNormalizeRanks();
        }
      } else {
        entries[i] := entries[i].(score := (entries[i].score - 1) % 0x10);
        if entries[i].score == 0 {
          RouteFreeEntry(i);
        }
      }
    }

    method RouteNormalizeRanks()
      modifies entries
      ensures entries[..] == NormalizeRanks(old(entries[..]))
    {
      ghost var was := entries[..];
      for i := 0 to entries.Length
        invariant entries[..i] == NormalizeRanks(was)[..i]
        invariant entries[i..] == was[i..]
      {
        assert entries[i] == was[i];
        entries[i] := entries[i].(rank := entries[i].rank / 2 + 1);
      }
    }
  }
}
