/** What one node of a route discovery does, in numbers: when it takes a request or a reply, what it records,
    what it sends on, and how long it remembers. */
module DiscoveryEffects {
  import opened Types
  import opened Discovery

  // ----- link quality -----

  /** The quality of two links in a row is the 8-bit fraction of their product: it does not depend on their
      order, and better links do not make it worse. */
  lemma LinkQuality(a: Byte, b: Byte, c: Byte)
    ensures UpdateLq(a, b) == UpdateLq(b, a)
    ensures UpdateLq(a, b) * 256 <= a * b < (UpdateLq(a, b) + 1) * 256
    ensures a <= c ==> UpdateLq(a, b) <= UpdateLq(c, b)
  {
    if a <= c { assert a * b <= c * b; }
  }

  // ----- requests -----

  /** The entry of a live discovery. */
  function EntryFor(t: seq<Entry>, k: Key): Entry
    requires Has(t, k)
  {
    t[Find(t, k).value]
  }

  predicate Full(t: seq<Entry>) {
    forall i | 0 <= i < |t| :: t[i].timeout > 0
  }

  lemma FullIs(t: seq<Entry>)
    ensures FreeSlot(t).None? <==> Full(t)
  {}

  /** A request is ignored at its source, at a node that does not route unless it is the destination, if its
      path is no better than the one that is known, and if there is no room for it. */
  lemma IgnoresRequest(addr: Word, t: seq<Entry>, sender: Word, req: Request, lqi: Byte)
    ensures var (k, lq) := (req.key, req.linkQuality * lqi / 256);
            Receive(addr, t, sender, req, lqi).1.Ignored? <==>
              || k.src == addr
              || (addr >= 0x8000 && !(k.multicast == 0 && k.dst == addr))
              || (Has(t, k) && lq <= EntryFor(t, k).forward)
              || (!Has(t, k) && Full(t))
  {
    FullIs(t);
    hide FreeSlot, Find;
  }

  /** Otherwise the entry names the sender and has the quality of the path. A new one lasts 1000 ms and knows
      of no reply; an old one keeps both. The destination answers the sender, others pass the request on. */
  lemma TakesRequest(addr: Word, t: seq<Entry>, sender: Word, req: Request, lqi: Byte)
    requires UniqueKeys(t) && !Receive(addr, t, sender, req, lqi).1.Ignored?
    ensures var (k, lq) := (req.key, req.linkQuality * lqi / 256);
            var (after, out) := Receive(addr, t, sender, req, lqi);
            && Has(after, k)
            && EntryFor(after, k) == Entry(k, sender, lq, if Has(t, k) then EntryFor(t, k).reverse else 0,
                                           if Has(t, k) then EntryFor(t, k).timeout else 1000)
            && out == (if k.multicast == 0 && k.dst == addr then Replied(k, sender, lq) else Forwarded(Request(k, lq)))
  {
    var (after, out) := Receive(addr, t, sender, req, lqi);
    var found := Find(t, req.key);
    var slot := if found.Some? then found.value else FreeSlot(t).value;
    SlotSet(t, slot, after[slot], req.key);
    assert after == t[slot := after[slot]];
  }

  /** A node starts a discovery unless it runs already or there is no room. Its entry names no sender, has no
      quality in either direction and lasts 1000 ms, and the request carries the best quality. */
  lemma Starts(addr: Word, t: seq<Entry>, dst: Word, multicast: Byte)
    requires UniqueKeys(t)
    ensures var k := Key(addr, dst, multicast);
            var (after, out) := Initiate(addr, t, dst, multicast);
            && (out.Ignored? <==> Has(t, k) || Full(t))
            && (!out.Ignored? ==>
                  && out == Forwarded(Request(k, 255))
                  && Has(after, k) && EntryFor(after, k) == Entry(k, 0xffff, 0, 0, 1000))
  {
    var k := Key(addr, dst, multicast);
    var (after, out) := Initiate(addr, t, dst, multicast);
    FullIs(t);
    if !out.Ignored? {
      var slot := FreeSlot(t).value;
      SlotSet(t, slot, after[slot], k);
    }
  }

  // ----- replies -----

  /** A reply counts if the discovery is known and it tells of a better path than the replies before. */
  lemma TakesReply(addr: Word, t: seq<Entry>, sender: Word, k: Key, forward: Byte, reverse: Byte, lqi: Byte)
    requires UniqueKeys(t)
    ensures var (after, out) := ReceiveReply(addr, t, sender, k, forward, reverse, lqi);
            && (out.NotBetter? <==> !Has(t, k) || forward <= EntryFor(t, k).reverse)
            && (out.NotBetter? ==> after == t)
            && (out.Installed? ==>
                  && UniqueKeys(after) && Has(after, k)
                  && EntryFor(after, k) == EntryFor(t, k).(reverse := forward))
  {
    var (after, out) := ReceiveReply(addr, t, sender, k, forward, reverse, lqi);
    if out.Installed? {
      var i := Find(t, k).value;
      SlotSet(t, i, after[i], k);
    }
  }

  /** The routes that it sets: at the source one to the destination, with the quality of the whole path;
      elsewhere one each way, and the reply goes on to the node that the request came from, with the quality
      of the path and that of the way back so far. */
  lemma SetsRoutes(addr: Word, t: seq<Entry>, sender: Word, k: Key, forward: Byte, reverse: Byte, lqi: Byte)
    requires Has(t, k) && EntryFor(t, k).reverse < forward
    ensures var out := ReceiveReply(addr, t, sender, k, forward, reverse, lqi).1;
            var e, back := EntryFor(t, k), reverse * lqi / 256;
            && out.Installed?
            && RouteUpdate(k.dst, k.multicast, sender, if k.src == addr then forward else back) in out.routes
            && (k.src == addr ==> |out.routes| == 1 && out.reply.None?)
            && (k.src != addr ==>
                  && |out.routes| == 2 && RouteUpdate(k.src, 0, e.sender, e.forward) in out.routes
                  && out.reply == Some(Reply(e.sender, k, forward, back)))
  {
    var routes := ReceiveReply(addr, t, sender, k, forward, reverse, lqi).1.routes;
    assert routes[0] in routes;
    if k.src != addr { assert routes[1] in routes; }
  }

  // ----- time -----

  function Later(t: seq<Entry>, n: nat): (r: seq<Entry>)
    ensures |r| == |t|
  {
    if n == 0 then t else Age(Later(t, n - 1))
  }

  lemma {:induction false} LaterIs(t: seq<Entry>, n: nat, i: nat)
    requires i < |t|
    ensures Later(t, n)[i] == t[i].(timeout := if t[i].timeout > 100 * n then t[i].timeout - 100 * n else 0)
  {
    if n > 0 { LaterIs(t, n - 1, i); }
  }

  /** An entry is remembered for as many firings of the timer as its 100 ms go into what it has left, and
      unchanged: a new one for ten. */
  lemma Remembers(t: seq<Entry>, k: Key, n: nat)
    requires UniqueKeys(t) && Has(t, k)
    ensures var e := EntryFor(t, k);
            && (Has(Later(t, n), k) <==> 100 * n < e.timeout)
            && (Has(Later(t, n), k) ==> EntryFor(Later(t, n), k) == e.(timeout := e.timeout - 100 * n))
            && (e.timeout == 1000 ==> (Has(Later(t, n), k) <==> n < 10))
  {
    var i, u := Find(t, k).value, Later(t, n);
    forall j | 0 <= j < |t|
      ensures u[j].key == t[j].key && u[j].timeout == if t[j].timeout > 100 * n then t[j].timeout - 100 * n else 0
    {
      LaterIs(t, n, j);
    }
    LaterIs(t, n, i);
    hide Later;
    if 100 * n < t[i].timeout {
      assert u[i].timeout > 0 && u[i].key == k;
      FoundAt(u, k, i);
    }
  }

  lemma FoundAt(t: seq<Entry>, k: Key, i: nat)
    requires i < |t| && t[i].timeout > 0 && t[i].key == k
    requires forall j | 0 <= j < |t| && j != i && t[j].timeout > 0 :: t[j].key != k
    ensures Find(t, k) == Some(i)
  {}

  /** The discoveries that a firing ends: those of the node itself that have at most 100 ms left, with success
      if a reply was taken. Slots that were never used or ended before are not told apart from them. */
  lemma {:induction false} EndsDiscoveries(addr: Word, t: seq<Entry>, k: Key, ok: bool)
    ensures (k, ok) in Done(addr, t) <==>
            exists i | 0 <= i < |t| :: t[i].key == k && k.src == addr && t[i].timeout <= 100 && ok == (t[i].reverse > 0)
  {
    if t != [] {
      var n := |t| - 1;
      EndsDiscoveries(addr, t[..n], k, ok);
      assert t[..n + 1] == t;
      DoneLonger(addr, t, n);
      if i :| 0 <= i < |t| && t[i].key == k && k.src == addr && t[i].timeout <= 100 && ok == (t[i].reverse > 0) {
        if i < n { assert t[..n][i] == t[i]; }
      }
    }
  }
}
