/** Parts of concrete runs of route discovery in networks of three nodes.

    Tables have two entries at most, in their first two slots, and the links are perfect. The lemmas say
    what becomes of such a table when its node starts a discovery or hears of one, and which requests are
    then on their way.
 */
module SmallNetworks {
  import opened Types
  import opened Discovery

  const FREE: Entry := Entry(Key(0, 0, 0), 0, 0, 0, 0)

  function Table(a: Entry, b: Entry): (t: seq<Entry>) {
    [a, b, FREE, FREE, FREE]
  }

  function Own(k: Key, reverse: Byte): Entry {
    Entry(k, BROADCAST, NO_LINK, reverse, TIMEOUT)
  }

  function Known(k: Key, sender: Word, forward: Byte, reverse: Byte): Entry {
    Entry(k, sender, forward, reverse, TIMEOUT)
  }

  lemma InTable(a: Entry, b: Entry, k: Key)
    ensures var t := Table(a, b);
            && FreeSlot(t) == Some(if a.timeout == 0 then 0 else if b.timeout == 0 then 1 else 2)
            && Find(t, k) == (if a.timeout > 0 && a.key == k then Some(0)
                              else if b.timeout > 0 && b.key == k then Some(1) else None)
  {
    var t := Table(a, b);
    assert FreeSlot(t, 2) == Some(2) && FreeSlot(t, 0) == if a.timeout == 0 then Some(0) else FreeSlot(t, 1);
    assert Find(t, k, 4) == Find(t, k, 5) == None;
    assert Find(t, k, 2) == Find(t, k, 3) == Find(t, k, 4);
    assert Find(t, k, 0) == if a.timeout > 0 && a.key == k then Some(0) else Find(t, k, 1);
  }

  lemma {:induction false} CopiesReach(nodes: seq<Word>, x: Word, req: Request, z: Word)
    requires z in nodes && z != x
    ensures Copy(z, x, req) in Copies(nodes, x, req)
  {
    if nodes[0] != z { CopiesReach(nodes[1..], x, req, z); }
  }

  /** Node `x` sends `req` after the step `s`. */
  predicate Sends(net: Net, s: NetStep, x: Word, t: seq<Entry>, req: Request) {
    && Enabled(net, s) && x in net.tables
    && match s
       case Start(z, dst, multicast, sent) =>
         x == z && sent && Initiate(z, net.tables[z], dst, multicast) == (t, Forwarded(req))
       case Deliver(c, lqi, sent) =>
         x == c.to && sent && Receive(c.to, net.tables[c.to], c.sender, c.request, lqi) == (t, Forwarded(req))
       case Lose(_) => false
  }

  lemma Sent(net: Net, s: NetStep, x: Word, t: seq<Entry>, req: Request)
    requires Sends(net, s, x, t, req)
    ensures var after := Step(net, s);
            && after.nodes == net.nodes && after.tables == net.tables[x := t]
            && (forall c | c in net.flight && (s.Deliver? ==> c != s.copy) :: c in after.flight)
            && (forall z | z in net.nodes && z != x :: Copy(z, x, req) in after.flight)
  {
    hide Receive, Initiate, Copies;
    forall z | z in net.nodes && z != x { CopiesReach(net.nodes, x, req, z); }
  }

  lemma StartsTable(x: Word, dst: Word)
    ensures Initiate(x, Table(FREE, FREE), dst, 0)
         == (Table(Own(Key(x, dst, 0), 0), FREE), Forwarded(Request(Key(x, dst, 0), 255)))
  {
    var k := Key(x, dst, 0);
    InTable(FREE, FREE, k);
    assert Table(FREE, FREE)[0 := Own(k, 0)] == Table(Own(k, 0), FREE);
    hide Find, FreeSlot, Table;
  }

  /** Node `x` hears of `k` for the first time, from `y` over a perfect link. */
  lemma HearsTable(x: Word, a: Entry, y: Word, k: Key, q: Byte)
    requires k.src != x && x < NON_ROUTING && q > 0 && (a.timeout == 0 || a.key != k)
    ensures Receive(x, Table(a, FREE), y, Request(k, q), 255)
         == (if a.timeout == 0 then Table(Known(k, y, q - 1, 0), FREE) else Table(a, Known(k, y, q - 1, 0)),
             if IsDestination(x, k) then Replied(k, y, q - 1) else Forwarded(Request(k, q - 1)))
  {
    var e := Known(k, y, q - 1, 0);
    InTable(a, FREE, k);
    assert Table(a, FREE)[0 := e] == Table(e, FREE) && Table(a, FREE)[1 := e] == Table(a, e);
    PerfectLink(q);
    hide Find, FreeSlot, Table, UpdateLq;
  }

  lemma PerfectLink(q: Byte)
    requires q > 0
    ensures UpdateLq(q, 255) == q - 1
  {
    assert (q as int) * 255 == 0x100 * (q as int - 1) + (0x100 - q as int);
  }
}
