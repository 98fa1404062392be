/** An entry that expires too early: the way to the source can form a loop.

    Node 2 hears of a discovery from node 1, and node 3 from node 2. The request that node 3 repeats is
    still on its way to node 2 when the entry of node 2 expires, so node 2 takes it for a new discovery
    and names node 3 as its sender.
 */
module ExpiryLoop {
  import opened Types
  import opened Discovery
  import opened DiscoveryExpiry
  import opened SmallNetworks

  /** Node 1 looks for a node that is not there. */
  const SOUGHT: Key := Key(1, 9, 0)

  lemma {:induction false} OneMore(net: Net, steps: seq<AgingStep>, s: AgingStep)
    requires Happens(net, steps) && Can(After(net, steps), s)
    ensures Happens(net, steps + [s]) && After(net, steps + [s]) == Next(After(net, steps), s)
    decreases |steps|
  {
    hide Can, Next;
    if steps == [] {
      assert [s][1..] == [] && steps + [s] == [s];
    } else {
      OneMore(Next(net, steps[0]), steps[1..], s);
      assert (steps + [s])[1..] == steps[1..] + [s];
    }
  }

  ghost predicate Reached(net: Net) {
    exists steps: seq<AgingStep> :: Happens(Idle([1, 2, 3]), steps) && After(Idle([1, 2, 3]), steps) == net
  }

  lemma ReachesNext(net: Net, s: AgingStep)
    requires Reached(net) && Can(net, s)
    ensures Reached(Next(net, s))
  {
    hide Can, Next, Idle, Happens, After;
    var steps: seq<AgingStep> :| Happens(Idle([1, 2, 3]), steps) && After(Idle([1, 2, 3]), steps) == net;
    OneMore(Idle([1, 2, 3]), steps, s);
  }

  predicate Holds(net: Net, x: Word, t: seq<Entry>) {
    x in net.tables && net.tables[x] == t
  }

  lemma Nothing()
    ensures Reached(Idle([1, 2, 3]))
    ensures forall x | x in [1, 2, 3] :: Holds(Idle([1, 2, 3]), x, Table(FREE, FREE))
  {
    var net := Idle([1, 2, 3]);
    assert Happens(net, []) && After(net, []) == net;
    assert seq(TABLE_SIZE, _ => FREE) == Table(FREE, FREE);
  }

  /** Node `x` sends `req` after the step `s`. */
  lemma Sending(net: Net, s: NetStep, x: Word, t: seq<Entry>, req: Request) returns (after: Net)
    requires Reached(net) && Sends(net, s, x, t, req)
    ensures Reached(after) && after.nodes == net.nodes && after.tables == net.tables[x := t]
    ensures forall c | c in net.flight && (s.Deliver? ==> c != s.copy) :: c in after.flight
    ensures forall z | z in net.nodes && z != x :: Copy(z, x, req) in after.flight
  {
    after := Next(net, Flood(s));
    ReachesNext(net, Flood(s));
    hide Reached, Sends, Step, Enabled;
    Sent(net, s, x, t, req);
  }

  lemma AgesTable(e: Entry)
    ensures Age(Table(e, FREE)) == Table(Aged(e), FREE)
  {
    var t := Table(e, FREE);
    assert Aged(FREE) == FREE;
    assert Age(t)[0] == Aged(t[0]) && Age(t)[1] == Aged(t[1]) && Age(t)[2] == Aged(t[2]) &&
           Age(t)[3] == Aged(t[3]) && Age(t)[4] == Aged(t[4]);
  }

  function Old(e: Entry, n: nat): Entry {
    e.(timeout := if 100 * n <= TIMEOUT then TIMEOUT - 100 * n else 0)
  }

  /** The timer of node 2 fires `n` times. */
  lemma {:induction false} Ticking(net: Net, e: Entry, n: nat) returns (after: Net)
    requires Reached(net) && Holds(net, 2, Table(e, FREE)) && e.timeout == TIMEOUT
    ensures Reached(after) && after == net.(tables := net.tables[2 := Table(Old(e, n), FREE)])
  {
    hide Table, Reached, Age;
    if n == 0 {
      after := net;
      assert net.tables[2 := Table(e, FREE)] == net.tables;
    } else {
      after := Ticking(net, e, n - 1);
      ReachesNext(after, Tick(2));
      AgesTable(Old(e, n - 1));
      assert Aged(Old(e, n - 1)) == Old(e, n);
      after := Next(after, Tick(2));
    }
  }

  /** Node 2 has heard of the discovery from node 1, and its request is on the way to node 3. */
  lemma Starting() returns (net: Net)
    ensures Reached(net) && net.nodes == [1, 2, 3]
    ensures Holds(net, 2, Table(Known(SOUGHT, 1, 254, 0), FREE)) && Holds(net, 3, Table(FREE, FREE))
    ensures Copy(3, 2, Request(SOUGHT, 254)) in net.flight
  {
    net := Idle([1, 2, 3]);
    Nothing();
    StartsTable(1, 9);
    HearsTable(2, FREE, 1, SOUGHT, 255);
    hide Reached, Idle, Table, Initiate, Receive, Own, Known;
    net := Sending(net, Start(1, 9, 0, true), 1, Table(Own(SOUGHT, 0), FREE), Request(SOUGHT, 255));
    net := Sending(net, Deliver(Copy(2, 1, Request(SOUGHT, 255)), 255, true), 2,
                   Table(Known(SOUGHT, 1, 254, 0), FREE), Request(SOUGHT, 254));
  }

  /** Node 3 has heard of the discovery from node 2, and its own request is on the way to node 2. */
  lemma Flooding() returns (net: Net)
    ensures Reached(net)
    ensures Holds(net, 2, Table(Known(SOUGHT, 1, 254, 0), FREE)) && Holds(net, 3, Table(Known(SOUGHT, 2, 253, 0), FREE))
    ensures Copy(2, 3, Request(SOUGHT, 253)) in net.flight
  {
    net := Starting();
    HearsTable(3, FREE, 2, SOUGHT, 254);
    hide Reached, Table, Receive, Known;
    net := Sending(net, Deliver(Copy(3, 2, Request(SOUGHT, 254)), 255, true), 3,
                   Table(Known(SOUGHT, 2, 253, 0), FREE), Request(SOUGHT, 253));
  }

  lemma HoldsFirst(net: Net, x: Word, e: Entry)
    requires Holds(net, x, Table(e, FREE)) && e.timeout > 0
    ensures Knows(net, x, e.key) && From(net, x, e.key) == e.sender
  {
    InTable(e, FREE, e.key);
    assert Table(e, FREE)[0] == e;
    hide Find;
  }

  /** Node 2 hears of the discovery anew, from node 3. */
  lemma HearingAnew(before: Net, expired: Entry) returns (net: Net)
    requires Reached(before) && expired.timeout == 0
    requires Holds(before, 2, Table(expired, FREE)) && Holds(before, 3, Table(Known(SOUGHT, 2, 253, 0), FREE))
    requires Copy(2, 3, Request(SOUGHT, 253)) in before.flight
    ensures Reached(net)
    ensures Holds(net, 2, Table(Known(SOUGHT, 3, 252, 0), FREE))
    ensures Holds(net, 3, Table(Known(SOUGHT, 2, 253, 0), FREE))
  {
    HearsTable(2, expired, 3, SOUGHT, 253);
    hide Reached, Table, Receive;
    net := Sending(before, Deliver(Copy(2, 3, Request(SOUGHT, 253)), 255, true), 2,
                   Table(Known(SOUGHT, 3, 252, 0), FREE), Request(SOUGHT, 252));
  }

  lemma TwoNodesLoop(net: Net)
    requires Holds(net, 2, Table(Known(SOUGHT, 3, 252, 0), FREE))
    requires Holds(net, 3, Table(Known(SOUGHT, 2, 253, 0), FREE))
    ensures Follows(net, SOUGHT, [2, 3, 2]) && !NoneTwice([2, 3, 2])
  {
    HoldsFirst(net, 2, Known(SOUGHT, 3, 252, 0));
    HoldsFirst(net, 3, Known(SOUGHT, 2, 253, 0));
    assert [2, 3, 2][0] == [2, 3, 2][2];
    hide Knows, From, Table, Holds;
  }

  /** The condition is needed: node 2's entry expires while the request of node 3, which heard of the
      discovery from node 2, is on its way to node 2. */
  lemma EarlyExpiryLoops() returns (net: Net)
    ensures Reached(net)
    ensures Follows(net, SOUGHT, [2, 3, 2]) && !NoneTwice([2, 3, 2])
  {
    var e := Known(SOUGHT, 1, 254, 0);
    assert Old(e, 10).timeout == 0;
    hide Reached, Table, Old, Follows, NoneTwice;
    net := Flooding();
    net := Ticking(net, e, 10);
    net := HearingAnew(net, Old(e, 10));
    TwoNodesLoop(net);
  }
}
