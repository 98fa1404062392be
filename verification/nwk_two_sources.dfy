/** Two sources that look for one destination at the same time: their routes can form a loop.

    The nodes 1 and 2 look for node 3. Each repeats the request of the other, and the destination hears
    these repeated requests first. It replies to both, so the reply for each source comes through the
    other one, and each source sets its route through the other one.
 */
module TwoSources {
  import opened Types
  import opened Discovery
  import opened DiscoveryReplies
  import opened SmallNetworks

  /** The nodes 1 and 2 look for node 3, and hear each other best. */
  const FIRST: Key := Key(1, 3, 0)
  const SECOND: Key := Key(2, 3, 0)

  lemma {:induction false} OneMore(w: World, steps: seq<WorldStep>, s: WorldStep)
    requires Happens(w, steps) && Possible(After(w, steps), s)
    ensures Happens(w, steps + [s]) && After(w, steps + [s]) == Next(After(w, steps), s)
    decreases |steps|
  {
    hide Possible, Next;
    if steps == [] {
      assert [s][1..] == [] && steps + [s] == [s];
    } else {
      OneMore(Next(w, steps[0]), steps[1..], s);
      assert (steps + [s])[1..] == steps[1..] + [s];
    }
  }

  ghost predicate Reached(w: World) {
    exists steps: seq<WorldStep> :: Happens(Quiet([1, 2, 3]), steps) && After(Quiet([1, 2, 3]), steps) == w
  }

  lemma ReachesNext(w: World, s: WorldStep)
    requires Reached(w) && Possible(w, s)
    ensures Reached(Next(w, s))
  {
    hide Possible, Next, Quiet, Happens, After;
    var steps: seq<WorldStep> :| Happens(Quiet([1, 2, 3]), steps) && After(Quiet([1, 2, 3]), steps) == w;
    OneMore(Quiet([1, 2, 3]), steps, s);
  }

  /** Node `x` sends `req` after the step `s`. */
  lemma Sending(w: World, s: NetStep, x: Word, t: seq<Entry>, req: Request) returns (v: World)
    requires Reached(w) && Sends(w.net, s, x, t, req)
    ensures Reached(v) && v.net.nodes == w.net.nodes && v.net.tables == w.net.tables[x := t]
    ensures forall c | c in w.net.flight && (s.Deliver? ==> c != s.copy) :: c in v.net.flight
    ensures forall z | z in w.net.nodes && z != x :: Copy(z, x, req) in v.net.flight
  {
    v := Next(w, Ask(s, false));
    ReachesNext(w, Ask(s, false));
    hide Reached, Sends, Step, Enabled, OutcomeOf;
    Sent(w.net, s, x, t, req);
    SentOnly(w, s, x, t, req);
  }

  lemma SentOnly(w: World, s: NetStep, x: Word, t: seq<Entry>, req: Request)
    requires Sends(w.net, s, x, t, req)
    ensures Next(w, Ask(s, false)) == w.(net := Step(w.net, s))
  {}

  lemma Answering(w: World, c: Copy, t: seq<Entry>, k: Key, forward: Byte) returns (v: World)
    requires Reached(w) && Enabled(w.net, Deliver(c, 255, true))
    requires Receive(c.to, w.net.tables[c.to], c.sender, c.request, 255) == (t, Replied(k, c.sender, forward))
    ensures Reached(v) && v.net.tables == w.net.tables[c.to := t]
    ensures v.answers == w.answers + multiset{Answer(c.to, Reply(c.sender, k, forward, 255))}
    ensures v.net.flight == w.net.flight - multiset{c}
  {
    v := Next(w, Ask(Deliver(c, 255, true), true));
    ReachesNext(w, Ask(Deliver(c, 255, true), true));
    hide Receive, Reached;
  }

  lemma PassesTable(x: Word, y: Word)
    requires x != y
    ensures var own, k := Own(Key(y, 3, 0), 0), Key(x, 3, 0);
            ReceiveReply(y, Table(own, Known(k, x, 254, 0)), 3, k, 253, 255, 255)
            == (Table(own, Known(k, x, 254, 253)),
                Installed([RouteUpdate(3, 0, 3, 254), RouteUpdate(x, 0, x, 254)], Some(Reply(x, k, 253, 254))))
  {
    var own, k := Own(Key(y, 3, 0), 0), Key(x, 3, 0);
    var e := Known(k, x, 254, 0);
    InTable(own, e, k);
    assert Table(own, e)[1] == e && Table(own, e)[1 := Known(k, x, 254, 253)] == Table(own, Known(k, x, 254, 253));
    assert UpdateLq(255, 255) == 254;
    hide Find, FreeSlot, Table, UpdateLq;
  }

  lemma EndsTable(x: Word, y: Word, e: Entry)
    ensures var k := Key(x, 3, 0);
            ReceiveReply(x, Table(Own(k, 0), e), y, k, 253, 254, 255)
            == (Table(Own(k, 253), e), Installed([RouteUpdate(3, 0, y, 253)], None))
  {
    var k := Key(x, 3, 0);
    InTable(Own(k, 0), e, k);
    assert Table(Own(k, 0), e)[0] == Own(k, 0) && Table(Own(k, 0), e)[0 := Own(k, 253)] == Table(Own(k, 253), e);
    hide Find, FreeSlot, Table, UpdateLq;
  }

  lemma Hearing(w: World, a: Answer, t: seq<Entry>, routes: seq<RouteUpdate>, reply: Option<Reply>)
    returns (v: World)
    requires Reached(w) && a in w.answers && a.reply.to in w.net.tables && 1 <= |routes| <= 2
    requires Judgement(w, a, 255) == (t, Installed(routes, reply))
    ensures Reached(v) && v.net.tables == w.net.tables[a.reply.to := t]
    ensures v.hops == if |routes| == 1 then Route(w.hops, a.reply.to, routes[0])
                      else Route(Route(w.hops, a.reply.to, routes[0]), a.reply.to, routes[1])
    ensures forall b | b in w.answers && b != a :: b in v.answers
    ensures reply.Some? ==> Answer(a.reply.to, reply.value) in v.answers
  {
    v := Next(w, Hear(a, 255, true));
    ReachesNext(w, Hear(a, 255, true));
    RoutesOneByOne(w.hops, a.reply.to, routes);
    hide ReceiveReply, RouteAll, Route, Reached;
  }

  predicate Holds(w: World, x: Word, t: seq<Entry>) {
    x in w.net.tables && w.net.tables[x] == t
  }

  lemma Nothing()
    ensures Reached(Quiet([1, 2, 3]))
    ensures forall x | x in [1, 2, 3] :: Holds(Quiet([1, 2, 3]), x, Table(FREE, FREE))
  {
    var w := Quiet([1, 2, 3]);
    assert Happens(w, []) && After(w, []) == w;
    assert seq(TABLE_SIZE, _ => FREE) == Table(FREE, FREE);
  }

  /** Both sources have sent their requests. */
  lemma Asking() returns (w: World)
    ensures Reached(w) && w.net.nodes == [1, 2, 3]
    ensures Holds(w, 1, Table(Own(FIRST, 0), FREE)) && Holds(w, 2, Table(Own(SECOND, 0), FREE))
    ensures Holds(w, 3, Table(FREE, FREE))
    ensures Copy(2, 1, Request(FIRST, 255)) in w.net.flight && Copy(1, 2, Request(SECOND, 255)) in w.net.flight
  {
    w := Quiet([1, 2, 3]);
    Nothing();
    StartsTable(1, 3);
    StartsTable(2, 3);
    hide Reached, Quiet, Table, Initiate, Own;
    var s := Start(1, 3, 0, true);
    w := Sending(w, s, 1, Table(Own(FIRST, 0), FREE), Request(FIRST, 255));
    s := Start(2, 3, 0, true);
    w := Sending(w, s, 2, Table(Own(SECOND, 0), FREE), Request(SECOND, 255));
  }

  /** Each source has repeated the request of the other. */
  lemma Relaying() returns (w: World)
    ensures Reached(w)
    ensures Holds(w, 1, Table(Own(FIRST, 0), Known(SECOND, 2, 254, 0)))
    ensures Holds(w, 2, Table(Own(SECOND, 0), Known(FIRST, 1, 254, 0))) && Holds(w, 3, Table(FREE, FREE))
    ensures Copy(3, 2, Request(FIRST, 254)) in w.net.flight && Copy(3, 1, Request(SECOND, 254)) in w.net.flight
  {
    w := Asking();
    HearsTable(2, Own(SECOND, 0), 1, FIRST, 255);
    HearsTable(1, Own(FIRST, 0), 2, SECOND, 255);
    hide Reached, Quiet, Table, Receive, Own, Known;
    var s := Deliver(Copy(2, 1, Request(FIRST, 255)), 255, true);
    w := Sending(w, s, 2, Table(Own(SECOND, 0), Known(FIRST, 1, 254, 0)), Request(FIRST, 254));
    s := Deliver(Copy(1, 2, Request(SECOND, 255)), 255, true);
    w := Sending(w, s, 1, Table(Own(FIRST, 0), Known(SECOND, 2, 254, 0)), Request(SECOND, 254));
  }

  /** Node 3 has replied to both sources. */
  lemma Replying() returns (w: World)
    ensures Reached(w)
    ensures Holds(w, 1, Table(Own(FIRST, 0), Known(SECOND, 2, 254, 0)))
    ensures Holds(w, 2, Table(Own(SECOND, 0), Known(FIRST, 1, 254, 0)))
    ensures Answer(3, Reply(2, FIRST, 253, 255)) in w.answers && Answer(3, Reply(1, SECOND, 253, 255)) in w.answers
  {
    w := Relaying();
    var e := Known(FIRST, 2, 253, 0);
    HearsTable(3, FREE, 2, FIRST, 254);
    HearsTable(3, e, 1, SECOND, 254);
    hide Reached, Quiet, Table, Receive, Own;
    var c := Copy(3, 2, Request(FIRST, 254));
    w := Answering(w, c, Table(e, FREE), FIRST, 253);
    c := Copy(3, 1, Request(SECOND, 254));
    w := Answering(w, c, Table(e, Known(SECOND, 1, 253, 0)), SECOND, 253);
  }

  /** Each source has passed on the reply to the other. */
  lemma Passing() returns (w: World)
    ensures Reached(w)
    ensures Holds(w, 1, Table(Own(FIRST, 0), Known(SECOND, 2, 254, 253)))
    ensures Holds(w, 2, Table(Own(SECOND, 0), Known(FIRST, 1, 254, 253)))
    ensures Answer(2, Reply(1, FIRST, 253, 254)) in w.answers && Answer(1, Reply(2, SECOND, 253, 254)) in w.answers
  {
    w := Replying();
    PassesTable(1, 2);
    PassesTable(2, 1);
    hide Reached, Quiet, Table, ReceiveReply, Own, Known, Route;
    var a := Answer(3, Reply(2, FIRST, 253, 255));
    w := Hearing(w, a, Table(Own(SECOND, 0), Known(FIRST, 1, 254, 253)),
            [RouteUpdate(3, 0, 3, 254), RouteUpdate(1, 0, 1, 254)], Some(Reply(1, FIRST, 253, 254)));
    a := Answer(3, Reply(1, SECOND, 253, 255));
    w := Hearing(w, a, Table(Own(FIRST, 0), Known(SECOND, 2, 254, 253)),
            [RouteUpdate(3, 0, 3, 254), RouteUpdate(2, 0, 2, 254)], Some(Reply(2, SECOND, 253, 254)));
  }

  /** One discovery of a destination at a time is needed: when two sources look for the same node, and each
      takes the reply that came through the other, each sends what it has for that node to the other. */
  lemma TwoSourcesLoop() returns (w: World)
    ensures Reached(w)
    ensures Follows(w, FIRST, [1, 2, 1]) && !NoneTwice([1, 2, 1])
  {
    w := Passing();
    assert [1, 2, 1][0] == [1, 2, 1][2];
    EndsTable(1, 2, Known(SECOND, 2, 254, 253));
    EndsTable(2, 1, Known(FIRST, 1, 254, 253));
    hide Reached, Quiet, Table, ReceiveReply, Own, Known;
    var a := Answer(2, Reply(1, FIRST, 253, 254));
    w := Hearing(w, a, Table(Own(FIRST, 253), Known(SECOND, 2, 254, 253)), [RouteUpdate(3, 0, 2, 253)], None);
    a := Answer(1, Reply(2, SECOND, 253, 254));
    w := Hearing(w, a, Table(Own(SECOND, 253), Known(FIRST, 1, 254, 253)), [RouteUpdate(3, 0, 1, 253)], None);
  }
}
