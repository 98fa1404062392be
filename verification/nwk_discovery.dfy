/** Route discovery (nwkRouteDiscovery.c): a flood in which a node repeats only a strictly better request. */
module Discovery {
  import opened Types

  const TABLE_SIZE: nat := 5
  const BEST_LINK_QUALITY: Byte := 255
  const NO_LINK: Byte := 0
  const TIMEOUT: Word := 1000
  const TIMER_INTERVAL: Word := 100
  const BROADCAST: Word := 0xffff
  const NON_ROUTING: Word := 0x8000

  /** What identifies a discovery. */
  datatype Key = Key(src: Word, dst: Word, multicast: Byte)

  datatype Entry = Entry(key: Key, sender: Word, forward: Byte, reverse: Byte, timeout: Word)

  datatype Request = Request(key: Key, linkQuality: Byte)

  /** What a node does after a request. */
  datatype Outcome = Ignored | Forwarded(request: Request) | Replied(key: Key, to: Word, forward: Byte)

  // ----- one node -----

  /** nwkRouteDiscoveryUpdateLq */
  function UpdateLq(a: Byte, b: Byte): (r: Byte)
    ensures a > 0 ==> r < a
    ensures a == 0 ==> r == 0
  {
    var product: int := (a as int) * (b as int);
    Degrades(a, b);
    product / 0x100
  }

  lemma Degrades(a: Byte, b: Byte)
    ensures 0 <= (a as int) * (b as int) <= (a as int) * 255
  {}

  function Find(t: seq<Entry>, k: Key, i: nat := 0): (r: Option<nat>)
    requires i <= |t|
    ensures r.Some? ==> i <= r.value < |t| && t[r.value].timeout > 0 && t[r.value].key == k
    ensures r.Some? ==> forall j | i <= j < r.value :: !(t[j].timeout > 0 && t[j].key == k)
    ensures r.None? ==> forall j | i <= j < |t| :: !(t[j].timeout > 0 && t[j].key == k)
    decreases |t| - i
  {
    if i == |t| then None
    else if t[i].timeout > 0 && t[i].key == k then Some(i)
    else Find(t, k, i + 1)
  }

  /** The first slot without a running discovery. */
  function FreeSlot(t: seq<Entry>, i: nat := 0): (r: Option<nat>)
    requires i <= |t|
    ensures r.Some? ==> i <= r.value < |t| && t[r.value].timeout == 0
    ensures r.None? ==> forall j | i <= j < |t| :: t[j].timeout > 0
    decreases |t| - i
  {
    if i == |t| then None
    else if t[i].timeout == 0 then Some(i)
    else FreeSlot(t, i + 1)
  }

  /** nwkRouteDiscoveryRequest: the node `addr` starts the discovery of a route, unless it is
      already running or the table is full. */
  function Initiate(addr: Word, t: seq<Entry>, dst: Word, multicast: Byte): (r: (seq<Entry>, Outcome))
    ensures |r.0| == |t|
  {
    var k := Key(addr, dst, multicast);
    var slot := FreeSlot(t);
    if Find(t, k).Some? || slot.None? then (t, Ignored)
    else (t[slot.value := Entry(k, BROADCAST, NO_LINK, NO_LINK, TIMEOUT)], Forwarded(Request(k, BEST_LINK_QUALITY)))
  }

  predicate IsDestination(addr: Word, k: Key) {
    k.multicast == 0 && k.dst == addr
  }

  /** nwkRouteDiscoveryRequestReceived: the node `addr` hears `req` from `sender` with link
      quality `lqi`. */
  function Receive(addr: Word, t: seq<Entry>, sender: Word, req: Request, lqi: Byte): (r: (seq<Entry>, Outcome))
    ensures |r.0| == |t|
  {
    var k := req.key;
    if k.src == addr || (!IsDestination(addr, k) && addr >= NON_ROUTING) then (t, Ignored)
    else
      var lq := UpdateLq(req.linkQuality, lqi);
      var found := Find(t, k);
      if found.Some? && lq <= t[found.value].forward then (t, Ignored)
      else
        var slot := if found.Some? then found else FreeSlot(t);
        if slot.None? then (t, Ignored)
        else
          var reverse := if found.Some? then t[slot.value].reverse else NO_LINK;
          var timeout := if found.Some? then t[slot.value].timeout else TIMEOUT;
          (t[slot.value := Entry(k, sender, lq, reverse, timeout)],
           if IsDestination(addr, k) then Replied(k, sender, lq) else Forwarded(Request(k, lq)))
  }

  /** A route that a node sets, and the reply it sends on. */
  datatype RouteUpdate = RouteUpdate(dst: Word, multicast: Byte, hop: Word, lqi: Byte)
  datatype Reply = Reply(to: Word, key: Key, forward: Byte, reverse: Byte)
  datatype ReplyOutcome = NotBetter | Installed(routes: seq<RouteUpdate>, reply: Option<Reply>)

  /** nwkRouteDiscoveryReplyReceived: the node `addr` hears from `sender`, with link quality `lqi`, that a
      path of quality `forward` was found. */
  function ReceiveReply(addr: Word, t: seq<Entry>, sender: Word, k: Key, forward: Byte, reverse: Byte, lqi: Byte)
      : (r: (seq<Entry>, ReplyOutcome))
    ensures |r.0| == |t|
  {
    var lq := UpdateLq(reverse, lqi);
    match Find(t, k)
    case None => (t, NotBetter)
    case Some(i) =>
      if forward <= t[i].reverse then (t, NotBetter)
      else
        var after := t[i := t[i].(reverse := forward)];
        if k.src == addr then (after, Installed([RouteUpdate(k.dst, k.multicast, sender, forward)], None))
        else
          (after, Installed([RouteUpdate(k.dst, k.multicast, sender, lq),
                             RouteUpdate(k.src, 0, t[i].sender, t[i].forward)],
                            Some(Reply(t[i].sender, k, forward, lq))))
  }

  /** nwkRouteDiscoveryTimerHandler on one entry. */
  function Aged(e: Entry): Entry {
    e.(timeout := if e.timeout > TIMER_INTERVAL then e.timeout - TIMER_INTERVAL else 0)
  }

  function Age(t: seq<Entry>): (r: seq<Entry>)
    ensures |r| == |t| && forall i | 0 <= i < |t| :: r[i] == Aged(t[i])
  {
    if t == [] then [] else [Aged(t[0])] + Age(t[1..])
  }

  /** The discoveries of node `addr` that end, with their success, when the timer fires. */
  function Done(addr: Word, t: seq<Entry>): seq<(Key, bool)> {
    if t == [] then []
    else
      var last := t[|t| - 1];
      Done(addr, t[..|t| - 1])
      + if last.timeout <= TIMER_INTERVAL && last.key.src == addr then [(last.key, last.reverse > 0)] else []
  }

  lemma DoneLonger(addr: Word, t: seq<Entry>, i: nat)
    requires i < |t|
    ensures Done(addr, t[..i + 1]) == Done(addr, t[..i]) +
              if Aged(t[i]).timeout == 0 && t[i].key.src == addr then [(t[i].key, t[i].reverse > 0)] else []
    ensures Aged(t[i]).key == t[i].key && Aged(t[i]).reverse == t[i].reverse
  {
    assert t[..i + 1][..i] == t[..i];
  }

  ghost predicate UniqueKeys(t: seq<Entry>) {
    forall i, j | 0 <= i < j < |t| && t[i].timeout > 0 && t[j].timeout > 0 :: t[i].key != t[j].key
  }

  predicate Has(t: seq<Entry>, k: Key) {
    Find(t, k).Some?
  }

  function Quality(t: seq<Entry>, k: Key): Byte
    requires Has(t, k)
  {
    t[Find(t, k).value].forward
  }

  function Sender(t: seq<Entry>, k: Key): Word
    requires Has(t, k)
  {
    t[Find(t, k).value].sender
  }

  /** A slot is set to a live entry for `k`, being free or the entry for `k` before. */
  lemma SlotSet(t: seq<Entry>, i: nat, e: Entry, k: Key)
    requires UniqueKeys(t) && i < |t| && e.timeout > 0
    requires Find(t, e.key) == Some(i) || (t[i].timeout == 0 && !Has(t, e.key))
    ensures UniqueKeys(t[i := e])
    ensures Find(t[i := e], k) == if k == e.key then Some(i) else Find(t, k)
  {
    var u := t[i := e];
    assert forall j | 0 <= j < |t| && j != i && t[j].timeout > 0 :: t[j].key != e.key;
    var a, b := Find(t, k), Find(u, k);
    assert k == e.key ==> u[i].key == k;
    if k != e.key && a.Some? { assert u[a.value] == t[a.value]; }
    if k != e.key && b.Some? { assert u[b.value] == t[b.value]; }
  }

  /** What a request does to the entries of a node: the one for its key is created, or strictly
      improved, and names the sender; all others are as before. Only then is anything sent. */
  lemma ReceiveEffect(addr: Word, t: seq<Entry>, sender: Word, req: Request, lqi: Byte, k: Key)
    requires UniqueKeys(t)
    ensures var (after, out) := Receive(addr, t, sender, req, lqi);
            var lq := UpdateLq(req.linkQuality, lqi);
            && UniqueKeys(after)
            && (out.Ignored? ==> after == t)
            && (!out.Ignored? ==>
                 && req.key.src != addr
                 && Has(after, req.key) && Quality(after, req.key) == lq && Sender(after, req.key) == sender
                 && (Has(t, req.key) ==> Quality(t, req.key) < lq)
                 && (k != req.key ==> (Has(after, k) <==> Has(t, k)))
                 && (k != req.key && Has(t, k) ==>
                      Quality(after, k) == Quality(t, k) && Sender(after, k) == Sender(t, k)))
            && (out.Forwarded? ==> out.request == Request(req.key, lq))
  {
    var (after, out) := Receive(addr, t, sender, req, lqi);
    if !out.Ignored? {
      var found := Find(t, req.key);
      var slot := if found.Some? then found.value else FreeSlot(t).value;
      SlotSet(t, slot, after[slot], k);
      SlotSet(t, slot, after[slot], req.key);
      assert after == t[slot := after[slot]];
      if k != req.key && Has(t, k) { assert after[Find(t, k).value] == t[Find(t, k).value]; }
    }
  }

  lemma InitiateEffect(addr: Word, t: seq<Entry>, dst: Word, multicast: Byte, k: Key)
    requires UniqueKeys(t)
    ensures var (after, out) := Initiate(addr, t, dst, multicast);
            var own := Key(addr, dst, multicast);
            && UniqueKeys(after)
            && (out.Ignored? ==> after == t)
            && (!out.Ignored? ==>
                 && out == Forwarded(Request(own, 255))
                 && !Has(t, own) && Has(after, own) && Quality(after, own) == NO_LINK
                 && (k != own ==> (Has(after, k) <==> Has(t, k)))
                 && (k != own && Has(t, k) ==> Quality(after, k) == Quality(t, k) && Sender(after, k) == Sender(t, k)))
  {
    var (after, out) := Initiate(addr, t, dst, multicast);
    var own := Key(addr, dst, multicast);
    if !out.Ignored? {
      var slot := FreeSlot(t).value;
      SlotSet(t, slot, after[slot], k);
      SlotSet(t, slot, after[slot], own);
      if k != own && Has(t, k) { assert after[Find(t, k).value] == t[Find(t, k).value]; }
    }
  }

  // ----- the network -----

  /** A request on its way to one receiver. */
  datatype Copy = Copy(to: Word, sender: Word, request: Request)

  /** `births` and `clock` are history: when an entry was created. */
  datatype Net = Net(nodes: seq<Word>, tables: map<Word, seq<Entry>>, flight: multiset<Copy>,
                     births: map<(Word, Key), nat>, clock: nat)

  /** `sent` tells whether the sender had a frame to send with. Requests may be lost, delayed and
      reordered at will. */
  datatype NetStep =
    | Start(node: Word, dst: Word, multicast: Byte, sent: bool)
    | Deliver(copy: Copy, lqi: Byte, sent: bool)
    | Lose(copy: Copy)

  function Copies(nodes: seq<Word>, sender: Word, req: Request): (r: multiset<Copy>)
    ensures |r| <= |nodes|
    ensures forall c :: c in r ==> c.to in nodes && c.to != sender && c.sender == sender && c.request == req
  {
    if nodes == [] then multiset{}
    else
      Copies(nodes[1..], sender, req)
      + (if nodes[0] == sender then multiset{} else multiset{Copy(nodes[0], sender, req)})
  }

  predicate Enabled(net: Net, s: NetStep) {
    match s
    case Start(x, dst, multicast, _) =>
      x in net.tables && x in net.nodes && Initiate(x, net.tables[x], dst, multicast).1.Forwarded?
    case Deliver(c, _, _) => c in net.flight && c.to in net.tables
    case Lose(c) => c in net.flight
  }

  function Apply(net: Net, x: Word, t: seq<Entry>, k: Key, out: Outcome, sent: bool): (r: Net) {
    var born := (x in net.tables && Has(net.tables[x], k)) || out.Ignored?;
    net.(tables := net.tables[x := t],
         births := if born then net.births else net.births[(x, k) := net.clock],
         clock := net.clock + 1,
         flight := net.flight + (if out.Forwarded? && sent then Copies(net.nodes, x, out.request) else multiset{}))
  }

  function Step(net: Net, s: NetStep): (r: Net)
    requires Enabled(net, s)
  {
    match s
    case Start(x, dst, multicast, sent) =>
      var (t, out) := Initiate(x, net.tables[x], dst, multicast);
      Apply(net, x, t, Key(x, dst, multicast), out, sent)
    case Deliver(c, lqi, sent) =>
      var (t, out) := Receive(c.to, net.tables[c.to], c.sender, c.request, lqi);
      Apply(net.(flight := net.flight - multiset{c}), c.to, t, c.request.key, out, sent)
    case Lose(c) => net.(flight := net.flight - multiset{c})
  }

  predicate Knows(net: Net, x: Word, k: Key) {
    x in net.tables && Has(net.tables[x], k)
  }

  function At(net: Net, x: Word, k: Key): Byte
    requires Knows(net, x, k)
  {
    Quality(net.tables[x], k)
  }

  function From(net: Net, x: Word, k: Key): Word
    requires Knows(net, x, k)
  {
    Sender(net.tables[x], k)
  }

  function Birth(net: Net, x: Word, k: Key): nat {
    if (x, k) in net.births then net.births[(x, k)] else 0
  }

  /** `y` is nearer the source than `x`: it has the strictly better path, or both paths are dead
      and `y` learned of the discovery earlier. */
  predicate Nearer(net: Net, k: Key, y: Word, x: Word)
    requires Knows(net, y, k) && Knows(net, x, k)
  {
    At(net, y, k) > At(net, x, k)
    || (At(net, y, k) == 0 && At(net, x, k) == 0 && Birth(net, y, k) < Birth(net, x, k))
  }

  /** The node that `x` heard the discovery from is the source, or is nearer to it. */
  predicate ParentOk(net: Net, k: Key, x: Word)
    requires Knows(net, x, k)
  {
    var y := From(net, x, k);
    y in net.tables && (y == k.src || (Knows(net, y, k) && Nearer(net, k, y, x)))
  }

  /** A request in flight carries no more than its sender still has. */
  predicate CopyOk(net: Net, c: Copy) {
    var k := c.request.key;
    && c.to in net.tables && c.sender in net.tables && c.sender != c.to
    && (c.sender == k.src || (Knows(net, c.sender, k) && At(net, c.sender, k) >= c.request.linkQuality))
  }

  ghost predicate Good(net: Net) {
    && (forall x: Word :: x in net.nodes <==> x in net.tables)
    && (forall x | x in net.tables :: UniqueKeys(net.tables[x]))
    && (forall c | c in net.flight :: CopyOk(net, c))
    && (forall x: Word, k: Key | Knows(net, x, k) && x != k.src :: ParentOk(net, k, x))
    && (forall x: Word, k: Key | Knows(net, x, k) :: (x, k) in net.births && net.births[(x, k)] < net.clock)
  }

  /** A table gets or improves its entry for `k`; the other entries are as before. */
  ghost predicate TableAdopts(t: seq<Entry>, after: seq<Entry>, k: Key) {
    && UniqueKeys(after) && Has(after, k)
    && (Has(t, k) ==> Quality(t, k) < Quality(after, k))
    && (forall j: Key | j != k :: Has(after, j) <==> Has(t, j))
    && (forall j: Key | j != k && Has(t, j) :: Quality(after, j) == Quality(t, j) && Sender(after, j) == Sender(t, j))
  }

  /** The common effect of a start and of a useful delivery: node `x` gets or improves its entry
      for `k`, and may send it on. */
  ghost predicate Adopts(net: Net, after: Net, k: Key, x: Word, sends: multiset<Copy>) {
    && x in net.tables && x in after.tables
    && after.nodes == net.nodes && after.tables == net.tables[x := after.tables[x]]
    && TableAdopts(net.tables[x], after.tables[x], k)
    && after.births == (if Knows(net, x, k) then net.births else net.births[(x, k) := net.clock])
    && after.clock == net.clock + 1
    && after.flight <= net.flight + sends
  }

  lemma ApplyAdopts(net: Net, x: Word, t: seq<Entry>, k: Key, out: Outcome, sent: bool, sends: multiset<Copy>)
    requires x in net.tables && TableAdopts(net.tables[x], t, k) && !out.Ignored?
    requires out.Forwarded? ==> sends == Copies(net.nodes, x, out.request)
    ensures Adopts(net, Apply(net, x, t, k, out, sent), k, x, sends)
  {}

  /** An adoption keeps everything that was nearer nearer. */
  lemma AdoptionKeepsOrder(net: Net, after: Net, k: Key, x: Word, sends: multiset<Copy>, j: Key, y: Word, z: Word)
    requires Good(net) && Adopts(net, after, k, x, sends)
    requires Knows(net, y, j) && Knows(net, z, j) && Nearer(net, j, y, z) && !(z == x && j == k)
    ensures Knows(after, y, j) && Knows(after, z, j) && Nearer(after, j, y, z)
  {}

  /** An adoption at another node, or of another discovery, leaves the sender of an entry all right. */
  lemma AdoptionKeepsParent(net: Net, after: Net, k: Key, x: Word, sends: multiset<Copy>, j: Key, z: Word)
    requires Good(net) && Adopts(net, after, k, x, sends)
    requires Knows(after, z, j) && z != j.src && (z != x || j != k)
    ensures ParentOk(after, j, z)
  {
    hide Find, Nearer, UniqueKeys;
    assert Knows(net, z, j) && ParentOk(net, j, z);
    var y := From(net, z, j);
    if y != j.src { AdoptionKeepsOrder(net, after, k, x, sends, j, y, z); }
  }

  lemma AdoptionKeepsCopy(net: Net, after: Net, k: Key, x: Word, sends: multiset<Copy>, c: Copy)
    requires Adopts(net, after, k, x, sends) && CopyOk(net, c)
    ensures CopyOk(after, c)
  {
    hide Find, UniqueKeys;
  }

  lemma AdoptionKeepsGood(net: Net, after: Net, k: Key, x: Word, sends: multiset<Copy>)
    requires Good(net) && Adopts(net, after, k, x, sends)
    requires x != k.src ==> ParentOk(after, k, x)
    requires forall c | c in sends :: CopyOk(after, c)
    ensures Good(after)
  {
    hide Find, Quality, Sender, ParentOk, CopyOk, UniqueKeys;
    forall c | c in after.flight ensures CopyOk(after, c) {
      if c !in sends { AdoptionKeepsCopy(net, after, k, x, sends, c); }
    }
    forall z: Word, j: Key | Knows(after, z, j) && z != j.src ensures ParentOk(after, j, z) {
      if z != x || j != k { AdoptionKeepsParent(net, after, k, x, sends, j, z); }
    }
  }

  lemma StartAdopts(net: Net, x: Word, dst: Word, multicast: Byte, sent: bool)
    requires Enabled(net, Start(x, dst, multicast, sent)) && UniqueKeys(net.tables[x])
    ensures Adopts(net, Step(net, Start(x, dst, multicast, sent)), Key(x, dst, multicast), x,
                   Copies(net.nodes, x, Request(Key(x, dst, multicast), BEST_LINK_QUALITY)))
  {
    var k := Key(x, dst, multicast);
    var sends := Copies(net.nodes, x, Request(k, BEST_LINK_QUALITY));
    var (t, out) := Initiate(x, net.tables[x], dst, multicast);
    forall j: Key {
      InitiateEffect(x, net.tables[x], dst, multicast, j);
    }
    ApplyAdopts(net, x, t, k, out, sent, sends);
  }

  lemma StartKeepsGood(net: Net, x: Word, dst: Word, multicast: Byte, sent: bool)
    requires Good(net) && Enabled(net, Start(x, dst, multicast, sent))
    ensures Good(Step(net, Start(x, dst, multicast, sent)))
  {
    var after, k := Step(net, Start(x, dst, multicast, sent)), Key(x, dst, multicast);
    StartAdopts(net, x, dst, multicast, sent);
    AdoptionKeepsGood(net, after, k, x, Copies(net.nodes, x, Request(k, BEST_LINK_QUALITY)));
  }

  lemma DeliverAdopts(net: Net, c: Copy, lqi: Byte, sent: bool)
    requires Enabled(net, Deliver(c, lqi, sent)) && UniqueKeys(net.tables[c.to])
    requires !Receive(c.to, net.tables[c.to], c.sender, c.request, lqi).1.Ignored?
    ensures var after, k := Step(net, Deliver(c, lqi, sent)), c.request.key;
            && Adopts(net, after, k, c.to, Copies(net.nodes, c.to, Request(k, UpdateLq(c.request.linkQuality, lqi))))
            && c.to != k.src
            && At(after, c.to, k) == UpdateLq(c.request.linkQuality, lqi) && From(after, c.to, k) == c.sender
  {
    var k := c.request.key;
    var (t, out) := Receive(c.to, net.tables[c.to], c.sender, c.request, lqi);
    forall j: Key {
      ReceiveEffect(c.to, net.tables[c.to], c.sender, c.request, lqi, j);
    }
    var taken := net.(flight := net.flight - multiset{c});
    var sends := Copies(net.nodes, c.to, Request(k, UpdateLq(c.request.linkQuality, lqi)));
    ApplyAdopts(taken, c.to, t, k, out, sent, sends);
    AdoptsMore(net, taken, Apply(taken, c.to, t, k, out, sent), k, c.to, sends);
  }

  lemma AdoptsMore(net: Net, taken: Net, after: Net, k: Key, x: Word, sends: multiset<Copy>)
    requires Adopts(taken, after, k, x, sends)
    requires taken == net.(flight := taken.flight) && taken.flight <= net.flight
    ensures Adopts(net, after, k, x, sends)
  {}

  /** A node that adopts a path hears it from a node that is nearer to the source. */
  lemma DeliverKeepsGood(net: Net, c: Copy, lqi: Byte, sent: bool)
    requires Good(net) && Enabled(net, Deliver(c, lqi, sent))
    ensures Good(Step(net, Deliver(c, lqi, sent)))
  {
    hide Receive, Find, UpdateLq, UniqueKeys;
    var after, k, x := Step(net, Deliver(c, lqi, sent)), c.request.key, c.to;
    var out := Receive(x, net.tables[x], c.sender, c.request, lqi).1;
    if out.Ignored? {
      IgnoredKeepsGood(net, c, lqi, sent);
    } else {
      var sends := Copies(net.nodes, x, Request(k, UpdateLq(c.request.linkQuality, lqi)));
      DeliverAdopts(net, c, lqi, sent);
      assert CopyOk(net, c);
      assert ParentOk(after, k, x);
      AdoptionKeepsGood(net, after, k, x, sends);
    }
  }

  lemma IgnoredKeepsGood(net: Net, c: Copy, lqi: Byte, sent: bool)
    requires Good(net) && Enabled(net, Deliver(c, lqi, sent))
    requires Receive(c.to, net.tables[c.to], c.sender, c.request, lqi).1.Ignored?
    ensures Good(Step(net, Deliver(c, lqi, sent)))
  {
    var after := Step(net, Deliver(c, lqi, sent));
    ReceiveEffect(c.to, net.tables[c.to], c.sender, c.request, lqi, c.request.key);
    assert after.tables == net.tables && after.births == net.births;
    forall d | d in after.flight ensures CopyOk(after, d) {
      assert CopyOk(net, d);
    }
    forall z: Word, j: Key | Knows(after, z, j) && z != j.src ensures ParentOk(after, j, z) {
      assert ParentOk(net, j, z);
    }
  }

  lemma LoseKeepsGood(net: Net, c: Copy)
    requires Good(net) && Enabled(net, Lose(c))
    ensures Good(Step(net, Lose(c)))
  {
    var after := Step(net, Lose(c));
    forall d | d in after.flight ensures CopyOk(after, d) {
      assert CopyOk(net, d);
    }
    forall z: Word, j: Key | Knows(after, z, j) && z != j.src ensures ParentOk(after, j, z) {
      assert ParentOk(net, j, z);
    }
  }

  lemma StepKeepsGood(net: Net, s: NetStep)
    requires Good(net) && Enabled(net, s)
    ensures Good(Step(net, s))
  {
    match s
    case Start(x, dst, multicast, sent) => StartKeepsGood(net, x, dst, multicast, sent);
    case Deliver(c, lqi, sent) => DeliverKeepsGood(net, c, lqi, sent);
    case Lose(c) => LoseKeepsGood(net, c);
  }

  // ----- runs -----

  predicate Runs(net: Net, steps: seq<NetStep>)
    decreases |steps|
  {
    steps == [] || (Enabled(net, steps[0]) && Runs(Step(net, steps[0]), steps[1..]))
  }

  function End(net: Net, steps: seq<NetStep>): Net
    requires Runs(net, steps)
    decreases |steps|
  {
    if steps == [] then net else End(Step(net, steps[0]), steps[1..])
  }

  /** A network in which no discovery is running. */
  function Idle(nodes: seq<Word>): Net {
    Net(nodes, map x | x in nodes :: seq(TABLE_SIZE, _ => Entry(Key(0, 0, 0), 0, 0, 0, 0)), multiset{}, map[], 0)
  }

  lemma IdleIsGood(nodes: seq<Word>)
    ensures Good(Idle(nodes))
  {}

  lemma {:induction false} RunKeepsGood(net: Net, steps: seq<NetStep>)
    requires Good(net) && Runs(net, steps)
    ensures Good(End(net, steps))
    decreases |steps|
  {
    if steps != [] {
      StepKeepsGood(net, steps[0]);
      RunKeepsGood(Step(net, steps[0]), steps[1..]);
    }
  }

  // ----- no loops -----

  /** The nodes met when following the senders of `k` from `x`. */
  ghost function Path(net: Net, k: Key, x: Word): (p: seq<Word>)
    requires Good(net) && x in net.tables && (x == k.src || Knows(net, x, k))
    ensures |p| > 0 && p[0] == x && p[|p| - 1] == k.src
    ensures forall i | 0 <= i < |p| :: p[i] in net.tables
    ensures forall i | 0 <= i < |p| - 1 :: p[i] != k.src && Knows(net, p[i], k) && From(net, p[i], k) == p[i + 1]
    ensures forall i | 0 < i < |p| - 1 :: Knows(net, x, k) && Nearer(net, k, p[i], x)
    decreases if x == k.src then 0 else 1, if x == k.src then 0 else 255 - At(net, x, k), Birth(net, x, k)
  {
    if x == k.src then [x]
    else
      assert ParentOk(net, k, x);
      var y := From(net, x, k);
      var p := [x] + Path(net, k, y);
      p
  }

  /** No node on the way on from `x` is `x` itself. */
  lemma NotOnItsPath(net: Net, k: Key, x: Word, i: nat)
    requires Good(net) && Knows(net, x, k) && x != k.src
    ensures ParentOk(net, k, x)
    ensures i < |Path(net, k, From(net, x, k))| ==> Path(net, k, From(net, x, k))[i] != x
  {
    assert ParentOk(net, k, x);
    var y := From(net, x, k);
    var p := Path(net, k, y);
    hide Good, Find, Has, Quality, Sender, Path;
    if 0 < i < |p| - 1 {
      assert Nearer(net, k, p[i], y) && Nearer(net, k, y, x);
    }
  }

  predicate NoneTwice(p: seq<Word>) {
    forall i, j | 0 <= i < j < |p| :: p[i] != p[j]
  }

  lemma NoneTwiceLonger(x: Word, p: seq<Word>)
    requires NoneTwice(p) && forall i | 0 <= i < |p| :: p[i] != x
    ensures NoneTwice([x] + p)
  {}

  lemma {:induction false} PathHasNoLoop(net: Net, k: Key, x: Word)
    requires Good(net) && x in net.tables && (x == k.src || Knows(net, x, k))
    ensures NoneTwice(Path(net, k, x))
    decreases if x == k.src then 0 else 1, if x == k.src then 0 else 255 - At(net, x, k), Birth(net, x, k)
  {
    if x != k.src {
      NotOnItsPath(net, k, x, 0);
      var y := From(net, x, k);
      PathHasNoLoop(net, k, y);
      assert Path(net, k, x) == [x] + Path(net, k, y);
      hide Good, ParentOk, NoneTwice, Path;
      forall i | 0 <= i < |Path(net, k, y)| ensures Path(net, k, y)[i] != x { NotOnItsPath(net, k, x, i); }
      NoneTwiceLonger(x, Path(net, k, y));
    }
  }

  /** `p` follows the senders of `k` from `x` to the source, and meets no node twice. */
  ghost predicate LeadsToSource(net: Net, k: Key, x: Word, p: seq<Word>) {
    && |p| > 0 && p[0] == x && p[|p| - 1] == k.src
    && (forall i | 0 <= i < |p| - 1 :: Knows(net, p[i], k) && From(net, p[i], k) == p[i + 1])
    && NoneTwice(p)
  }

  ghost predicate ReachesSource(net: Net, k: Key, x: Word) {
    exists p: seq<Word> :: LeadsToSource(net, k, x, p)
  }

  /** Loop freedom: in every run from an idle network, whatever is lost, delayed or reordered,
      following the senders from any running entry meets no node twice and ends at the source. */
  lemma LoopFree(nodes: seq<Word>, steps: seq<NetStep>, k: Key, x: Word)
    requires Runs(Idle(nodes), steps) && Knows(End(Idle(nodes), steps), x, k)
    ensures var net := End(Idle(nodes), steps);
            ReachesSource(net, k, x)
  {
    IdleIsGood(nodes);
    RunKeepsGood(Idle(nodes), steps);
    var net := End(Idle(nodes), steps);
    PathHasNoLoop(net, k, x);
    assert LeadsToSource(net, k, x, Path(net, k, x));
  }

  // ----- the flood stops -----

  /** How many more times node `x` can rebroadcast the request for `k`. */
  function Room(net: Net, x: Word, k: Key): nat {
    if Knows(net, x, k) then 255 - At(net, x, k) else 256
  }

  function TotalRoom(net: Net, pairs: seq<(Word, Key)>): nat {
    if pairs == [] then 0 else Room(net, pairs[0].0, pairs[0].1) + TotalRoom(net, pairs[1..])
  }

  /** The node and the discovery that a step is about. */
  function Subject(s: NetStep): (Word, Key) {
    match s
    case Start(x, dst, multicast, _) => (x, Key(x, dst, multicast))
    case Deliver(c, _, _) => (c.to, c.request.key)
    case Lose(c) => (c.to, c.request.key)
  }

  /** Whether a step sends (or tries to send) a broadcast. */
  predicate Broadcasts(net: Net, s: NetStep)
    requires Enabled(net, s)
  {
    match s
    case Start(_, _, _, _) => true
    case Deliver(c, lqi, _) => Receive(c.to, net.tables[c.to], c.sender, c.request, lqi).1.Forwarded?
    case Lose(_) => false
  }

  /** Every broadcast uses up room of its node; no step gives room back. */
  lemma StepUsesRoom(net: Net, s: NetStep, x: Word, k: Key)
    requires Good(net) && Enabled(net, s)
    ensures Room(Step(net, s), x, k) + (if Broadcasts(net, s) && Subject(s) == (x, k) then 1 else 0) <= Room(net, x, k)
  {
    match s
    case Start(y, dst, multicast, sent) =>
      StartAdopts(net, y, dst, multicast, sent);
      AdoptionUsesRoom(net, Step(net, s), Key(y, dst, multicast), y,
                       Copies(net.nodes, y, Request(Key(y, dst, multicast), BEST_LINK_QUALITY)), x, k);
    case Deliver(c, lqi, sent) =>
      ReceiveEffect(c.to, net.tables[c.to], c.sender, c.request, lqi, k);
      if !Receive(c.to, net.tables[c.to], c.sender, c.request, lqi).1.Ignored? {
        DeliverAdopts(net, c, lqi, sent);
        AdoptionUsesRoom(net, Step(net, s), c.request.key, c.to,
                         Copies(net.nodes, c.to, Request(c.request.key, UpdateLq(c.request.linkQuality, lqi))), x, k);
      }
    case Lose(c) =>
  }

  lemma AdoptionUsesRoom(net: Net, after: Net, j: Key, y: Word, sends: multiset<Copy>, x: Word, k: Key)
    requires Adopts(net, after, j, y, sends)
    ensures Room(after, x, k) + (if (y, j) == (x, k) then 1 else 0) <= Room(net, x, k)
  {}

  /** A delivery or loss takes a request out of the flight; only broadcasts put some in. */
  lemma StepFlight(net: Net, s: NetStep)
    requires Enabled(net, s)
    ensures |Step(net, s).flight| + (if s.Start? then 0 else 1)
         <= |net.flight| + (if Broadcasts(net, s) then |net.nodes| else 0)
    ensures Step(net, s).nodes == net.nodes
  {}

  lemma {:induction false} StepUsesTotalRoom(net: Net, s: NetStep, pairs: seq<(Word, Key)>)
    requires Good(net) && Enabled(net, s)
    ensures TotalRoom(Step(net, s), pairs) <= TotalRoom(net, pairs)
    ensures Broadcasts(net, s) && Subject(s) in pairs ==> TotalRoom(Step(net, s), pairs) < TotalRoom(net, pairs)
  {
    if pairs != [] {
      StepUsesRoom(net, s, pairs[0].0, pairs[0].1);
      StepUsesTotalRoom(net, s, pairs[1..]);
    }
  }

  /** The steps of the run concern no other node and discovery than those in `pairs`. */
  predicate Within(steps: seq<NetStep>, pairs: seq<(Word, Key)>) {
    forall i | 0 <= i < |steps| :: Subject(steps[i]) in pairs
  }

  /** What a network can still do: the room of its nodes, and the requests in flight. */
  function Budget(net: Net, pairs: seq<(Word, Key)>): nat {
    TotalRoom(net, pairs) * (|net.nodes| + 1) + |net.flight|
  }

  lemma StepSpends(net: Net, s: NetStep, pairs: seq<(Word, Key)>)
    requires Good(net) && Enabled(net, s) && Subject(s) in pairs
    ensures Budget(Step(net, s), pairs) < Budget(net, pairs)
  {
    hide Good, Step, TotalRoom, Subject, Initiate, Receive;
    assert s.Start? ==> Broadcasts(net, s);
    hide Enabled, Broadcasts;
    StepFlight(net, s);
    StepUsesTotalRoom(net, s, pairs);
    BroadcastCosts(TotalRoom(net, pairs), TotalRoom(Step(net, s), pairs), |net.nodes| + 1, Broadcasts(net, s));
  }

  /** The flood stops: the length of every run is bounded by what the network could do. */
  lemma {:induction false} FloodStops(net: Net, steps: seq<NetStep>, pairs: seq<(Word, Key)>)
    requires Good(net) && Runs(net, steps) && Within(steps, pairs)
    ensures |steps| <= Budget(net, pairs)
    decreases |steps|
  {
    if steps != [] {
      assert Subject(steps[0]) in pairs;
      StepSpends(net, steps[0], pairs);
      StepKeepsGood(net, steps[0]);
      FloodStops(Step(net, steps[0]), steps[1..], pairs);
    }
  }

  /** A broadcast costs at least one unit of room, worth `n` steps. */
  lemma BroadcastCosts(a: nat, b: nat, n: nat, broadcast: bool)
    requires b <= a && (broadcast ==> b < a)
    ensures b * n + (if broadcast then n else 0) <= a * n
  {
    Monotone(b, if broadcast then a - 1 else a, n);
    assert (a - 1) * n == a * n - n;
  }

  lemma Monotone(a: int, b: int, n: nat)
    requires a <= b
    ensures a * n <= b * n
  {}

  /** How often node `x` broadcasts a request for `k` in a run. */
  function BroadcastsOf(net: Net, steps: seq<NetStep>, x: Word, k: Key): nat
    requires Runs(net, steps)
    decreases |steps|
  {
    if steps == [] then 0
    else
      (if Broadcasts(net, steps[0]) && Subject(steps[0]) == (x, k) then 1 else 0)
      + BroadcastsOf(Step(net, steps[0]), steps[1..], x, k)
  }

  lemma {:induction false} BroadcastsUseRoom(net: Net, steps: seq<NetStep>, x: Word, k: Key)
    requires Good(net) && Runs(net, steps)
    ensures BroadcastsOf(net, steps, x, k) + Room(End(net, steps), x, k) <= Room(net, x, k)
    decreases |steps|
  {
    if steps != [] {
      StepUsesRoom(net, steps[0], x, k);
      StepKeepsGood(net, steps[0]);
      BroadcastsUseRoom(Step(net, steps[0]), steps[1..], x, k);
    }
  }

  /** A node rebroadcasts the same request at most 256 times, in any run from an idle network. */
  lemma RebroadcastsBounded(nodes: seq<Word>, steps: seq<NetStep>, x: Word, k: Key)
    requires Runs(Idle(nodes), steps)
    ensures BroadcastsOf(Idle(nodes), steps, x, k) <= 256
  {
    IdleIsGood(nodes);
    BroadcastsUseRoom(Idle(nodes), steps, x, k);
  }

  // ----- a node in memory -----

  class Node {
    const addr: Word
    const table: array<Entry>
    var timerRunning: bool

    constructor (addr: Word)
      ensures this.addr == addr && fresh(table) && table.Length == 5 && !timerRunning
      ensures UniqueKeys(table[..]) && forall k :: !Has(table[..], k)
    {
      this.addr := addr;
      table := new Entry[TABLE_SIZE](_ => Entry(Key(0, 0, 0), 0, 0, 0, 0));
      timerRunning := false;
    }

    /** nwkRouteDiscoveryFindEntry */
    method FindEntry(k: Key) returns (r: Option<nat>)
      ensures r == Find(table[..], k)
    {
      for i := 0 to table.Length
        invariant Find(table[..], k) == Find(table[..], k, i)
      {
        if table[i].timeout > 0 && table[i].key.src == k.src && table[i].key.dst == k.dst &&
           table[i].key.multicast == k.multicast {
          return Some(i);
        }
      }
      r := None;
    }

    /** nwkRouteDiscoveryNewEntry */
    method NewEntry() returns (r: Option<nat>)
      modifies table, this`timerRunning
      ensures r == FreeSlot(old(table[..]))
      ensures r.None? ==> table[..] == old(table[..]) && timerRunning == old(timerRunning)
      ensures r.Some? ==> timerRunning && var e := old(table[r.value]);
        table[..] == old(table[..])[r.value := e.(forward := NO_LINK, reverse := NO_LINK, timeout := TIMEOUT)]
    {
      r := None;
      var i := 0;
      while i < table.Length
        invariant i <= table.Length && r.None? && table[..] == old(table[..])
        invariant FreeSlot(table[..]) == FreeSlot(table[..], i)
      {
        if table[i].timeout == 0 {
          r := Some(i);
          break;
        }
        i := i + 1;
      }
      if r.Some? {
        table[r.value] := table[r.value].(forward := NO_LINK, reverse := NO_LINK, timeout := TIMEOUT);
        timerRunning := true;
      }
    }

    /** nwkRouteDiscoveryRequest, up to the frame that waits */
    method DiscoveryRequest(dst: Word, multicast: Byte) returns (out: Outcome)
      modifies table, this`timerRunning
      ensures table[..] == Initiate(addr, old(table[..]), dst, multicast).0
      ensures out == Initiate(addr, old(table[..]), dst, multicast).1
      ensures out.Forwarded? ==> timerRunning
    {
      var k := Key(addr, dst, multicast);
      var found := FindEntry(k);
      if found.Some? {
        return Ignored;
      }
      var slot := NewEntry();
      if slot.None? {
        return Ignored;
      }
      table[slot.value] := table[slot.value].(key := k, sender := BROADCAST);
      out := Forwarded(Request(k, BEST_LINK_QUALITY));
    }

    /** nwkRouteDiscoveryRequestReceived */
    method RequestReceived(sender: Word, req: Request, lqi: Byte) returns (out: Outcome)
      modifies table, this`timerRunning
      ensures table[..] == Receive(addr, old(table[..]), sender, req, lqi).0
      ensures out == Receive(addr, old(table[..]), sender, req, lqi).1
    {
      var k := req.key;
      var reply := k.multicast == 0 && k.dst == addr;
      if k.src == addr {
        return Ignored;
      }
      if !reply && addr >= NON_ROUTING {
        return Ignored;
      }
      var lq := UpdateLq(req.linkQuality, lqi);
      var entry := FindEntry(k);
      if entry.Some? {
        if lq <= table[entry.value].forward {
          return Ignored;
        }
      } else {
        entry := NewEntry();
        if entry.None? {
          return Ignored;
        }
      }
      table[entry.value] := table[entry.value].(key := k, sender := sender, forward := lq);
      if reply {
        out := Replied(k, sender, lq);
      } else {
        out := Forwarded(Request(k, lq));
      }
    }

    /** nwkRouteDiscoveryReplyReceived */
    method ReplyReceived(sender: Word, k: Key, forward: Byte, reverse: Byte, lqi: Byte) returns (out: ReplyOutcome)
      modifies table
      ensures table[..] == ReceiveReply(addr, old(table[..]), sender, k, forward, reverse, lqi).0
      ensures out == ReceiveReply(addr, old(table[..]), sender, k, forward, reverse, lqi).1
    {
      var entry := FindEntry(k);
      var lq := UpdateLq(reverse, lqi);
      if entry.None? || forward <= table[entry.value].reverse {
        return NotBetter;
      }
      var i := entry.value;
      table[i] := table[i].(reverse := forward);
      if k.src == addr {
        out := Installed([RouteUpdate(k.dst, k.multicast, sender, forward)], None);
      } else {
        out := Installed([RouteUpdate(k.dst, k.multicast, sender, lq),
                          RouteUpdate(k.src, 0, table[i].sender, table[i].forward)],
                         Some(Reply(table[i].sender, k, forward, lq)));
      }
    }

    /** nwkRouteDiscoveryTimerHandler */
    method TimerHandler() returns (done: seq<(Key, bool)>)
      modifies table, this`timerRunning
      ensures table[..] == Age(old(table[..])) && done == Done(addr, old(table[..]))
      ensures timerRunning <==> exists i | 0 <= i < table.Length :: table[i].timeout > 0
    {
      ghost var was := table[..];
      assert Done(addr, was[..0]) == [];
      hide Age, Done;
      done := [];
      var restart := false;
      for i := 0 to table.Length
        invariant forall j | 0 <= j < i :: table[j] == Aged(was[j])
        invariant forall j | i <= j < table.Length :: table[j] == was[j]
        invariant done == Done(addr, was[..i])
        invariant restart <==> exists j | 0 <= j < i :: table[j].timeout > 0
      {
        DoneLonger(addr, was, i);
        if table[i].timeout > TIMER_INTERVAL {
          table[i] := table[i].(timeout := table[i].timeout - TIMER_INTERVAL);
          restart := true;
        } else {
          table[i] := table[i].(timeout := 0);
          if table[i].key.src == addr {
            done := done + [(table[i].key, table[i].reverse > 0)];
          }
        }
      }
      assert was[..table.Length] == was;
      timerRunning := restart;
    }
  }
}
