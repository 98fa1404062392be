/** Route discovery with expiry: no loops, as long as an entry does not expire before its flood is over. */
module DiscoveryExpiry {
  import opened Types
  import opened Discovery

  /** A step of the flood, or a firing of a node's timer. */
  datatype AgingStep = Flood(step: NetStep) | Tick(node: Word)

  predicate Can(net: Net, s: AgingStep) {
    match s
    case Flood(step) => Enabled(net, step)
    case Tick(x) => x in net.tables
  }

  function Next(net: Net, s: AgingStep): Net
    requires Can(net, s)
  {
    match s
    case Flood(step) => Step(net, step)
    case Tick(x) => net.(tables := net.tables[x := Age(net.tables[x])])
  }

  /** The node's entry for `k` expires with this step. */
  predicate Expires(net: Net, s: AgingStep, k: Key) {
    s.Tick? && Knows(net, s.node, k) && !Has(Age(net.tables[s.node]), k)
  }

  ghost predicate Calm(net: Net, k: Key) {
    forall c | c in net.flight :: c.request.key != k
  }

  // ----- what every step keeps -----

  /** `y` is nearer the source than `x`: its path is of a later flood, or is of the same and better. */
  predicate Above(net: Net, k: Key, floods: map<Word, nat>, y: Word, x: Word)
    requires Knows(net, y, k) && Knows(net, x, k)
  {
    && y in floods && x in floods
    && (floods[y] > floods[x] || (floods[y] == floods[x] && Nearer(net, k, y, x)))
  }

  /** The entry of `x` names the source, a node that is nearer, or one whose entry has expired since. */
  predicate SenderOk(net: Net, k: Key, era: nat, floods: map<Word, nat>, x: Word)
    requires Knows(net, x, k)
  {
    && x in floods && floods[x] <= era
    && (x, k) in net.births && net.births[(x, k)] < net.clock
    && (x != k.src ==>
          var y := From(net, x, k);
          y == k.src || if Knows(net, y, k) then Above(net, k, floods, y, x) else floods[x] < era)
  }

  /** A request on its way is of the latest flood. */
  predicate CopyFresh(net: Net, k: Key, era: nat, floods: map<Word, nat>, c: Copy) {
    c.request.key == k ==>
      && c.sender != c.to
      && (c.sender == k.src ||
          (&& Knows(net, c.sender, k) && At(net, c.sender, k) >= c.request.linkQuality
           && c.sender in floods && floods[c.sender] == era))
  }

  /** `era` counts the expiries of entries for `k`, and `floods` tells at which count a node adopted its path. */
  ghost predicate Ordered(net: Net, k: Key, era: nat, floods: map<Word, nat>) {
    && (forall x | x in net.tables :: UniqueKeys(net.tables[x]))
    && (forall c | c in net.flight :: CopyFresh(net, k, era, floods, c))
    && forall x: Word | Knows(net, x, k) :: SenderOk(net, k, era, floods, x)
  }

  /** What an adoption leaves as it was. */
  lemma OthersStay(net: Net, after: Net, j: Key, x: Word, sends: multiset<Copy>, k: Key, z: Word)
    requires Adopts(net, after, j, x, sends) && (z != x || j != k)
    ensures Knows(after, z, k) <==> Knows(net, z, k)
    ensures Knows(net, z, k) ==> At(after, z, k) == At(net, z, k) && From(after, z, k) == From(net, z, k)
    ensures (z, k) in net.births ==> (z, k) in after.births && after.births[(z, k)] == net.births[(z, k)]
  {
    hide Find, Quality, Sender, UniqueKeys;
  }

  /** The sender of the path that `x` adopts for `k` is good for it. */
  predicate FromAbove(net: Net, after: Net, k: Key, era: nat, floods: map<Word, nat>, x: Word)
    requires Knows(after, x, k)
  {
    x == k.src ||
    (var y := From(after, x, k);
     && y != x
     && (y == k.src ||
         (&& Knows(net, y, k) && y in floods && floods[y] == era
          && (At(net, y, k) > At(after, x, k) || (At(net, y, k) == At(after, x, k) == 0 && !Knows(net, x, k))))))
  }

  lemma AdoptedHere(net: Net, after: Net, k: Key, x: Word, sends: multiset<Copy>)
    requires Adopts(net, after, k, x, sends)
    ensures Knows(after, x, k) && (Knows(net, x, k) ==> At(net, x, k) < At(after, x, k))
    ensures !Knows(net, x, k) ==> (x, k) in after.births && after.births[(x, k)] == net.clock
    ensures Knows(net, x, k) ==> after.births == net.births
    ensures after.clock == net.clock + 1
    ensures after.flight <= net.flight + sends
    ensures forall z | z in after.tables :: z in net.tables && (z != x ==> after.tables[z] == net.tables[z])
    ensures UniqueKeys(after.tables[x])
  {}

  lemma AdoptionKeepsSender(net: Net, after: Net, k: Key, era: nat, floods: map<Word, nat>, x: Word,
                            sends: multiset<Copy>, z: Word)
    requires Ordered(net, k, era, floods) && Adopts(net, after, k, x, sends)
    requires Knows(after, x, k) && FromAbove(net, after, k, era, floods, x) && Knows(after, z, k)
    ensures SenderOk(after, k, era, floods[x := era], z)
  {
    AdoptedHere(net, after, k, x, sends);
    if Knows(net, x, k) { assert SenderOk(net, k, era, floods, x); }
    if z != x {
      OthersStay(net, after, k, x, sends, k, z);
      assert SenderOk(net, k, era, floods, z);
    }
    var y := From(after, z, k);
    if y != x { OthersStay(net, after, k, x, sends, k, y); }
    if Knows(net, y, k) { assert SenderOk(net, k, era, floods, y); }
    hide Ordered, Adopts, Has, Quality, Sender, UniqueKeys;
  }

  lemma AdoptionKeepsCopies(net: Net, after: Net, k: Key, era: nat, floods: map<Word, nat>, x: Word,
                            sends: multiset<Copy>, c: Copy)
    requires Adopts(net, after, k, x, sends) && CopyFresh(net, k, era, floods, c)
    ensures CopyFresh(after, k, era, floods[x := era], c)
  {
    AdoptedHere(net, after, k, x, sends);
    if c.sender != x { OthersStay(net, after, k, x, sends, k, c.sender); }
    hide Adopts, Has, Quality, Sender, UniqueKeys;
  }

  lemma AdoptionKeepsOrdered(net: Net, after: Net, k: Key, era: nat, floods: map<Word, nat>, x: Word,
                             sends: multiset<Copy>)
    requires Ordered(net, k, era, floods) && Adopts(net, after, k, x, sends)
    requires Knows(after, x, k) && FromAbove(net, after, k, era, floods, x)
    requires forall c | c in sends :: CopyFresh(after, k, era, floods[x := era], c)
    ensures Ordered(after, k, era, floods[x := era])
  {
    AdoptedHere(net, after, k, x, sends);
    hide Adopts, CopyFresh, SenderOk, FromAbove, UniqueKeys, Knows;
    forall c | c in after.flight ensures CopyFresh(after, k, era, floods[x := era], c) {
      if c !in sends { AdoptionKeepsCopies(net, after, k, era, floods, x, sends, c); }
    }
    forall z: Word | Knows(after, z, k) { AdoptionKeepsSender(net, after, k, era, floods, x, sends, z); }
  }

  /** Another discovery does not matter. */
  lemma OtherKeepsOrdered(net: Net, after: Net, j: Key, x: Word, sends: multiset<Copy>, k: Key, era: nat,
                          floods: map<Word, nat>)
    requires Ordered(net, k, era, floods) && Adopts(net, after, j, x, sends) && j != k
    requires forall c | c in sends :: c.request.key == j
    ensures Ordered(after, k, era, floods)
  {
    AdoptedHere(net, after, j, x, sends);
    forall z: Word { OthersStay(net, after, j, x, sends, k, z); }
    hide Adopts, UniqueKeys, Has, Quality, Sender;
    forall z: Word | Knows(after, z, k) ensures SenderOk(after, k, era, floods, z) {
      assert SenderOk(net, k, era, floods, z);
      var y := From(net, z, k);
      if Knows(net, y, k) { assert SenderOk(net, k, era, floods, y); }
    }
    forall c | c in after.flight ensures CopyFresh(after, k, era, floods, c) {
      if c !in sends { assert CopyFresh(net, k, era, floods, c); }
    }
  }

  lemma StartKeepsOrdered(net: Net, x: Word, dst: Word, multicast: Byte, sent: bool, k: Key, era: nat,
                          floods: map<Word, nat>)
    requires Ordered(net, k, era, floods) && Enabled(net, Start(x, dst, multicast, sent))
    ensures var after := Step(net, Start(x, dst, multicast, sent));
            Ordered(after, k, era, if Key(x, dst, multicast) == k then floods[x := era] else floods)
  {
    var after, j := Step(net, Start(x, dst, multicast, sent)), Key(x, dst, multicast);
    var sends := Copies(net.nodes, x, Request(j, BEST_LINK_QUALITY));
    StartAdopts(net, x, dst, multicast, sent);
    if j == k {
      AdoptedHere(net, after, k, x, sends);
      AdoptionKeepsOrdered(net, after, k, era, floods, x, sends);
    } else {
      OtherKeepsOrdered(net, after, j, x, sends, k, era, floods);
    }
  }

  /** Nothing but the flight and the clock changes. */
  lemma SameTables(net: Net, after: Net, k: Key, era: nat, floods: map<Word, nat>)
    requires Ordered(net, k, era, floods) && after.tables == net.tables && after.births == net.births
    requires after.flight <= net.flight && after.clock >= net.clock
    ensures Ordered(after, k, era, floods)
  {
    hide Has, Quality, Sender, UniqueKeys;
    forall z: Word | Knows(after, z, k) ensures SenderOk(after, k, era, floods, z) {
      assert SenderOk(net, k, era, floods, z);
    }
    forall c | c in after.flight ensures CopyFresh(after, k, era, floods, c) {
      assert CopyFresh(net, k, era, floods, c);
    }
  }

  /** A request that is taken comes from above. */
  lemma TakenFromAbove(net: Net, c: Copy, lqi: Byte, sent: bool, era: nat, floods: map<Word, nat>)
    requires Enabled(net, Deliver(c, lqi, sent)) && UniqueKeys(net.tables[c.to])
    requires CopyFresh(net, c.request.key, era, floods, c)
    requires !Receive(c.to, net.tables[c.to], c.sender, c.request, lqi).1.Ignored?
    ensures var after, k := Step(net, Deliver(c, lqi, sent)), c.request.key;
            Knows(after, c.to, k) && FromAbove(net, after, k, era, floods, c.to)
  {
    var after, k := Step(net, Deliver(c, lqi, sent)), c.request.key;
    var sends := Copies(net.nodes, c.to, Request(k, UpdateLq(c.request.linkQuality, lqi)));
    DeliverAdopts(net, c, lqi, sent);
    AdoptedHere(net, after, k, c.to, sends);
    hide Step, Receive, Adopts, UpdateLq, Has, Quality, Sender, UniqueKeys;
  }

  lemma TakingKeepsOrdered(net: Net, c: Copy, lqi: Byte, sent: bool, k: Key, era: nat, floods: map<Word, nat>)
    requires Ordered(net, k, era, floods) && Enabled(net, Deliver(c, lqi, sent))
    requires !Receive(c.to, net.tables[c.to], c.sender, c.request, lqi).1.Ignored?
    ensures var after := Step(net, Deliver(c, lqi, sent));
            Ordered(after, k, era, if c.request.key == k then floods[c.to := era] else floods)
  {
    var after, j := Step(net, Deliver(c, lqi, sent)), c.request.key;
    var sends := Copies(net.nodes, c.to, Request(j, UpdateLq(c.request.linkQuality, lqi)));
    assert CopyFresh(net, k, era, floods, c);
    DeliverAdopts(net, c, lqi, sent);
    if j == k { TakenFromAbove(net, c, lqi, sent, era, floods); }
    hide Step, Receive, Adopts, Ordered, UpdateLq, FromAbove;
    if j == k {
      AdoptionKeepsOrdered(net, after, k, era, floods, c.to, sends);
    } else {
      OtherKeepsOrdered(net, after, j, c.to, sends, k, era, floods);
    }
  }

  lemma IgnoringKeepsOrdered(net: Net, c: Copy, lqi: Byte, sent: bool, k: Key, era: nat, floods: map<Word, nat>)
    requires Ordered(net, k, era, floods) && Enabled(net, Deliver(c, lqi, sent))
    requires Receive(c.to, net.tables[c.to], c.sender, c.request, lqi).1.Ignored?
    ensures Ordered(Step(net, Deliver(c, lqi, sent)), k, era, floods)
  {
    ReceiveEffect(c.to, net.tables[c.to], c.sender, c.request, lqi, k);
    var after := Step(net, Deliver(c, lqi, sent));
    assert after.tables == net.tables && after.births == net.births;
    hide Ordered;
    SameTables(net, after, k, era, floods);
  }

  lemma AgedEntries(t: seq<Entry>, k: Key)
    requires UniqueKeys(t)
    ensures UniqueKeys(Age(t))
    ensures Has(Age(t), k) ==> Has(t, k) && Quality(Age(t), k) == Quality(t, k) && Sender(Age(t), k) == Sender(t, k)
  {
    var a, b := Find(Age(t), k), Find(t, k);
    if a.Some? { assert Age(t)[a.value] == Aged(t[a.value]) && t[a.value].timeout > 0; }
  }

  /** The table of node `x` ages: the entries that are left are as before. */
  predicate AgesAt(net: Net, after: Net, x: Word, k: Key) {
    && x in net.tables && x in after.tables && after == net.(tables := net.tables[x := after.tables[x]])
    && (Knows(after, x, k) ==>
          Knows(net, x, k) && At(after, x, k) == At(net, x, k) && From(after, x, k) == From(net, x, k))
  }

  lemma AgingKeepsSender(net: Net, after: Net, x: Word, k: Key, era: nat, floods: map<Word, nat>, z: Word)
    requires AgesAt(net, after, x, k) && Knows(after, z, k)
    requires SenderOk(net, k, era, floods, z) && !(Knows(net, x, k) && !Knows(after, x, k))
    ensures SenderOk(after, k, era, floods, z)
  {
    hide Has, Quality, Sender;
  }

  lemma ExpiryKeepsSender(net: Net, after: Net, x: Word, k: Key, era: nat, floods: map<Word, nat>, z: Word)
    requires AgesAt(net, after, x, k) && Knows(after, z, k) && SenderOk(net, k, era, floods, z)
    ensures SenderOk(after, k, era + 1, floods, z)
  {
    hide Has, Quality, Sender;
  }

  lemma AgingKeepsCopy(net: Net, after: Net, x: Word, k: Key, era: nat, floods: map<Word, nat>, c: Copy)
    requires AgesAt(net, after, x, k) && CopyFresh(net, k, era, floods, c)
    requires !(Knows(net, x, k) && !Knows(after, x, k))
    ensures CopyFresh(after, k, era, floods, c)
  {
    hide Has, Quality, Sender;
  }

  lemma TickKeepsOrdered(net: Net, x: Word, k: Key, era: nat, floods: map<Word, nat>)
    requires Ordered(net, k, era, floods) && Can(net, Tick(x))
    requires Expires(net, Tick(x), k) ==> Calm(net, k)
    ensures Ordered(Next(net, Tick(x)), k, if Expires(net, Tick(x), k) then era + 1 else era, floods)
  {
    var after := Next(net, Tick(x));
    var later := if Expires(net, Tick(x), k) then era + 1 else era;
    AgedEntries(net.tables[x], k);
    assert AgesAt(net, after, x, k);
    assert Expires(net, Tick(x), k) <==> Knows(net, x, k) && !Knows(after, x, k);
    hide AgesAt, UniqueKeys, Age, SenderOk, CopyFresh, Expires;
    forall z: Word | Knows(after, z, k) ensures SenderOk(after, k, later, floods, z) {
      assert Knows(net, z, k) by { AgedKnows(net, after, x, k, z); }
      if later == era { AgingKeepsSender(net, after, x, k, era, floods, z); }
      else { ExpiryKeepsSender(net, after, x, k, era, floods, z); }
    }
    hide Knows;
    forall c | c in after.flight ensures CopyFresh(after, k, later, floods, c) {
      assert CopyFresh(net, k, era, floods, c);
      if later == era { AgingKeepsCopy(net, after, x, k, era, floods, c); }
      else { OtherCopy(after, k, later, floods, c); }
    }
  }

  lemma AgedKnows(net: Net, after: Net, x: Word, k: Key, z: Word)
    requires AgesAt(net, after, x, k) && Knows(after, z, k)
    ensures Knows(net, z, k)
  {}

  lemma OtherCopy(net: Net, k: Key, era: nat, floods: map<Word, nat>, c: Copy)
    requires c.request.key != k
    ensures CopyFresh(net, k, era, floods, c)
  {}

  lemma NextKeepsOrdered(net: Net, s: AgingStep, k: Key, era: nat, floods: map<Word, nat>)
      returns (era': nat, floods': map<Word, nat>)
    requires Ordered(net, k, era, floods) && Can(net, s) && (Expires(net, s, k) ==> Calm(net, k))
    ensures Ordered(Next(net, s), k, era', floods')
  {
    era', floods' := era, floods;
    hide Ordered, Calm, Receive, Step;
    match s
    case Tick(x) =>
      era' := if Expires(net, s, k) then era + 1 else era;
      TickKeepsOrdered(net, x, k, era, floods);
    case Flood(Start(x, dst, multicast, sent)) =>
      floods' := if Key(x, dst, multicast) == k then floods[x := era] else floods;
      StartKeepsOrdered(net, x, dst, multicast, sent, k, era, floods);
    case Flood(Deliver(c, lqi, sent)) =>
      if Receive(c.to, net.tables[c.to], c.sender, c.request, lqi).1.Ignored? {
        IgnoringKeepsOrdered(net, c, lqi, sent, k, era, floods);
      } else {
        floods' := if c.request.key == k then floods[c.to := era] else floods;
        TakingKeepsOrdered(net, c, lqi, sent, k, era, floods);
      }
    case Flood(Lose(c)) =>
      LosingKeepsOrdered(net, c, k, era, floods);
  }

  lemma LosingKeepsOrdered(net: Net, c: Copy, k: Key, era: nat, floods: map<Word, nat>)
    requires Ordered(net, k, era, floods) && Enabled(net, Lose(c))
    ensures Ordered(Step(net, Lose(c)), k, era, floods)
  {
    hide Ordered;
    SameTables(net, Step(net, Lose(c)), k, era, floods);
  }

  // ----- runs -----

  predicate Happens(net: Net, steps: seq<AgingStep>)
    decreases |steps|
  {
    steps == [] || (Can(net, steps[0]) && Happens(Next(net, steps[0]), steps[1..]))
  }

  function After(net: Net, steps: seq<AgingStep>): Net
    requires Happens(net, steps)
    decreases |steps|
  {
    if steps == [] then net else After(Next(net, steps[0]), steps[1..])
  }

  /** No entry for `k` expires while a request for `k` is on its way. */
  ghost predicate InTime(net: Net, steps: seq<AgingStep>, k: Key)
    requires Happens(net, steps)
    decreases |steps|
  {
    steps != [] ==>
      (Expires(net, steps[0], k) ==> Calm(net, k)) && InTime(Next(net, steps[0]), steps[1..], k)
  }

  lemma {:induction false} RunKeepsOrdered(net: Net, steps: seq<AgingStep>, k: Key, era: nat, floods: map<Word, nat>)
      returns (era': nat, floods': map<Word, nat>)
    requires Ordered(net, k, era, floods) && Happens(net, steps) && InTime(net, steps, k)
    ensures Ordered(After(net, steps), k, era', floods')
    decreases |steps|
  {
    hide Ordered, Next, Can, Expires, Calm;
    era', floods' := era, floods;
    if steps != [] {
      era', floods' := NextKeepsOrdered(net, steps[0], k, era, floods);
      era', floods' := RunKeepsOrdered(Next(net, steps[0]), steps[1..], k, era', floods');
    }
  }

  /** `p` follows the senders of live entries for `k`, at most up to the source. */
  ghost predicate Follows(net: Net, k: Key, p: seq<Word>) {
    forall i | 0 <= i < |p| - 1 :: p[i] != k.src && Knows(net, p[i], k) && From(net, p[i], k) == p[i + 1]
  }

  lemma {:induction false} AboveOnTheWay(net: Net, k: Key, era: nat, floods: map<Word, nat>, p: seq<Word>,
                                         i: nat, j: nat)
    requires Ordered(net, k, era, floods) && Follows(net, k, p) && i < j < |p|
    ensures p[j] == k.src || !Knows(net, p[j], k) || Above(net, k, floods, p[j], p[i])
    decreases j - i
  {
    hide Knows, From, UniqueKeys;
    assert SenderOk(net, k, era, floods, p[i]);
    if i + 1 < j {
      AboveOnTheWay(net, k, era, floods, p, i + 1, j);
    }
  }

  /** Loop freedom with expiry: in every run in which no entry for `k` expires while requests for `k` are on
      their way, following the senders of live entries meets no node twice. */
  lemma LoopFreeInTime(nodes: seq<Word>, steps: seq<AgingStep>, k: Key, p: seq<Word>)
    requires Happens(Idle(nodes), steps) && InTime(Idle(nodes), steps, k)
    requires Follows(After(Idle(nodes), steps), k, p)
    ensures NoneTwice(p)
  {
    assert Ordered(Idle(nodes), k, 0, map[]) by { IdleIsGood(nodes); NobodyKnows(nodes, k); }
    var era, floods := RunKeepsOrdered(Idle(nodes), steps, k, 0, map[]);
    var net := After(Idle(nodes), steps);
    hide Ordered, After, Happens, InTime, Idle, Knows, From;
    forall i, j | 0 <= i < j < |p| ensures p[i] != p[j] {
      assert p[i] != k.src && Knows(net, p[i], k);
      AboveOnTheWay(net, k, era, floods, p, i, j);
    }
  }

  lemma NobodyKnows(nodes: seq<Word>, k: Key)
    ensures forall x: Word :: !Knows(Idle(nodes), x, k)
  {
    var net := Idle(nodes);
    forall x: Word | x in net.tables ensures !Has(net.tables[x], k) {
      assert forall i | 0 <= i < TABLE_SIZE :: net.tables[x][i].timeout == 0;
    }
  }
}
