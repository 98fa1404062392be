/** Replies of a route discovery: a node takes only strictly better ones, so installed routes have no loops. */
module DiscoveryReplies {
  import opened Types
  import opened Discovery

  /** A reply on its way. */
  datatype Answer = Answer(sender: Word, reply: Reply)

  /** A network with its replies and, per node, destination and kind, the next hop. `took` is history: from
      whom, and when, a node took its best reply. */
  datatype World = World(net: Net, answers: multiset<Answer>, hops: map<(Word, Word, Byte), Word>,
                         took: map<(Word, Key), (Word, nat)>)

  /** A step of the flood, with a reply if the node had a frame for one; the arrival or loss of a reply; or a
      route that some node drops. */
  datatype WorldStep =
    | Ask(step: NetStep, answered: bool)
    | Hear(answer: Answer, lqi: Byte, sent: bool)
    | Miss(answer: Answer)
    | Drop(node: Word, dst: Word, multicast: Byte)

  predicate Possible(w: World, s: WorldStep) {
    match s
    case Ask(step, _) => Enabled(w.net, step)
    case Hear(a, _, _) => a in w.answers && a.reply.to in w.net.tables
    case Miss(a) => a in w.answers
    case Drop(_, _, _) => true
  }

  function Route(hops: map<(Word, Word, Byte), Word>, x: Word, u: RouteUpdate): map<(Word, Word, Byte), Word> {
    hops[(x, u.dst, u.multicast) := u.hop]
  }

  function RouteAll(hops: map<(Word, Word, Byte), Word>, x: Word, us: seq<RouteUpdate>): map<(Word, Word, Byte), Word>
    decreases |us|
  {
    if us == [] then hops else RouteAll(Route(hops, x, us[0]), x, us[1..])
  }

  /** What a step of the flood makes a node reply. */
  function OutcomeOf(net: Net, s: NetStep): Outcome
    requires Enabled(net, s)
  {
    if s.Deliver? then Receive(s.copy.to, net.tables[s.copy.to], s.copy.sender, s.copy.request, s.lqi).1 else Ignored
  }

  function Asked(w: World, s: NetStep, answered: bool): World
    requires Enabled(w.net, s)
  {
    match OutcomeOf(w.net, s)
    case Replied(k, to, forward) =>
      var x := s.copy.to;
      w.(net := Step(w.net, s), hops := Route(w.hops, x, RouteUpdate(k.src, 0, to, forward)),
         answers := w.answers + if answered then multiset{Answer(x, Reply(to, k, forward, BEST_LINK_QUALITY))}
                                else multiset{})
    case _ => w.(net := Step(w.net, s))
  }

  function Heard(w: World, a: Answer, lqi: Byte, sent: bool): World
    requires a in w.answers && a.reply.to in w.net.tables
  {
    var x, k := a.reply.to, a.reply.key;
    var (t, out) := ReceiveReply(x, w.net.tables[x], a.sender, k, a.reply.forward, a.reply.reverse, lqi);
    var left := w.answers - multiset{a};
    match out
    case NotBetter => w.(answers := left)
    case Installed(routes, reply) =>
      World(w.net.(tables := w.net.tables[x := t], clock := w.net.clock + 1),
            left + (if reply.Some? && sent then multiset{Answer(x, reply.value)} else multiset{}),
            RouteAll(w.hops, x, routes), w.took[(x, k) := (a.sender, w.net.clock)])
  }

  function Next(w: World, s: WorldStep): World
    requires Possible(w, s)
  {
    match s
    case Ask(step, answered) => Asked(w, step, answered)
    case Hear(a, lqi, sent) => Heard(w, a, lqi, sent)
    case Miss(a) => w.(answers := w.answers - multiset{a})
    case Drop(x, dst, multicast) => w.(hops := w.hops - {(x, dst, multicast)})
  }

  /** The destination answers a request that it takes to the node it came from, with the quality of the path
      and the best one for the way back, and routes to the source through that node. */
  lemma DestinationAnswers(w: World, c: Copy, lqi: Byte, sent: bool)
    requires c in w.net.flight && c.to in w.net.tables
    requires c.request.key.multicast == 0 && c.request.key.dst == c.to
    requires !Receive(c.to, w.net.tables[c.to], c.sender, c.request, lqi).1.Ignored?
    ensures var after := Next(w, Ask(Deliver(c, lqi, sent), true));
            var (k, lq) := (c.request.key, c.request.linkQuality * lqi / 256);
            && after.answers == w.answers + multiset{Answer(c.to, Reply(c.sender, k, lq, 255))}
            && after.hops == w.hops[(c.to, k.src, 0) := c.sender]
  {}

  // ----- what every step keeps -----

  /** The quality of the best reply that was taken; 0 when there was none. */
  function BestIn(t: seq<Entry>, k: Key): Byte {
    if Has(t, k) then t[Find(t, k).value].reverse else NO_LINK
  }

  function Best(net: Net, x: Word, k: Key): Byte {
    if x in net.tables then BestIn(net.tables[x], k) else NO_LINK
  }

  /** `y` is nearer the destination than `x`: it is the destination, took a reply about a better path, or one
      about the same path earlier. */
  predicate Closer(w: World, k: Key, y: Word, x: Word) {
    || IsDestination(y, k)
    || Best(w.net, y, k) > Best(w.net, x, k)
    || (&& Best(w.net, y, k) == Best(w.net, x, k) && (y, k) in w.took && (x, k) in w.took
        && w.took[(y, k)].1 < w.took[(x, k)].1)
  }

  /** A node that took a reply took it from one that is closer. */
  predicate TookOk(w: World, x: Word, k: Key) {
    Best(w.net, x, k) > 0 ==>
      (x, k) in w.took && w.took[(x, k)].1 < w.net.clock && Closer(w, k, w.took[(x, k)].0, x)
  }

  /** A reply on its way comes from the destination, or from a node that took it. */
  predicate AnswerOk(w: World, a: Answer) {
    IsDestination(a.sender, a.reply.key) || Best(w.net, a.sender, a.reply.key) >= a.reply.forward
  }

  ghost predicate Sound(w: World) {
    && Good(w.net)
    && (forall a | a in w.answers :: AnswerOk(w, a))
    && forall x: Word, k: Key :: TookOk(w, x, k)
  }

  /** A request changes no entry's best reply, and a new entry has none. */
  lemma RequestKeepsBest(addr: Word, t: seq<Entry>, sender: Word, req: Request, lqi: Byte, k: Key)
    requires UniqueKeys(t)
    ensures BestIn(Receive(addr, t, sender, req, lqi).0, k) == BestIn(t, k)
  {
    var (after, out) := Receive(addr, t, sender, req, lqi);
    if !out.Ignored? {
      var found := Find(t, req.key);
      var slot := if found.Some? then found.value else FreeSlot(t).value;
      SlotSet(t, slot, after[slot], k);
      assert after == t[slot := after[slot]];
    }
  }

  lemma StartKeepsBest(addr: Word, t: seq<Entry>, dst: Word, multicast: Byte, k: Key)
    requires UniqueKeys(t)
    ensures BestIn(Initiate(addr, t, dst, multicast).0, k) == BestIn(t, k)
  {
    var (after, out) := Initiate(addr, t, dst, multicast);
    if !out.Ignored? {
      var slot := FreeSlot(t).value;
      SlotSet(t, slot, after[slot], k);
      assert after == t[slot := after[slot]];
    }
  }

  /** A reply changes its entry's best reply and nothing else that is known of any entry. */
  lemma ReplyEffect(addr: Word, t: seq<Entry>, sender: Word, k: Key, forward: Byte, reverse: Byte, lqi: Byte, j: Key)
    requires UniqueKeys(t)
    ensures var (after, out) := ReceiveReply(addr, t, sender, k, forward, reverse, lqi);
            && UniqueKeys(after) && (Has(after, j) <==> Has(t, j))
            && (Has(t, j) ==> Quality(after, j) == Quality(t, j) && Sender(after, j) == Sender(t, j))
            && BestIn(after, j) == (if out.Installed? && j == k then forward else BestIn(t, j))
            && (out.Installed? ==> BestIn(t, k) < forward)
            && (out == NotBetter ==> after == t)
  {
    var (after, out) := ReceiveReply(addr, t, sender, k, forward, reverse, lqi);
    if out.Installed? {
      var i := Find(t, k).value;
      SlotSet(t, i, after[i], j);
      SlotSet(t, i, after[i], k);
      assert after == t[i := after[i]];
    }
  }

  lemma StepKeepsBest(net: Net, s: NetStep, x: Word, k: Key)
    requires Good(net) && Enabled(net, s)
    ensures Best(Step(net, s), x, k) == Best(net, x, k)
    ensures Step(net, s).clock >= net.clock
  {
    hide Receive, Initiate, Find;
    match s
    case Start(y, dst, multicast, sent) => StartKeepsBest(y, net.tables[y], dst, multicast, k);
    case Deliver(c, lqi, sent) => RequestKeepsBest(c.to, net.tables[c.to], c.sender, c.request, lqi, k);
    case Lose(c) =>
  }

  /** Nothing that counts changes. */
  lemma SameBest(w: World, v: World)
    requires Sound(w) && Good(v.net) && v.took == w.took && v.net.clock >= w.net.clock
    requires forall x: Word, k: Key :: Best(v.net, x, k) == Best(w.net, x, k)
    requires forall a | a in v.answers :: a in w.answers || IsDestination(a.sender, a.reply.key)
    ensures Sound(v)
  {
    hide Good, Best;
    forall x: Word, k: Key ensures TookOk(v, x, k) {
      assert TookOk(w, x, k);
    }
    forall a | a in v.answers ensures AnswerOk(v, a) {
      if a in w.answers { assert AnswerOk(w, a); }
    }
  }

  lemma AskKeeps(w: World, s: NetStep, answered: bool)
    requires Sound(w) && Enabled(w.net, s)
    ensures Sound(Asked(w, s, answered))
  {
    StepKeepsGood(w.net, s);
    forall x: Word, k: Key ensures Best(Step(w.net, s), x, k) == Best(w.net, x, k) { StepKeepsBest(w.net, s, x, k); }
    assert Step(w.net, s).clock >= w.net.clock by { StepKeepsBest(w.net, s, 0, Key(0, 0, 0)); }
    OnlyDestinationsReply(w.net, s);
    hide Sound, Good, Best, Step;
    SameBest(w, Asked(w, s, answered));
  }

  lemma OnlyDestinationsReply(net: Net, s: NetStep)
    requires Enabled(net, s)
    ensures OutcomeOf(net, s).Replied? ==> s.Deliver? && IsDestination(s.copy.to, OutcomeOf(net, s).key)
  {}

  /** The network goes on being good when a node takes a reply. */
  lemma TakenKeepsGood(net: Net, x: Word, t: seq<Entry>)
    requires Good(net) && x in net.tables && UniqueKeys(t)
    requires forall j: Key :: Has(t, j) <==> Has(net.tables[x], j)
    requires forall j: Key | Has(t, j) ::
               Quality(t, j) == Quality(net.tables[x], j) && Sender(t, j) == Sender(net.tables[x], j)
    ensures Good(net.(tables := net.tables[x := t], clock := net.clock + 1))
  {
    hide Find, Quality, Sender, Has, UniqueKeys;
    var after := net.(tables := net.tables[x := t], clock := net.clock + 1);
    assert forall z: Word, j: Key :: Knows(after, z, j) <==> Knows(net, z, j);
    assert forall z: Word, j: Key | Knows(net, z, j) ::
             At(after, z, j) == At(net, z, j) && From(after, z, j) == From(net, z, j);
    forall c | c in after.flight ensures CopyOk(after, c) { assert CopyOk(net, c); }
    forall z: Word, j: Key | Knows(after, z, j) && z != j.src ensures ParentOk(after, j, z) {
      assert ParentOk(net, j, z);
    }
  }

  /** Node `x` takes a reply about `k` that is better than the ones before, from `y`. */
  ghost predicate Takes(w: World, v: World, x: Word, k: Key, y: Word, q: Byte) {
    && Best(w.net, x, k) < q && Best(v.net, x, k) == q
    && (forall z: Word, j: Key | z != x || j != k :: Best(v.net, z, j) == Best(w.net, z, j))
    && v.took == w.took[(x, k) := (y, w.net.clock)] && v.net.clock == w.net.clock + 1
  }

  lemma TakingKeeps(w: World, v: World, x: Word, k: Key, y: Word, q: Byte)
    requires Sound(w) && Good(v.net) && Takes(w, v, x, k, y, q)
    requires IsDestination(y, k) || Best(w.net, y, k) >= q
    requires forall a | a in v.answers :: a in w.answers || (a.sender == x && a.reply.key == k && a.reply.forward == q)
    ensures Sound(v)
  {
    hide Good, Best;
    forall z: Word, j: Key ensures TookOk(v, z, j) {
      assert TookOk(w, z, j) && TookOk(w, y, k);
    }
    forall a | a in v.answers ensures AnswerOk(v, a) {
      if a in w.answers { assert AnswerOk(w, a); }
    }
  }

  function Judgement(w: World, a: Answer, lqi: Byte): (seq<Entry>, ReplyOutcome)
    requires a.reply.to in w.net.tables
  {
    var r := a.reply;
    ReceiveReply(r.to, w.net.tables[r.to], a.sender, r.key, r.forward, r.reverse, lqi)
  }

  /** The table of a node that took a reply about `k` of quality `q`. */
  ghost predicate Improves(before: seq<Entry>, t: seq<Entry>, k: Key, q: Byte) {
    && UniqueKeys(t) && BestIn(before, k) < q
    && (forall j: Key :: Has(t, j) <==> Has(before, j))
    && (forall j: Key | Has(t, j) :: Quality(t, j) == Quality(before, j) && Sender(t, j) == Sender(before, j))
    && forall j: Key :: BestIn(t, j) == if j == k then q else BestIn(before, j)
  }

  lemma JudgementImproves(w: World, a: Answer, lqi: Byte)
    requires Good(w.net) && a.reply.to in w.net.tables && Judgement(w, a, lqi).1.Installed?
    ensures Improves(w.net.tables[a.reply.to], Judgement(w, a, lqi).0, a.reply.key, a.reply.forward)
  {
    var r := a.reply;
    var before := w.net.tables[r.to];
    assert UniqueKeys(before);
    hide Good, ReceiveReply, BestIn, Has, Quality, Sender;
    forall j: Key { ReplyEffect(r.to, before, a.sender, r.key, r.forward, r.reverse, lqi, j); }
  }

  lemma HeardTakes(w: World, a: Answer, lqi: Byte, sent: bool)
    requires Good(w.net) && a in w.answers && a.reply.to in w.net.tables && Judgement(w, a, lqi).1.Installed?
    ensures Good(Heard(w, a, lqi, sent).net)
    ensures Takes(w, Heard(w, a, lqi, sent), a.reply.to, a.reply.key, a.sender, a.reply.forward)
  {
    hide Good, ReceiveReply, RouteAll, BestIn, Has, Quality, Sender, UniqueKeys;
    JudgementImproves(w, a, lqi);
    TakenKeepsGood(w.net, a.reply.to, Judgement(w, a, lqi).0);
  }

  lemma HearKeeps(w: World, a: Answer, lqi: Byte, sent: bool)
    requires Sound(w) && a in w.answers && a.reply.to in w.net.tables
    ensures Sound(Heard(w, a, lqi, sent))
  {
    var x, k, v := a.reply.to, a.reply.key, Heard(w, a, lqi, sent);
    assert Good(w.net) && AnswerOk(w, a);
    ReplyIs(x, w.net.tables[x], a.sender, k, a.reply.forward, a.reply.reverse, lqi);
    hide Sound, ReceiveReply, RouteAll, Good, Takes;
    if Judgement(w, a, lqi).1.Installed? {
      HeardTakes(w, a, lqi, sent);
      TakingKeeps(w, v, x, k, a.sender, a.reply.forward);
    } else {
      SameBest(w, v);
    }
  }

  lemma ReplyIs(addr: Word, t: seq<Entry>, sender: Word, k: Key, forward: Byte, reverse: Byte, lqi: Byte)
    ensures var out := ReceiveReply(addr, t, sender, k, forward, reverse, lqi).1;
            out.Installed? && out.reply.Some? ==> out.reply.value.key == k && out.reply.value.forward == forward
  {}

  lemma NextKeeps(w: World, s: WorldStep)
    requires Sound(w) && Possible(w, s)
    ensures Sound(Next(w, s))
  {
    hide Good, Best, Asked, Heard;
    match s
    case Ask(step, answered) => AskKeeps(w, step, answered);
    case Hear(a, lqi, sent) => HearKeeps(w, a, lqi, sent);
    case Miss(a) => SameBest(w, Next(w, s));
    case Drop(_, _, _) => SameBest(w, Next(w, s));
  }

  // ----- the installed routes to one destination -----

  /** The hop of `x` for the destination of `k`. */
  function Slot(x: Word, k: Key): (Word, Word, Byte) {
    (x, k.dst, k.multicast)
  }

  /** Routes to the destination of `k` are those that replies about `k` set. */
  ghost predicate RoutesOk(w: World, k: Key) {
    forall x: Word | Slot(x, k) in w.hops ::
      Best(w.net, x, k) > 0 && (x, k) in w.took && w.hops[Slot(x, k)] == w.took[(x, k)].0
  }

  /** The discovery `j` sets no route to the destination of `k`, unless it is `k`. */
  predicate Aside(j: Key, k: Key) {
    && ((j.dst, j.multicast) == (k.dst, k.multicast) ==> j == k)
    && (k.multicast == 0 ==> j.src != k.dst)
  }

  predicate StepAside(s: WorldStep, k: Key) {
    match s
    case Ask(step, _) => Aside(Subject(step).1, k)
    case Hear(a, _, _) => Aside(a.reply.key, k)
    case _ => true
  }

  lemma AskKeepsRoutes(w: World, s: NetStep, answered: bool, k: Key)
    requires Sound(w) && RoutesOk(w, k) && Enabled(w.net, s) && Aside(Subject(s).1, k)
    ensures RoutesOk(Asked(w, s, answered), k)
    ensures forall x: Word :: Slot(x, k) in Asked(w, s, answered).hops <==> Slot(x, k) in w.hops
    ensures forall x: Word :: Best(Asked(w, s, answered).net, x, k) == Best(w.net, x, k)
  {
    forall x: Word ensures Best(Step(w.net, s), x, k) == Best(w.net, x, k) { StepKeepsBest(w.net, s, x, k); }
    hide Sound, Best, Step, Receive;
    assert OutcomeOf(w.net, s).Replied? ==> OutcomeOf(w.net, s).key == Subject(s).1 by { OutcomeKey(w.net, s); }
  }

  lemma OutcomeKey(net: Net, s: NetStep)
    requires Enabled(net, s)
    ensures OutcomeOf(net, s).Replied? ==> OutcomeOf(net, s).key == Subject(s).1
  {}

  lemma HopsAfter(w: World, a: Answer, lqi: Byte, sent: bool, k: Key, x: Word)
    requires a in w.answers && a.reply.to in w.net.tables && Aside(a.reply.key, k)
    ensures var v := Heard(w, a, lqi, sent);
            if Judgement(w, a, lqi).1.Installed? && a.reply.to == x && a.reply.key == k
            then Slot(x, k) in v.hops && v.hops[Slot(x, k)] == a.sender
            else (Slot(x, k) in v.hops <==> Slot(x, k) in w.hops)
                 && (Slot(x, k) in w.hops ==> v.hops[Slot(x, k)] == w.hops[Slot(x, k)])
  {
    hide Find, UpdateLq, RouteAll;
    if Judgement(w, a, lqi).1.Installed? {
      RoutesOneByOne(w.hops, a.reply.to, Judgement(w, a, lqi).1.routes);
    }
  }

  lemma RoutesOneByOne(hops: map<(Word, Word, Byte), Word>, x: Word, us: seq<RouteUpdate>)
    requires 1 <= |us| <= 2
    ensures RouteAll(hops, x, us) == if |us| == 1 then Route(hops, x, us[0]) else Route(Route(hops, x, us[0]), x, us[1])
  {
    hide Route;
    var one := Route(hops, x, us[0]);
    assert RouteAll(hops, x, us) == RouteAll(one, x, us[1..]);
    if |us| == 1 {
      assert us[1..] == [];
    } else {
      assert us[1..][0] == us[1] && us[1..][1..] == [];
      assert RouteAll(one, x, us[1..]) == RouteAll(Route(one, x, us[1]), x, us[1..][1..]);
    }
  }

  /** Whether node `x` takes the reply `a`, which is about `k`. */
  predicate TakesReply(w: World, a: Answer, lqi: Byte, k: Key, x: Word)
    requires a.reply.to in w.net.tables
  {
    Judgement(w, a, lqi).1.Installed? && a.reply.to == x && a.reply.key == k
  }

  lemma HearAt(w: World, a: Answer, lqi: Byte, sent: bool, k: Key, x: Word)
    requires Good(w.net) && RoutesOk(w, k) && a in w.answers && a.reply.to in w.net.tables && Aside(a.reply.key, k)
    ensures var v := Heard(w, a, lqi, sent);
            && (Slot(x, k) in v.hops <==> Slot(x, k) in w.hops || TakesReply(w, a, lqi, k, x))
            && Best(v.net, x, k) == (if TakesReply(w, a, lqi, k, x) then a.reply.forward else Best(w.net, x, k))
            && (Slot(x, k) in v.hops ==>
                  Best(v.net, x, k) > 0 && (x, k) in v.took && v.hops[Slot(x, k)] == v.took[(x, k)].0)
  {
    hide Good, Best, ReceiveReply, RouteAll, Aside, Slot;
    if Judgement(w, a, lqi).1.Installed? { HeardTakes(w, a, lqi, sent); }
    HopsAfter(w, a, lqi, sent, k, x);
  }

  lemma HearKeepsRoutes(w: World, a: Answer, lqi: Byte, sent: bool, k: Key)
    requires Sound(w) && RoutesOk(w, k) && a in w.answers && a.reply.to in w.net.tables && Aside(a.reply.key, k)
    ensures RoutesOk(Heard(w, a, lqi, sent), k)
    ensures forall x: Word :: Slot(x, k) in Heard(w, a, lqi, sent).hops <==>
              Slot(x, k) in w.hops || TakesReply(w, a, lqi, k, x)
    ensures forall x: Word :: Best(Heard(w, a, lqi, sent).net, x, k) ==
              if TakesReply(w, a, lqi, k, x) then a.reply.forward else Best(w.net, x, k)
  {
    assert Good(w.net);
    hide Good, Best, Heard, TakesReply, Slot, Sound;
    forall x: Word { HearAt(w, a, lqi, sent, k, x); }
  }

  lemma NextKeepsRoutes(w: World, s: WorldStep, k: Key)
    requires Sound(w) && RoutesOk(w, k) && Possible(w, s) && StepAside(s, k)
    ensures RoutesOk(Next(w, s), k)
  {
    hide Sound, Best, Asked, Heard, Slot;
    match s
    case Ask(step, answered) => AskKeepsRoutes(w, step, answered, k);
    case Hear(a, lqi, sent) => HearKeepsRoutes(w, a, lqi, sent, k);
    case Miss(a) =>
    case Drop(_, _, _) =>
  }

  // ----- runs -----

  predicate Happens(w: World, steps: seq<WorldStep>)
    decreases |steps|
  {
    steps == [] || (Possible(w, steps[0]) && Happens(Next(w, steps[0]), steps[1..]))
  }

  function After(w: World, steps: seq<WorldStep>): World
    requires Happens(w, steps)
    decreases |steps|
  {
    if steps == [] then w else After(Next(w, steps[0]), steps[1..])
  }

  /** Nothing is running, and nobody has a route. */
  function Quiet(nodes: seq<Word>): World {
    World(Idle(nodes), multiset{}, map[], map[])
  }

  lemma QuietIsSound(nodes: seq<Word>, k: Key)
    ensures Sound(Quiet(nodes)) && RoutesOk(Quiet(nodes), k)
  {
    IdleIsGood(nodes);
    forall x: Word, j: Key ensures Best(Idle(nodes), x, j) == 0 { NothingTaken(nodes, j); }
    hide Good, Best;
  }

  lemma {:induction false} RunKeepsSound(w: World, steps: seq<WorldStep>, k: Key)
    requires Sound(w) && RoutesOk(w, k) && Happens(w, steps)
    requires forall i | 0 <= i < |steps| :: StepAside(steps[i], k)
    ensures Sound(After(w, steps)) && RoutesOk(After(w, steps), k)
    decreases |steps|
  {
    hide Sound, RoutesOk, Next, Possible, StepAside;
    if steps != [] {
      NextKeeps(w, steps[0]);
      NextKeepsRoutes(w, steps[0], k);
      assert forall i | 0 <= i < |steps| - 1 :: steps[1..][i] == steps[i + 1];
      RunKeepsSound(Next(w, steps[0]), steps[1..], k);
    }
  }

  /** Requests and replies go together: the flood's own loop freedom is kept too. */
  lemma {:induction false} RunKeepsFlood(w: World, steps: seq<WorldStep>)
    requires Sound(w) && Happens(w, steps)
    ensures Sound(After(w, steps))
    decreases |steps|
  {
    hide Sound, Next, Possible;
    if steps != [] {
      NextKeeps(w, steps[0]);
      RunKeepsFlood(Next(w, steps[0]), steps[1..]);
    }
  }

  /** `p` follows the installed hops for the destination of `k`, at most up to that destination. */
  ghost predicate Follows(w: World, k: Key, p: seq<Word>) {
    forall i | 0 <= i < |p| - 1 ::
      !IsDestination(p[i], k) && Slot(p[i], k) in w.hops && w.hops[Slot(p[i], k)] == p[i + 1]
  }

  /** A later node of the chain is closer than an earlier one. */
  lemma {:induction false} CloserOnTheWay(w: World, k: Key, p: seq<Word>, i: nat, j: nat)
    requires Sound(w) && RoutesOk(w, k) && Follows(w, k, p) && i < j < |p|
    ensures Closer(w, k, p[j], p[i]) && !IsDestination(p[i], k)
    decreases j - i
  {
    assert Slot(p[i], k) in w.hops && TookOk(w, p[i], k);
    if i + 1 < j {
      CloserOnTheWay(w, k, p, i + 1, j);
      assert Slot(p[i + 1], k) in w.hops && TookOk(w, p[i + 1], k);
    }
  }

  /** Loop freedom of the installed routes: in every run of requests and replies from a quiet network,
      whatever is lost, delayed or reordered and whatever routes are dropped, following the hops to a
      destination meets no node twice, provided that no other discovery sets routes to it. */
  lemma RoutesLoopFree(nodes: seq<Word>, steps: seq<WorldStep>, k: Key, p: seq<Word>)
    requires Happens(Quiet(nodes), steps) && forall i | 0 <= i < |steps| :: StepAside(steps[i], k)
    requires Follows(After(Quiet(nodes), steps), k, p)
    ensures NoneTwice(p)
  {
    QuietIsSound(nodes, k);
    RunKeepsSound(Quiet(nodes), steps, k);
    var w := After(Quiet(nodes), steps);
    hide Sound, RoutesOk, Follows, After, Happens, Quiet, StepAside;
    forall i, j | 0 <= i < j < |p| ensures p[i] != p[j] {
      CloserOnTheWay(w, k, p, i, j);
    }
  }

  // ----- and where they lead -----

  /** Routes to the destination of `k` are all those that replies about `k` set: none is missing. */
  ghost predicate RoutesAre(w: World, k: Key) {
    RoutesOk(w, k) && forall x: Word :: Slot(x, k) in w.hops <==> Best(w.net, x, k) > 0
  }

  lemma NextKeepsAll(w: World, s: WorldStep, k: Key)
    requires Sound(w) && RoutesAre(w, k) && Possible(w, s) && StepAside(s, k) && !s.Drop?
    ensures RoutesAre(Next(w, s), k)
  {
    NextKeepsRoutes(w, s, k);
    hide Sound, Best, Asked, Heard, Slot, RoutesOk;
    match s
    case Ask(step, answered) => AskKeepsRoutes(w, step, answered, k);
    case Hear(a, lqi, sent) =>
      HearKeepsRoutes(w, a, lqi, sent, k);
      Improving(w, a, lqi);
    case Miss(a) =>
  }

  lemma Improving(w: World, a: Answer, lqi: Byte)
    requires Sound(w) && a.reply.to in w.net.tables
    ensures Judgement(w, a, lqi).1.Installed? ==> a.reply.forward > 0
  {}

  lemma {:induction false} RunKeepsAll(w: World, steps: seq<WorldStep>, k: Key)
    requires Sound(w) && RoutesAre(w, k) && Happens(w, steps)
    requires forall i | 0 <= i < |steps| :: StepAside(steps[i], k) && !steps[i].Drop?
    ensures Sound(After(w, steps)) && RoutesAre(After(w, steps), k)
    decreases |steps|
  {
    hide Sound, RoutesAre, Next, Possible, StepAside;
    if steps != [] {
      NextKeeps(w, steps[0]);
      NextKeepsAll(w, steps[0], k);
      assert forall i | 0 <= i < |steps| - 1 :: steps[1..][i] == steps[i + 1];
      RunKeepsAll(Next(w, steps[0]), steps[1..], k);
    }
  }

  function Since(w: World, x: Word, k: Key): nat {
    if (x, k) in w.took then w.took[(x, k)].1 else 0
  }

  /** The hop of a node that took a reply is the destination, or took one itself, and is closer. */
  lemma NextHop(w: World, k: Key, x: Word)
    requires Sound(w) && RoutesAre(w, k) && Best(w.net, x, k) > 0
    ensures Slot(x, k) in w.hops
    ensures var y := w.hops[Slot(x, k)];
            || IsDestination(y, k)
            || (&& Best(w.net, y, k) > 0
                && (|| Best(w.net, y, k) > Best(w.net, x, k)
                    || (Best(w.net, y, k) == Best(w.net, x, k) && Since(w, y, k) < Since(w, x, k))))
  {
    assert TookOk(w, x, k);
    hide Sound, Best;
  }

  /** The way of the hops from `x` on. */
  ghost function Way(w: World, k: Key, x: Word): (p: seq<Word>)
    requires Sound(w) && RoutesAre(w, k) && (IsDestination(x, k) || Best(w.net, x, k) > 0)
    ensures p != [] && p[0] == x && IsDestination(p[|p| - 1], k) && Follows(w, k, p)
    decreases if IsDestination(x, k) then 0 else 1, 255 - Best(w.net, x, k), Since(w, x, k)
  {
    if IsDestination(x, k) then [x]
    else
      NextHop(w, k, x);
      var y := w.hops[Slot(x, k)];
      var p := Way(w, k, y);
      Longer(w, k, x, p);
      [x] + p
  }

  lemma Longer(w: World, k: Key, x: Word, p: seq<Word>)
    requires p != [] && Follows(w, k, p)
    requires !IsDestination(x, k) && Slot(x, k) in w.hops && w.hops[Slot(x, k)] == p[0]
    ensures Follows(w, k, [x] + p)
  {}

  /** As long as no route is dropped, a node with a route to the destination reaches it: following the hops
      ends there, and meets no node twice. */
  lemma RoutesLead(nodes: seq<Word>, steps: seq<WorldStep>, k: Key, x: Word) returns (p: seq<Word>)
    requires Happens(Quiet(nodes), steps)
    requires forall i | 0 <= i < |steps| :: StepAside(steps[i], k) && !steps[i].Drop?
    requires Slot(x, k) in After(Quiet(nodes), steps).hops
    ensures p != [] && p[0] == x && IsDestination(p[|p| - 1], k)
    ensures Follows(After(Quiet(nodes), steps), k, p) && NoneTwice(p)
  {
    QuietIsSound(nodes, k);
    assert RoutesAre(Quiet(nodes), k) by { NothingTaken(nodes, k); }
    RunKeepsAll(Quiet(nodes), steps, k);
    var w := After(Quiet(nodes), steps);
    assert Best(w.net, x, k) > 0;
    hide Sound, RoutesAre, After, Happens, Quiet, StepAside;
    p := Way(w, k, x);
    RoutesLoopFree(nodes, steps, k, p);
  }

  lemma NothingTaken(nodes: seq<Word>, k: Key)
    ensures forall x: Word :: Best(Idle(nodes), x, k) == 0
  {
    var net := Idle(nodes);
    forall x: Word ensures Best(net, x, k) == 0 {
      if x in net.tables { assert forall i | 0 <= i < TABLE_SIZE :: net.tables[x][i].timeout == 0; }
    }
  }
}
