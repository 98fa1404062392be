/** What traffic does to the routing table, and where the frames come from that a node sends. */
module NetTraffic {
  import opened Types
  import opened NetState
  import opened NetSteps
  import opened NetInvariants
  import opened NetRuns
  import opened NetReceived
  import opened NetRxRuns
  import opened NetDelivery
  import Routing
  import Duplicates

  // ----- the routing table -----

  /** The frame has come around in a circle: this node, which it was sent to, has had it already. */
  predicate Circles(s: State, h: Header) {
    h.macDst == s.addr && Duplicates.Arrive(s.dups, h.nwkSrc, h.nwkSeq).1.Repeated?
  }

  /** The receiver filters the frame before the routing table sees it. */
  predicate Filtered(h: Header, addr: Word) {
    h.security || h.multicast || h.macDstPan == 0xffff || h.nwkSrc == addr || (h.nwkDst == 0xffff && h.ackRequest)
  }

  lemma FilteredTeachNothing(s: State, i: nat, env: RxEnv)
    requires Shape(s) && i < |s.frames| && s.frames[i].state == RxReceived
    ensures Filtered(s.frames[i].header, s.addr) ==> RxStep(s, i, env).routes == s.routes
  {
    hide Learn;
  }

  /** A node that does not route for others is not taken for a hop either. */
  lemma LeavesTeachNothing(s: State, i: nat, env: RxEnv)
    requires Shape(s) && i < |s.frames| && s.frames[i].state == RxReceived && s.frames[i].aux.Rx?
    requires var h := s.frames[i].header; h.macSrc >= 0x8000 && h.macSrc != h.nwkSrc && !Circles(s, h)
    ensures RxStep(s, i, env).routes == s.routes
  {
    var h := s.frames[i].header;
    if !Filtered(h, s.addr) {
      var done := Put(s, i, s.frames[i].(state := RxFinish));
      assert RxStep(s, i, env) == Learn(done, i, env.Rnd(i)) by { hide Learn; }
      LearnRoutes(done, i, env.Rnd(i),
                  Routing.Heard(h.macDstPan, h.macDst, h.macSrc, h.nwkSrc, h.nwkDst, s.frames[i].aux.lqi));
    }
    hide Learn;
  }

  /** A new source is routed to through the node that the frame came from. A known one is too when that is the
      better way, or when the frame was flooded to find this node; otherwise its route stays. */
  ghost function Learned(routes: seq<Routing.Entry>, addr: Word, f: Frame): Option<Word>
    requires f.aux.Rx?
  {
    var h := f.header;
    match Routing.Find(routes, h.nwkSrc, 0)
    case None => Some(h.macSrc)
    case Some(k) =>
      Some(if f.aux.lqi > routes[k].lqi || (h.macDst == 0xffff && h.nwkDst == addr) then h.macSrc
           else routes[k].nextHop)
  }

  /** What the first turn of a frame does to the routes: its source is learned, and other routes stay, but for one
      that had to make room for a new source. A frame that has come around in a circle costs the route to its
      destination besides. */
  lemma FirstTurnLearns(s: State, i: nat, env: RxEnv)
    requires Shape(s) && i < |s.frames| && s.frames[i].state == RxReceived && s.frames[i].aux.Rx?
    requires Routing.Inv(s.routes) && s.frames[i].header.nwkSrc != 0xffff
    requires var h := s.frames[i].header; !Filtered(h, s.addr) && (h.macSrc < 0x8000 || h.macSrc == h.nwkSrc)
    ensures var r, h := RxStep(s, i, env), s.frames[i].header;
            && Routing.Inv(r.routes)
            && (!Circles(s, h) ==>
                  && Routing.Route(r.routes, h.nwkSrc, 0) == Learned(s.routes, s.addr, s.frames[i])
                  && forall d: Word, m: Byte | (d, m) != (h.nwkSrc, 0) ::
                       || Routing.Route(r.routes, d, m) == Routing.Route(s.routes, d, m)
                       || (&& Routing.Find(s.routes, h.nwkSrc, 0).None? && Routing.Route(r.routes, d, m).None?
                           && (d, m) == s.routes[Routing.NewEntry(s.routes).1].Key()))
            && (Circles(s, h) ==>
                  var gone := Routing.Find(r.routes, h.nwkDst, 0);
                  gone.None? || r.routes[gone.value].fixed || h.nwkDst == 0xffff)
  {
    var f := s.frames[i];
    var h := f.header;
    var heard := Routing.Heard(h.macDstPan, h.macDst, h.macSrc, h.nwkSrc, h.nwkDst, f.aux.lqi);
    var learned := Routing.FrameReceived(s.routes, s.addr, heard);
    TableLearns(s.routes, s.addr, f, heard);
    var done := Put(s, i, f.(state := RxFinish));
    assert RxStep(s, i, env) == Learn(done, i, env.Rnd(i)) by { hide Learn; }
    LearnRoutes(done, i, env.Rnd(i), heard);
    if Circles(s, h) { TableLoses(learned, h.nwkDst); }
    hide Routing.FrameReceived, Learn, RxStep, Routing.Remove, Routing.NewEntry, Routing.Inv, Routing.Route;
    hide Routing.Find;
  }

  lemma TableLearns(t: seq<Routing.Entry>, addr: Word, f: Frame, heard: Routing.Heard)
    requires f.aux.Rx? && Routing.Inv(t) && f.header.nwkSrc != 0xffff && Routing.Usable(heard)
    requires var h := f.header;
             heard == Routing.Heard(h.macDstPan, h.macDst, h.macSrc, h.nwkSrc, h.nwkDst, f.aux.lqi)
    ensures var u, h := Routing.FrameReceived(t, addr, heard), f.header;
            && Routing.Inv(u) && Routing.Route(u, h.nwkSrc, 0) == Learned(t, addr, f)
            && forall d: Word, m: Byte | (d, m) != (h.nwkSrc, 0) ::
                 || Routing.Route(u, d, m) == Routing.Route(t, d, m)
                 || (&& Routing.Find(t, h.nwkSrc, 0).None? && Routing.Route(u, d, m).None?
                     && (d, m) == t[Routing.NewEntry(t).1].Key())
  {
    Routing.FrameReceivedRefines(t, addr, heard);
    hide Routing.FrameReceived, Routing.Inv, Routing.NewEntry;
  }

  lemma TableLoses(t: seq<Routing.Entry>, dst: Word)
    requires Routing.Inv(t)
    ensures var u := Routing.Remove(t, dst, 0);
            var gone := Routing.Find(u, dst, 0);
            Routing.Inv(u) && (gone.None? || u[gone.value].fixed || dst == 0xffff)
  {
    Routing.RemoveRefines(t, dst, 0);
    var u := Routing.Remove(t, dst, 0);
    if dst != 0xffff && Routing.Find(t, dst, 0).Some? && !t[Routing.Find(t, dst, 0).value].fixed {
      assert Routing.Route(u, dst, 0).None?;
    }
  }

  lemma LearnRoutes(s: State, i: nat, rnd: nat, heard: Routing.Heard)
    requires Shape(s) && i < |s.frames| && s.frames[i].state == RxFinish && s.frames[i].aux.Rx?
    requires var h := s.frames[i].header;
             heard == Routing.Heard(h.macDstPan, h.macDst, h.macSrc, h.nwkSrc, h.nwkDst, s.frames[i].aux.lqi)
    ensures var learned, h := Routing.FrameReceived(s.routes, s.addr, heard), s.frames[i].header;
            Learn(s, i, rnd).routes ==
            if Circles(s, h) then Routing.Remove(learned, h.nwkDst, MulticastBit(h)) else learned
  {
    hide Routing.FrameReceived, Routing.Remove, Forward;
    var learned := s.(routes := Routing.FrameReceived(s.routes, s.addr, heard));
    var h := s.frames[i].header;
    var (judged, rejected) := RejectDuplicate(learned, h);
    assert judged.routes == if Circles(s, h) then Routing.Remove(learned.routes, h.nwkDst, MulticastBit(h))
                            else learned.routes;
    ForwardRoutes(judged, i, h, rnd);
  }

  lemma ForwardRoutes(s: State, i: nat, h: Header, rnd: nat)
    requires Shape(s) && i < |s.frames| && s.frames[i].state == RxFinish && s.frames[i].aux.Rx?
    ensures Forward(s, i, h, rnd).routes == s.routes
  {}

  /** What a finished frame does to the routes: its status is reported for the route to its destination, which is
      dropped by the third failure in a row and made patient again by a success. */
  lemma FinishedReports(s: State, i: nat, hop: Word, misses: nat)
    requires Shape(s) && i < |s.frames| && s.frames[i].state == TxConfirm && s.frames[i].aux.Tx?
    requires !s.frames[i].header.multicast && s.frames[i].header.nwkDst != 0xffff
    requires Routing.Inv(s.routes) && misses < 3 && Routing.Patient(s.routes, s.frames[i].header.nwkDst, 0, hop, misses)
    ensures var r, dst := TxStep(s, i), s.frames[i].header.nwkDst;
            && Routing.Inv(r.routes)
            && (if s.frames[i].aux.status == Success then Routing.Patient(r.routes, dst, 0, hop, 0)
                else if misses == 2 then Routing.Route(r.routes, dst, 0).None?
                else Routing.Patient(r.routes, dst, 0, hop, misses + 1))
            && forall d: Word, m: Byte | (d, m) != (dst, 0) ::
                 Routing.Route(r.routes, d, m) == Routing.Route(s.routes, d, m)
  {
    var f := s.frames[i];
    hide Shape, Holder, TypedPool, TxConf, FreeFrame;
    Routing.OneReport(s.routes, f.header.nwkDst, 0, hop, misses, f.aux.status == Success);
    hide Routing.Inv, Routing.FrameSent, Routing.Patient, Routing.Route, Routing.Find;
    RoutesReported(s, i);
  }

  lemma RoutesReported(s: State, i: nat)
    requires Shape(s) && i < |s.frames| && s.frames[i].state == TxConfirm && s.frames[i].aux.Tx?
    ensures var f := s.frames[i];
            TxStep(s, i).routes
            == Routing.FrameSent(s.routes, f.header.nwkDst, MulticastBit(f.header), f.aux.status == Success)
  {
    hide Routing.FrameSent, Shape, Holder, TypedPool;
    assert TxStep(s, i) == ConfirmStep(s, i);
  }

  // ----- what a node sends -----

  /** The frames that the PHY delivered in a run. */
  function Delivered(events: seq<Event>): seq<Received>
    decreases |events|
  {
    if events == [] then []
    else (if events[0].PhyIndication? then [events[0].received] else []) + Delivered(events[1..])
  }

  /** The frame is one that the PHY delivered. */
  predicate IsDelivered(f: Frame, d: Received) {
    d.header == Some(f.header) && d.payload == f.payload
  }

  /** The frame is one that the PHY delivered, from another node, with a new MAC header. */
  predicate IsPassedOn(f: Frame, d: Received, addr: Word) {
    && d.header.Some? && d.header.value.nwkSrc != addr && f.payload == d.payload
    && f.header == d.header.value.(macFcf := f.header.macFcf, macSeq := f.header.macSeq,
                                   macDstPan := f.header.macDstPan, macDst := f.header.macDst,
                                   macSrc := f.header.macSrc)
  }

  ghost predicate HasSource(f: Frame, addr: Word, log: seq<Received>) {
    && (IsRx(f.state) ==> exists d <- log :: IsDelivered(f, d))
    && (Stray(f) ==> OwnCommand(f, addr) || exists d <- log :: IsPassedOn(f, d, addr))
  }

  ghost predicate Sourced(s: State, log: seq<Received>) {
    forall i | 0 <= i < |s.frames| :: HasSource(s.frames[i], s.addr, log)
  }

  lemma CausedHasSource(f: Frame, c: Frame, addr: Word, log: seq<Received>)
    requires HasSource(f, addr, log) && Causes(addr, f, c)
    ensures HasSource(c, addr, log)
  {
    hide ForNode, ForHop, OwnCommand;
    if IsRx(f.state) {
      var d :| d in log && IsDelivered(f, d);
      if IsRx(c.state) { assert IsDelivered(c, d); }
      if Stray(c) && !OwnCommand(c, addr) { assert IsPassedOn(c, d, addr); }
    }
  }

  lemma TurnSourced(s: State, k: nat, env: RxEnv, log: seq<Received>)
    requires Shape(s) && k < |s.frames| && RxOk(s) && Sourced(s, log)
    ensures Sourced(RxStep(s, k, env), log) && RxOk(RxStep(s, k, env))
  {
    TurnKeepsOk(s, k, env);
    var r := RxStep(s, k, env);
    hide Shape, RxStep, RxOk, Causes;
    forall i | 0 <= i < |r.frames| ensures HasSource(r.frames[i], r.addr, log) {
      assert AfterTurn(s, r, k, i) && HasSource(s.frames[i], s.addr, log) && HasSource(s.frames[k], s.addr, log);
      if Causes(s.addr, s.frames[k], r.frames[i]) { CausedHasSource(s.frames[k], r.frames[i], s.addr, log); }
      if Acked(s.frames[i], r.frames[i]) { AckedHasSource(s.frames[i], r.frames[i], s.addr, log); }
    }
  }

  lemma AckedHasSource(f: Frame, c: Frame, addr: Word, log: seq<Received>)
    requires HasSource(f, addr, log) && Acked(f, c)
    ensures HasSource(c, addr, log)
  {
    if Stray(f) && !OwnCommand(f, addr) {
      var d :| d in log && IsPassedOn(f, d, addr);
      assert IsPassedOn(c, d, addr);
    }
  }

  lemma {:induction false} RxTaskSourced(s: State, env: RxEnv, k: nat, log: seq<Received>)
    requires Shape(s) && k <= |s.frames| && RxOk(s) && Sourced(s, log)
    ensures Sourced(RxTask(s, env, k), log)
    decreases |s.frames| - k
  {
    hide Shape, RxStep, RxOk, Sourced;
    if k < |s.frames| {
      TurnSourced(s, k, env, log);
      RxTaskSourced(RxStep(s, k, env), env, k + 1, log);
    }
  }

  lemma KeptHasSource(f: Frame, g: Frame, addr: Word, log: seq<Received>)
    requires HasSource(f, addr, log) && SlotKeeps(f, g)
    ensures HasSource(g, addr, log)
  {
    if Stray(g) && !OwnCommand(g, addr) {
      var d :| d in log && IsPassedOn(f, d, addr);
      assert IsPassedOn(g, d, addr);
    }
  }

  lemma MoreLog(f: Frame, addr: Word, log: seq<Received>, more: seq<Received>)
    requires HasSource(f, addr, log)
    ensures HasSource(f, addr, log + more)
  {
    if IsRx(f.state) {
      var d :| d in log && IsDelivered(f, d);
      assert d in log + more;
    }
    if Stray(f) && !OwnCommand(f, addr) {
      var d :| d in log && IsPassedOn(f, d, addr);
      assert d in log + more;
    }
  }

  lemma PhySourced(s: State, d: Received, log: seq<Received>)
    requires Shape(s) && Sourced(s, log)
    ensures Sourced(PhyInd(s, d), log + [d])
  {
    var r := PhyInd(s, d);
    hide Shape, OwnCommand;
    forall i | 0 <= i < |r.frames| ensures HasSource(r.frames[i], r.addr, log + [d]) {
      if r.frames[i] == s.frames[i] {
        assert HasSource(s.frames[i], s.addr, log);
        MoreLog(s.frames[i], s.addr, log, [d]);
      } else {
        assert IsDelivered(r.frames[i], d) && d in log + [d];
      }
    }
  }

  lemma StepSourced(s: State, e: Event, log: seq<Received>)
    requires Shape(s) && RxOk(s) && Sourced(s, log)
    ensures Sourced(Step(s, e), log + Delivered([e]))
  {
    hide Shape, RxTask, PhyInd, RxOk, HasSource;
    assert [e][1..] == [];
    if e.RxTaskRuns? {
      RxTaskSourced(s, e.env, 0, log);
      RxTaskKeepsOk(s, e.env, 0);
      assert log + Delivered([e]) == log;
    } else if e.PhyIndication? {
      PhySourced(s, e.received, log);
      assert Delivered([e]) == [e.received];
    } else {
      ElsewhereKeepsRx(s, e);
      assert log + Delivered([e]) == log;
      hide Step;
      var r := Step(s, e);
      forall i | 0 <= i < |r.frames| ensures HasSource(r.frames[i], r.addr, log) {
        assert SlotKeeps(s.frames[i], r.frames[i]) && HasSource(s.frames[i], s.addr, log);
        KeptHasSource(s.frames[i], r.frames[i], s.addr, log);
      }
    }
  }

  lemma DeliveredSplits(log: seq<Received>, events: seq<Event>)
    requires events != []
    ensures log + Delivered([events[0]]) + Delivered(events[1..]) == log + Delivered(events)
  {
    var first, rest := if events[0].PhyIndication? then [events[0].received] else [], Delivered(events[1..]);
    assert [events[0]][1..] == [] && Delivered([]) == [];
    assert Delivered([events[0]]) == first + [] == first;
    assert Delivered(events) == first + rest;
    hide Delivered;
    assert log + first + rest == log + (first + rest);
  }

  lemma {:induction false} RunSourced(s: State, events: seq<Event>, log: seq<Received>)
    requires Shape(s) && RxOk(s) && Sourced(s, log)
    ensures Sourced(Run(s, events), log + Delivered(events))
    decreases |events|
  {
    hide Shape, RxOk, Step, Sourced;
    if events == [] {
      assert log + Delivered(events) == log;
    } else {
      StepSourced(s, events[0], log);
      StepKeepsOk(s, events[0]);
      RunSourced(Step(s, events[0]), events[1..], log + Delivered([events[0]]));
      DeliveredSplits(log, events);
      hide Delivered;
    }
  }

  /** Nothing is made up: in every run an outgoing frame is the frame of a request (see `RightCargo`), an
      acknowledgment or route error of the node's own, or one that the PHY delivered from another node in that
      run, with its network header and payload as they were. */
  lemma NothingMadeUp(addr: Word, panId: Word, events: seq<Event>, i: nat)
    requires var s := Run(Start(addr, panId), events); i < |s.frames| && IsTx(s.frames[i].state)
    ensures var f := Run(Start(addr, panId), events).frames[i];
            || Owned(f)
            || OwnCommand(f, addr)
            || exists d <- Delivered(events) :: IsPassedOn(f, d, addr)
  {
    var s := Start(addr, panId);
    StartSourced(addr, panId);
    hide Run, Start, OwnCommand, RxOk, Sourced;
    RunSourced(s, events, []);
    RunKeepsOk(s, events);
    var r := Run(s, events);
    assert Sourced(r, [] + Delivered(events)) && r.addr == addr && TypedFrame(r.frames[i]);
    hide Shape;
    TheSource(r, i, [] + Delivered(events));
    assert [] + Delivered(events) == Delivered(events);
  }

  lemma StartSourced(addr: Word, panId: Word)
    ensures RxOk(Start(addr, panId)) && Sourced(Start(addr, panId), []) && Start(addr, panId).addr == addr
  {}

  lemma TheSource(r: State, i: nat, log: seq<Received>)
    requires Sourced(r, log) && i < |r.frames|
    ensures HasSource(r.frames[i], r.addr, log)
  {
    hide HasSource;
  }
}
