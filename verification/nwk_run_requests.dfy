/** What a request is sent as, in what order requests are served, and how long their frames wait. */
module NetRequests {
  import opened Types
  import opened NetState
  import opened NetSteps
  import opened NetInvariants
  import opened NetRuns
  import Routing

  // ----- what is sent -----

  /** Right cargo: in every reachable state the frame of a waiting request carries the data that the
      application submitted under the request's ticket, from this node to the destination and endpoints that
      it asked for, with its flags, and to the next hop that was known when it was sent: everybody for a
      broadcast or without a route, the destination itself for a link-local frame or one to all PANs, and
      otherwise the hop of the map that the routing table stood for then. */
  lemma RightCargo(s: State, p: nat)
    requires Reachable(s) && p < |s.queue| && s.queue[p].state == WaitConf
    ensures s.queue[p].frame.Some? && s.queue[p].frame.value < |s.frames| && s.queue[p].ticket < |s.submitted|
    ensures var f, o := s.frames[s.queue[p].frame.value], s.submitted[s.queue[p].ticket];
            var h := f.header;
            && f.payload == o.data && h.nwkSrc == s.addr && h.nwkDst == o.dst
            && h.srcEndpoint == o.srcEndpoint && h.dstEndpoint == o.dstEndpoint
            && h.ackRequest == o.ackRequest && h.linkLocal == o.linkLocal && !h.security && !h.multicast
            && h.macSrc == s.addr && h.macDstPan == (if o.broadcastPan then 0xffff else s.panId)
            && (o.dst == 0xffff ==> h.macDst == 0xffff)
            && (o.linkLocal || o.broadcastPan ==> h.macDst == o.dst)
            && (o.dst != 0xffff && !o.linkLocal && !o.broadcastPan ==>
                  match Routing.Route(s.queue[p].table, o.dst, 0)
                  case Some(hop) => h.macDst == hop
                  case None => h.macDst == 0xffff)
            && h.macFcf == (if h.macDst == 0xffff then 0x8841 else 0x8861)
  {
    hide Reachable, PoolOk, LockOk, OnceOk, CallbacksOk, DupsOk, Shape, Routing.Route;
    ReachableInv(s);
    assert Owns(s.queue, p, s.frames, s.hist, s.panId) && RequestOk(s.queue[p], s.submitted);
    assert s.frames[s.queue[p].frame.value].header.nwkSrc == s.addr by { FrameOf(s, s.queue[p].frame.value); }
  }

  /** A submission is logged as it was made, unless its request object is still in use. */
  lemma SubmissionIsLogged(s: State, req: Request)
    ensures var r := Step(s, Application(DoSubmit(req)));
            if exists q | 0 <= q < |s.queue| :: s.queue[q].id == req.id then r == s
            else r.submitted == s.submitted + [req] && |r.queue| == |s.queue| + 1 && r.queue[0].ticket == |s.submitted|
    requires Shape(s)
  {
    hide Shape;
  }

  // ----- in what order -----

  /** The request that nwkDataReqTaskHandler serves. */
  function Served(queue: seq<Request>, q: nat := 0): (r: Option<nat>)
    requires q <= |queue|
    ensures r.Some? ==> q <= r.value < |queue| && queue[r.value].state != WaitConf
    ensures forall k | q <= k < (if r.Some? then r.value else |queue|) :: queue[k].state == WaitConf
    decreases |queue| - q
  {
    if q == |queue| then None
    else if queue[q].state != WaitConf then Some(q)
    else Served(queue, q + 1)
  }

  lemma {:induction false} TaskServes(s: State, rnd: nat, q: nat)
    requires Shape(s) && q <= |s.queue|
    ensures DataReqTask(s, rnd, q) ==
              match Served(s.queue, q)
              case None => s
              case Some(k) => if s.queue[k].state == Initial then SendFrame(s, k, rnd) else ConfirmRequest(s, k)
    decreases |s.queue| - q
  {
    hide Shape, SendFrame, ConfirmRequest;
    if q < |s.queue| && s.queue[q].state == WaitConf { TaskServes(s, rnd, q + 1); }
  }

  /** Of the requests that do not wait, `q` was submitted last. */
  predicate Newest(queue: seq<Request>, q: nat) {
    && q < |queue| && queue[q].state != WaitConf
    && forall k | 0 <= k < |queue| && queue[k].state != WaitConf :: queue[k].ticket <= queue[q].ticket
  }

  lemma NewestIsServed(s: State, q: nat)
    requires Reachable(s) && Newest(s.queue, q)
    ensures Served(s.queue) == Some(q)
  {
    hide Reachable, PoolOk, LockOk, OnceOk, CallbacksOk, DupsOk, Shape;
    ReachableInv(s);
    assert Served(s.queue).Some?;
  }

  /** Last in, first out: the queue serves the newest request that does not wait. A finished one leaves
      the queue, with its callback. */
  lemma NewestLeaves(s: State, rnd: nat, q: nat)
    requires Reachable(s) && Shape(s) && Newest(s.queue, q) && s.queue[q].state == Confirmed
    ensures var r, req := Step(s, DataReqTaskRuns(rnd)), s.queue[q];
            && r.queue == s.queue[..q] + s.queue[q + 1..] && r.frames == s.frames
            && r.callbacks == s.callbacks + [Callback(req.ticket, req.ackRequest, req.seqNo, req.status, req.control,
                                                      req.evidence)]
  {
    hide Reachable, Shape, SendFrame;
    NewestIsServed(s, q);
    TaskServes(s, rnd, 0);
  }

  lemma SentInSlot(s: State, q: nat, rnd: nat, j: nat)
    requires Shape(s) && q < |s.queue| && FirstFree(s.frames) == Some(j)
    ensures var r, req := SendFrame(s, q, rnd), s.queue[q];
            && r.callbacks == s.callbacks && r.queue == s.queue[q := req.(frame := Some(j), state := WaitConf,
                                                                           table := s.routes)]
            && r.frames == s.frames[j := OnAir(HoldData(s, q, j),
                                               RequestFrame(s.addr, req, ToByte(s.nwkSeqNum + 1)), rnd)]
  {
    hide Shape, TypedPool, OnAir, RequestFrame;
  }

  lemma NumbersOnAir(s: State, held: State, req: Request, rnd: nat)
    requires held.macSeqNum == s.macSeqNum
    ensures var f := OnAir(held, RequestFrame(s.addr, req, ToByte(s.nwkSeqNum + 1)), rnd);
            && f.state == TxDelay && f.header.nwkSeq == ToByte(s.nwkSeqNum + 1)
            && f.header.macSeq == ToByte(s.macSeqNum + 1)
  {
    hide PrepareHop;
  }

  lemma HopOnAir(s: State, held: State, req: Request, rnd: nat)
    requires held.routes == s.routes && held.panId == s.panId && held.addr == s.addr
    ensures OnAir(held, RequestFrame(s.addr, req, ToByte(s.nwkSeqNum + 1)), rnd).header.macDst
         == HopFor(req.(table := s.routes))
  {
    SentCarries(s, held, req, ToByte(s.nwkSeqNum + 1), rnd);
    hide HopFor, OnAir, RequestFrame;
  }

  /** A new one gets a free frame, which is sent with the next numbers to the hop that the routing table knows
      now, or is finished for lack of memory. */
  lemma NewestIsSent(s: State, rnd: nat, q: nat)
    requires Reachable(s) && Shape(s) && Newest(s.queue, q) && s.queue[q].state == Initial
    ensures var r, req := Step(s, DataReqTaskRuns(rnd)), s.queue[q];
            && r.callbacks == s.callbacks
            && match FirstFree(s.frames)
               case None => r.frames == s.frames
                            && r.queue == s.queue[q := req.(state := Confirmed, status := OutOfMemory)]
               case Some(j) =>
                 && |r.frames| == |s.frames| && r.frames == s.frames[j := r.frames[j]]
                 && r.queue == s.queue[q := req.(frame := Some(j), state := WaitConf, table := s.routes)]
                 && r.frames[j].state == TxDelay
                 && r.frames[j].header.nwkSeq == ToByte(s.nwkSeqNum + 1)
                 && r.frames[j].header.macSeq == ToByte(s.macSeqNum + 1)
                 && r.frames[j].header.macDst == HopFor(req.(table := s.routes))
  {
    NewestIsServed(s, q);
    TaskServes(s, rnd, 0);
    hide Reachable, TypedPool, OnAir, RequestFrame, Carries;
    if FirstFree(s.frames).Some? {
      SentAs(s, rnd, q, FirstFree(s.frames).value);
      hide Shape, HopFor, SendFrame;
    }
  }

  lemma SentAs(s: State, rnd: nat, q: nat, j: nat)
    requires Shape(s) && q < |s.queue| && FirstFree(s.frames) == Some(j)
    ensures var r, req := SendFrame(s, q, rnd), s.queue[q];
            && r.callbacks == s.callbacks
            && |r.frames| == |s.frames| && r.frames == s.frames[j := r.frames[j]]
            && r.queue == s.queue[q := req.(frame := Some(j), state := WaitConf, table := s.routes)]
            && r.frames[j].state == TxDelay
            && r.frames[j].header.nwkSeq == ToByte(s.nwkSeqNum + 1)
            && r.frames[j].header.macSeq == ToByte(s.macSeqNum + 1)
            && r.frames[j].header.macDst == HopFor(req.(table := s.routes))
  {
    HopOnAir(s, HoldData(s, q, j), s.queue[q], rnd);
    SentInSlot(s, q, rnd, j);
    NumbersOnAir(s, HoldData(s, q, j), s.queue[q], rnd);
    hide *;
  }

  // ----- how long a frame waits -----

  function TimerOf(st: FrameState): Event
    requires Waiting(st)
  {
    if st == TxWaitDelay then DelayTimerFires else AckTimerFires
  }

  /** While a frame waits, what is left of its time is what it began with, less the firings. */
  lemma {:induction false} TimeLeft(s: State, events: seq<Event>, i: nat, st: FrameState)
    requires Inv(s) && Shape(s) && Waiting(st) && Stays(s, events, i, st)
    ensures var r := Run(s, events);
            && Inv(r) && i < |r.frames| && r.frames[i].state == st && s.frames[i].aux.Tx? && r.frames[i].aux.Tx?
            && s.frames[i].aux.timeout == r.frames[i].aux.timeout + Firings(events, TimerOf(st))
    decreases |events|
  {
    hide Inv, Shape, Step;
    FrameOf(s, i);
    if events != [] {
      StepWaits(s, events[0], i, st);
      StepKeeps(s, events[0]);
      TimeLeft(Step(s, events[0]), events[1..], i, st);
    }
  }

  /** A firing of its timer ends a wait if and only if it was the last one to wait for. */
  lemma LastFiring(s: State, i: nat, st: FrameState)
    requires Inv(s) && Shape(s) && Waiting(st) && i < |s.frames| && s.frames[i].state == st
    ensures var r := Step(s, TimerOf(st));
            && s.frames[i].aux.Tx? && i < |r.frames|
            && if s.frames[i].aux.timeout > 1 then r.frames[i].state == st
               else r.frames[i].state == (if st == TxWaitDelay then TxSend else TxConfirm)
                    && r.frames[i].aux.Tx? && (st == TxWaitAck ==> r.frames[i].aux.status == NoAck)
  {
    hide Inv, TypedPool, AckTicks, DelayTicks;
    WaitsPositive(s, i);
    FrameOf(s, i);
    if st == TxWaitDelay { DelayTicksAt(s, 0, i); } else { AckTicksAt(s, 0, i); }
  }

  lemma {:induction false} AckTicksAt(s: State, k: nat, i: nat)
    requires Shape(s) && k <= i < |s.frames|
    ensures AckTicks(s, k).frames[i] == AckTick(s, i).frames[i]
    decreases |s.frames| - k
  {
    hide Shape, AckTick;
    AckTickOne(s, k, i);
    if k < i {
      AckTicksAt(AckTick(s, k), k + 1, i);
      AckTickSame(s, AckTick(s, k), i);
    } else {
      AckTicksWait(AckTick(s, k), k + 1, i);
    }
  }

  function AckTicked(f: Frame): Frame
    requires f.aux.Tx?
  {
    var g := CountDown(f);
    if f.state != TxWaitAck then f
    else if g.aux.timeout == 0 then g.(state := TxConfirm, aux := g.aux.(status := NoAck))
    else g
  }

  lemma AckTickSame(s: State, r: State, i: nat)
    requires Shape(s) && Shape(r) && i < |s.frames| == |r.frames| && s.frames[i] == r.frames[i]
    ensures AckTick(s, i).frames[i] == AckTick(r, i).frames[i]
  {
    assert TypedFrame(s.frames[i]);
    if s.frames[i].state == TxWaitAck {
      AckTickIs(s, i);
      AckTickIs(r, i);
    }
  }

  lemma AckTickIs(s: State, i: nat)
    requires Shape(s) && i < |s.frames| && s.frames[i].aux.Tx?
    ensures AckTick(s, i).frames[i] == AckTicked(s.frames[i])
  {
    hide Shape, TypedPool, ToWord;
  }

  lemma {:induction false} DelayTicksAt(s: State, k: nat, i: nat)
    requires Shape(s) && k <= i < |s.frames|
    ensures DelayTicks(s, k).frames[i] == DelayTick(s, i).frames[i]
    decreases |s.frames| - k
  {
    hide Shape, DelayTick;
    DelayTickOne(s, k, i);
    if k < i {
      DelayTicksAt(DelayTick(s, k), k + 1, i);
      DelayTickSame(s, DelayTick(s, k), i);
    } else {
      DelayTicksWait(DelayTick(s, k), k + 1, i);
    }
  }

  function DelayTicked(f: Frame): Frame
    requires f.aux.Tx?
  {
    var g := CountDown(f);
    if f.state != TxWaitDelay then f else if g.aux.timeout == 0 then g.(state := TxSend) else g
  }

  lemma DelayTickSame(s: State, r: State, i: nat)
    requires Shape(s) && Shape(r) && i < |s.frames| == |r.frames| && s.frames[i] == r.frames[i]
    ensures DelayTick(s, i).frames[i] == DelayTick(r, i).frames[i]
  {
    assert TypedFrame(s.frames[i]);
    if s.frames[i].state == TxWaitDelay {
      DelayTickIs(s, i);
      DelayTickIs(r, i);
    }
  }

  lemma DelayTickIs(s: State, i: nat)
    requires Shape(s) && i < |s.frames| && s.frames[i].aux.Tx?
    ensures DelayTick(s, i).frames[i] == DelayTicked(s.frames[i])
  {
    hide Shape, TypedPool, ToWord;
  }

  /** Waits are exact: a frame that waits with `k` firings to go still waits after fewer of them, whatever
      else happens, and the `k`-th sends it or confirms it without acknowledgment. */
  lemma WaitsAreExact(s: State, events: seq<Event>, i: nat, st: FrameState)
    requires Reachable(s) && Shape(s) && Waiting(st) && Stays(s, events, i, st)
    ensures var r := Step(Run(s, events), TimerOf(st));
            && s.frames[i].aux.Tx? && i < |r.frames|
            && if Firings(events, TimerOf(st)) + 1 < s.frames[i].aux.timeout then r.frames[i].state == st
               else r.frames[i].state == (if st == TxWaitDelay then TxSend else TxConfirm)
                    && r.frames[i].aux.Tx? && (st == TxWaitAck ==> r.frames[i].aux.status == NoAck)
  {
    hide Reachable, Inv, Shape, Step;
    ReachableInv(s);
    TimeLeft(s, events, i, st);
    LastFiring(Run(s, events), i, st);
  }

  /** How waits begin: only broadcasts wait before they are sent, for 1 to 8 firings, and an acknowledgment is
      waited for 41 firings, if the request asked for one and the PHY succeeded. */
  lemma WaitsBegin(s: State, i: nat)
    requires Reachable(s) && Shape(s) && i < |s.frames|
    ensures var f, r := s.frames[i], TxStep(s, i);
            && (f.state == TxDelay ==>
                  && f.aux.Tx?
                  && r.frames[i] == f.(state := if f.header.macDst == 0xffff then TxWaitDelay else TxSend)
                  && (if f.header.macDst == 0xffff then 1 <= f.aux.timeout <= 8 && r.delayTimer
                      else f.aux.timeout == 0))
            && (f.state == TxSent && Owned(f) ==>
                  if f.aux.status == Success && f.header.ackRequest
                  then r.frames[i].state == TxWaitAck && r.frames[i].aux.timeout == 41 && r.ackTimer
                  else r.frames[i] == f.(state := TxConfirm))
  {
    hide Reachable, PoolOk, QueueOk, LockOk, OnceOk, CallbacksOk, DupsOk, TypedPool;
    ReachableInv(s);
    FrameOf(s, i);
  }

  /** What the PHY says is what the request reports, when no acknowledgment decides. */
  lemma StatusReported(s: State, k: nat)
    requires Reachable(s) && k < |s.callbacks|
    ensures var c := s.callbacks[k];
            && (c.evidence == [SentFor(c.ticket), PhyDone(PhySuccess)] ==> c.status == Success && !c.ackRequest)
            && (c.evidence == [SentFor(c.ticket), PhyDone(PhyChannelAccess)] ==> c.status == PhyChannelAccessFailure)
            && (c.evidence == [SentFor(c.ticket), PhyDone(PhyNoAckReceived)] ==> c.status == PhyNoAck)
            && (c.evidence == [SentFor(c.ticket), PhyDone(PhyOther)] ==> c.status == Error)
            && (c.evidence == [] ==> c.status == OutOfMemory)
            && (|c.evidence| in {0, 2, 3})
  {
    hide Reachable, PoolOk, QueueOk, LockOk, OnceOk, DupsOk, Shape;
    ReachableInv(s);
    var c := s.callbacks[k];
    assert Justified(c.evidence, c.ticket, c.ackRequest, c.seqNo, c.status, c.control);
  }

  /** A timer that fires is started again exactly if something waited for it. */
  lemma TimersRestart(s: State)
    requires Shape(s)
    ensures s.ackTimer ==>
              (Step(s, AckTimerFires).ackTimer <==> exists i | 0 <= i < |s.frames| :: s.frames[i].state == TxWaitAck)
    ensures s.delayTimer ==>
              (Step(s, DelayTimerFires).delayTimer <==>
               exists i | 0 <= i < |s.frames| :: s.frames[i].state == TxWaitDelay)
    ensures s.dupTimer ==>
              (Step(s, DupTimerFires).dupTimer <==> exists i | 0 <= i < |s.dups| :: s.dups[i].ttl > 0)
  {
    hide AckTicks, DelayTicks, Shape;
  }

  // ----- numbers -----

  /** The delay of a broadcast takes each of the values from 1 to 8 once in 8 random numbers. */
  lemma JitterIsEven(k: nat, d: nat)
    requires 1 <= d <= 8
    ensures Jitter(8 * k + d - 1) == d
  {}

  /** Where a frame is sent, by the bits of its control byte: bit 0 is for all PANs, bit 2 for a direct link,
      and in both cases the destination itself is the next hop. */
  lemma HopByControl(s: State, f: Frame, rnd: nat)
    requires f.aux.Tx?
    ensures var g, h, c := OnAir(s, f, rnd), f.header, f.aux.control;
            && g.header.macDstPan == (if c % 2 == 1 then 0xffff else s.panId)
            && (g.header.macFcf == 0x8841 <==> g.header.macDst == 0xffff)
            && g.header.macDst ==
               if c % 2 == 1 || c / 4 % 2 == 1 || h.linkLocal || h.nwkDst == 0xffff then h.nwkDst
               else
                 match Routing.Route(s.routes, h.nwkDst, MulticastBit(h))
                 case Some(hop) => hop
                 case None => 0xffff
  {}

  lemma ServedSize(s: State, rnd: nat, q: nat)
    requires Shape(s) && q < |s.queue|
    ensures |SendFrame(s, q, rnd).frames| == |ConfirmRequest(s, q).frames| == |s.frames|
  {
    hide OnAir, RequestFrame;
  }

  lemma {:induction false} DataReqTaskSize(s: State, rnd: nat, q: nat)
    requires Shape(s) && q <= |s.queue|
    ensures |DataReqTask(s, rnd, q).frames| == |s.frames|
    decreases |s.queue| - q
  {
    TaskServes(s, rnd, q);
    hide Shape, OnAir, RequestFrame, DataReqTask, SendFrame, ConfirmRequest;
    var k := Served(s.queue, q);
    if k.Some? { ServedSize(s, rnd, k.value); }
  }

  lemma StepSize(s: State, e: Event)
    requires Shape(s)
    ensures |Step(s, e).frames| == |s.frames|
  {
    if e.DataReqTaskRuns? { DataReqTaskSize(s, e.rnd, 0); }
    hide TxTask, RxTask, AckTicks, DelayTicks, DataReqTask, TypedPool;
  }

  lemma {:induction false} RunSize(s: State, events: seq<Event>)
    requires Shape(s)
    ensures |Run(s, events).frames| == |s.frames|
    decreases |events|
  {
    hide Shape, Step;
    if events != [] {
      StepSize(s, events[0]);
      RunSize(Step(s, events[0]), events[1..]);
    }
  }

  /** The pool has 30 frames all along, and the routing table 100 slots at the start. */
  lemma PoolSize(s: State)
    requires Reachable(s)
    ensures |s.frames| == 30 && |Start(s.addr, s.panId).routes| == 100
  {
    var addr, panId, events :| Run(Start(addr, panId), events) == s;
    hide Run;
    RunSize(Start(addr, panId), events);
  }
}
