/** Every queued request gets its callback: how far the network layer is from having nothing to do, and
    why it comes nearer while the main loop goes round, the PHY answers and the timers fire. The radio
    may stay silent: no acknowledgment and no other frame has to be received for this. */
module NetProgress {
  import opened Types
  import opened NetState
  import opened NetSteps
  import opened NetInvariants
  import opened NetRuns
  import Routing

  // ----- how much there is left to do -----

  /** The turns of an outgoing frame: a delay, the PHY, a wait for the acknowledgment, the report. */
  const TX_TURNS: nat := ACK_WAIT_TICKS + 3 + MAX_DELAY + 2

  function Timeout(f: Frame): nat {
    if f.aux.Tx? then f.aux.timeout else 0
  }

  /** At most how many turns a frame, and the frames it may still cause, take until they are free. */
  function Turns(f: Frame): nat {
    match f.state
    case Free => 0
    case TxConfirm => 1
    case TxWaitAck => 1 + Timeout(f)
    case TxSent => ACK_WAIT_TICKS + 2
    case TxWaitConf => ACK_WAIT_TICKS + 3
    case TxSend => ACK_WAIT_TICKS + 4
    case TxWaitDelay => ACK_WAIT_TICKS + 4 + Timeout(f)
    case TxDelay => TX_TURNS
    case RxFinish => 1
    case RxRoute => TX_TURNS + 1
    case RxIndicate => TX_TURNS + 2
    case RxReceived => 2 * TX_TURNS + 3
  }

  /** A request needs a frame, its report, and its callback. */
  function Wants(r: Request): nat {
    match r.state
    case Initial => TX_TURNS + 3
    case WaitConf => 2
    case Confirmed => 1
  }

  function FrameTurns(frames: seq<Frame>): nat {
    if frames == [] then 0 else FrameTurns(frames[..|frames| - 1]) + Turns(frames[|frames| - 1])
  }

  function QueueWants(queue: seq<Request>): nat {
    if queue == [] then 0 else Wants(queue[0]) + QueueWants(queue[1..])
  }

  function Potential(s: State): nat {
    FrameTurns(s.frames) + QueueWants(s.queue)
  }

  lemma {:induction false} TurnsAfter(frames: seq<Frame>, i: nat, f: Frame)
    requires i < |frames|
    ensures FrameTurns(frames[i := f]) + Turns(frames[i]) == FrameTurns(frames) + Turns(f)
  {
    hide Turns;
    var n := |frames| - 1;
    if i == n {
      assert frames[i := f][..n] == frames[..n];
    } else {
      assert frames[i := f][..n] == frames[..n][i := f];
      TurnsAfter(frames[..n], i, f);
    }
  }

  lemma {:induction false} WantsAfter(queue: seq<Request>, q: nat, r: Request)
    requires q < |queue|
    ensures QueueWants(queue[q := r]) + Wants(queue[q]) == QueueWants(queue) + Wants(r)
  {
    hide Wants;
    if q == 0 {
      assert queue[q := r][1..] == queue[1..];
    } else {
      assert queue[q := r][1..] == queue[1..][q - 1 := r];
      WantsAfter(queue[1..], q - 1, r);
    }
  }

  lemma {:induction false} WantsWithout(queue: seq<Request>, q: nat)
    requires q < |queue|
    ensures QueueWants(queue[..q] + queue[q + 1..]) + Wants(queue[q]) == QueueWants(queue)
  {
    hide Wants;
    var rest := queue[..q] + queue[q + 1..];
    if q == 0 {
      assert rest == queue[1..];
    } else {
      assert rest[1..] == queue[1..][..q - 1] + queue[1..][q..];
      WantsWithout(queue[1..], q - 1);
    }
  }

  /** What is left to do gets less, or nothing happens to the frames and requests at all. */
  ghost predicate Progress(s: State, r: State) {
    |s.submitted| <= |r.submitted| && |r.queue| <= |s.queue| && (Potential(r) < Potential(s) || Same(s, r))
  }

  ghost predicate Same(s: State, r: State) {
    r.frames == s.frames && r.queue == s.queue && r.active == s.active
  }

  ghost predicate Moves(s: State, r: State) {
    |s.submitted| <= |r.submitted| && |r.queue| <= |s.queue| && Potential(r) < Potential(s)
  }

  lemma Then(s: State, t: State, r: State)
    requires Progress(s, t) && Progress(t, r)
    ensures Progress(s, r)
    ensures Moves(s, t) || Moves(t, r) ==> Moves(s, r)
  {
    hide FrameTurns, QueueWants;
  }

  // ----- one frame -----

  lemma FrameMoves(s: State, r: State, i: nat, f: Frame)
    requires i < |s.frames| && r.frames == s.frames[i := f] && r.queue == s.queue && r.submitted == s.submitted
    requires Turns(f) < Turns(s.frames[i])
    ensures Moves(s, r)
  {
    hide Turns;
    TurnsAfter(s.frames, i, f);
  }

  /** A free slot gets a frame. */
  lemma FrameAdded(s: State, r: State, j: nat)
    requires j < |s.frames| == |r.frames| && s.frames[j].state == Free
    requires r.frames == s.frames[j := r.frames[j]] && r.queue == s.queue
    ensures Potential(r) == Potential(s) + Turns(r.frames[j])
  {
    TurnsAfter(s.frames, j, r.frames[j]);
  }

  lemma CommandCosts(s: State, security: bool, dst: Word, payload: seq<Byte>, rnd: nat)
    requires Shape(s)
    ensures var r := SendCommand(s, security, dst, payload, rnd);
            r.queue == s.queue && r.submitted == s.submitted && Potential(r) <= Potential(s) + TX_TURNS
  {
    hide Potential, OnAir, TypedPool;
    var r := SendCommand(s, security, dst, payload, rnd);
    if FirstFree(s.frames).Some? {
      var j := FirstFree(s.frames).value;
      assert r.frames == s.frames[j := r.frames[j]];
      FrameAdded(s, r, j);
    }
  }

  lemma CopyCosts(s: State, i: nat, rnd: nat)
    requires Shape(s) && i < |s.frames| && s.frames[i].state != Free
    ensures var r := BroadcastCopy(s, i, rnd);
            r.queue == s.queue && r.submitted == s.submitted && Potential(r) <= Potential(s) + TX_TURNS
  {
    hide Potential, TypedPool;
    var r := BroadcastCopy(s, i, rnd);
    if FirstFree(s.frames).Some? {
      var j := FirstFree(s.frames).value;
      assert r.frames == s.frames[j := r.frames[j]];
      FrameAdded(s, r, j);
    }
  }

  // ----- the transmitter -----

  lemma TxConfMoves(s: State, i: nat)
    requires Shape(s) && i < |s.frames| && s.frames[i].state == TxConfirm
    ensures Moves(s, TxConf(s, i))
  {
    hide Holder, FrameTurns, QueueWants, TypedPool;
    var r := TxConf(s, i);
    TurnsAfter(s.frames, i, s.frames[i].(state := Free));
    if Holder(s.queue, i).Some? {
      var q := Holder(s.queue, i).value;
      assert r.queue == s.queue[q := r.queue[q]];
      WantsAfter(s.queue, q, r.queue[q]);
    }
  }

  lemma ConfirmStepMoves(s: State, i: nat)
    requires Shape(s) && i < |s.frames| && s.frames[i].state == TxConfirm
    ensures Moves(s, ConfirmStep(s, i))
  {
    var f := s.frames[i];
    assert TypedFrame(f);
    hide Routing.FrameSent, TxConf, Potential;
    var delivered := f.aux.status == Success;
    var sent := s.(routes := Routing.FrameSent(s.routes, f.header.nwkDst, MulticastBit(f.header), delivered));
    assert Potential(sent) == Potential(s) by { SamePotential(s, sent); }
    if f.aux.confirm == NoConfirm {
      FrameMoves(sent, FreeFrame(sent, i), i, f.(state := Free));
    } else {
      TxConfMoves(sent, i);
    }
  }

  lemma SamePotential(s: State, r: State)
    requires r.frames == s.frames && r.queue == s.queue
    ensures Potential(r) == Potential(s)
  {}

  /** Whether the transmitter has a turn for frame `i`. */
  predicate TxTurn(s: State, i: nat)
    requires i < |s.frames|
  {
    s.frames[i].state in {TxDelay, TxSent, TxConfirm} || (s.frames[i].state == TxSend && s.active.None?)
  }

  lemma DelayStepMoves(s: State, i: nat)
    requires Inv(s) && Shape(s) && i < |s.frames| && s.frames[i].state == TxDelay
    ensures Moves(s, DelayStep(s, i))
  {
    FrameOf(s, i);
    hide Inv, TypedPool, Moves, HistoryOk;
    FrameMoves(s, DelayStep(s, i), i, DelayStep(s, i).frames[i]);
  }

  lemma SendStepMoves(s: State, i: nat)
    requires Shape(s) && i < |s.frames| && s.frames[i].state == TxSend
    ensures if s.active.None? then Moves(s, SendStep(s, i)) else SendStep(s, i) == s
  {
    hide TypedPool, Moves;
    if s.active.None? { FrameMoves(s, SendStep(s, i), i, SendStep(s, i).frames[i]); }
  }

  lemma SentStepMoves(s: State, i: nat)
    requires Shape(s) && i < |s.frames| && s.frames[i].state == TxSent
    ensures Moves(s, SentStep(s, i))
  {
    assert TypedFrame(s.frames[i]);
    hide TypedPool, Moves;
    FrameMoves(s, SentStep(s, i), i, SentStep(s, i).frames[i]);
  }

  lemma TxStepMoves(s: State, i: nat)
    requires Inv(s) && Shape(s) && i < |s.frames|
    ensures if TxTurn(s, i) then Moves(s, TxStep(s, i)) else TxStep(s, i) == s
  {
    hide Inv, TypedPool, Moves, DelayStep, SendStep, SentStep, ConfirmStep;
    match s.frames[i].state
    case TxDelay => DelayStepMoves(s, i);
    case TxSend => SendStepMoves(s, i);
    case TxSent => SentStepMoves(s, i);
    case TxConfirm => ConfirmStepMoves(s, i);
    case _ =>
  }

  lemma {:induction false} TxTaskMoves(s: State, k: nat)
    requires Inv(s) && Shape(s) && k <= |s.frames|
    ensures Progress(s, TxTask(s, k))
    ensures (exists i | k <= i < |s.frames| :: TxTurn(s, i)) ==> Moves(s, TxTask(s, k))
    decreases |s.frames| - k
  {
    hide Inv, Shape, TxStep, Potential;
    if k < |s.frames| {
      TxStepKeeps(s, k);
      TxStepMoves(s, k);
      var t := TxStep(s, k);
      TxTaskMoves(t, k + 1);
      Then(s, t, TxTask(s, k));
    }
  }

  // ----- the PHY and the timers -----

  lemma PhyConfMoves(s: State, p: PhyStatus)
    requires Shape(s)
    ensures if s.active.Some? then Moves(s, PhyConf(s, p)) else PhyConf(s, p) == s
  {
    hide TypedPool, Moves;
    if s.active.Some? {
      var i, r := s.active.value, PhyConf(s, p);
      FrameMoves(s, r, i, r.frames[i]);
    }
  }

  lemma AckTickMoves(s: State, i: nat)
    requires Inv(s) && Shape(s) && i < |s.frames|
    ensures if s.frames[i].state == TxWaitAck then Moves(s, AckTick(s, i)) else AckTick(s, i) == s
  {
    FrameOf(s, i);
    hide Inv, TypedPool, Moves, HistoryOk;
    if s.frames[i].state == TxWaitAck {
      var r := AckTick(s, i);
      FrameMoves(s, r, i, r.frames[i]);
    }
  }

  lemma DelayTickMoves(s: State, i: nat)
    requires Inv(s) && Shape(s) && i < |s.frames|
    ensures if s.frames[i].state == TxWaitDelay then Moves(s, DelayTick(s, i)) else DelayTick(s, i) == s
  {
    FrameOf(s, i);
    hide Inv, TypedPool, Moves, HistoryOk;
    if s.frames[i].state == TxWaitDelay {
      var r := DelayTick(s, i);
      FrameMoves(s, r, i, r.frames[i]);
    }
  }

  lemma {:induction false} AckTicksMove(s: State, k: nat)
    requires Inv(s) && Shape(s) && k <= |s.frames|
    ensures Progress(s, AckTicks(s, k))
    ensures (exists i | k <= i < |s.frames| :: s.frames[i].state == TxWaitAck) ==> Moves(s, AckTicks(s, k))
    decreases |s.frames| - k
  {
    hide Inv, Shape, AckTick, Potential;
    if k < |s.frames| {
      AckTickKeeps(s, k);
      AckTickMoves(s, k);
      var t := AckTick(s, k);
      AckTicksMove(t, k + 1);
      Then(s, t, AckTicks(s, k));
    }
  }

  lemma {:induction false} DelayTicksMove(s: State, k: nat)
    requires Inv(s) && Shape(s) && k <= |s.frames|
    ensures Progress(s, DelayTicks(s, k))
    ensures (exists i | k <= i < |s.frames| :: s.frames[i].state == TxWaitDelay) ==> Moves(s, DelayTicks(s, k))
    decreases |s.frames| - k
  {
    hide Inv, Shape, DelayTick, Potential;
    if k < |s.frames| {
      DelayTickKeeps(s, k);
      DelayTickMoves(s, k);
      var t := DelayTick(s, k);
      DelayTicksMove(t, k + 1);
      Then(s, t, DelayTicks(s, k));
    }
  }

  // ----- the request queue -----

  lemma SendFrameMoves(s: State, q: nat, rnd: nat)
    requires Shape(s) && q < |s.queue| && s.queue[q].state == Initial
    ensures Moves(s, SendFrame(s, q, rnd))
  {
    hide FrameTurns, QueueWants, OnAir, TypedPool, RequestFrame;
    var r := SendFrame(s, q, rnd);
    WantsAfter(s.queue, q, r.queue[q]);
    if FirstFree(s.frames).Some? {
      var j := FirstFree(s.frames).value;
      assert r.frames == s.frames[j := r.frames[j]];
      TurnsAfter(s.frames, j, r.frames[j]);
    }
  }

  lemma {:induction false} DataReqTaskMoves(s: State, rnd: nat, q: nat)
    requires Shape(s) && q <= |s.queue|
    ensures Progress(s, DataReqTask(s, rnd, q))
    ensures (exists p | q <= p < |s.queue| :: s.queue[p].state != WaitConf) ==> Moves(s, DataReqTask(s, rnd, q))
    decreases |s.queue| - q
  {
    hide Shape, SendFrame, FrameTurns, QueueWants;
    if q < |s.queue| {
      match s.queue[q].state
      case Initial => SendFrameMoves(s, q, rnd);
      case Confirmed => WantsWithout(s.queue, q);
      case WaitConf => DataReqTaskMoves(s, rnd, q + 1);
    }
  }

  // ----- the receiver -----

  /** The application does anything but submit. */
  predicate NoSubmit(actions: seq<AppAction>) {
    forall k | 0 <= k < |actions| :: !actions[k].DoSubmit?
  }

  lemma {:induction false} ActAllSame(s: State, actions: seq<AppAction>)
    requires NoSubmit(actions)
    ensures Same(s, ActAll(s, actions)) && ActAll(s, actions).submitted == s.submitted
    decreases |actions|
  {
    if actions != [] {
      assert forall k | 0 <= k < |actions| - 1 :: actions[1..][k] == actions[k + 1];
      ActAllSame(Act(s, actions[0]), actions[1..]);
    }
  }

  lemma AckReceivedMoves(s: State, data: seq<Byte>)
    requires Inv(s) && Shape(s)
    ensures Progress(s, AckReceived(s, data).0)
  {
    hide Inv, TypedPool, HistoryOk;
    if |data| == 3 && AckWaiter(s.frames, data[1]).Some? {
      var k := AckWaiter(s.frames, data[1]).value;
      FrameOf(s, k);
      var r := AckReceived(s, data).0;
      FrameMoves(s, r, k, r.frames[k]);
    }
  }

  lemma IndicateFrameMoves(s: State, i: nat, reply: AppReply)
    requires Inv(s) && Shape(s) && i < |s.frames| && s.frames[i].state == RxIndicate && NoSubmit(reply.actions)
    ensures Progress(s, IndicateFrame(s, i, reply).0)
  {
    hide ServiceCommand, ActAll, Potential, NoSubmit;
    assert TypedFrame(s.frames[i]);
    var told := Tell(s, i);
    ToldSame(s, i);
    hide Inv, Shape, TypedPool, Tell;
    assert Potential(told) == Potential(s) by { SamePotential(s, told); }
    if s.frames[i].header.dstEndpoint == SERVICE_ENDPOINT {
      ServiceMoves(told, s.frames[i].payload);
    } else if reply.open {
      ActAllSame(told, reply.actions);
    }
  }

  lemma ToldSame(s: State, i: nat)
    requires Inv(s) && Shape(s) && i < |s.frames| && s.frames[i].aux.Rx?
    ensures Inv(Tell(s, i)) && Shape(Tell(s, i)) && Same(s, Tell(s, i)) && Tell(s, i).submitted == s.submitted
  {}

  lemma ServiceMoves(s: State, data: seq<Byte>)
    requires Inv(s) && Shape(s)
    ensures Progress(s, ServiceCommand(s, data).0)
  {
    hide Inv, Shape, TypedPool, AckReceived, Potential;
    AckReceivedMoves(s, data);
  }

  lemma AnswerMoves(s: State, i: nat, h: Header, consumed: bool, rnd: nat)
    requires Shape(s) && i < |s.frames| && s.frames[i].state == RxIndicate
    ensures Moves(s, Answer(s, i, h, consumed, rnd))
  {
    hide SendCommand, TypedPool, FrameTurns, QueueWants;
    var command := [COMMAND_ACK, h.nwkSeq, s.ackControl];
    CommandCosts(s, h.security, h.nwkSrc, command, rnd);
    CommandElsewhere(s, h.security, h.nwkSrc, command, rnd, i);
    var acked := if Acknowledges(s.addr, h, consumed) then SendCommand(s, h.security, h.nwkSrc, command, rnd) else s;
    TurnsAfter(acked.frames, i, acked.frames[i].(state := RxFinish));
  }

  lemma HandleIndicationMoves(s: State, i: nat, env: RxEnv)
    requires Inv(s) && Shape(s) && i < |s.frames| && s.frames[i].state == RxIndicate
    requires NoSubmit(env.Reply(i).actions)
    ensures Moves(s, HandleIndication(s, i, env))
  {
    var s0 := s.(ackControl := 0);
    assert Inv(s0) && Shape(s0);
    hide Inv, Shape, IndicateFrame, Answer, FrameTurns, QueueWants;
    IndicateFrameMoves(s0, i, env.Reply(i));
    var (told, consumed) := IndicateFrame(s0, i, env.Reply(i));
    AnswerMoves(told, i, s.frames[i].header, consumed, env.Rnd(i));
    Then(s0, told, HandleIndication(s, i, env));
  }

  lemma ForwardMoves(s: State, i: nat, h: Header, rnd: nat)
    requires Shape(s) && i < |s.frames| && s.frames[i].state == RxFinish && s.frames[i].aux.Rx?
    ensures Forward(s, i, h, rnd).queue == s.queue && Forward(s, i, h, rnd).submitted == s.submitted
    ensures Potential(Forward(s, i, h, rnd)) <= Potential(s) + 2 * TX_TURNS + 1
  {
    hide BroadcastCopy, TypedPool, FrameTurns, QueueWants, OnAir, FirstFree;
    CopyCosts(s, i, rnd);
    var copied := if h.macDst == BROADCAST && h.nwkDst != s.addr && !h.linkLocal then BroadcastCopy(s, i, rnd) else s;
    TurnsAfter(copied.frames, i, copied.frames[i].(state := RxIndicate));
    TurnsAfter(copied.frames, i, copied.frames[i].(state := RxRoute));
  }

  lemma LearnMoves(s: State, i: nat, rnd: nat)
    requires Shape(s) && i < |s.frames| && s.frames[i].state == RxFinish && s.frames[i].aux.Rx?
    ensures Learn(s, i, rnd).queue == s.queue && Learn(s, i, rnd).submitted == s.submitted
    ensures Potential(Learn(s, i, rnd)) <= Potential(s) + 2 * TX_TURNS + 1
  {
    hide RejectDuplicate, Forward, Routing.FrameReceived, FrameTurns, QueueWants;
    var h := s.frames[i].header;
    var heard := Routing.Heard(h.macDstPan, h.macDst, h.macSrc, h.nwkSrc, h.nwkDst, s.frames[i].aux.lqi);
    var learned := s.(routes := Routing.FrameReceived(s.routes, s.addr, heard));
    RejectQueue(learned, h);
    ForwardMoves(RejectDuplicate(learned, h).0, i, h, rnd);
  }

  lemma RejectQueue(s: State, h: Header)
    requires Shape(s)
    ensures RejectDuplicate(s, h).0.queue == s.queue && RejectDuplicate(s, h).0.submitted == s.submitted
  {}

  lemma HandleReceivedMoves(s: State, i: nat, rnd: nat)
    requires Shape(s) && i < |s.frames| && s.frames[i].state == RxReceived
    ensures Moves(s, HandleReceived(s, i, rnd))
  {
    hide Learn, FrameTurns, QueueWants;
    var f := s.frames[i];
    assert TypedFrame(f);
    hide TypedPool;
    TurnsAfter(s.frames, i, f.(state := RxFinish));
    TurnsAfter(s.frames, i, f.(state := RxIndicate));
    LearnMoves(Put(s, i, f.(state := RxFinish)), i, rnd);
  }

  lemma RouteFrameMoves(s: State, i: nat, rnd: nat)
    requires Shape(s) && i < |s.frames| && s.frames[i].state == RxRoute
    ensures Moves(s, RouteFrame(s, i, rnd))
  {
    hide SendCommand, OnAir, Routing.NextHop, TypedPool, FrameTurns, QueueWants;
    var h, r := s.frames[i].header, RouteFrame(s, i, rnd);
    if Routing.NextHop(s.routes, h.nwkDst, MulticastBit(h)) != Routing.UNKNOWN {
      assert r.frames == s.frames[i := r.frames[i]];
      TurnsAfter(s.frames, i, r.frames[i]);
    } else {
      CommandCosts(s, false, h.nwkSrc, RouteErrorCommand(h), rnd);
      CommandElsewhere(s, false, h.nwkSrc, RouteErrorCommand(h), rnd, i);
      var reported := SendCommand(s, false, h.nwkSrc, RouteErrorCommand(h), rnd);
      TurnsAfter(reported.frames, i, s.frames[i].(state := Free));
    }
  }

  predicate SilentReplies(env: RxEnv) {
    forall i | 0 <= i < |env.replies| :: NoSubmit(env.replies[i].actions)
  }

  lemma RxStepMoves(s: State, i: nat, env: RxEnv)
    requires Inv(s) && Shape(s) && i < |s.frames| && SilentReplies(env)
    ensures Progress(s, RxStep(s, i, env))
  {
    hide Inv, TypedPool, HandleReceived, HandleIndication, RouteFrame, FrameTurns, QueueWants;
    assert NoSubmit(env.Reply(i).actions);
    match s.frames[i].state
    case RxReceived => HandleReceivedMoves(s, i, env.Rnd(i));
    case RxIndicate => HandleIndicationMoves(s, i, env);
    case RxRoute => RouteFrameMoves(s, i, env.Rnd(i));
    case RxFinish => FrameMoves(s, FreeFrame(s, i), i, s.frames[i].(state := Free));
    case _ =>
  }

  lemma {:induction false} RxTaskMoves(s: State, env: RxEnv, k: nat)
    requires Inv(s) && Shape(s) && k <= |s.frames| && SilentReplies(env)
    ensures Progress(s, RxTask(s, env, k))
    decreases |s.frames| - k
  {
    hide Inv, Shape, RxStep, Potential;
    if k < |s.frames| {
      RxStepKeeps(s, k, env);
      RxStepMoves(s, k, env);
      var t := RxStep(s, k, env);
      RxTaskMoves(t, env, k + 1);
      Then(s, t, RxTask(s, env, k));
    }
  }

  // ----- events -----

  /** Events that bring no new work: the application does not submit and nothing is received. */
  predicate Quiet(e: Event) {
    match e
    case Application(a) => !a.DoSubmit?
    case PhyIndication(_) => false
    case RxTaskRuns(env) => SilentReplies(env)
    case _ => true
  }

  /** What the five kinds of events below can move on. */
  datatype Kind = Transmit | Serve | Complete | AckWait | Delay

  predicate Is(e: Event, k: Kind) {
    match k
    case Transmit => e.TxTaskRuns?
    case Serve => e.DataReqTaskRuns?
    case Complete => e.PhyConfirmation?
    case AckWait => e.AckTimerFires?
    case Delay => e.DelayTimerFires?
  }

  ghost predicate Ready(s: State, k: Kind) {
    match k
    case Transmit => exists i | 0 <= i < |s.frames| :: TxTurn(s, i)
    case Serve => exists q | 0 <= q < |s.queue| :: s.queue[q].state != WaitConf
    case Complete => s.active.Some?
    case AckWait => AnyIn(s.frames, TxWaitAck)
    case Delay => AnyIn(s.frames, TxWaitDelay)
  }

  lemma TimersMove(s: State)
    requires Inv(s) && Shape(s)
    ensures Progress(s, AckTimer(s)) && Progress(s, DelayTimer(s))
    ensures AnyIn(s.frames, TxWaitAck) ==> s.ackTimer && Moves(s, AckTimer(s))
    ensures AnyIn(s.frames, TxWaitDelay) ==> s.delayTimer && Moves(s, DelayTimer(s))
  {
    hide Inv, Shape, AckTicks, DelayTicks, Potential;
    TimerOn(s);
    AckTicksMove(s, 0);
    DelayTicksMove(s, 0);
    SamePotential(AckTicks(s), AckTimer(s));
    SamePotential(DelayTicks(s), DelayTimer(s));
  }

  /** A quiet event brings the end nearer or leaves frames and requests alone; one of the kind that
      something is ready for does bring it nearer. */
  lemma QuietMoves(s: State, e: Event, k: Kind)
    requires Inv(s) && Shape(s) && Quiet(e)
    ensures Progress(s, Step(s, e))
    ensures Is(e, k) && Ready(s, k) ==> Moves(s, Step(s, e))
  {
    hide Inv, Shape, TxTask, RxTask, DataReqTask, AckTimer, DelayTimer, PhyConf, FrameTurns, QueueWants;
    match e
    case Application(a) =>
    case PhyConfirmation(p) => PhyConfMoves(s, p);
    case TxTaskRuns => TxTaskMoves(s, 0);
    case RxTaskRuns(env) => RxTaskMoves(s, env, 0);
    case DataReqTaskRuns(rnd) => DataReqTaskMoves(s, rnd, 0);
    case AckTimerFires => TimersMove(s);
    case DelayTimerFires => TimersMove(s);
    case DupTimerFires =>
  }

  /** While a request is queued, something is ready. */
  lemma SomethingReady(s: State) returns (k: Kind)
    requires Inv(s) && Shape(s) && s.queue != []
    ensures Ready(s, k)
  {
    k := Serve;
    if s.queue[0].state == WaitConf {
      assert Owns(s.queue, 0, s.frames, s.hist, s.panId);
      var i := s.queue[0].frame.value;
      FrameOf(s, i);
      hide Inv, Shape;
      match s.frames[i].state
      case TxWaitConf => k := Complete;
      case TxWaitAck => k := AckWait;
      case TxWaitDelay => k := Delay;
      case TxSend => k := if s.active.Some? then Complete else Transmit; assert s.active.None? ==> TxTurn(s, i);
      case TxDelay => k := Transmit; assert TxTurn(s, i);
      case TxSent => k := Transmit; assert TxTurn(s, i);
      case TxConfirm => k := Transmit; assert TxTurn(s, i);
      case _ =>
    }
  }

  // ----- runs -----

  /** A round: quiet events in any order and number, among them a run of the transmitter and of the
      request queue, an answer of the PHY, and a firing of each timer. */
  predicate Round(events: seq<Event>) {
    && (forall i | 0 <= i < |events| :: Quiet(events[i]))
    && forall k: Kind :: Occurs(events, k)
  }

  predicate Occurs(events: seq<Event>, k: Kind) {
    exists i | 0 <= i < |events| :: Is(events[i], k)
  }

  lemma {:induction false} QuietRun(s: State, events: seq<Event>, k: Kind)
    requires Inv(s) && Shape(s) && forall i | 0 <= i < |events| :: Quiet(events[i])
    ensures Progress(s, Run(s, events))
    ensures Ready(s, k) && Occurs(events, k) ==> Moves(s, Run(s, events))
    decreases |events|
  {
    hide Inv, Shape, Step, Quiet, FrameTurns, QueueWants, Ready, Is;
    if events != [] {
      var t := Step(s, events[0]);
      StepKeeps(s, events[0]);
      QuietMoves(s, events[0], k);
      QuietRun(t, events[1..], k);
      Then(s, t, Run(s, events));
      if Occurs(events, k) && !Is(events[0], k) {
        var i :| 0 <= i < |events| && Is(events[i], k);
        assert Is(events[1..][i - 1], k);
        if Same(s, t) { SameReady(s, t, k); }
      }
    }
  }

  lemma SameReady(s: State, t: State, k: Kind)
    requires Same(s, t)
    ensures Ready(s, k) <==> Ready(t, k)
  {
    if k.Transmit? { assert forall i | 0 <= i < |s.frames| :: TxTurn(s, i) <==> TxTurn(t, i); }
  }

  lemma RoundMoves(s: State, events: seq<Event>)
    requires Inv(s) && Shape(s) && Round(events)
    ensures Progress(s, Run(s, events))
    ensures s.queue != [] ==> Moves(s, Run(s, events))
  {
    hide Inv, Shape, Quiet, Occurs;
    QuietRun(s, events, Serve);
    if s.queue != [] {
      var k := SomethingReady(s);
      QuietRun(s, events, k);
    }
  }

  function Rounds(s: State, rounds: seq<seq<Event>>): (r: State)
    requires Shape(s)
    ensures Shape(r)
    decreases |rounds|
  {
    if rounds == [] then s else Rounds(Run(s, rounds[0]), rounds[1..])
  }

  /** After as many rounds as there is left to do the queue is empty. */
  lemma {:induction false} QueueEmpties(s: State, rounds: seq<seq<Event>>)
    requires Inv(s) && Shape(s) && forall i | 0 <= i < |rounds| :: Round(rounds[i])
    requires s.queue == [] || Potential(s) <= |rounds|
    ensures Rounds(s, rounds).queue == [] && |Rounds(s, rounds).submitted| >= |s.submitted|
    decreases |rounds|
  {
    hide Inv, Shape, Run, FrameTurns, QueueWants, Round;
    if rounds != [] {
      RoundMoves(s, rounds[0]);
      RunKeeps(s, rounds[0]);
      QueueEmpties(Run(s, rounds[0]), rounds[1..]);
    } else if s.queue != [] {
      assert QueueWants(s.queue) >= Wants(s.queue[0]) by { SomeWant(s.queue); }
    }
  }

  lemma SomeWant(queue: seq<Request>)
    requires queue != []
    ensures QueueWants(queue) >= Wants(queue[0]) >= 1
  {}

  // ----- the bound -----

  lemma {:induction false} FrameTurnsBound(frames: seq<Frame>)
    requires forall i | 0 <= i < |frames| :: Turns(frames[i]) <= 2 * TX_TURNS + 3
    ensures FrameTurns(frames) <= |frames| * (2 * TX_TURNS + 3)
  {
    hide Turns;
    if frames != [] { FrameTurnsBound(frames[..|frames| - 1]); }
  }

  lemma {:induction false} QueueWantsBound(queue: seq<Request>)
    ensures QueueWants(queue) <= |queue| * (TX_TURNS + 3)
  {
    if queue != [] { QueueWantsBound(queue[1..]); }
  }

  lemma TurnsBound(s: State, i: nat)
    requires Inv(s) && i < |s.frames|
    ensures Turns(s.frames[i]) <= 2 * TX_TURNS + 3
  {
    FrameOf(s, i);
    hide Inv, HistoryOk;
  }

  lemma PotentialBound(s: State)
    requires Inv(s)
    ensures Potential(s) <= |s.frames| * 111 + |s.queue| * 57
  {
    hide Inv, Turns, FrameTurns, QueueWants;
    forall i | 0 <= i < |s.frames| ensures Turns(s.frames[i]) <= 2 * TX_TURNS + 3 { TurnsBound(s, i); }
    FrameTurnsBound(s.frames);
    QueueWantsBound(s.queue);
  }

  lemma {:induction false} StaysReachable(s: State, rounds: seq<seq<Event>>)
    requires Reachable(s) && Shape(s)
    ensures Reachable(Rounds(s, rounds))
    decreases |rounds|
  {
    hide Shape, Run;
    if rounds != [] {
      var addr, panId, events :| Run(Start(addr, panId), events) == s;
      RunOn(Start(addr, panId), events, rounds[0]);
      StaysReachable(Run(s, rounds[0]), rounds[1..]);
    }
  }

  /** The callback comes: in every reachable state, 111 rounds for each frame of the pool and 57 for each
      queued request are enough, whatever the PHY answers, for every submission so far to have had its
      callback, once. */
  lemma CallbackComes(s: State, rounds: seq<seq<Event>>, ticket: nat)
    requires Reachable(s) && Shape(s) && ticket < |s.submitted|
    requires forall i | 0 <= i < |rounds| :: Round(rounds[i])
    requires |rounds| >= |s.frames| * 111 + |s.queue| * 57
    ensures Callbacks(Rounds(s, rounds).callbacks, ticket) == 1
  {
    hide Shape, Inv, Rounds, Round, Potential;
    ReachableInv(s);
    PotentialBound(s);
    QueueEmpties(s, rounds);
    StaysReachable(s, rounds);
    ExactlyOnce(Rounds(s, rounds), ticket);
  }
}
