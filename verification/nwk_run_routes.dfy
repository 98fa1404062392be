/** The routing table over whole runs: as long as no frame with the reserved source address is
    received, it stands for a finite map in every state. Only the PHY's indication makes a frame
    that the receiver learns from, so its source is all that has to be known. */
module NetRunRoutes {
  import opened Types
  import opened NetState
  import opened NetSteps
  import opened NetRuns
  import Routing

  /** No step but the PHY's indication makes a received frame, and the table stays good. */
  ghost predicate Follows(s: State, r: State) {
    && |r.frames| == |s.frames|
    && (forall i | 0 <= i < |s.frames| && r.frames[i].state == RxReceived :: r.frames[i] == s.frames[i])
    && (Routing.Inv(s.routes) ==> Routing.Inv(r.routes))
  }

  ghost predicate SourcesKnown(s: State) {
    forall i | 0 <= i < |s.frames| && s.frames[i].state == RxReceived :: s.frames[i].header.nwkSrc != Routing.UNKNOWN
  }

  /** The event is not the indication of a frame with source 0xffff. */
  predicate Known(e: Event) {
    e.PhyIndication? && e.received.header.Some? ==> e.received.header.value.nwkSrc != Routing.UNKNOWN
  }

  lemma FollowsBoth(s: State, m: State, r: State)
    requires Follows(s, m) && Follows(m, r)
    ensures Follows(s, r)
  {
    hide Routing.Inv;
  }

  lemma StaysKnown(s: State, r: State)
    requires Follows(s, r) && SourcesKnown(s)
    ensures SourcesKnown(r)
  {
    hide Routing.Inv;
  }

  /** A frame is replaced by one that is not just received, and the table is left alone. */
  lemma ReplacedFollows(s: State, r: State, i: nat)
    requires i < |s.frames| == |r.frames| && r.routes == s.routes && r.frames == s.frames[i := r.frames[i]]
    requires r.frames[i].state != RxReceived || r.frames[i] == s.frames[i]
    ensures Follows(s, r)
  {
  }

  lemma SameFramesFollow(s: State, r: State)
    requires r.frames == s.frames && (Routing.Inv(s.routes) ==> Routing.Inv(r.routes))
    ensures Follows(s, r)
  {
  }

  // ----- requests -----

  lemma {:induction false} ActAllFollows(s: State, actions: seq<AppAction>)
    requires Shape(s)
    ensures ActAll(s, actions).routes == s.routes
    decreases |actions|
  {
    if actions != [] { ActAllFollows(Act(s, actions[0]), actions[1..]); }
  }

  lemma TxConfFollows(s: State, i: nat)
    requires Shape(s) && i < |s.frames| && s.frames[i].state == TxConfirm
    ensures Follows(s, TxConf(s, i))
  {
    hide Routing.Inv;
    ReplacedFollows(s, TxConf(s, i), i);
  }

  lemma {:induction false} DataReqTaskFollows(s: State, rnd: nat, q: nat)
    requires Shape(s) && q <= |s.queue|
    ensures Follows(s, DataReqTask(s, rnd, q))
    decreases |s.queue| - q
  {
    hide Routing.Inv, Shape;
    if q < |s.queue| {
      match s.queue[q].state
      case Initial =>
        match FirstFree(s.frames) {
          case None => SameFramesFollow(s, SendFrame(s, q, rnd));
          case Some(j) => ReplacedFollows(s, SendFrame(s, q, rnd), j);
        }
      case Confirmed => SameFramesFollow(s, ConfirmRequest(s, q));
      case WaitConf => DataReqTaskFollows(s, rnd, q + 1);
    } else {
      SameFramesFollow(s, s);
    }
  }

  // ----- transmitter -----

  lemma ConfirmStepFollows(s: State, i: nat)
    requires Shape(s) && i < |s.frames| && s.frames[i].state == TxConfirm
    ensures Follows(s, ConfirmStep(s, i))
  {
    hide Routing.Inv, Routing.FrameSent, TxConf;
    var f := s.frames[i];
    if Routing.Inv(s.routes) {
      Routing.FrameSentRefines(s.routes, f.header.nwkDst, MulticastBit(f.header), f.aux.status == Success);
    }
    var delivered := f.aux.status == Success;
    var sent := s.(routes := Routing.FrameSent(s.routes, f.header.nwkDst, MulticastBit(f.header), delivered));
    SameFramesFollow(s, sent);
    if f.aux.confirm == NoConfirm {
      ReplacedFollows(sent, FreeFrame(sent, i), i);
    } else {
      TxConfFollows(sent, i);
    }
    FollowsBoth(s, sent, ConfirmStep(s, i));
  }

  lemma TxStepFollows(s: State, i: nat)
    requires Shape(s) && i < |s.frames|
    ensures Follows(s, TxStep(s, i))
  {
    hide Routing.Inv, ConfirmStep, Shape, Routing.HasSpare;
    if s.frames[i].state == TxConfirm {
      ConfirmStepFollows(s, i);
    } else {
      ReplacedFollows(s, TxStep(s, i), i);
    }
  }

  lemma {:induction false} TxTaskFollows(s: State, i: nat)
    requires Shape(s) && i <= |s.frames|
    ensures Follows(s, TxTask(s, i))
    decreases |s.frames| - i
  {
    hide Routing.Inv, TxStep, Shape;
    if i == |s.frames| {
      SameFramesFollow(s, s);
    } else {
      TxStepFollows(s, i);
      TxTaskFollows(TxStep(s, i), i + 1);
      FollowsBoth(s, TxStep(s, i), TxTask(s, i));
    }
  }

  lemma {:induction false} AckTicksFollow(s: State, i: nat)
    requires Shape(s) && i <= |s.frames|
    ensures Follows(s, AckTicks(s, i))
    decreases |s.frames| - i
  {
    hide Routing.Inv, Shape;
    if i == |s.frames| {
      SameFramesFollow(s, s);
    } else {
      ReplacedFollows(s, AckTick(s, i), i);
      AckTicksFollow(AckTick(s, i), i + 1);
      FollowsBoth(s, AckTick(s, i), AckTicks(s, i));
    }
  }

  lemma {:induction false} DelayTicksFollow(s: State, i: nat)
    requires Shape(s) && i <= |s.frames|
    ensures Follows(s, DelayTicks(s, i))
    decreases |s.frames| - i
  {
    hide Routing.Inv, Shape;
    if i == |s.frames| {
      SameFramesFollow(s, s);
    } else {
      ReplacedFollows(s, DelayTick(s, i), i);
      DelayTicksFollow(DelayTick(s, i), i + 1);
      FollowsBoth(s, DelayTick(s, i), DelayTicks(s, i));
    }
  }

  // ----- receiver -----

  lemma SendCommandFollows(s: State, security: bool, dst: Word, payload: seq<Byte>, rnd: nat)
    requires Shape(s)
    ensures Follows(s, SendCommand(s, security, dst, payload, rnd))
  {
    hide Routing.Inv, Shape, OnAir;
    match FirstFree(s.frames)
    case None => SameFramesFollow(s, s);
    case Some(j) => ReplacedFollows(s, SendCommand(s, security, dst, payload, rnd), j);
  }

  lemma CopyFollows(s: State, i: nat, rnd: nat)
    requires Shape(s) && i < |s.frames| && s.frames[i].state == RxFinish
    ensures Follows(s, BroadcastCopy(s, i, rnd))
  {
    hide Routing.Inv, Shape;
    match FirstFree(s.frames)
    case None => SameFramesFollow(s, BroadcastCopy(s, i, rnd));
    case Some(j) => ReplacedFollows(s, BroadcastCopy(s, i, rnd), j);
  }

  lemma ForwardFollows(s: State, i: nat, h: Header, rnd: nat)
    requires Shape(s) && i < |s.frames| && s.frames[i].state == RxFinish && s.frames[i].aux.Rx?
    ensures Follows(s, Forward(s, i, h, rnd))
  {
    hide Routing.Inv, Shape, BroadcastCopy;
    CopyFollows(s, i, rnd);
    SameFramesFollow(s, s);
    var copied := if h.macDst == BROADCAST && h.nwkDst != s.addr && !h.linkLocal then BroadcastCopy(s, i, rnd) else s;
    ReplacedFollows(copied, Forward(s, i, h, rnd), i);
    FollowsBoth(s, copied, Forward(s, i, h, rnd));
  }

  lemma RejectFollows(s: State, h: Header)
    requires Shape(s)
    ensures Follows(s, RejectDuplicate(s, h).0)
  {
    hide Routing.Inv, Routing.Remove, Shape;
    if Routing.Inv(s.routes) { Routing.RemoveRefines(s.routes, h.nwkDst, MulticastBit(h)); }
    SameFramesFollow(s, RejectDuplicate(s, h).0);
  }

  lemma HandleReceivedFollows(s: State, i: nat, rnd: nat)
    requires Shape(s) && i < |s.frames| && s.frames[i].state == RxReceived && SourcesKnown(s)
    ensures Follows(s, HandleReceived(s, i, rnd))
  {
    hide Routing.Inv, Learn;
    var done := Put(s, i, s.frames[i].(state := RxFinish));
    ReplacedFollows(s, done, i);
    ReplacedFollows(s, Put(s, i, s.frames[i].(state := RxIndicate)), i);
    LearnFollows(done, i, rnd);
    FollowsBoth(s, done, Learn(done, i, rnd));
  }

  lemma LearnFollows(s: State, i: nat, rnd: nat)
    requires Shape(s) && i < |s.frames| && s.frames[i].state == RxFinish && s.frames[i].aux.Rx?
    requires s.frames[i].header.nwkSrc != Routing.UNKNOWN
    ensures Follows(s, Learn(s, i, rnd))
  {
    hide Routing.Inv, Routing.FrameReceived, RejectDuplicate, Forward;
    var h := s.frames[i].header;
    var heard := Routing.Heard(h.macDstPan, h.macDst, h.macSrc, h.nwkSrc, h.nwkDst, s.frames[i].aux.lqi);
    var learned := s.(routes := Routing.FrameReceived(s.routes, s.addr, heard));
    if Routing.Inv(s.routes) { Routing.FrameReceivedRefines(s.routes, s.addr, heard); }
    SameFramesFollow(s, learned);
    RejectFollows(learned, h);
    var (judged, rejected) := RejectDuplicate(learned, h);
    FollowsBoth(s, learned, judged);
    if !rejected {
      ForwardFollows(judged, i, h, rnd);
      FollowsBoth(s, judged, Learn(s, i, rnd));
    }
  }

  lemma IndicateFollows(s: State, i: nat, reply: AppReply)
    requires Shape(s) && i < |s.frames| && s.frames[i].state == RxIndicate
    ensures Follows(s, IndicateFrame(s, i, reply).0)
  {
    hide Routing.Inv, Routing.Remove, ActAll, ServiceCommand;
    var f := s.frames[i];
    var r := IndicateFrame(s, i, reply).0;
    assert TypedFrame(f);
    var told := Tell(s, i);
    SameFramesFollow(s, told);
    if f.header.dstEndpoint == SERVICE_ENDPOINT {
      CommandFollows(told, f.payload);
      FollowsBoth(s, told, r);
    } else if reply.open {
      ActAllFollows(told, reply.actions);
      SameFramesFollow(s, r);
    } else {
      SameFramesFollow(s, s);
    }
  }

  lemma CommandFollows(s: State, data: seq<Byte>)
    requires Shape(s)
    ensures Follows(s, ServiceCommand(s, data).0)
  {
    hide Routing.Inv, Routing.Remove, Shape;
    if |data| >= 1 && data[0] == COMMAND_ACK {
      AckFollows(s, data);
    } else {
      if |data| == 6 && Routing.Inv(s.routes) {
        var dst: int := data[4];
        Routing.RemoveRefines(s.routes, data[3] + 0x100 * dst, data[5]);
      }
      SameFramesFollow(s, ServiceCommand(s, data).0);
    }
  }

  lemma AckFollows(s: State, data: seq<Byte>)
    requires Shape(s)
    ensures Follows(s, AckReceived(s, data).0)
  {
    hide Routing.Inv, Shape;
    SameFramesFollow(s, s);
    if |data| == 3 {
      match AckWaiter(s.frames, data[1])
      case None =>
      case Some(k) => ReplacedFollows(s, AckReceived(s, data).0, k);
    }
  }

  lemma HandleIndicationFollows(s: State, i: nat, env: RxEnv)
    requires Shape(s) && i < |s.frames| && s.frames[i].state == RxIndicate
    ensures Follows(s, HandleIndication(s, i, env))
  {
    hide Routing.Inv, IndicateFrame, Answer;
    var s0 := s.(ackControl := 0);
    SameFramesFollow(s, s0);
    IndicateFollows(s0, i, env.Reply(i));
    var (told, consumed) := IndicateFrame(s0, i, env.Reply(i));
    FollowsBoth(s, s0, told);
    AnswerFollows(told, i, s.frames[i].header, consumed, env.Rnd(i));
    FollowsBoth(s, told, HandleIndication(s, i, env));
  }

  lemma AnswerFollows(s: State, i: nat, h: Header, consumed: bool, rnd: nat)
    requires Shape(s) && i < |s.frames| && s.frames[i].state == RxIndicate
    ensures Follows(s, Answer(s, i, h, consumed, rnd))
  {
    hide Routing.Inv, SendCommand;
    var command := [COMMAND_ACK, h.nwkSeq, s.ackControl];
    SendCommandFollows(s, h.security, h.nwkSrc, command, rnd);
    SameFramesFollow(s, s);
    var acked := if Acknowledges(s.addr, h, consumed) then SendCommand(s, h.security, h.nwkSrc, command, rnd) else s;
    ReplacedFollows(acked, Answer(s, i, h, consumed, rnd), i);
    FollowsBoth(s, acked, Answer(s, i, h, consumed, rnd));
  }

  lemma RouteFrameFollows(s: State, i: nat, rnd: nat)
    requires Shape(s) && i < |s.frames| && s.frames[i].state == RxRoute
    ensures Follows(s, RouteFrame(s, i, rnd))
  {
    hide Routing.Inv, SendCommand, OnAir, Routing.NextHop;
    var f := s.frames[i];
    if Routing.NextHop(s.routes, f.header.nwkDst, MulticastBit(f.header)) != Routing.UNKNOWN {
      ReplacedFollows(s, RouteFrame(s, i, rnd), i);
    } else {
      SendCommandFollows(s, false, f.header.nwkSrc, RouteErrorCommand(f.header), rnd);
      var reported := SendCommand(s, false, f.header.nwkSrc, RouteErrorCommand(f.header), rnd);
      ReplacedFollows(reported, RouteFrame(s, i, rnd), i);
      FollowsBoth(s, reported, RouteFrame(s, i, rnd));
    }
  }

  lemma RxStepFollows(s: State, i: nat, env: RxEnv)
    requires Shape(s) && i < |s.frames| && SourcesKnown(s)
    ensures Follows(s, RxStep(s, i, env))
  {
    hide Routing.Inv, HandleReceived, HandleIndication, RouteFrame;
    match s.frames[i].state
    case RxReceived => HandleReceivedFollows(s, i, env.Rnd(i));
    case RxIndicate => HandleIndicationFollows(s, i, env);
    case RxRoute => RouteFrameFollows(s, i, env.Rnd(i));
    case RxFinish => ReplacedFollows(s, RxStep(s, i, env), i);
    case _ => SameFramesFollow(s, s);
  }

  lemma {:induction false} RxTaskFollows(s: State, env: RxEnv, i: nat)
    requires Shape(s) && i <= |s.frames| && SourcesKnown(s)
    ensures Follows(s, RxTask(s, env, i))
    decreases |s.frames| - i
  {
    hide Routing.Inv, RxStep, Shape;
    if i == |s.frames| {
      SameFramesFollow(s, s);
    } else {
      RxStepFollows(s, i, env);
      StaysKnown(s, RxStep(s, i, env));
      RxTaskFollows(RxStep(s, i, env), env, i + 1);
      FollowsBoth(s, RxStep(s, i, env), RxTask(s, env, i));
    }
  }

  // ----- runs -----

  ghost predicate Good(s: State) {
    Shape(s) && SourcesKnown(s) && Routing.Inv(s.routes)
  }

  lemma FollowsGood(s: State, r: State)
    requires Good(s) && Shape(r) && Follows(s, r)
    ensures Good(r)
  {
    StaysKnown(s, r);
  }

  lemma PhyIndGood(s: State, d: Received)
    requires Good(s) && Known(PhyIndication(d))
    ensures Good(PhyInd(s, d))
  {
    hide Routing.Inv, Shape;
  }

  lemma StepGood(s: State, e: Event)
    requires Good(s) && Known(e)
    ensures Good(Step(s, e))
  {
    hide Routing.Inv, TxTask, RxTask, DataReqTask, AckTicks, DelayTicks, SourcesKnown, Shape, PhyInd, PhyConf;
    SameFramesFollow(s, s);
    match e
    case Application(a) =>
      SameFramesFollow(s, Act(s, a));
      FollowsGood(s, Act(s, a));
    case PhyIndication(d) => PhyIndGood(s, d);
    case PhyConfirmation(p) =>
      PhyConfFollows(s, p);
      FollowsGood(s, PhyConf(s, p));
    case TxTaskRuns =>
      TxTaskFollows(s, 0);
      FollowsGood(s, TxTask(s));
    case RxTaskRuns(env) =>
      RxTaskFollows(s, env, 0);
      FollowsGood(s, RxTask(s, env));
    case DataReqTaskRuns(rnd) =>
      DataReqTaskFollows(s, rnd, 0);
      FollowsGood(s, DataReqTask(s, rnd));
    case AckTimerFires =>
      AckTicksFollow(s, 0);
      SameFramesFollow(AckTicks(s), AckTimer(s));
      FollowsBoth(s, AckTicks(s), AckTimer(s));
      FollowsGood(s, AckTimer(s));
    case DelayTimerFires =>
      DelayTicksFollow(s, 0);
      SameFramesFollow(DelayTicks(s), DelayTimer(s));
      FollowsBoth(s, DelayTicks(s), DelayTimer(s));
      FollowsGood(s, DelayTimer(s));
    case DupTimerFires =>
      SameFramesFollow(s, DupTimer(s));
      FollowsGood(s, DupTimer(s));
  }

  lemma PhyConfFollows(s: State, p: PhyStatus)
    requires Shape(s)
    ensures Follows(s, PhyConf(s, p))
  {
    hide Routing.Inv;
    match s.active
    case None => SameFramesFollow(s, s);
    case Some(i) => ReplacedFollows(s, PhyConf(s, p), i);
  }

  lemma {:induction false} RunGood(s: State, events: seq<Event>)
    requires Good(s) && forall k | 0 <= k < |events| :: Known(events[k])
    ensures Good(Run(s, events))
    decreases |events|
  {
    hide Routing.Inv, Step, SourcesKnown, Shape;
    if events != [] {
      StepGood(s, events[0]);
      RunGood(Step(s, events[0]), events[1..]);
    }
  }

  lemma StartGood(addr: Word, panId: Word)
    ensures Good(Start(addr, panId))
  {
    var t := Start(addr, panId).routes;
    assert forall i | 0 <= i < |t| :: t[i] == Routing.Entry(false, 0, 0, Routing.UNKNOWN, 0, 0, 0);
  }

  /** In every state that a run without such frames reaches, the routing table is good: its live
      entries have unique destinations, free slots rank below live ones, and scores stay in range. */
  lemma RoutesGoodInRuns(addr: Word, panId: Word, events: seq<Event>)
    requires forall k | 0 <= k < |events| :: Known(events[k])
    ensures Routing.Inv(Run(Start(addr, panId), events).routes)
  {
    StartGood(addr, panId);
    RunGood(Start(addr, panId), events);
  }
}
