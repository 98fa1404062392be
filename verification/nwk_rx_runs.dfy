/** Received frames in runs: between its turns in the receiver a frame is left alone, whatever else happens.
    What the turns do is in NetReceived; here it is lifted to runs of the receiver over the whole pool, and to
    the events in between. */
module NetRxRuns {
  import opened Types
  import opened NetState
  import opened NetSteps
  import opened NetRuns
  import opened NetReceived
  import Routing
  import Duplicates

  // ----- what other steps leave alone -----

  /** Received frames stay as they are, none is made up, nothing is indicated, and outgoing frames that no
      request waits for carry what they carried. */
  ghost predicate KeepsRx(s: State, r: State) {
    && |r.frames| == |s.frames| && SameNode(s, r) && r.indications == s.indications
    && forall k | 0 <= k < |s.frames| :: SlotKeeps(s.frames[k], r.frames[k])
  }

  predicate SlotKeeps(f: Frame, g: Frame) {
    && (IsRx(f.state) || IsRx(g.state) ==> g == f)
    && (Stray(g) ==> Stray(f) && g.header == f.header && g.payload == f.payload)
  }

  lemma KeepsBoth(s: State, m: State, r: State)
    requires KeepsRx(s, m) && KeepsRx(m, r)
    ensures KeepsRx(s, r)
  {}

  /** One frame changes, and is not a received one before or after. */
  lemma OneKeeps(s: State, r: State, i: nat)
    requires i < |s.frames| == |r.frames| && r.frames == s.frames[i := r.frames[i]]
    requires SlotKeeps(s.frames[i], r.frames[i]) && SameNode(s, r) && r.indications == s.indications
    ensures KeepsRx(s, r)
  {}

  lemma TxStepKeepsRx(s: State, i: nat)
    requires Shape(s) && i < |s.frames|
    ensures KeepsRx(s, TxStep(s, i))
  {
    assert TypedFrame(s.frames[i]);
    hide Shape, TypedPool, DelayStep, SendStep, SentStep, ConfirmStep, KeepsRx;
    match s.frames[i].state
    case TxDelay => DelayKeepsRx(s, i);
    case TxSend => SendKeepsRx(s, i);
    case TxSent => SentKeepsRx(s, i);
    case TxConfirm => ConfirmKeepsRx(s, i);
    case _ => SameKeepsRx(s);
  }

  lemma SameKeepsRx(s: State)
    ensures KeepsRx(s, s)
  {}

  lemma DelayKeepsRx(s: State, i: nat)
    requires Shape(s) && i < |s.frames| && s.frames[i].state == TxDelay && s.frames[i].aux.Tx?
    ensures KeepsRx(s, DelayStep(s, i))
  {
    hide Shape, TypedPool, KeepsRx;
    OneKeeps(s, DelayStep(s, i), i);
  }

  lemma SendKeepsRx(s: State, i: nat)
    requires Shape(s) && i < |s.frames| && s.frames[i].state == TxSend && s.frames[i].aux.Tx?
    ensures KeepsRx(s, SendStep(s, i))
  {
    hide Shape, TypedPool, KeepsRx;
    if s.active.None? { OneKeeps(s, SendStep(s, i), i); } else { SameKeepsRx(s); }
  }

  lemma SentKeepsRx(s: State, i: nat)
    requires Shape(s) && i < |s.frames| && s.frames[i].state == TxSent && s.frames[i].aux.Tx?
    ensures KeepsRx(s, SentStep(s, i))
  {
    hide Shape, TypedPool, KeepsRx;
    OneKeeps(s, SentStep(s, i), i);
  }

  lemma ConfirmKeepsRx(s: State, i: nat)
    requires Shape(s) && i < |s.frames| && s.frames[i].state == TxConfirm && s.frames[i].aux.Tx?
    ensures KeepsRx(s, ConfirmStep(s, i))
  {
    hide KeepsRx;
    ConfirmFrees(s, i);
    hide ConfirmStep, Shape, TypedPool;
    OneKeeps(s, ConfirmStep(s, i), i);
  }

  lemma ConfirmFrees(s: State, i: nat)
    requires Shape(s) && i < |s.frames| && s.frames[i].state == TxConfirm
    ensures var r := ConfirmStep(s, i);
            && r.frames == s.frames[i := s.frames[i].(state := Free)] && SameNode(s, r)
            && r.indications == s.indications
  {
    hide Shape, TypedPool, Routing.FrameSent, Holder, Routing.HasSpare;
  }

  lemma {:induction false} TxTaskKeepsRx(s: State, i: nat)
    requires Shape(s) && i <= |s.frames|
    ensures KeepsRx(s, TxTask(s, i))
    decreases |s.frames| - i
  {
    hide Shape, TxStep;
    if i < |s.frames| {
      TxStepKeepsRx(s, i);
      TxTaskKeepsRx(TxStep(s, i), i + 1);
      KeepsBoth(s, TxStep(s, i), TxTask(s, i));
    }
  }

  lemma {:induction false} AckTicksKeepRx(s: State, i: nat)
    requires Shape(s) && i <= |s.frames|
    ensures KeepsRx(s, AckTicks(s, i))
    decreases |s.frames| - i
  {
    if i < |s.frames| {
      assert TypedFrame(s.frames[i]);
      hide Shape, TypedPool;
      if s.frames[i].state == TxWaitAck { OneKeeps(s, AckTick(s, i), i); }
      AckTicksKeepRx(AckTick(s, i), i + 1);
      KeepsBoth(s, AckTick(s, i), AckTicks(s, i));
    }
  }

  lemma {:induction false} DelayTicksKeepRx(s: State, i: nat)
    requires Shape(s) && i <= |s.frames|
    ensures KeepsRx(s, DelayTicks(s, i))
    decreases |s.frames| - i
  {
    if i < |s.frames| {
      assert TypedFrame(s.frames[i]);
      hide Shape, TypedPool;
      if s.frames[i].state == TxWaitDelay { OneKeeps(s, DelayTick(s, i), i); }
      DelayTicksKeepRx(DelayTick(s, i), i + 1);
      KeepsBoth(s, DelayTick(s, i), DelayTicks(s, i));
    }
  }

  lemma {:induction false} DataReqTaskKeepsRx(s: State, rnd: nat, q: nat)
    requires Shape(s) && q <= |s.queue|
    ensures KeepsRx(s, DataReqTask(s, rnd, q))
    decreases |s.queue| - q
  {
    hide Shape, TypedPool, OnAir, RequestFrame;
    if q < |s.queue| {
      match s.queue[q].state
      case Initial => if FirstFree(s.frames).Some? { OneKeeps(s, SendFrame(s, q, rnd), FirstFree(s.frames).value); }
      case Confirmed =>
      case WaitConf => DataReqTaskKeepsRx(s, rnd, q + 1);
    }
  }

  lemma PhyConfKeepsRx(s: State, p: PhyStatus)
    requires Shape(s)
    ensures KeepsRx(s, PhyConf(s, p))
  {
    if s.active.Some? { OneKeeps(s, PhyConf(s, p), s.active.value); }
  }

  /** An event that is not a run of the receiver or an indication of the PHY. */
  predicate Elsewhere(e: Event) {
    !e.RxTaskRuns? && !e.PhyIndication?
  }

  lemma ElsewhereKeepsRx(s: State, e: Event)
    requires Shape(s) && Elsewhere(e)
    ensures KeepsRx(s, Step(s, e))
  {
    hide TxTask, DataReqTask, AckTicks, DelayTicks, Shape, PhyConf;
    match e
    case Application(a) =>
    case PhyConfirmation(p) => PhyConfKeepsRx(s, p);
    case TxTaskRuns => TxTaskKeepsRx(s, 0);
    case DataReqTaskRuns(rnd) => DataReqTaskKeepsRx(s, rnd, 0);
    case AckTimerFires => AckTicksKeepRx(s, 0);
    case DelayTimerFires => DelayTicksKeepRx(s, 0);
    case DupTimerFires =>
  }

  lemma PhyIndKeepsRx(s: State, d: Received, i: nat)
    requires Shape(s) && i < |s.frames| && s.frames[i].state != Free
    ensures var r := PhyInd(s, d);
            |r.frames| == |s.frames| && r.frames[i] == s.frames[i] && SameNode(s, r)
  {
    hide Shape;
  }

  /** Between two runs of the receiver a received frame stays as it is. */
  lemma {:induction false} RxWaits(s: State, events: seq<Event>, i: nat)
    requires Shape(s) && i < |s.frames| && IsRx(s.frames[i].state)
    requires forall k | 0 <= k < |events| :: !events[k].RxTaskRuns?
    ensures var r := Run(s, events);
            |r.frames| == |s.frames| && r.frames[i] == s.frames[i] && SameNode(s, r)
    decreases |events|
  {
    hide Shape, PhyInd;
    if events != [] {
      var e := events[0];
      if e.PhyIndication? { PhyIndKeepsRx(s, e.received, i); } else { ElsewhereKeepsRx(s, e); }
      assert forall k | 0 <= k < |events| - 1 :: events[1..][k] == events[k + 1];
      hide Step;
      RxWaits(Step(s, e), events[1..], i);
    }
  }

  // ----- turns -----

  /** The state just before frame `i` has its turn, in a run of the receiver that is at frame `k`. */
  function Before(s: State, env: RxEnv, i: nat, k: nat := 0): (r: State)
    requires Shape(s) && k <= i < |s.frames|
    ensures Shape(r) && |r.frames| == |s.frames|
    decreases i - k
  {
    if k == i then s else Before(RxStep(s, k, env), env, i, k + 1)
  }

  /** The same network frame: what the MAC header does not say. */
  predicate SameNetworkFrame(f: Frame, c: Frame) {
    && c.payload == f.payload
    && c.header == f.header.(macFcf := c.header.macFcf, macSeq := c.header.macSeq, macDstPan := c.header.macDstPan,
                             macDst := c.header.macDst, macSrc := c.header.macSrc)
  }

  /** An acknowledgment or a route error of the node's own. */
  predicate OwnCommand(c: Frame, addr: Word) {
    && c.header.nwkSrc == addr && c.header.srcEndpoint == 0 && c.header.dstEndpoint == 0
    && ((|c.payload| == 3 && c.payload[0] == 0) || (|c.payload| == 6 && c.payload[0] == 1))
  }

  /** What a turn of frame `f` may make another slot, or its own, hold: `f` itself on its way up, a copy of it
      on its way to others, or a command. */
  predicate Causes(addr: Word, f: Frame, c: Frame) {
    || (&& c == f.(state := c.state)
        && match c.state
           case RxIndicate => f.state == RxReceived && ForNode(f.header, addr)
           case RxRoute => f.state == RxReceived && ForHop(f.header, addr)
           case RxFinish => IsRx(f.state)
           case Free => IsRx(f.state)
           case _ => false)
    || (Stray(c) && ((SameNetworkFrame(f, c) && f.header.nwkSrc != addr && IsRx(f.state)) || OwnCommand(c, addr)))
  }

  /** Frame `i` after the turn of frame `k`. */
  predicate AfterTurn(s: State, r: State, k: nat, i: nat)
    requires k < |s.frames| && i < |s.frames| == |r.frames|
  {
    || r.frames[i] == s.frames[i]
    || (i == k && IsRx(s.frames[k].state) && Causes(s.addr, s.frames[k], r.frames[k]))
    || (i != k && s.frames[i].state == Free && IsTx(r.frames[i].state) && Causes(s.addr, s.frames[k], r.frames[i]))
    || (i != k && Acked(s.frames[i], r.frames[i]))
  }

  predicate Acked(f: Frame, c: Frame) {
    && f.state == TxWaitAck && f.aux.Tx? && c.aux.Tx?
    && c == f.(state := TxConfirm, aux := f.aux.(control := c.aux.control))
  }

  ghost predicate OneTurn(s: State, r: State, k: nat)
    requires k < |s.frames|
  {
    && |r.frames| == |s.frames| && SameNode(s, r)
    && forall i | 0 <= i < |s.frames| :: AfterTurn(s, r, k, i)
  }

  lemma TurnIsOne(s: State, k: nat, env: RxEnv)
    requires Shape(s) && k < |s.frames|
    requires s.frames[k].state == RxRoute ==> ForHop(s.frames[k].header, s.addr)
    ensures OneTurn(s, RxStep(s, k, env), k)
  {
    hide Shape, RxStep, ForHop, OneTurn;
    match s.frames[k].state
    case RxReceived => FirstIsOne(s, k, env);
    case RxIndicate => SecondIsOne(s, k, env);
    case RxRoute => RouteIsOne(s, k, env);
    case RxFinish => LastIsOne(s, k, env);
    case _ => NoTurn(s, k, env); SameIsOne(s, k);
  }

  lemma SameIsOne(s: State, k: nat)
    requires k < |s.frames|
    ensures OneTurn(s, s, k)
  {
    hide Causes, Acked;
  }

  lemma FirstIsOne(s: State, k: nat, env: RxEnv)
    requires Shape(s) && k < |s.frames| && s.frames[k].state == RxReceived
    ensures OneTurn(s, RxStep(s, k, env), k)
  {
    FirstTurn(s, k, env);
    var h := s.frames[k].header;
    var st := if ForNode(h, s.addr) && New(s, h) then RxIndicate
              else if ForHop(h, s.addr) && New(s, h) then RxRoute else RxFinish;
    MovedIsOne(s, RxStep(s, k, env), k, st, ForOthers(h, s.addr) && New(s, h));
  }

  lemma MovedIsOne(s: State, r: State, k: nat, st: FrameState, copied: bool)
    requires k < |s.frames| && s.frames[k].state == RxReceived && SameNode(s, r) && MovesOn(s, r, k, st, copied)
    requires match st
             case RxIndicate => ForNode(s.frames[k].header, s.addr)
             case RxRoute => ForHop(s.frames[k].header, s.addr)
             case RxFinish => true
             case _ => false
    requires copied ==> ForOthers(s.frames[k].header, s.addr)
    ensures OneTurn(s, r, k)
  {
    if copied { assert s.frames[k].header.nwkSrc != s.addr; }
    hide ForNode, ForHop, ForOthers, OwnCommand, Acked;
    forall x | 0 <= x < |r.frames| ensures AfterTurn(s, r, k, x) {
      if x == k {
        assert Causes(s.addr, s.frames[k], r.frames[k]);
      } else if r.frames[x] != s.frames[x] {
        assert x == FirstFree(s.frames).value && IsCopy(s, s.frames[k], r.frames[x]);
        assert SameNetworkFrame(s.frames[k], r.frames[x]);
      }
    }
  }

  lemma RouteIsOne(s: State, k: nat, env: RxEnv)
    requires Shape(s) && k < |s.frames| && s.frames[k].state == RxRoute && ForHop(s.frames[k].header, s.addr)
    ensures OneTurn(s, RxStep(s, k, env), k)
  {
    var h := s.frames[k].header;
    assert !h.multicast && h.nwkDst != 0xffff && h.nwkSrc != s.addr;
    RouteTurn(s, k, env);
    var r := RxStep(s, k, env);
    hide Shape, RxStep, ForNode, ForHop, Hop, Acked;
    if Hop(s, h.nwkDst) != 0xffff {
      assert SameNetworkFrame(s.frames[k], r.frames[k]);
      hide SameNetworkFrame, OwnCommand, Stray;
    } else {
      hide ReportsError;
      ReportIsOne(s, r, k, [1, h.nwkSrc % 0x100, h.nwkSrc / 0x100, h.nwkDst % 0x100, h.nwkDst / 0x100, 0]);
    }
  }

  lemma ReportIsOne(s: State, r: State, k: nat, payload: seq<Byte>)
    requires k < |s.frames| && s.frames[k].state == RxRoute && SameNode(s, r)
    requires ReportsError(s, r, k, payload) && |payload| == 6 && payload[0] == 1
    ensures OneTurn(s, r, k)
  {
    hide Hop, Acked, ForNode, ForHop, SameNetworkFrame;
    forall x | 0 <= x < |r.frames| ensures AfterTurn(s, r, k, x) {
      if x != k && r.frames[x] != s.frames[x] {
        assert x == FirstFree(s.frames).value && OwnCommand(r.frames[x], s.addr);
      }
    }
  }

  lemma LastIsOne(s: State, k: nat, env: RxEnv)
    requires Shape(s) && k < |s.frames| && s.frames[k].state == RxFinish
    ensures OneTurn(s, RxStep(s, k, env), k)
  {
    hide Shape, RxStep, Acked, ForNode, ForHop;
    LastTurn(s, k, env);
  }

  lemma NoTurn(s: State, k: nat, env: RxEnv)
    requires Shape(s) && k < |s.frames| && !IsRx(s.frames[k].state)
    ensures RxStep(s, k, env) == s
  {}

  lemma SecondIsOne(s: State, k: nat, env: RxEnv)
    requires Shape(s) && k < |s.frames| && s.frames[k].state == RxIndicate
    ensures OneTurn(s, RxStep(s, k, env), k)
  {
    hide Shape, RxStep, Hop, ServiceCommand;
    if s.frames[k].header.dstEndpoint == 0 {
      ServiceTurn(s, k, env);
      ServiceFrames(s, s.frames[k].payload);
    } else if env.Reply(k).open {
      ApplicationTurn(s, k, env);
    } else {
      ClosedTurn(s, k, env);
    }
  }

  lemma ServiceFrames(s: State, data: seq<Byte>)
    requires Shape(s)
    ensures var told := ServiceCommand(s, data).0;
            && |told.frames| == |s.frames| && SameNode(s, told)
            && forall i | 0 <= i < |s.frames| :: told.frames[i] == s.frames[i] || Acked(s.frames[i], told.frames[i])
  {
    assert forall i | 0 <= i < |s.frames| :: TypedFrame(s.frames[i]);
    hide Shape, Routing.Remove;
  }

  // ----- what holds of received frames in runs -----

  /** Frames on their way up are for this node, and frames on their way on are for others. */
  ghost predicate RxOk(s: State) {
    forall i | 0 <= i < |s.frames| ::
      && (s.frames[i].state == RxIndicate ==> ForNode(s.frames[i].header, s.addr))
      && (s.frames[i].state == RxRoute ==> ForHop(s.frames[i].header, s.addr))
  }

  lemma TurnKeepsOk(s: State, k: nat, env: RxEnv)
    requires Shape(s) && k < |s.frames| && RxOk(s)
    ensures OneTurn(s, RxStep(s, k, env), k) && RxOk(RxStep(s, k, env))
  {
    TurnIsOne(s, k, env);
    var r := RxStep(s, k, env);
    hide Shape, RxStep, ForHop, OneTurn, RxOk;
    TurnLeavesOk(s, r, k);
  }

  lemma TurnLeavesOk(s: State, r: State, k: nat)
    requires k < |s.frames| && RxOk(s) && OneTurn(s, r, k)
    ensures RxOk(r)
  {
    hide ForNode, ForHop, SameNetworkFrame, OwnCommand;
    forall i | 0 <= i < |r.frames|
      ensures r.frames[i].state == RxIndicate ==> ForNode(r.frames[i].header, r.addr)
      ensures r.frames[i].state == RxRoute ==> ForHop(r.frames[i].header, r.addr)
    {
      assert AfterTurn(s, r, k, i);
    }
  }

  lemma {:induction false} RxTaskKeepsOk(s: State, env: RxEnv, k: nat)
    requires Shape(s) && k <= |s.frames| && RxOk(s)
    ensures RxOk(RxTask(s, env, k)) && SameNode(s, RxTask(s, env, k))
    decreases |s.frames| - k
  {
    hide Shape, RxStep, RxOk;
    if k < |s.frames| {
      TurnKeepsOk(s, k, env);
      RxTaskKeepsOk(RxStep(s, k, env), env, k + 1);
    }
  }

  lemma StepKeepsOk(s: State, e: Event)
    requires Shape(s) && RxOk(s)
    ensures RxOk(Step(s, e)) && SameNode(s, Step(s, e))
  {
    hide Shape, RxTask, PhyInd, ForNode, ForHop;
    if e.RxTaskRuns? {
      RxTaskKeepsOk(s, e.env, 0);
    } else if e.PhyIndication? {
      PhyIndKeepsOk(s, e.received);
    } else {
      ElsewhereKeepsRx(s, e);
      hide Step;
    }
  }

  lemma PhyIndKeepsOk(s: State, d: Received)
    requires Shape(s) && RxOk(s)
    ensures RxOk(PhyInd(s, d)) && SameNode(s, PhyInd(s, d))
  {
    hide Shape, ForNode, ForHop;
  }

  lemma {:induction false} RunKeepsOk(s: State, events: seq<Event>)
    requires Shape(s) && RxOk(s)
    ensures RxOk(Run(s, events)) && SameNode(s, Run(s, events))
    decreases |events|
  {
    hide Shape, Step, RxOk;
    if events != [] {
      StepKeepsOk(s, events[0]);
      RunKeepsOk(Step(s, events[0]), events[1..]);
    }
  }

  lemma ReachableRxOk(s: State)
    requires Reachable(s)
    ensures RxOk(s) && Shape(s)
  {
    var addr, panId, events :| Run(Start(addr, panId), events) == s;
    RunKeepsOk(Start(addr, panId), events);
  }

  // ----- a run of the receiver, turn by turn -----

  /** Nothing happens to a received frame before its turn. */
  lemma {:induction false} UntilItsTurn(s: State, env: RxEnv, i: nat, k: nat)
    requires Shape(s) && k <= i < |s.frames| && RxOk(s) && IsRx(s.frames[i].state)
    ensures var t := Before(s, env, i, k);
            && t.frames[i] == s.frames[i] && SameNode(s, t) && RxOk(t)
            && RxTask(s, env, k) == RxTask(RxStep(t, i, env), env, i + 1)
    decreases i - k
  {
    hide Shape, RxStep, RxOk, Causes;
    if k < i {
      TurnKeepsOk(s, k, env);
      assert AfterTurn(s, RxStep(s, k, env), k, i);
      UntilItsTurn(RxStep(s, k, env), env, i, k + 1);
    }
  }

  /** Nothing happens to a frame after its turn, unless it is free or waits for an acknowledgment. */
  lemma {:induction false} AfterItsTurn(s: State, env: RxEnv, i: nat, k: nat)
    requires Shape(s) && i < k <= |s.frames| && RxOk(s) && s.frames[i].state !in {Free, TxWaitAck}
    ensures RxTask(s, env, k).frames[i] == s.frames[i]
    decreases |s.frames| - k
  {
    hide Shape, RxStep, RxOk, Causes;
    if k < |s.frames| {
      TurnKeepsOk(s, k, env);
      assert AfterTurn(s, RxStep(s, k, env), k, i);
      AfterItsTurn(RxStep(s, k, env), env, i, k + 1);
    }
  }

  /** In a run of the receiver a received frame has one turn, and this is what becomes of it. */
  lemma ItsTurn(s: State, env: RxEnv, i: nat)
    requires Shape(s) && i < |s.frames| && RxOk(s) && IsRx(s.frames[i].state)
    ensures var t := Before(s, env, i);
            var u := RxStep(t, i, env);
            && t.frames[i] == s.frames[i] && SameNode(s, t) && RxOk(t)
            && (u.frames[i].state !in {Free, TxWaitAck} ==> RxTask(s, env).frames[i] == u.frames[i])
  {
    hide Shape, RxStep, RxOk;
    UntilItsTurn(s, env, i, 0);
    var t := Before(s, env, i);
    TurnKeepsOk(t, i, env);
    if RxStep(t, i, env).frames[i].state !in {Free, TxWaitAck} { AfterItsTurn(RxStep(t, i, env), env, i, i + 1); }
  }
}
