/** Where received frames go, in whole runs: to the application, to the next node, or nowhere. */
module NetDelivery {
  import opened Types
  import opened NetState
  import opened NetSteps
  import opened NetInvariants
  import opened NetRuns
  import opened NetReceived
  import opened NetRxRuns
  import Routing
  import Duplicates

  predicate NoRxRun(events: seq<Event>) {
    forall k | 0 <= k < |events| :: !events[k].RxTaskRuns?
  }

  /** A data frame as the PHY delivers it, and a slot of the pool for it. */
  predicate Delivers(s: State, d: Received, j: nat) {
    d.fcf in {0x8861, 0x8841} && d.header.Some? && FirstFree(s.frames) == Some(j)
  }

  function FrameOfPhy(d: Received, st: FrameState): Frame
    requires d.header.Some?
  {
    Frame(st, d.header.value, d.payload, Rx(d.lqi, d.rssi))
  }

  lemma PhyDelivers(s: State, d: Received, j: nat)
    requires Shape(s) && RxOk(s) && Delivers(s, d, j)
    ensures var r := PhyInd(s, d);
            && |r.frames| == |s.frames| && j < |r.frames| && r.frames[j] == FrameOfPhy(d, RxReceived)
            && RxOk(r) && SameNode(s, r)
  {
    PhyIndKeepsOk(s, d);
    hide Shape, RxOk;
  }

  /** The state at the turn that the delivered frame has in the first run of the receiver. */
  function FirstMoment(s: State, d: Received, e: seq<Event>, env: RxEnv, j: nat): (t: State)
    requires Shape(s) && j < |s.frames|
    ensures Shape(t)
  {
    var a := Run(PhyInd(s, d), e);
    if j < |a.frames| then Before(a, env, j) else a
  }

  /** An outgoing frame that does not wait for an acknowledgment is nothing to the receiver. */
  lemma {:induction false} StaysOut(s: State, env: RxEnv, x: nat, k: nat)
    requires Shape(s) && k <= |s.frames| && x < |s.frames| && RxOk(s)
    requires IsTx(s.frames[x].state) && s.frames[x].state != TxWaitAck
    ensures RxTask(s, env, k).frames[x] == s.frames[x]
    decreases |s.frames| - k
  {
    hide Shape, RxStep, RxOk, Causes;
    if k < |s.frames| {
      TurnKeepsOk(s, k, env);
      assert AfterTurn(s, RxStep(s, k, env), k, x);
      StaysOut(RxStep(s, k, env), env, x, k + 1);
    }
  }

  /** What becomes of a delivered frame in the first run of the receiver: it is to be indicated exactly when it
      is for this node and new, to be sent on exactly when it came here on its way to another node and is new,
      and otherwise it is finished. A new broadcast for others is sent again, with its payload. */
  lemma FirstRun(s: State, d: Received, e: seq<Event>, env: RxEnv, j: nat)
    requires Reachable(s) && Shape(s) && Delivers(s, d, j) && NoRxRun(e)
    ensures var t, h := FirstMoment(s, d, e, env, j), d.header.value;
            var r := Step(Run(PhyInd(s, d), e), RxTaskRuns(env));
            && j < |t.frames| == |r.frames| && SameNode(s, t) && SameNode(s, r)
            && t.frames[j] == FrameOfPhy(d, RxReceived)
            && r.frames[j] == FrameOfPhy(d, if ForNode(h, s.addr) && New(t, h) then RxIndicate
                                            else if ForHop(h, s.addr) && New(t, h) then RxRoute else RxFinish)
            && (ForOthers(h, s.addr) && New(t, h) && FirstFree(t.frames).Some? ==>
                  IsCopy(t, t.frames[j], r.frames[FirstFree(t.frames).value]))
  {
    ReachableRxOk(s);
    PhyDelivers(s, d, j);
    var p := PhyInd(s, d);
    RxWaits(p, e, j);
    RunKeepsOk(p, e);
    var a := Run(p, e);
    assert FirstMoment(s, d, e, env, j) == Before(a, env, j) && Step(a, RxTaskRuns(env)) == RxTask(a, env);
    assert SameNode(s, a) && SameNode(p, a);
    FirstTurnInRun(a, env, j, d);
    SameAddress(s, a);
    hide *;
  }

  lemma SameAddress(s: State, a: State)
    requires SameNode(s, a)
    ensures s.addr == a.addr && forall t: State :: SameNode(a, t) <==> SameNode(s, t)
  {}

  lemma FirstTurnInRun(a: State, env: RxEnv, j: nat, d: Received)
    requires Shape(a) && j < |a.frames| && RxOk(a) && d.header.Some? && a.frames[j] == FrameOfPhy(d, RxReceived)
    ensures var t, r, h := Before(a, env, j), RxTask(a, env), d.header.value;
            && j < |t.frames| == |r.frames| && SameNode(a, t) && SameNode(a, r)
            && t.frames[j] == FrameOfPhy(d, RxReceived)
            && r.frames[j] == FrameOfPhy(d, if ForNode(h, a.addr) && New(t, h) then RxIndicate
                                            else if ForHop(h, a.addr) && New(t, h) then RxRoute else RxFinish)
            && (ForOthers(h, a.addr) && New(t, h) && FirstFree(t.frames).Some? ==>
                  IsCopy(t, t.frames[j], r.frames[FirstFree(t.frames).value]))
  {
    hide Shape, RxOk, RxTask, RxStep, Before, ForNode, ForHop, ForOthers, New, IsCopy;
    ItsTurn(a, env, j);
    var t := Before(a, env, j);
    FirstTurn(t, j, env);
    RxTaskKeepsOk(a, env, 0);
    if ForOthers(d.header.value, a.addr) && New(t, d.header.value) && FirstFree(t.frames).Some? {
      CopyStays(a, env, j);
    }
  }

  lemma CopyStays(a: State, env: RxEnv, j: nat)
    requires Shape(a) && j < |a.frames| && RxOk(a) && a.frames[j].state == RxReceived
    requires var t := Before(a, env, j);
             ForOthers(a.frames[j].header, a.addr) && New(t, a.frames[j].header) && FirstFree(t.frames).Some?
    ensures var t := Before(a, env, j);
            && t.frames[j] == a.frames[j]
            && IsCopy(t, t.frames[j], RxTask(a, env).frames[FirstFree(t.frames).value])
  {
    hide Shape, RxOk, RxTask, RxStep, ForNode, ForHop, ForOthers, New;
    UntilItsTurn(a, env, j, 0);
    var t := Before(a, env, j);
    FirstTurn(t, j, env);
    TurnKeepsOk(t, j, env);
    StaysOut(RxStep(t, j, env), env, FirstFree(t.frames).value, j + 1);
  }

  /** The state at the turn that a frame has in the next run of the receiver. */
  function NextMoment(b: State, e: seq<Event>, env: RxEnv, j: nat): (t: State)
    requires Shape(b) && j < |b.frames|
    ensures Shape(t)
  {
    var a := Run(b, e);
    if j < |a.frames| then Before(a, env, j) else a
  }

  /** A frame that is to be indicated reaches the handler of its endpoint in the next run of the receiver, once
      and with its header and payload; the application's actions for it are performed, and it is freed in the
      run after that. */
  lemma SecondRun(b: State, e: seq<Event>, env: RxEnv, j: nat)
    requires Reachable(b) && Shape(b) && j < |b.frames| && b.frames[j].state == RxIndicate && NoRxRun(e)
    ensures var t, f := NextMoment(b, e, env, j), b.frames[j];
            && j < |t.frames| && t.frames[j] == f && f.aux.Rx? && SameNode(b, t)
            && var u, r, reply := RxStep(t, j, env), Step(Run(b, e), RxTaskRuns(env)), env.Reply(j);
               && u.indications == t.indications
                                   + (if f.header.dstEndpoint == 0 || reply.open
                                      then [IndicationOf(f.header, f.payload, f.aux.lqi, f.aux.rssi)] else [])
               && (if f.header.dstEndpoint != 0 && reply.open then
                     && u.queue == ActAll(t, reply.actions).queue && u.submitted == ActAll(t, reply.actions).submitted
                     && u.appLocks == ActAll(t, reply.actions).appLocks
                   else u.queue == t.queue && u.submitted == t.submitted)
               && j < |r.frames| && r.frames[j] == f.(state := RxFinish)
  {
    NextTurn(b, e, env, j);
    var t := NextMoment(b, e, env, j);
    assert TypedFrame(t.frames[j]);
    hide Reachable, RxOk, RxTask, RxStep, ActAll, Shape, NextMoment, Run;
    HandedOver(t, j, env);
  }

  lemma HandedOver(t: State, j: nat, env: RxEnv)
    requires Shape(t) && j < |t.frames| && t.frames[j].state == RxIndicate && t.frames[j].aux.Rx?
    ensures var u, f, reply := RxStep(t, j, env), t.frames[j], env.Reply(j);
            && j < |u.frames| && u.frames[j] == f.(state := RxFinish)
            && u.indications == t.indications
                                + (if f.header.dstEndpoint == 0 || reply.open
                                   then [IndicationOf(f.header, f.payload, f.aux.lqi, f.aux.rssi)] else [])
            && (if f.header.dstEndpoint != 0 && reply.open then
                  && u.queue == ActAll(t, reply.actions).queue && u.submitted == ActAll(t, reply.actions).submitted
                  && u.appLocks == ActAll(t, reply.actions).appLocks
                else u.queue == t.queue && u.submitted == t.submitted)
  {
    hide RxStep, ActAll, ServiceCommand, IsCommand, Shape;
    if t.frames[j].header.dstEndpoint == 0 {
      ServiceTurn(t, j, env);
      ServiceFrames(t, t.frames[j].payload);
    } else if env.Reply(j).open {
      ApplicationTurn(t, j, env);
    } else {
      ClosedTurn(t, j, env);
    }
  }

  /** A frame for another node leaves for the hop of the map that the routing table stands for, with its network
      header and payload, or is dropped and answered with a route error to its source. */
  lemma OnwardRun(b: State, e: seq<Event>, env: RxEnv, j: nat)
    requires Reachable(b) && Shape(b) && j < |b.frames| && b.frames[j].state == RxRoute && NoRxRun(e)
    ensures var t, f := NextMoment(b, e, env, j), b.frames[j];
            var h := f.header;
            && j < |t.frames| && t.frames[j] == f && SameNode(b, t) && ForHop(h, b.addr)
            && var u, r := RxStep(t, j, env), Step(Run(b, e), RxTaskRuns(env));
               if Hop(t, h.nwkDst) != 0xffff then
                 j < |r.frames| && IsRouted(t, f, r.frames[j])
               else
                 ReportsError(t, u, j, [1, h.nwkSrc % 0x100, h.nwkSrc / 0x100, h.nwkDst % 0x100, h.nwkDst / 0x100, 0])
  {
    ReachableRxOk(b);
    var h := b.frames[j].header;
    assert ForHop(h, b.addr) && !h.multicast && h.nwkDst != 0xffff;
    hide Reachable, Shape, RxOk, RxTask, RxStep, ForHop, Hop, IsCommand, Run, NextMoment;
    NextTurn(b, e, env, j);
    RouteTurn(NextMoment(b, e, env, j), j, env);
  }

  /** A frame has its turn in the next run of the receiver, as it is. */
  lemma NextTurn(b: State, e: seq<Event>, env: RxEnv, j: nat)
    requires Reachable(b) && Shape(b) && j < |b.frames| && IsRx(b.frames[j].state) && NoRxRun(e)
    ensures var t, r := NextMoment(b, e, env, j), Step(Run(b, e), RxTaskRuns(env));
            && j < |t.frames| && t.frames[j] == b.frames[j] && SameNode(b, t) && RxOk(t)
            && j < |RxStep(t, j, env).frames| && j < |r.frames|
            && (RxStep(t, j, env).frames[j].state !in {Free, TxWaitAck} ==> r.frames[j] == RxStep(t, j, env).frames[j])
  {
    ReachableRxOk(b);
    var a := Run(b, e);
    RxWaits(b, e, j);
    RunKeepsOk(b, e);
    hide Reachable, Shape, RxOk, RxTask, RxStep, Run, Before, NoRxRun;
    assert NextMoment(b, e, env, j) == Before(a, env, j) && Step(a, RxTaskRuns(env)) == RxTask(a, env);
    hide NextMoment, Step;
    assert IsRx(a.frames[j].state);
    TurnsInRun(a, env, j);
    hide *;
  }

  lemma TurnsInRun(a: State, env: RxEnv, j: nat)
    requires Shape(a) && j < |a.frames| && RxOk(a) && IsRx(a.frames[j].state)
    ensures var t, r := Before(a, env, j), RxTask(a, env);
            && j < |t.frames| == |r.frames| && t.frames[j] == a.frames[j] && SameNode(a, t) && SameNode(a, r) && RxOk(t)
            && j < |RxStep(t, j, env).frames|
            && (RxStep(t, j, env).frames[j].state !in {Free, TxWaitAck} ==> r.frames[j] == RxStep(t, j, env).frames[j])
  {
    ItsTurn(a, env, j);
    RxTaskKeepsOk(a, env, 0);
    hide *;
  }

  /** A finished frame is freed in the next run of the receiver. */
  lemma LastRun(b: State, e: seq<Event>, env: RxEnv, j: nat)
    requires Reachable(b) && Shape(b) && j < |b.frames| && b.frames[j].state == RxFinish && NoRxRun(e)
    ensures var t := NextMoment(b, e, env, j);
            && j < |t.frames| && t.frames[j] == b.frames[j]
            && RxStep(t, j, env).frames == t.frames[j := t.frames[j].(state := Free)]
  {
    NextTurn(b, e, env, j);
    hide Reachable, Shape, RxStep, NextMoment;
    LastTurn(NextMoment(b, e, env, j), j, env);
  }

  /** When an acknowledgment for this node is indicated while a frame waits for its number, the first such frame
      is confirmed with it: it was sent successfully, and its owner gets the control byte. */
  lemma AckConfirms(b: State, e: seq<Event>, env: RxEnv, j: nat, seqNo: Byte, control: Byte)
    requires Reachable(b) && Shape(b) && j < |b.frames| && b.frames[j].state == RxIndicate && NoRxRun(e)
    requires b.frames[j].header.dstEndpoint == 0 && b.frames[j].payload == [0, seqNo, control]
    ensures var t := NextMoment(b, e, env, j);
            && j < |t.frames| && t.frames[j] == b.frames[j]
            && forall k: nat | FirstAwaiting(t.frames, seqNo, k) :: ConfirmedBy(t, RxStep(t, j, env), k, control)
  {
    NextTurn(b, e, env, j);
    hide Reachable, Shape, RxOk, RxStep, NextMoment;
    AckTurn(NextMoment(b, e, env, j), env, j, seqNo, control);
  }

  predicate FirstAwaiting(frames: seq<Frame>, seqNo: Byte, k: nat) {
    && k < |frames| && AwaitsAck(frames[k], seqNo)
    && forall x | 0 <= x < k :: !AwaitsAck(frames[x], seqNo)
  }

  predicate ConfirmedBy(t: State, u: State, k: nat, control: Byte)
    requires k < |t.frames|
  {
    && k < |u.frames| && t.frames[k].aux.Tx?
    && u.frames[k] == t.frames[k].(state := TxConfirm, aux := t.frames[k].aux.(control := control))
  }

  lemma AckTurn(t: State, env: RxEnv, j: nat, seqNo: Byte, control: Byte)
    requires Shape(t) && j < |t.frames| && t.frames[j].state == RxIndicate
    requires t.frames[j].header.dstEndpoint == 0 && t.frames[j].payload == [0, seqNo, control]
    ensures forall k: nat | FirstAwaiting(t.frames, seqNo, k) :: ConfirmedBy(t, RxStep(t, j, env), k, control)
  {
    hide Shape, RxStep, ServiceCommand, IsCommand, IsAcknowledged;
    AckCommand(t, seqNo, control);
    ServiceTurn(t, j, env);
    var told := ServiceCommand(t, [0, seqNo, control]).0;
    forall k: nat | FirstAwaiting(t.frames, seqNo, k) ensures ConfirmedBy(t, RxStep(t, j, env), k, control) {
      var w: nat :| FirstWaiter(t, told, seqNo, control, w);
      assert w == k && k != j && told.frames[k].state == TxConfirm;
    }
  }

  // ----- nothing else is indicated -----

  /** Whether a frame may still be indicated as `x`. */
  predicate MayIndicate(f: Frame, addr: Word, x: Indication) {
    && f.aux.Rx? && (f.state == RxIndicate || (f.state == RxReceived && ForNode(f.header, addr)))
    && IndicationOf(f.header, f.payload, f.aux.lqi, f.aux.rssi) == x
  }

  function One(b: bool): nat {
    if b then 1 else 0
  }

  /** How many frames may still be indicated as `x`. */
  function Pending(frames: seq<Frame>, addr: Word, x: Indication): nat {
    if frames == [] then 0
    else Pending(frames[..|frames| - 1], addr, x) + One(MayIndicate(frames[|frames| - 1], addr, x))
  }

  lemma {:induction false} PendingAfter(frames: seq<Frame>, i: nat, f: Frame, addr: Word, x: Indication)
    requires i < |frames|
    ensures Pending(frames[i := f], addr, x) + One(MayIndicate(frames[i], addr, x))
         == Pending(frames, addr, x) + One(MayIndicate(f, addr, x))
  {
    hide MayIndicate;
    var n := |frames| - 1;
    if i == n {
      assert frames[i := f][..n] == frames[..n];
    } else {
      assert frames[i := f][..n] == frames[..n][i := f];
      PendingAfter(frames[..n], i, f, addr, x);
    }
  }

  lemma {:induction false} FewerPending(a: seq<Frame>, b: seq<Frame>, addr: Word, x: Indication)
    requires |a| == |b| && forall i | 0 <= i < |a| :: MayIndicate(b[i], addr, x) ==> MayIndicate(a[i], addr, x)
    ensures Pending(b, addr, x) <= Pending(a, addr, x)
  {
    hide MayIndicate;
    if a != [] {
      var n := |a| - 1;
      FewerPending(a[..n], b[..n], addr, x);
    }
  }

  /** How often `x` was indicated, or may still be. */
  function Account(s: State, x: Indication): nat {
    multiset(s.indications)[x] + Pending(s.frames, s.addr, x)
  }

  lemma TurnFades(s: State, k: nat, env: RxEnv, i: nat, x: Indication)
    requires Shape(s) && k < |s.frames| && RxOk(s) && i < |s.frames|
    ensures i < |RxStep(s, k, env).frames|
    ensures MayIndicate(RxStep(s, k, env).frames[i], s.addr, x) ==> MayIndicate(s.frames[i], s.addr, x)
  {
    TurnKeepsOk(s, k, env);
    hide Shape, RxStep, RxOk, ForNode, ForHop, SameNetworkFrame, OwnCommand;
    assert AfterTurn(s, RxStep(s, k, env), k, i);
  }

  lemma OtherTurnsTellNothing(s: State, k: nat, env: RxEnv)
    requires Shape(s) && k < |s.frames| && RxOk(s) && s.frames[k].state != RxIndicate
    ensures RxStep(s, k, env).indications == s.indications
  {
    var h := s.frames[k].header;
    assert s.frames[k].state == RxRoute ==> !h.multicast && h.nwkDst != 0xffff;
    hide Shape, RxOk, RxStep, ForNode, ForHop, ForOthers, New, IsCopy, IsCommand, Hop;
    match s.frames[k].state
    case RxReceived => FirstTurn(s, k, env);
    case RxRoute => RouteTurn(s, k, env);
    case RxFinish => LastTurn(s, k, env);
    case _ => NoTurn(s, k, env);
  }

  lemma TurnAccounts(s: State, k: nat, env: RxEnv, x: Indication)
    requires Shape(s) && k < |s.frames| && RxOk(s)
    ensures Account(RxStep(s, k, env), x) <= Account(s, x)
  {
    var r := RxStep(s, k, env);
    TurnKeepsOk(s, k, env);
    forall i | 0 <= i < |s.frames|
      ensures MayIndicate(r.frames[i], s.addr, x) ==> MayIndicate(s.frames[i], s.addr, x)
    {
      TurnFades(s, k, env, i, x);
    }
    hide Shape, RxStep, RxOk, MayIndicate, OneTurn;
    if s.frames[k].state == RxIndicate {
      ToldAccounts(s, k, env, x);
    } else {
      OtherTurnsTellNothing(s, k, env);
      FewerPending(s.frames, r.frames, s.addr, x);
    }
  }

  lemma ToldAccounts(s: State, k: nat, env: RxEnv, x: Indication)
    requires Shape(s) && k < |s.frames| && s.frames[k].state == RxIndicate
    requires var r := RxStep(s, k, env);
             && |r.frames| == |s.frames| && SameNode(s, r)
             && forall i | 0 <= i < |s.frames| ::
                  MayIndicate(r.frames[i], s.addr, x) ==> MayIndicate(s.frames[i], s.addr, x)
    ensures Account(RxStep(s, k, env), x) <= Account(s, x)
  {
    var r, f := RxStep(s, k, env), s.frames[k];
    assert TypedFrame(f);
    hide Shape, RxStep;
    HandedOver(s, k, env);
    var gone := f.(state := RxFinish);
    var rest := s.frames[k := gone];
    PendingAfter(s.frames, k, gone, s.addr, x);
    assert !MayIndicate(gone, s.addr, x);
    assert MayIndicate(f, s.addr, x) <==> IndicationOf(f.header, f.payload, f.aux.lqi, f.aux.rssi) == x;
    hide MayIndicate, IndicationOf;
    FewerPending(rest, r.frames, s.addr, x);
  }

  lemma {:induction false} RxTaskAccounts(s: State, env: RxEnv, k: nat, x: Indication)
    requires Shape(s) && k <= |s.frames| && RxOk(s)
    ensures Account(RxTask(s, env, k), x) <= Account(s, x)
    decreases |s.frames| - k
  {
    hide Shape, RxStep, RxOk, Account;
    if k < |s.frames| {
      TurnAccounts(s, k, env, x);
      TurnKeepsOk(s, k, env);
      RxTaskAccounts(RxStep(s, k, env), env, k + 1, x);
    }
  }

  /** The PHY delivers a frame for this node that is not filtered, and that is indicated as `x`. */
  predicate Brings(e: Event, addr: Word, x: Indication) {
    && e.PhyIndication? && e.received.fcf in {0x8861, 0x8841} && e.received.header.Some?
    && ForNode(e.received.header.value, addr)
    && x == IndicationOf(e.received.header.value, e.received.payload, e.received.lqi, e.received.rssi)
  }

  /** How often the PHY does so in a run. */
  function Brought(events: seq<Event>, addr: Word, x: Indication): nat
    decreases |events|
  {
    if events == [] then 0 else One(Brings(events[0], addr, x)) + Brought(events[1..], addr, x)
  }

  lemma PhyAccounts(s: State, d: Received, x: Indication)
    requires Shape(s)
    ensures Account(PhyInd(s, d), x) <= Account(s, x) + One(Brings(PhyIndication(d), s.addr, x))
  {
    hide Shape, ForNode, IndicationOf;
    if d.fcf in {0x8861, 0x8841} && d.header.Some? && FirstFree(s.frames).Some? {
      var j := FirstFree(s.frames).value;
      PendingAfter(s.frames, j, FrameOfPhy(d, RxReceived), s.addr, x);
    }
  }

  lemma StepAccounts(s: State, e: Event, x: Indication)
    requires Shape(s) && RxOk(s)
    ensures Account(Step(s, e), x) <= Account(s, x) + One(Brings(e, s.addr, x))
  {
    hide Shape, RxTask, PhyInd, ForNode, ForHop, RxOk;
    if e.RxTaskRuns? {
      RxTaskAccounts(s, e.env, 0, x);
    } else if e.PhyIndication? {
      PhyAccounts(s, e.received, x);
    } else {
      ElsewhereKeepsRx(s, e);
      hide Step;
      var r := Step(s, e);
      forall i | 0 <= i < |s.frames|
        ensures MayIndicate(r.frames[i], s.addr, x) ==> MayIndicate(s.frames[i], s.addr, x)
      {
        assert SlotKeeps(s.frames[i], r.frames[i]);
      }
      hide MayIndicate;
      FewerPending(s.frames, r.frames, s.addr, x);
    }
  }

  lemma {:induction false} RunAccounts(s: State, events: seq<Event>, x: Indication)
    requires Shape(s) && RxOk(s)
    ensures Account(Run(s, events), x) <= Account(s, x) + Brought(events, s.addr, x)
    decreases |events|
  {
    hide Shape, RxOk, Step, Account, Brings;
    if events != [] {
      StepAccounts(s, events[0], x);
      StepKeepsOk(s, events[0]);
      RunAccounts(Step(s, events[0]), events[1..], x);
    }
  }

  lemma {:induction false} NothingPending(n: nat, addr: Word, x: Indication)
    ensures Pending(seq(n, _ => ZERO_FRAME), addr, x) == 0
  {
    if n > 0 {
      assert seq(n, _ => ZERO_FRAME)[..n - 1] == seq(n - 1, _ => ZERO_FRAME);
      NothingPending(n - 1, addr, x);
    }
  }

  /** No other frame is indicated: in every run the handlers are called with `x` at most as often as the PHY
      delivered, in that run, a frame with these contents that is for this node and not filtered. */
  lemma IndicatedOnce(addr: Word, panId: Word, events: seq<Event>, x: Indication)
    ensures multiset(Run(Start(addr, panId), events).indications)[x] <= Brought(events, addr, x)
  {
    var s := Start(addr, panId);
    NothingPending(BUFFERS_AMOUNT, addr, x);
    assert RxOk(s) && Account(s, x) == 0;
    hide Start, RxOk, Pending, Run, Brought;
    RunAccounts(s, events, x);
  }
}
