/** Runs of the network layer as one step machine, and what holds in every state they reach. */
module NetRuns {
  import opened Types
  import opened NetState
  import opened NetSteps
  import opened NetInvariants
  import Routing
  import Duplicates

  // ----- runs -----

  datatype Event =
    | Application(action: AppAction)
    | PhyIndication(received: Received)
    | PhyConfirmation(status: PhyStatus)
    | TxTaskRuns
    | RxTaskRuns(env: RxEnv)
    | DataReqTaskRuns(rnd: nat)
    | AckTimerFires
    | DelayTimerFires
    | DupTimerFires

  /** A timer that is not on the timer list does not fire. */
  function Step(s: State, e: Event): (r: State)
    requires Shape(s)
    ensures Shape(r)
  {
    match e
    case Application(a) => Act(s, a)
    case PhyIndication(d) => PhyInd(s, d)
    case PhyConfirmation(p) => PhyConf(s, p)
    case TxTaskRuns => TxTask(s)
    case RxTaskRuns(env) => RxTask(s, env)
    case DataReqTaskRuns(rnd) => DataReqTask(s, rnd)
    case AckTimerFires => if s.ackTimer then AckTimer(s) else s
    case DelayTimerFires => if s.delayTimer then DelayTimer(s) else s
    case DupTimerFires => if s.dupTimer then DupTimer(s) else s
  }

  function Run(s: State, events: seq<Event>): (r: State)
    requires Shape(s)
    ensures Shape(r)
    decreases |events|
  {
    if events == [] then s else Run(Step(s, events[0]), events[1..])
  }

  /** A run may be taken in two parts. */
  lemma {:induction false} RunOn(s: State, a: seq<Event>, b: seq<Event>)
    requires Shape(s)
    ensures Run(s, a + b) == Run(Run(s, a), b)
    decreases |a|
  {
    hide Shape, Step;
    if a == [] {
      assert a + b == b;
    } else {
      assert (a + b)[1..] == a[1..] + b;
      RunOn(Step(s, a[0]), a[1..], b);
    }
  }

  /** The state after NWK_Init, NWK_SetAddr and NWK_SetPanId. */
  function Start(addr: Word, panId: Word): (s: State)
    ensures Shape(s)
  {
    assert !Routing.EmptyTable()[0].fixed;
    State(addr, panId, 0, 0, 0, seq(BUFFERS_AMOUNT, _ => ZERO_FRAME), [], None, false, false, false,
          Routing.EmptyTable(), Duplicates.EmptyTable(), 0, seq(BUFFERS_AMOUNT, _ => []), [], [], [], 0)
  }

  lemma {:induction false} NoneInUse(n: nat)
    ensures InUse(seq(n, _ => ZERO_FRAME)) == 0
  {
    if n > 0 {
      assert seq(n, _ => ZERO_FRAME)[..n - 1] == seq(n - 1, _ => ZERO_FRAME);
      NoneInUse(n - 1);
    }
  }

  lemma StartKeeps(addr: Word, panId: Word)
    ensures Inv(Start(addr, panId))
  {
    NoneInUse(BUFFERS_AMOUNT);
  }

  lemma {:induction false} TxTaskKeeps(s: State, i: nat)
    requires Inv(s) && Shape(s) && i <= |s.frames|
    ensures Inv(TxTask(s, i))
    decreases |s.frames| - i
  {
    hide Inv, Shape, TxStep;
    if i < |s.frames| {
      TxStepKeeps(s, i);
      TxTaskKeeps(TxStep(s, i), i + 1);
    }
  }

  lemma {:induction false} RxTaskKeeps(s: State, env: RxEnv, i: nat)
    requires Inv(s) && Shape(s) && i <= |s.frames|
    ensures Inv(RxTask(s, env, i))
    decreases |s.frames| - i
  {
    hide Inv, Shape, RxStep;
    if i < |s.frames| {
      RxStepKeeps(s, i, env);
      RxTaskKeeps(RxStep(s, i, env), env, i + 1);
    }
  }

  lemma {:induction false} AckTicksKeep(s: State, i: nat)
    requires Inv(s) && Shape(s) && i <= |s.frames|
    ensures Inv(AckTicks(s, i))
    ensures AnyIn(AckTicks(s, i).frames, TxWaitAck) ==> AnyIn(s.frames, TxWaitAck)
    decreases |s.frames| - i
  {
    hide Inv, Shape;
    if i < |s.frames| {
      AckTickKeeps(s, i);
      AckTicksKeep(AckTick(s, i), i + 1);
    }
  }

  lemma {:induction false} DelayTicksKeep(s: State, i: nat)
    requires Inv(s) && Shape(s) && i <= |s.frames|
    ensures Inv(DelayTicks(s, i))
    ensures AnyIn(DelayTicks(s, i).frames, TxWaitDelay) ==> AnyIn(s.frames, TxWaitDelay)
    decreases |s.frames| - i
  {
    hide Inv, Shape;
    if i < |s.frames| {
      DelayTickKeeps(s, i);
      DelayTicksKeep(DelayTick(s, i), i + 1);
    }
  }

  /** Timer flags may be lowered when no frame waits. */
  lemma TimersKeep(s: State, ackTimer: bool, delayTimer: bool)
    requires Inv(s)
    requires AnyIn(s.frames, TxWaitAck) ==> ackTimer
    requires AnyIn(s.frames, TxWaitDelay) ==> delayTimer
    ensures Inv(s.(ackTimer := ackTimer, delayTimer := delayTimer))
  {
    forall i | 0 <= i < |s.frames|
      ensures FrameOk(s.frames[i], s.hist[i], s.active == Some(i), ackTimer, delayTimer, s.addr)
    {
      assert FrameOk(s.frames[i], s.hist[i], s.active == Some(i), s.ackTimer, s.delayTimer, s.addr);
    }
  }

  lemma TimerOn(s: State)
    requires Inv(s)
    ensures AnyIn(s.frames, TxWaitAck) ==> s.ackTimer
    ensures AnyIn(s.frames, TxWaitDelay) ==> s.delayTimer
  {
    forall i | 0 <= i < |s.frames|
      ensures (s.frames[i].state == TxWaitAck ==> s.ackTimer) && (s.frames[i].state == TxWaitDelay ==> s.delayTimer)
    {
      assert FrameOk(s.frames[i], s.hist[i], s.active == Some(i), s.ackTimer, s.delayTimer, s.addr);
    }
  }

  lemma AckTimerKeeps(s: State)
    requires Inv(s) && Shape(s)
    ensures Inv(AckTimer(s))
  {
    AckTicksKeep(s, 0);
    var r := AckTicks(s);
    TimerOn(r);
    TimersKeep(r, AnyIn(s.frames, TxWaitAck), r.delayTimer);
    assert AckTimer(s) == r.(ackTimer := AnyIn(s.frames, TxWaitAck), delayTimer := r.delayTimer);
  }

  lemma DelayTimerKeeps(s: State)
    requires Inv(s) && Shape(s)
    ensures Inv(DelayTimer(s))
  {
    DelayTicksKeep(s, 0);
    var r := DelayTicks(s);
    TimerOn(r);
    TimersKeep(r, r.ackTimer, AnyIn(s.frames, TxWaitDelay));
    assert DelayTimer(s) == r.(ackTimer := r.ackTimer, delayTimer := AnyIn(s.frames, TxWaitDelay));
  }

  lemma DupTimerKeeps(s: State)
    requires Inv(s) && Shape(s)
    ensures Inv(DupTimer(s))
  {
    var after := Duplicates.Tick(s.dups);
    forall i | 0 <= i < |after| && after[i].Live() ensures s.dups[i].Live() && after[i].src == s.dups[i].src {}
  }

  /** Every event keeps the invariant. */
  lemma StepKeeps(s: State, e: Event)
    requires Inv(s) && Shape(s)
    ensures Inv(Step(s, e))
  {
    hide Inv, Shape, Act, PhyInd, PhyConf, TxTask, RxTask, DataReqTask, AckTimer, DelayTimer, DupTimer;
    var r := Step(s, e);
    match e
    case Application(a) => ActKeeps(s, a); assert r == Act(s, a);
    case PhyIndication(d) => PhyIndKeeps(s, d); assert r == PhyInd(s, d);
    case PhyConfirmation(p) => PhyConfKeeps(s, p); assert r == PhyConf(s, p);
    case TxTaskRuns => TxTaskKeeps(s, 0); assert r == TxTask(s);
    case RxTaskRuns(env) => RxTaskKeeps(s, env, 0); assert r == RxTask(s, env);
    case DataReqTaskRuns(rnd) => DataReqTaskKeeps(s, rnd, 0); assert r == DataReqTask(s, rnd);
    case AckTimerFires => AckTimerKeeps(s); assert r == s || r == AckTimer(s);
    case DelayTimerFires => DelayTimerKeeps(s); assert r == s || r == DelayTimer(s);
    case DupTimerFires => DupTimerKeeps(s); assert r == s || r == DupTimer(s);
  }

  lemma {:induction false} RunKeeps(s: State, events: seq<Event>)
    requires Inv(s) && Shape(s)
    ensures Inv(Run(s, events))
    decreases |events|
  {
    hide Inv, Shape, Step;
    if events != [] {
      StepKeeps(s, events[0]);
      RunKeeps(Step(s, events[0]), events[1..]);
    }
  }

  // ----- what every reachable state satisfies -----

  ghost predicate Reachable(s: State) {
    exists addr, panId, events :: Run(Start(addr, panId), events) == s
  }

  lemma ReachableInv(s: State)
    requires Reachable(s)
    ensures Inv(s) && Shape(s)
  {
    var addr, panId, events :| Run(Start(addr, panId), events) == s;
    StartKeeps(addr, panId);
    RunKeeps(Start(addr, panId), events);
  }

  /** Right request: a waiting request is the first one in the queue that holds its frame pointer, the
      frame was sent for it, and every other request with the same pointer is a stale one behind it. */
  lemma RightRequest(s: State, p: nat)
    requires Reachable(s) && p < |s.queue| && s.queue[p].state == WaitConf
    ensures s.queue[p].frame.Some? && s.queue[p].frame.value < |s.frames|
    ensures Holder(s.queue, s.queue[p].frame.value) == Some(p)
    ensures s.frames[s.queue[p].frame.value].state != Free
    ensures [SentFor(s.queue[p].ticket)] <= s.hist[s.queue[p].frame.value]
    ensures forall q | 0 <= q < |s.queue| && q != p && s.queue[q].frame == s.queue[p].frame ::
              s.queue[q].state == Confirmed && p < q
  {
    hide Reachable, PoolOk, LockOk, OnceOk, CallbacksOk, DupsOk, Shape;
    ReachableInv(s);
    assert Owns(s.queue, p, s.frames, s.hist, s.panId);
    forall q | 0 <= q < |s.queue| && q != p && s.queue[q].frame == s.queue[p].frame
      ensures s.queue[q].state == Confirmed && p < q
    {
      assert RequestOk(s.queue[q], s.submitted);
      assert s.queue[q].state == WaitConf ==> Owns(s.queue, q, s.frames, s.hist, s.panId);
    }
  }

  /** ... and so, when a frame with an owner is finished, nwkDataReqTxConf completes exactly the
      request that the frame was sent for, with the frame's status, and no other one. */
  lemma OwnerCompleted(s: State, i: nat)
    requires Reachable(s) && Shape(s) && i < |s.frames| && Owned(s.frames[i]) && s.frames[i].state == TxConfirm
    ensures var q := Holder(s.queue, i);
            && q.Some? && s.queue[q.value].state == WaitConf
            && |s.hist[i]| > 0 && s.hist[i][0] == SentFor(s.queue[q.value].ticket)
            && var after := TxConf(s, i).queue;
               && |after| == |s.queue| && after[q.value].ticket == s.queue[q.value].ticket
               && after[q.value].state == Confirmed && after[q.value].status == s.frames[i].aux.status
               && forall k | 0 <= k < |after| && k != q.value :: after[k] == s.queue[k]
  {
    hide Reachable, PoolOk, LockOk, OnceOk, CallbacksOk, DupsOk, TypedPool;
    ReachableInv(s);
    HolderOwns(s.queue, s.frames, s.hist, s.submitted, s.panId, i);
    hide QueueOk;
  }

  /** Exactly once: a submission that is not in the queue any more has had its callback, one
      time; one that is still in the queue has had none. */
  lemma ExactlyOnce(s: State, ticket: nat)
    requires Reachable(s)
    ensures ticket < |s.submitted| ==> Callbacks(s.callbacks, ticket) == if Holds(s.queue, ticket) then 0 else 1
    ensures ticket >= |s.submitted| ==> Callbacks(s.callbacks, ticket) == 0 && !Holds(s.queue, ticket)
  {
    ReachableInv(s);
    forall q | 0 <= q < |s.queue| ensures s.queue[q].ticket < |s.submitted| {
      assert RequestOk(s.queue[q], s.submitted);
    }
  }

  /** No false success: a confirmed request that asked for an acknowledgment has status success
      exactly when its own frame was sent, the PHY succeeded, and then, while the frame waited,
      an acknowledgment carrying the frame's number was heard; and the request's control byte is that of
      the acknowledgment. */
  lemma NoFalseSuccess(s: State, k: nat)
    requires Reachable(s) && k < |s.callbacks| && s.callbacks[k].ackRequest
    ensures var c := s.callbacks[k];
            c.status == Success <==>
              c.evidence == [SentFor(c.ticket), PhyDone(PhySuccess), AckHeard(c.seqNo, c.control)]
  {
    ReachableInv(s);
    var c := s.callbacks[k];
    assert Justified(c.evidence, c.ticket, c.ackRequest, c.seqNo, c.status, c.control);
    if Explains(c.evidence, c.ticket, c.ackRequest, c.seqNo, c.status, c.control) {
      assert |c.evidence| == 3 ==> (c.evidence[2].AckHeard? <==> c.status == Success);
    }
  }

  /** Conservation: the busy counter is exact (in 16 bits), and the PHY holds a frame exactly
      when that frame, and no other one, waits for the PHY. */
  lemma BusyCount(s: State)
    requires Reachable(s)
    ensures s.lock == ToWord(InUse(s.frames) + |s.queue| + Active(s.active) + s.appLocks)
    ensures forall i | 0 <= i < |s.frames| :: s.frames[i].state == TxWaitConf <==> s.active == Some(i)
  {
    hide Reachable, PoolOk, QueueOk, OnceOk, CallbacksOk, DupsOk;
    ReachableInv(s);
    forall i | 0 <= i < |s.frames| ensures s.frames[i].state == TxWaitConf <==> s.active == Some(i) {
      FrameOf(s, i);
    }
  }

  /** Nothing waits without an armed timer. */
  lemma NothingWaitsUnarmed(s: State, i: nat)
    requires Reachable(s)
    ensures i < |s.frames| && s.frames[i].state == TxWaitDelay ==>
      s.delayTimer && s.frames[i].aux.Tx? && 1 <= s.frames[i].aux.timeout <= 8
    ensures i < |s.frames| && s.frames[i].state == TxWaitAck ==>
      s.ackTimer && s.frames[i].aux.Tx? && 1 <= s.frames[i].aux.timeout <= 41
    ensures i < |s.dups| && s.dups[i].Live() ==> s.dupTimer
  {
    hide Reachable, PoolOk, QueueOk, LockOk, OnceOk, CallbacksOk, Shape;
    ReachableInv(s);
    if i < |s.frames| { FrameOf(s, i); }
  }

  // ----- how long a frame waits -----

  /** How often a timer fired in a run. */
  function Firings(events: seq<Event>, timer: Event): nat
    requires timer in {DelayTimerFires, AckTimerFires}
    decreases |events|
  {
    if events == [] then 0
    else Firings(events[1..], timer) + (if events[0].DelayTimerFires? && timer.DelayTimerFires? then 1
                                        else if events[0].AckTimerFires? && timer.AckTimerFires? then 1 else 0)
  }

  /** Frame `i` is in state `st` before and after every event of the run. */
  ghost predicate Stays(s: State, events: seq<Event>, i: nat, st: FrameState)
    requires Shape(s)
    decreases |events|
  {
    && i < |s.frames| && s.frames[i].state == st
    && (events != [] ==> Stays(Step(s, events[0]), events[1..], i, st))
  }

  /** What a step may do to a waiting frame that is not its timer's: nothing, or end the wait. */
  predicate KeptOrConfirmed(before: Frame, after: Frame) {
    after == before || after.state == TxConfirm
  }

  predicate Waiting(st: FrameState) {
    st in {TxWaitDelay, TxWaitAck}
  }

  lemma {:induction false} TxTaskWaits(s: State, k: nat, i: nat)
    requires Shape(s) && k <= |s.frames| && i < |s.frames| && Waiting(s.frames[i].state)
    ensures TxTask(s, k).frames[i] == s.frames[i]
    decreases |s.frames| - k
  {
    hide Shape, TxStep;
    if k < |s.frames| {
      TxStepWaits(s, k, i);
      TxTaskWaits(TxStep(s, k), k + 1, i);
    }
  }

  lemma TxStepWaits(s: State, k: nat, i: nat)
    requires Shape(s) && k < |s.frames| && i < |s.frames| && Waiting(s.frames[i].state)
    ensures TxStep(s, k).frames[i] == s.frames[i]
  {
    hide ConfirmStep, TypedPool;
    if k != i && s.frames[k].state == TxConfirm {
      FinishWaits(s, k, i);
      assert TxStep(s, k) == ConfirmStep(s, k);
    }
  }

  lemma FinishWaits(s: State, k: nat, i: nat)
    requires Shape(s) && k < |s.frames| && i < |s.frames| && i != k && s.frames[k].state == TxConfirm
    ensures ConfirmStep(s, k).frames[i] == s.frames[i]
  {}

  lemma RxStepWaits(s: State, k: nat, env: RxEnv, i: nat)
    requires Shape(s) && k < |s.frames| && i < |s.frames| && IsTx(s.frames[i].state)
    ensures KeptOrConfirmed(s.frames[i], RxStep(s, k, env).frames[i]) && IsTx(RxStep(s, k, env).frames[i].state)
  {
    hide HandleReceived, HandleIndication, RouteFrame;
    match s.frames[k].state
    case RxReceived => ReceivedWaits(s, k, env.Rnd(k), i);
    case RxIndicate => IndicatedWaits(s, k, env, i);
    case RxRoute => RoutedWaits(s, k, env.Rnd(k), i);
    case _ =>
  }

  lemma RoutedWaits(s: State, k: nat, rnd: nat, i: nat)
    requires Shape(s) && k < |s.frames| && i < |s.frames| && IsTx(s.frames[i].state) && s.frames[k].state == RxRoute
    ensures RouteFrame(s, k, rnd).frames[i] == s.frames[i]
  {
    var h := s.frames[k].header;
    if Routing.NextHop(s.routes, h.nwkDst, MulticastBit(h)) == Routing.UNKNOWN {
      CommandElsewhere(s, false, h.nwkSrc, RouteErrorCommand(h), rnd, i);
    }
  }

  lemma ReceivedWaits(s: State, k: nat, rnd: nat, i: nat)
    requires Shape(s) && k < |s.frames| && i < |s.frames| && IsTx(s.frames[i].state) && s.frames[k].state == RxReceived
    ensures HandleReceived(s, k, rnd).frames[i] == s.frames[i]
  {
    hide Learn;
    LearnWaits(Put(s, k, s.frames[k].(state := RxFinish)), k, rnd, i);
  }

  lemma LearnWaits(s: State, k: nat, rnd: nat, i: nat)
    requires Shape(s) && k < |s.frames| && i < |s.frames| && IsTx(s.frames[i].state)
    requires s.frames[k].state == RxFinish && s.frames[k].aux.Rx?
    ensures Learn(s, k, rnd).frames[i] == s.frames[i]
  {
    hide RejectDuplicate, Forward, Routing.FrameReceived;
    var h := s.frames[k].header;
    var heard := Routing.Heard(h.macDstPan, h.macDst, h.macSrc, h.nwkSrc, h.nwkDst, s.frames[k].aux.lqi);
    var learned := s.(routes := Routing.FrameReceived(s.routes, s.addr, heard));
    ForwardWaits(RejectDuplicate(learned, h).0, k, h, rnd, i);
  }

  lemma ForwardWaits(s: State, k: nat, h: Header, rnd: nat, i: nat)
    requires Shape(s) && k < |s.frames| && i < |s.frames| && IsTx(s.frames[i].state)
    requires s.frames[k].state == RxFinish && s.frames[k].aux.Rx?
    ensures Forward(s, k, h, rnd).frames[i] == s.frames[i]
  {
    CopyElsewhere(s, k, rnd, i);
    hide BroadcastCopy, Shape;
  }

  lemma CopyElsewhere(s: State, k: nat, rnd: nat, i: nat)
    requires Shape(s) && k < |s.frames| && i < |s.frames| && s.frames[i].state != Free && s.frames[k].state != Free
    ensures BroadcastCopy(s, k, rnd).frames[i] == s.frames[i]
  {}

  lemma IndicatedWaits(s: State, k: nat, env: RxEnv, i: nat)
    requires Shape(s) && k < |s.frames| && i < |s.frames| && IsTx(s.frames[i].state) && s.frames[k].state == RxIndicate
    ensures KeptOrConfirmed(s.frames[i], HandleIndication(s, k, env).frames[i])
    ensures IsTx(HandleIndication(s, k, env).frames[i].state)
  {
    hide Answer, IndicateFrame;
    var (told, consumed) := IndicateFrame(s.(ackControl := 0), k, env.Reply(k));
    ToldWaits(s.(ackControl := 0), k, env.Reply(k), i);
    AnswerWaits(told, k, s.frames[k].header, consumed, env.Rnd(k), i);
  }

  lemma AnswerWaits(s: State, k: nat, h: Header, consumed: bool, rnd: nat, i: nat)
    requires Shape(s) && k < |s.frames| && i < |s.frames| && IsTx(s.frames[i].state) && s.frames[k].state == RxIndicate
    ensures Answer(s, k, h, consumed, rnd).frames[i] == s.frames[i]
  {
    hide SendCommand;
    CommandElsewhere(s, h.security, h.nwkSrc, [COMMAND_ACK, h.nwkSeq, s.ackControl], rnd, i);
  }

  lemma ToldWaits(s: State, k: nat, reply: AppReply, i: nat)
    requires Shape(s) && k < |s.frames| && i < |s.frames| && IsTx(s.frames[i].state) && s.frames[k].state == RxIndicate
    ensures var told := IndicateFrame(s, k, reply).0;
            KeptOrConfirmed(s.frames[i], told.frames[i]) && IsTx(told.frames[i].state)
  {}

  lemma {:induction false} RxTaskWaits(s: State, env: RxEnv, k: nat, i: nat)
    requires Shape(s) && k <= |s.frames| && i < |s.frames| && IsTx(s.frames[i].state)
    ensures KeptOrConfirmed(s.frames[i], RxTask(s, env, k).frames[i])
    decreases |s.frames| - k
  {
    hide Shape, RxStep;
    if k < |s.frames| {
      RxStepWaits(s, k, env, i);
      RxTaskWaits(RxStep(s, k, env), env, k + 1, i);
    }
  }

  /** What a timer that counts frames in state `st` does to one frame. */
  predicate Ticked(before: Frame, after: Frame, st: FrameState) {
    if before.state != st then after == before
    else before.aux.Tx? && after.aux.Tx? && after.aux.timeout == ToWord(before.aux.timeout - 1)
  }

  lemma {:induction false} AckTicksWait(s: State, k: nat, i: nat)
    requires Shape(s) && k <= |s.frames| && i < |s.frames|
    ensures if k <= i then Ticked(s.frames[i], AckTicks(s, k).frames[i], TxWaitAck)
            else AckTicks(s, k).frames[i] == s.frames[i]
    decreases |s.frames| - k
  {
    hide Shape, AckTick;
    if k < |s.frames| {
      AckTicksWait(AckTick(s, k), k + 1, i);
      AckTickOne(s, k, i);
    }
  }

  lemma AckTickOne(s: State, k: nat, i: nat)
    requires Shape(s) && k < |s.frames| && i < |s.frames|
    ensures if k == i then Ticked(s.frames[i], AckTick(s, k).frames[i], TxWaitAck)
            else AckTick(s, k).frames[i] == s.frames[i]
  {}

  lemma {:induction false} DelayTicksWait(s: State, k: nat, i: nat)
    requires Shape(s) && k <= |s.frames| && i < |s.frames|
    ensures if k <= i then Ticked(s.frames[i], DelayTicks(s, k).frames[i], TxWaitDelay)
            else DelayTicks(s, k).frames[i] == s.frames[i]
    decreases |s.frames| - k
  {
    hide Shape, DelayTick;
    if k < |s.frames| {
      DelayTicksWait(DelayTick(s, k), k + 1, i);
      DelayTickOne(s, k, i);
    }
  }

  lemma DelayTickOne(s: State, k: nat, i: nat)
    requires Shape(s) && k < |s.frames| && i < |s.frames|
    ensures if k == i then Ticked(s.frames[i], DelayTick(s, k).frames[i], TxWaitDelay)
            else DelayTick(s, k).frames[i] == s.frames[i]
  {}

  /** An event other than the two timers leaves a waiting frame as it is, or confirms it. */
  lemma OtherEventWaits(s: State, e: Event, i: nat)
    requires Shape(s) && i < |s.frames| && Waiting(s.frames[i].state) && !e.AckTimerFires? && !e.DelayTimerFires?
    ensures i < |Step(s, e).frames| && KeptOrConfirmed(s.frames[i], Step(s, e).frames[i])
  {
    hide TxTask, RxTask, DataReqTask, TypedPool;
    match e
    case Application(a) =>
    case PhyIndication(d) => assert PhyInd(s, d).frames[i] == s.frames[i];
    case PhyConfirmation(p) => assert PhyConf(s, p).frames[i] == s.frames[i];
    case TxTaskRuns => TxTaskWaits(s, 0, i);
    case RxTaskRuns(env) => RxTaskWaits(s, env, 0, i);
    case DataReqTaskRuns(rnd) => DataReqTaskWaits(s, rnd, 0, i);
    case DupTimerFires =>
    case AckTimerFires =>
    case DelayTimerFires =>
  }

  lemma TimerEventWaits(s: State, i: nat)
    requires Shape(s) && i < |s.frames|
    ensures Ticked(s.frames[i], AckTimer(s).frames[i], TxWaitAck)
    ensures Ticked(s.frames[i], DelayTimer(s).frames[i], TxWaitDelay)
  {
    AckTicksWait(s, 0, i);
    DelayTicksWait(s, 0, i);
  }

  lemma WaitsPositive(s: State, i: nat)
    requires Inv(s) && i < |s.frames| && Waiting(s.frames[i].state)
    ensures s.frames[i].aux.Tx? && s.frames[i].aux.timeout >= 1
    ensures if s.frames[i].state == TxWaitAck then s.ackTimer else s.delayTimer
  {
    hide Inv;
    FrameOf(s, i);
  }

  /** While a frame waits, its own timer's firings, and nothing else, count it down. */
  lemma StepWaits(s: State, e: Event, i: nat, st: FrameState)
    requires Inv(s) && Shape(s) && i < |s.frames| && Waiting(st) && s.frames[i].state == st
    requires i < |Step(s, e).frames| && Step(s, e).frames[i].state == st
    ensures s.frames[i].aux.Tx? && Step(s, e).frames[i].aux.Tx?
    ensures s.frames[i].aux.timeout == Step(s, e).frames[i].aux.timeout
      + (if (st == TxWaitDelay && e.DelayTimerFires?) || (st == TxWaitAck && e.AckTimerFires?) then 1 else 0)
  {
    hide Inv, TxTask, RxTask, DataReqTask, Act, PhyInd, PhyConf, DupTimer, AckTicks, DelayTicks;
    WaitsPositive(s, i);
    if e.AckTimerFires? {
      TimerEventWaits(s, i);
      assert s.ackTimer ==> Step(s, e) == AckTimer(s);
    } else if e.DelayTimerFires? {
      TimerEventWaits(s, i);
      assert s.delayTimer ==> Step(s, e) == DelayTimer(s);
    } else {
      OtherEventWaits(s, e, i);
    }
  }

  lemma SendFrameElsewhere(s: State, q: nat, rnd: nat, i: nat)
    requires Shape(s) && q < |s.queue| && i < |s.frames| && s.frames[i].state != Free
    ensures i < |SendFrame(s, q, rnd).frames| && SendFrame(s, q, rnd).frames[i] == s.frames[i]
  {
    hide Shape, TypedPool, OnAir, RequestFrame;
  }

  lemma {:induction false} DataReqTaskWaits(s: State, rnd: nat, q: nat, i: nat)
    requires Shape(s) && q <= |s.queue| && i < |s.frames| && s.frames[i].state != Free
    ensures i < |DataReqTask(s, rnd, q).frames| && DataReqTask(s, rnd, q).frames[i] == s.frames[i]
    decreases |s.queue| - q
  {
    hide SendFrame, Shape;
    if q < |s.queue| {
      match s.queue[q].state
      case Initial => SendFrameElsewhere(s, q, rnd, i);
      case Confirmed =>
      case WaitConf => DataReqTaskWaits(s, rnd, q + 1, i);
    }
  }

  lemma {:induction false} WaitCountsDown(s: State, events: seq<Event>, i: nat, st: FrameState)
    requires Inv(s) && Shape(s) && Waiting(st) && Stays(s, events, i, st)
    ensures s.frames[i].aux.Tx?
    ensures Firings(events, if st == TxWaitDelay then DelayTimerFires else AckTimerFires) < s.frames[i].aux.timeout
    decreases |events|
  {
    hide Inv, Shape, Step;
    FrameOf(s, i);
    if events != [] {
      StepWaits(s, events[0], i, st);
      StepKeeps(s, events[0]);
      WaitCountsDown(Step(s, events[0]), events[1..], i, st);
    }
  }

  /** In any run, a frame leaves WAIT_DELAY by the 8th firing of the delay timer, and WAIT_ACK by
      the 41st firing of the acknowledgment timer. */
  lemma WaitsAreBounded(s: State, events: seq<Event>, i: nat)
    requires Reachable(s)
    ensures Stays(s, events, i, TxWaitDelay) ==> Firings(events, DelayTimerFires) < 8
    ensures Stays(s, events, i, TxWaitAck) ==> Firings(events, AckTimerFires) < 41
  {
    hide Reachable, Inv, Shape, Step;
    ReachableInv(s);
    NothingWaitsUnarmed(s, i);
    if Stays(s, events, i, TxWaitDelay) { WaitCountsDown(s, events, i, TxWaitDelay); }
    if Stays(s, events, i, TxWaitAck) { WaitCountsDown(s, events, i, TxWaitAck); }
  }
}
