/** The network layer in memory: its static variables as one object, and its handlers as methods
    that rewrite them. Each method computes exactly the step of the same name on the state. */
module NetStack {
  import opened Types
  import opened NetState
  import opened NetSteps
  import opened NetInvariants
  import opened NetRuns
  import Routing
  import Duplicates

  class Network {
    const addr: Word
    const panId: Word
    var nwkSeqNum: Byte
    var macSeqNum: Byte
    var lock: Word
    const frames: array<Frame>
    var queue: seq<Request>
    var active: Option<nat>
    var ackTimer: bool
    var delayTimer: bool
    var dupTimer: bool
    const routes: Routing.Table
    const dups: Duplicates.Table
    var ackControl: Byte
    // history
    var hist: seq<seq<FrameEvent>>
    var callbacks: seq<Callback>
    var submitted: seq<Request>
    var indications: seq<Indication>
    var appLocks: int

    ghost function Snap(): State
      reads this, frames, routes.entries, dups.entries
    {
      State(addr, panId, nwkSeqNum, macSeqNum, lock, frames[..], queue, active, ackTimer, delayTimer, dupTimer,
            routes.entries[..], dups.entries[..], ackControl, hist, callbacks, submitted, indications, appLocks)
    }

    ghost predicate Valid()
      reads this, frames, routes.entries, dups.entries
    {
      Inv(Snap()) && Shape(Snap())
    }

    constructor (addr: Word, panId: Word)
      ensures Valid() && fresh(frames) && fresh(routes.entries) && fresh(dups.entries)
      ensures Snap() == Start(addr, panId) && Reachable(Snap())
      ensures nwkSeqNum == macSeqNum == 0 && lock == 0 && queue == [] && active.None?
      ensures frames.Length == 30 && forall i | 0 <= i < 30 :: frames[i].state == Free
    {
      this.addr, this.panId := addr, panId;
      nwkSeqNum, macSeqNum, lock, ackControl := 0, 0, 0, 0;
      var pool := new Frame[BUFFERS_AMOUNT](_ => ZERO_FRAME);
      frames := pool;
      queue, active := [], None;
      ackTimer, delayTimer, dupTimer := false, false, false;
      var routeTable := new Routing.Table();
      var dupTable := new Duplicates.Table();
      routes, dups := routeTable, dupTable;
      hist, callbacks, submitted, indications, appLocks := seq(BUFFERS_AMOUNT, _ => []), [], [], [], 0;
      new;
      hide Inv, Shape, InUse;
      assert frames[..] == seq(BUFFERS_AMOUNT, _ => ZERO_FRAME);
      assert Snap() == Start(addr, panId);
      StartKeeps(addr, panId);
      assert Run(Start(addr, panId), []) == Snap();
    }

    // ----- frame pool -----

    method FrameAlloc() returns (r: Option<nat>)
      requires Shape(Snap())
      modifies this, frames
      ensures r == FirstFree(old(frames[..]))
      ensures Snap() == if r.Some? then Allocate(old(Snap()), r.value, ZERO_FRAME) else old(Snap())
    {
      assert |hist| == frames.Length;
      hide Shape, TypedPool;
      var i := 0;
      while i < frames.Length
        invariant i <= frames.Length && frames[..] == old(frames[..]) && Snap() == old(Snap())
        invariant FirstFree(frames[..]) == FirstFree(frames[..], i)
      {
        if frames[i].state == Free {
          frames[i] := ZERO_FRAME;
          hist := hist[i := []];
          lock := ToWord(lock + 1);
          return Some(i);
        }
        i := i + 1;
      }
      r := None;
    }

    method FrameFree(i: nat)
      requires i < frames.Length && frames[i].state != Free
      modifies this, frames
      ensures Snap() == FreeFrame(old(Snap()), i)
    {
      frames[i] := frames[i].(state := Free);
      lock := ToWord(lock - 1);
    }

    // ----- transmitter -----

    method RoutePrepareTx(h: Header) returns (macDst: Word)
      ensures macDst == PrepareHop(Snap(), h)
    {
      if h.nwkDst == BROADCAST {
        macDst := BROADCAST;
      } else if h.linkLocal {
        macDst := h.nwkDst;
      } else {
        macDst := routes.RouteNextHop(h.nwkDst, MulticastBit(h));
      }
    }

    /** nwkTxFrame */
    method SendToAir(i: nat, rnd: nat)
      requires Shape(Snap()) && i < frames.Length && frames[i].aux.Tx? && active != Some(i)
      modifies this, frames
      ensures Snap() == TxFrame(old(Snap()), i, rnd)
    {
      hide Shape, TypedPool, OnAir;
      var ready := FillMacHeader(frames[i], rnd);
      frames[i] := ready;
    }

    /** The MAC header of an outgoing frame, its next hop, and the jitter of a broadcast. */
    method FillMacHeader(f: Frame, rnd: nat) returns (ready: Frame)
      requires f.aux.Tx?
      modifies this`macSeqNum
      ensures macSeqNum == ToByte(old(macSeqNum) + 1)
      ensures ready == OnAir(old(Snap()), f, rnd)
    {
      hide PrepareHop, Jitter;
      var control := f.aux.control;
      var macDst := f.header.nwkDst;
      if !DirectLink(control) && !ToBroadcastPan(control) {
        macDst := RoutePrepareTx(f.header);
      }
      var timeout: Word := 0;
      var macFcf: Word := 0x8861;
      if macDst == BROADCAST {
        macFcf := 0x8841;
        timeout := Jitter(rnd);
      }
      var pan := if ToBroadcastPan(control) then BROADCAST_PAN else panId;
      macSeqNum := ToByte(macSeqNum + 1);
      var header := f.header.(macDstPan := pan, macDst := macDst, macSrc := addr, macSeq := macSeqNum,
                              macFcf := macFcf);
      ready := f.(state := TxDelay, header := header, aux := f.aux.(status := Success, timeout := timeout));
    }

    method TxBroadcastFrame(i: nat, rnd: nat)
      requires Shape(Snap()) && i < frames.Length && frames[i].state != Free
      modifies this, frames
      ensures Snap() == BroadcastCopy(old(Snap()), i, rnd)
    {
      hide Shape, TypedPool, Jitter, FirstFree;
      var slot := FrameAlloc();
      if slot.Some? {
        var j := slot.value;
        macSeqNum := ToByte(macSeqNum + 1);
        var header := frames[i].header.(macFcf := 0x8841, macDst := BROADCAST, macSrc := addr, macSeq := macSeqNum);
        frames[j] := Frame(TxDelay, header, frames[i].payload, Tx(Success, Jitter(rnd), 0, NoConfirm));
      }
    }

    method TxAckReceived(data: seq<Byte>) returns (handled: bool)
      requires Shape(Snap())
      modifies this, frames
      ensures (Snap(), handled) == AckReceived(old(Snap()), data)
    {
      if |data| != 3 {
        return false;
      }
      var i := 0;
      while i < frames.Length
        invariant i <= frames.Length && Snap() == old(Snap())
        invariant AckWaiter(frames[..], data[1]) == AckWaiter(frames[..], data[1], i)
      {
        if frames[i].state == TxWaitAck && frames[i].header.nwkSeq == data[1] {
          assert TypedFrame(Snap().frames[i]);
          frames[i] := frames[i].(state := TxConfirm, aux := frames[i].aux.(control := data[2]));
          hist := hist[i := hist[i] + [AckHeard(data[1], data[2])]];
          return true;
        }
        i := i + 1;
      }
      handled := false;
    }

    /** nwkTxConfirm */
    method TxDone(i: nat, status: Status)
      requires i < frames.Length && frames[i].aux.Tx?
      modifies frames
      ensures var f := old(frames[i]);
              frames[..] == old(frames[..])[i := f.(state := TxConfirm, aux := f.aux.(status := status))]
    {
      frames[i] := frames[i].(state := TxConfirm, aux := frames[i].aux.(status := status));
    }

    method AckTickFrame(i: nat) returns (waits: bool)
      requires Shape(Snap()) && i < frames.Length
      modifies this`hist, frames
      ensures Snap() == AckTick(old(Snap()), i)
      ensures waits <==> old(frames[i]).state == TxWaitAck
      ensures forall k | 0 <= k < frames.Length && k != i :: frames[k] == old(frames[k])
    {
      waits := frames[i].state == TxWaitAck;
      if waits {
        assert TypedFrame(Snap().frames[i]);
        frames[i] := CountDown(frames[i]);
        if frames[i].aux.timeout == 0 {
          TxDone(i, NoAck);
          hist := hist[i := hist[i] + [AckTimedOut]];
        }
      }
    }

    /** nwkTxAckWaitTimerHandler; the timer has left the timer list. */
    method AckWaitTimerHandler()
      requires Shape(Snap())
      modifies this, frames
      ensures Snap() == AckTimer(old(Snap()))
    {
      hide AckTick, Shape, TypedPool;
      ghost var was := Snap();
      var restart := false;
      for i := 0 to frames.Length
        invariant Shape(Snap()) && AckTicks(was) == AckTicks(Snap(), i)
        invariant restart <==> exists k | 0 <= k < i :: was.frames[k].state == TxWaitAck
        invariant forall k | i <= k < frames.Length :: frames[k] == was.frames[k]
      {
        ghost var s := Snap();
        var waits := AckTickFrame(i);
        assert AckTicks(s, i) == AckTicks(AckTick(s, i), i + 1);
        restart := restart || waits;
      }
      ackTimer := restart;
    }

    method DelayTickFrame(i: nat) returns (waits: bool)
      requires Shape(Snap()) && i < frames.Length
      modifies this`hist, frames
      ensures Snap() == DelayTick(old(Snap()), i)
      ensures waits <==> old(frames[i]).state == TxWaitDelay
      ensures forall k | 0 <= k < frames.Length && k != i :: frames[k] == old(frames[k])
    {
      waits := frames[i].state == TxWaitDelay;
      if waits {
        assert TypedFrame(Snap().frames[i]);
        frames[i] := CountDown(frames[i]);
        if frames[i].aux.timeout == 0 {
          frames[i] := frames[i].(state := TxSend);
        }
      }
    }

    /** nwkTxDelayTimerHandler; the timer has left the timer list. */
    method DelayTimerHandler()
      requires Shape(Snap())
      modifies this, frames
      ensures Snap() == DelayTimer(old(Snap()))
    {
      hide DelayTick, Shape, TypedPool;
      ghost var was := Snap();
      var restart := false;
      for i := 0 to frames.Length
        invariant Shape(Snap()) && DelayTicks(was) == DelayTicks(Snap(), i)
        invariant restart <==> exists k | 0 <= k < i :: was.frames[k].state == TxWaitDelay
        invariant forall k | i <= k < frames.Length :: frames[k] == was.frames[k]
      {
        ghost var s := Snap();
        var waits := DelayTickFrame(i);
        assert DelayTicks(s, i) == DelayTicks(DelayTick(s, i), i + 1);
        restart := restart || waits;
      }
      delayTimer := restart;
    }

    /** PHY_DataConf */
    method DataConf(p: PhyStatus)
      requires Shape(Snap()) && active.Some?
      modifies this, frames
      ensures Snap() == PhyConf(old(Snap()), p)
    {
      var i := active.value;
      assert TypedFrame(Snap().frames[i]);
      frames[i] := frames[i].(aux := frames[i].aux.(status := ConvertPhyStatus(p)));
      frames[i] := frames[i].(state := TxSent);
      hist := hist[i := hist[i] + [PhyDone(p)]];
      active := None;
      lock := ToWord(lock - 1);
    }

    method TxTaskFrame(i: nat)
      requires Shape(Snap()) && i < frames.Length
      modifies this, frames, routes.entries
      ensures Snap() == TxStep(old(Snap()), i)
    {
      match frames[i].state {
        case TxDelay => LeaveDelay(i);
        case TxSend => LeaveSend(i);
        case TxSent => LeaveSent(i);
        case TxConfirm => LeaveConfirm(i);
        case _ =>
      }
    }

    method LeaveDelay(i: nat)
      requires Shape(Snap()) && i < frames.Length && frames[i].state == TxDelay
      modifies this`delayTimer, frames
      ensures Snap() == DelayStep(old(Snap()), i)
    {
      assert TypedFrame(Snap().frames[i]);
      if frames[i].aux.timeout > 0 {
        frames[i] := frames[i].(state := TxWaitDelay);
        delayTimer := true;
      } else {
        frames[i] := frames[i].(state := TxSend);
      }
    }

    method LeaveSend(i: nat)
      requires Shape(Snap()) && i < frames.Length && frames[i].state == TxSend
      modifies this`active, this`lock, frames
      ensures Snap() == SendStep(old(Snap()), i)
    {
      if active.None? {
        active := Some(i);
        frames[i] := frames[i].(state := TxWaitConf);
        lock := ToWord(lock + 1);
      }
    }

    method LeaveSent(i: nat)
      requires Shape(Snap()) && i < frames.Length && frames[i].state == TxSent
      modifies this`ackTimer, frames
      ensures Snap() == SentStep(old(Snap()), i)
    {
      assert TypedFrame(Snap().frames[i]);
      var f := frames[i];
      if f.aux.status == Success {
        if f.header.nwkSrc == addr && f.header.ackRequest {
          frames[i] := f.(state := TxWaitAck, aux := f.aux.(timeout := ACK_WAIT_TICKS));
          ackTimer := true;
        } else {
          frames[i] := f.(state := TxConfirm);
        }
      } else {
        frames[i] := f.(state := TxConfirm);
      }
    }

    method LeaveConfirm(i: nat)
      requires Shape(Snap()) && i < frames.Length && frames[i].state == TxConfirm
      modifies this, frames, routes.entries
      ensures Snap() == ConfirmStep(old(Snap()), i)
    {
      assert TypedFrame(Snap().frames[i]);
      var f := frames[i];
      routes.RouteFrameSent(f.header.nwkDst, MulticastBit(f.header), f.aux.status == Success);
      if f.aux.confirm == NoConfirm {
        FrameFree(i);
      } else {
        DataReqTxConf(i);
      }
    }

    /** nwkTxTaskHandler */
    method TxTaskHandler()
      requires Shape(Snap())
      modifies this, frames, routes.entries
      ensures Snap() == TxTask(old(Snap()))
    {
      hide TxStep, TypedPool;
      ghost var was := Snap();
      for i := 0 to frames.Length
        invariant Shape(Snap()) && TxTask(was) == TxTask(Snap(), i)
      {
        ghost var s := Snap();
        TxTaskFrame(i);
        assert TxTask(s, i) == TxTask(TxStep(s, i), i + 1);
      }
    }

    // ----- request queue -----

    /** NWK_DataReq, behind the application's busy flag. */
    method DataReq(req: Request)
      modifies this
      ensures Snap() == Submit(old(Snap()), req)
    {
      if Queued(queue, req.id) {
        return;
      }
      var initial := req.(state := Initial, status := Success, frame := None,
                          ticket := |submitted|, table := [], seqNo := 0, evidence := []);
      lock := ToWord(lock + 1);
      queue := [initial] + queue;
      submitted := submitted + [req];
    }

    /** nwkDataReqSendFrame */
    method DataReqSendFrame(q: nat, rnd: nat)
      requires Shape(Snap()) && q < |queue|
      modifies this, frames
      ensures Snap() == SendFrame(old(Snap()), q, rnd)
    {
      hide OnAir, TxFrame, FirstFree, Routing.HasSpare;
      var slot := FrameAlloc();
      if slot.None? {
        queue := queue[q := queue[q].(state := Confirmed, status := OutOfMemory)];
      } else {
        FillDataFrame(q, slot.value);
        SendToAir(slot.value, rnd);
      }
    }

    /** The request waits for the allocated slot `j`, which gets its header and payload. */
    method FillDataFrame(q: nat, j: nat)
      requires q < |queue| && j < frames.Length == |hist| && frames[j] == ZERO_FRAME
      modifies this`queue, this`nwkSeqNum, this`hist, frames
      ensures Snap() == FillData(old(Snap()), q, j)
    {
      hide Shape, RequestFrame;
      var req := queue[q];
      queue := queue[q := req.(frame := Some(j), state := WaitConf, table := routes.entries[..])];
      hist := hist[j := hist[j] + [SentFor(req.ticket)]];
      nwkSeqNum := ToByte(nwkSeqNum + 1);
      FillRequest(j, req);
    }

    method FillRequest(j: nat, req: Request)
      requires j < frames.Length && frames[j] == ZERO_FRAME
      modifies frames
      ensures frames[..] == old(frames[..])[j := RequestFrame(addr, req, nwkSeqNum)]
    {
      var header := frames[j].header.(ackRequest := req.ackRequest, linkLocal := req.linkLocal, nwkSeq := nwkSeqNum,
                                      nwkSrc := addr, nwkDst := req.dst, srcEndpoint := req.srcEndpoint,
                                      dstEndpoint := req.dstEndpoint);
      var aux := Tx(Success, 0, if req.broadcastPan then 1 else 0, DataReqConf);
      frames[j] := frames[j].(aux := aux, header := header, payload := req.data);
    }

    /** nwkDataReqTxConf */
    method DataReqTxConf(i: nat)
      requires Shape(Snap()) && i < frames.Length && frames[i].state == TxConfirm
      modifies this, frames
      ensures Snap() == TxConf(old(Snap()), i)
    {
      assert TypedFrame(Snap().frames[i]);
      var q := 0;
      while q < |queue|
        invariant q <= |queue| && Snap() == old(Snap())
        invariant Holder(queue, i) == Holder(queue, i, q)
      {
        if queue[q].frame == Some(i) {
          queue := queue[q := queue[q].(status := frames[i].aux.status, control := frames[i].aux.control,
                                        state := Confirmed, seqNo := frames[i].header.nwkSeq, evidence := hist[i])];
          break;
        }
        q := q + 1;
      }
      FrameFree(i);
    }

    /** nwkDataReqConfirm */
    method DataReqConfirm(q: nat)
      requires q < |queue|
      modifies this
      ensures Snap() == ConfirmRequest(old(Snap()), q)
    {
      var req := queue[q];
      queue := queue[..q] + queue[q + 1..];
      lock := ToWord(lock - 1);
      callbacks := callbacks + [Callback(req.ticket, req.ackRequest, req.seqNo, req.status, req.control, req.evidence)];
    }

    /** nwkDataReqTaskHandler */
    method DataReqTaskHandler(rnd: nat)
      requires Shape(Snap())
      modifies this, frames
      ensures Snap() == DataReqTask(old(Snap()), rnd)
    {
      var q := 0;
      while q < |queue|
        invariant q <= |queue| && Snap() == old(Snap())
        invariant DataReqTask(Snap(), rnd) == DataReqTask(Snap(), rnd, q)
      {
        match queue[q].state {
          case Initial =>
            DataReqSendFrame(q, rnd);
            return;
          case WaitConf =>
          case Confirmed =>
            DataReqConfirm(q);
            return;
        }
        q := q + 1;
      }
    }

    // ----- receiver -----

    /** PHY_DataInd */
    method DataInd(d: Received)
      requires Shape(Snap())
      modifies this, frames
      ensures Snap() == PhyInd(old(Snap()), d)
    {
      if d.fcf !in {0x8861, 0x8841} || d.header.None? {
        return;
      }
      var slot := FrameAlloc();
      if slot.Some? {
        frames[slot.value] := Frame(RxReceived, d.header.value, d.payload, Rx(d.lqi, d.rssi));
      }
    }

    /** The frames that nwkRxSendAck and nwkRouteSendRouteError fill and send. */
    method SendCommandFrame(security: bool, dst: Word, payload: seq<Byte>, rnd: nat)
      requires Shape(Snap())
      modifies this, frames
      ensures Snap() == SendCommand(old(Snap()), security, dst, payload, rnd)
    {
      hide TxFrame, FirstFree, OnAir, TypedPool;
      ghost var was := Snap();
      var slot := FrameAlloc();
      if slot.Some? {
        var j := slot.value;
        nwkSeqNum := ToByte(nwkSeqNum + 1);
        var header := ZERO_HEADER.(nwkSeq := nwkSeqNum, nwkSrc := addr, security := security, nwkDst := dst);
        frames[j] := frames[j].(header := header, payload := payload);
        assert Snap() == HoldCommand(was, j, security, dst, payload);
        SendToAir(j, rnd);
      }
    }

    /** nwkRxRejectDuplicate */
    method RxRejectDuplicate(h: Header) returns (rejected: bool)
      requires Shape(Snap())
      modifies this`dupTimer, routes.entries, dups.entries
      ensures (Snap(), rejected) == RejectDuplicate(old(Snap()), h)
    {
      var v := dups.RejectDuplicate(h.nwkSrc, h.nwkSeq);
      match v {
        case Repeated =>
          if h.macDst == addr {
            routes.RouteRemove(h.nwkDst, MulticastBit(h));
          }
          rejected := true;
        case NoRoom =>
          rejected := true;
        case Accepted(created) =>
          if created {
            dupTimer := true;
          }
          rejected := false;
      }
    }

    method ForwardReceived(i: nat, rnd: nat)
      requires Shape(Snap()) && i < frames.Length && frames[i].state == RxFinish && frames[i].aux.Rx?
      modifies this, frames
      ensures Snap() == Forward(old(Snap()), i, old(frames[i]).header, rnd)
    {
      var h := frames[i].header;
      if h.macDst == BROADCAST && addr != h.nwkDst && !h.linkLocal {
        TxBroadcastFrame(i, rnd);
      }
      if addr == h.nwkDst || h.nwkDst == BROADCAST {
        frames[i] := frames[i].(state := RxIndicate);
      } else if addr == h.macDst {
        frames[i] := frames[i].(state := RxRoute);
      }
    }

    /** nwkRxHandleReceivedFrame */
    method HandleReceivedFrame(i: nat, rnd: nat)
      requires Shape(Snap()) && i < frames.Length && frames[i].state == RxReceived
      modifies this, frames, routes.entries, dups.entries
      ensures Snap() == HandleReceived(old(Snap()), i, rnd)
    {
      hide Learn;
      ghost var was := Snap();
      assert TypedFrame(was.frames[i]);
      var h := frames[i].header;
      frames[i] := frames[i].(state := RxFinish);
      if h.security || h.multicast {
        return;
      }
      if h.macDstPan == BROADCAST_PAN {
        if addr == h.nwkDst || h.nwkDst == BROADCAST {
          frames[i] := frames[i].(state := RxIndicate);
        }
        return;
      }
      if h.nwkDst == BROADCAST && h.ackRequest {
        return;
      }
      if addr == h.nwkSrc {
        return;
      }
      LearnReceived(i, rnd);
    }

    /** ... and from nwkRouteFrameReceived on */
    method LearnReceived(i: nat, rnd: nat)
      requires Shape(Snap()) && i < frames.Length && frames[i].state == RxFinish && frames[i].aux.Rx?
      modifies this, frames, routes.entries, dups.entries
      ensures Snap() == Learn(old(Snap()), i, rnd)
    {
      hide RejectDuplicate, Forward, Routing.FrameReceived;
      var h, lqi := frames[i].header, frames[i].aux.lqi;
      routes.RouteFrameReceived(addr, Routing.Heard(h.macDstPan, h.macDst, h.macSrc, h.nwkSrc, h.nwkDst, lqi));
      var rejected := RxRejectDuplicate(h);
      if !rejected {
        ForwardReceived(i, rnd);
      }
    }

    method PerformAll(actions: seq<AppAction>)
      modifies this
      ensures Snap() == ActAll(old(Snap()), actions)
    {
      var k := 0;
      while k < |actions|
        invariant k <= |actions| && ActAll(old(Snap()), actions) == ActAll(Snap(), actions[k..])
        invariant frames[..] == old(frames[..])
      {
        Perform(actions[k]);
        k := k + 1;
      }
    }

    /** The calls an application handler may make: NWK_DataReq, NWK_Lock, NWK_Unlock and
        NWK_SetAckControl. */
    method Perform(a: AppAction)
      modifies this
      ensures Snap() == Act(old(Snap()), a)
    {
      match a {
        case DoSubmit(req) => DataReq(req);
        case DoLock => lock := ToWord(lock + 1); appLocks := appLocks + 1;
        case DoUnlock => lock := ToWord(lock - 1); appLocks := appLocks - 1;
        case DoAckControl(c) => ackControl := c;
      }
    }

    /** nwkRxIndicateFrame */
    method RxIndicateFrame(i: nat, reply: AppReply) returns (consumed: bool)
      requires Shape(Snap()) && i < frames.Length && frames[i].state == RxIndicate
      modifies this, frames, routes.entries
      ensures (Snap(), consumed) == IndicateFrame(old(Snap()), i, reply)
    {
      assert TypedFrame(Snap().frames[i]);
      hide ServiceCommand, ActAll, TypedPool, Shape;
      var f := frames[i];
      if f.header.dstEndpoint != SERVICE_ENDPOINT && !reply.open {
        return false;
      }
      indications := indications + [IndicationOf(f.header, f.payload, f.aux.lqi, f.aux.rssi)];
      if f.header.dstEndpoint == SERVICE_ENDPOINT {
        consumed := RxServiceDataInd(f.payload);
      } else {
        PerformAll(reply.actions);
        consumed := reply.consumed;
      }
    }

    /** nwkRxServiceDataInd */
    method RxServiceDataInd(data: seq<Byte>) returns (consumed: bool)
      requires Shape(Snap())
      modifies this, frames, routes.entries
      ensures (Snap(), consumed) == ServiceCommand(old(Snap()), data)
    {
      if |data| < 1 {
        return false;
      }
      if data[0] == COMMAND_ACK {
        consumed := TxAckReceived(data);
      } else if data[0] == COMMAND_ROUTE_ERROR {
        if |data| != 6 {
          return false;
        }
        var high: int := data[4];
        routes.RouteRemove(data[3] + 0x100 * high, data[5]);
        consumed := true;
      } else {
        consumed := false;
      }
    }

    /** nwkRxHandleIndication */
    method RxHandleIndication(i: nat, env: RxEnv)
      requires Shape(Snap()) && i < frames.Length && frames[i].state == RxIndicate
      modifies this, frames, routes.entries
      ensures Snap() == HandleIndication(old(Snap()), i, env)
    {
      hide IndicateFrame, Answer;
      var h := frames[i].header;
      ackControl := 0;
      var ack := RxIndicateFrame(i, env.Reply(i));
      AnswerIndication(i, h, ack, env.Rnd(i));
    }

    /** ... and from the handlers' answer `consumed` on */
    method AnswerIndication(i: nat, h: Header, consumed: bool, rnd: nat)
      requires Shape(Snap()) && i < frames.Length && frames[i].state == RxIndicate
      modifies this, frames
      ensures Snap() == Answer(old(Snap()), i, h, consumed, rnd)
    {
      hide SendCommand, FirstFree, Shape, TypedPool;
      var ack := consumed;
      if !h.ackRequest {
        ack := false;
      }
      if h.macDst == BROADCAST && addr == h.nwkDst && !h.multicast {
        ack := true;
      }
      if h.macDstPan == BROADCAST_PAN {
        ack := false;
      }
      if addr == BROADCAST {
        ack := false;
      }
      if ack {
        SendCommandFrame(h.security, h.nwkSrc, [COMMAND_ACK, h.nwkSeq, ackControl], rnd);
      }
      frames[i] := frames[i].(state := RxFinish);
    }

    /** nwkRouteFrame */
    method RouteReceivedFrame(i: nat, rnd: nat)
      requires Shape(Snap()) && i < frames.Length && frames[i].state == RxRoute
      modifies this, frames
      ensures Snap() == RouteFrame(old(Snap()), i, rnd)
    {
      hide TxFrame, OnAir, SendCommand, RouteErrorCommand, Routing.NextHop, MulticastBit;
      var h := frames[i].header;
      var hop := routes.RouteNextHop(h.nwkDst, MulticastBit(h));
      if hop != Routing.UNKNOWN {
        frames[i] := frames[i].(aux := Tx(Success, 0, CONTROL_ROUTING, NoConfirm));
        SendToAir(i, rnd);
      } else {
        CommandElsewhere(Snap(), false, h.nwkSrc, RouteErrorCommand(h), rnd, i);
        SendCommandFrame(false, h.nwkSrc, RouteErrorCommand(h), rnd);
        FrameFree(i);
      }
    }

    method RxTaskFrame(i: nat, env: RxEnv)
      requires Shape(Snap()) && i < frames.Length
      modifies this, frames, routes.entries, dups.entries
      ensures Snap() == RxStep(old(Snap()), i, env)
    {
      match frames[i].state {
        case RxReceived => HandleReceivedFrame(i, env.Rnd(i));
        case RxIndicate => RxHandleIndication(i, env);
        case RxRoute => RouteReceivedFrame(i, env.Rnd(i));
        case RxFinish => FrameFree(i);
        case _ =>
      }
    }

    /** nwkRxTaskHandler */
    method RxTaskHandler(env: RxEnv)
      requires Shape(Snap())
      modifies this, frames, routes.entries, dups.entries
      ensures Snap() == RxTask(old(Snap()), env)
    {
      hide RxStep, TypedPool;
      ghost var was := Snap();
      for i := 0 to frames.Length
        invariant Shape(Snap()) && RxTask(was, env) == RxTask(Snap(), env, i)
      {
        ghost var s := Snap();
        RxTaskFrame(i, env);
        assert RxTask(s, env, i) == RxTask(RxStep(s, i, env), env, i + 1);
      }
    }

    /** nwkRxDuplicateRejectionTimerHandler */
    method DuplicateTimerHandler()
      requires Shape(Snap())
      modifies this`dupTimer, dups.entries
      ensures Snap() == DupTimer(old(Snap()))
    {
      dupTimer := dups.TimerHandler();
    }

    /** One event of a run. */
    method Handle(e: Event)
      requires Valid()
      modifies this, frames, routes.entries, dups.entries
      ensures Snap() == Step(old(Snap()), e) && Valid()
    {
      hide Inv, Shape, Act, PhyInd, TxTask, RxTask, DataReqTask, AckTimer, DelayTimer, DupTimer;
      StepKeeps(Snap(), e);
      match e {
        case Application(a) => Perform(a);
        case PhyIndication(d) => DataInd(d);
        case PhyConfirmation(p) => if active.Some? { DataConf(p); }
        case TxTaskRuns => TxTaskHandler();
        case RxTaskRuns(env) => RxTaskHandler(env);
        case DataReqTaskRuns(rnd) => DataReqTaskHandler(rnd);
        case AckTimerFires => if ackTimer { AckWaitTimerHandler(); }
        case DelayTimerFires => if delayTimer { DelayTimerHandler(); }
        case DupTimerFires => if dupTimer { DuplicateTimerHandler(); }
      }
    }
  }
}
