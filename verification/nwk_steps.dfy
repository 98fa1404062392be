/** The handlers of the network layer as functions on its state: the transmitter (nwkTx.c),
    the request queue (nwkDataReq.c) and the receiver (nwkRx.c, nwkRoute.c).

    A handler that walks over the pool is the composition of its turns on the single frames, and a
    timer handler likewise. What the environment decides enters as a parameter: the random number
    of a jitter, what an application handler does, and what the PHY delivers or confirms. */
module NetSteps {
  import opened Types
  import opened NetState
  import Routing
  import Duplicates

  // ----- request queue -----

  predicate Queued(queue: seq<Request>, id: nat) {
    exists q | 0 <= q < |queue| :: queue[q].id == id
  }

  /** NWK_DataReq, as guarded by the application: it does not submit a request object again
      before that object's confirm callback. */
  function Submit(s: State, req: Request): (r: State) {
    if Queued(s.queue, req.id) then s
    else
      var fresh' := req.(state := Initial, status := Success, frame := None,
                         ticket := |s.submitted|, table := [], seqNo := 0, evidence := []);
      s.(queue := [fresh'] + s.queue, lock := ToWord(s.lock + 1), submitted := s.submitted + [req])
  }

  /** The first request in the queue that holds frame `f`. */
  function Holder(queue: seq<Request>, f: nat, q: nat := 0): (r: Option<nat>)
    requires q <= |queue|
    ensures r.Some? ==> q <= r.value < |queue| && queue[r.value].frame == Some(f)
    ensures r.Some? ==> forall k | q <= k < r.value :: queue[k].frame != Some(f)
    ensures r.None? ==> forall k | q <= k < |queue| :: queue[k].frame != Some(f)
    decreases |queue| - q
  {
    if q == |queue| then None
    else if queue[q].frame == Some(f) then Some(q)
    else Holder(queue, f, q + 1)
  }

  /** nwkDataReqTxConf: frame `i` reports to the first request that holds it, and is freed. */
  function TxConf(s: State, i: nat): (r: State)
    requires Shape(s) && i < |s.frames| && s.frames[i].state == TxConfirm
    ensures Shape(r) && |r.frames| == |s.frames|
  {
    var f := s.frames[i];
    var told :=
      match Holder(s.queue, i)
      case None => s
      case Some(q) =>
        s.(queue := s.queue[q := s.queue[q].(
             status := f.aux.status, control := f.aux.control, state := Confirmed,
             seqNo := f.header.nwkSeq, evidence := s.hist[i])]);
    FreeFrame(told, i)
  }

  /** The data frame sent for a request. */
  function RequestFrame(addr: Word, req: Request, nwkSeq: Byte): (r: Frame)
    ensures r.state == Free && r.header.nwkSrc == addr && r.header.ackRequest == req.ackRequest
    ensures r.aux.Tx? && r.aux.confirm == DataReqConf
  {
    var header := ZERO_HEADER.(ackRequest := req.ackRequest, linkLocal := req.linkLocal, nwkSeq := nwkSeq,
                               nwkSrc := addr, nwkDst := req.dst, srcEndpoint := req.srcEndpoint,
                               dstEndpoint := req.dstEndpoint);
    var aux := Tx(Success, 0, if req.broadcastPan then 1 else 0, DataReqConf);
    ZERO_FRAME.(header := header, payload := req.data, aux := aux)
  }

  /** The new frame `j` becomes the data frame of request `q`, which now waits for it. */
  function FillData(s: State, q: nat, j: nat): (r: State)
    requires q < |s.queue| && j < |s.frames| == |s.hist|
    ensures Shape(s) && s.active != Some(j) ==> Shape(r)
  {
    var req, nwkSeq := s.queue[q], ToByte(s.nwkSeqNum + 1);
    Note(Put(s, j, RequestFrame(s.addr, req, nwkSeq)), j, SentFor(req.ticket)).(
      queue := s.queue[q := req.(frame := Some(j), state := WaitConf, table := s.routes)], nwkSeqNum := nwkSeq)
  }

  /** The free slot `j` is allocated for request `q` and filled. */
  function HoldData(s: State, q: nat, j: nat): (r: State)
    requires Shape(s) && q < |s.queue| && j < |s.frames| && s.frames[j].state == Free
    ensures Shape(r)
  {
    FillData(Allocate(s, j, ZERO_FRAME), q, j)
  }

  /** nwkDataReqSendFrame */
  function SendFrame(s: State, q: nat, rnd: nat): (r: State)
    requires Shape(s) && q < |s.queue|
    ensures Shape(r)
  {
    match FirstFree(s.frames)
    case None => s.(queue := s.queue[q := s.queue[q].(state := Confirmed, status := OutOfMemory)])
    case Some(j) => TxFrame(HoldData(s, q, j), j, rnd)
  }

  /** nwkDataReqConfirm: the request leaves the queue and its callback is called. */
  function ConfirmRequest(s: State, q: nat): (r: State)
    requires q < |s.queue|
  {
    var req := s.queue[q];
    s.(queue := s.queue[..q] + s.queue[q + 1..], lock := ToWord(s.lock - 1),
       callbacks := s.callbacks + [Callback(req.ticket, req.ackRequest, req.seqNo, req.status, req.control,
                                            req.evidence)])
  }

  /** nwkDataReqTaskHandler from request `q` on: the first request that is not waiting is served. */
  function DataReqTask(s: State, rnd: nat, q: nat := 0): (r: State)
    requires Shape(s) && q <= |s.queue|
    ensures Shape(r)
    decreases |s.queue| - q
  {
    if q == |s.queue| then s
    else
      match s.queue[q].state
      case Initial => SendFrame(s, q, rnd)
      case Confirmed => ConfirmRequest(s, q)
      case WaitConf => DataReqTask(s, rnd, q + 1)
  }

  // ----- transmitter -----

  /** A frame with a time to wait out waits for the delay timer; any other one may be sent. */
  function DelayStep(s: State, i: nat): (r: State)
    requires Shape(s) && i < |s.frames| && s.frames[i].state == TxDelay
    ensures Shape(r) && |r.frames| == |s.frames|
  {
    var f := s.frames[i];
    if f.aux.timeout > 0 then Put(s, i, f.(state := TxWaitDelay)).(delayTimer := true)
    else Put(s, i, f.(state := TxSend))
  }

  /** The PHY takes a frame when it has none. */
  function SendStep(s: State, i: nat): (r: State)
    requires Shape(s) && i < |s.frames| && s.frames[i].state == TxSend
    ensures Shape(r) && |r.frames| == |s.frames|
  {
    if s.active.Some? then s
    else Put(s, i, s.frames[i].(state := TxWaitConf)).(active := Some(i), lock := ToWord(s.lock + 1))
  }

  /** A frame that the PHY has sent waits for its acknowledgment, or is finished. */
  function SentStep(s: State, i: nat): (r: State)
    requires Shape(s) && i < |s.frames| && s.frames[i].state == TxSent
    ensures Shape(r) && |r.frames| == |s.frames|
  {
    var f := s.frames[i];
    if f.aux.status == Success && f.header.nwkSrc == s.addr && f.header.ackRequest then
      Put(s, i, f.(state := TxWaitAck, aux := f.aux.(timeout := ACK_WAIT_TICKS))).(ackTimer := true)
    else Put(s, i, f.(state := TxConfirm))
  }

  /** A finished frame is reported to the routing table and to its owner, and freed. */
  function ConfirmStep(s: State, i: nat): (r: State)
    requires Shape(s) && i < |s.frames| && s.frames[i].state == TxConfirm
    ensures Shape(r) && |r.frames| == |s.frames|
  {
    var f := s.frames[i];
    var delivered := f.aux.status == Success;
    var sent := s.(routes := Routing.FrameSent(s.routes, f.header.nwkDst, MulticastBit(f.header), delivered));
    if f.aux.confirm == NoConfirm then FreeFrame(sent, i) else TxConf(sent, i)
  }

  /** nwkTxTaskHandler on frame `i`. */
  function TxStep(s: State, i: nat): (r: State)
    requires Shape(s) && i < |s.frames|
    ensures Shape(r) && |r.frames| == |s.frames|
  {
    match s.frames[i].state
    case TxDelay => DelayStep(s, i)
    case TxSend => SendStep(s, i)
    case TxSent => SentStep(s, i)
    case TxConfirm => ConfirmStep(s, i)
    case _ => s
  }

  /** nwkTxConvertPhyStatus */
  function ConvertPhyStatus(p: PhyStatus): Status {
    match p
    case PhySuccess => Success
    case PhyChannelAccess => PhyChannelAccessFailure
    case PhyNoAckReceived => PhyNoAck
    case PhyOther => Error
  }

  /** PHY_DataConf; the PHY only confirms a frame it was given. */
  function PhyConf(s: State, p: PhyStatus): (r: State)
    requires Shape(s)
    ensures Shape(r)
  {
    match s.active
    case None => s
    case Some(i) =>
      var f := s.frames[i];
      var done := f.(state := TxSent, aux := f.aux.(status := ConvertPhyStatus(p)));
      Note(Put(s, i, done), i, PhyDone(p)).(active := None, lock := ToWord(s.lock - 1))
  }

  function CountDown(f: Frame): (r: Frame)
    requires f.aux.Tx?
  {
    f.(aux := f.aux.(timeout := ToWord(f.aux.timeout - 1)))
  }

  /** nwkTxAckWaitTimerHandler on frame `i`. */
  function AckTick(s: State, i: nat): (r: State)
    requires Shape(s) && i < |s.frames|
    ensures Shape(r) && |r.frames| == |s.frames|
  {
    if s.frames[i].state != TxWaitAck then s
    else
      var f := CountDown(s.frames[i]);
      if f.aux.timeout == 0 then
        Note(Put(s, i, f.(state := TxConfirm, aux := f.aux.(status := NoAck))), i, AckTimedOut)
      else Put(s, i, f)
  }

  /** nwkTxDelayTimerHandler on frame `i`. */
  function DelayTick(s: State, i: nat): (r: State)
    requires Shape(s) && i < |s.frames|
    ensures Shape(r) && |r.frames| == |s.frames|
  {
    if s.frames[i].state != TxWaitDelay then s
    else
      var f := CountDown(s.frames[i]);
      Put(s, i, if f.aux.timeout == 0 then f.(state := TxSend) else f)
  }

  predicate AnyIn(frames: seq<Frame>, st: FrameState) {
    exists i | 0 <= i < |frames| :: frames[i].state == st
  }

  // ----- receiver -----

  /** Whether the endpoint of an indicated frame is open, and what its handler then does. */
  datatype AppAction = DoSubmit(req: Request) | DoLock | DoUnlock | DoAckControl(control: Byte)
  datatype AppReply = AppReply(open: bool, actions: seq<AppAction>, consumed: bool)

  /** Random numbers and application replies met by the receiver, per frame slot. */
  datatype RxEnv = RxEnv(rnd: seq<nat>, replies: seq<AppReply>) {
    function Rnd(i: nat): nat { if i < |rnd| then rnd[i] else 0 }

    function Reply(i: nat): AppReply { if i < |replies| then replies[i] else AppReply(false, [], false) }
  }

  function Act(s: State, a: AppAction): (r: State)
    ensures r.frames == s.frames && r.hist == s.hist && (Shape(s) ==> Shape(r))
  {
    match a
    case DoSubmit(req) => Submit(s, req)
    case DoLock => s.(lock := ToWord(s.lock + 1), appLocks := s.appLocks + 1)
    case DoUnlock => s.(lock := ToWord(s.lock - 1), appLocks := s.appLocks - 1)
    case DoAckControl(c) => s.(ackControl := c)
  }

  function ActAll(s: State, actions: seq<AppAction>): (r: State)
    ensures r.frames == s.frames && r.hist == s.hist && (Shape(s) ==> Shape(r))
    decreases |actions|
  {
    if actions == [] then s else ActAll(Act(s, actions[0]), actions[1..])
  }

  /** What the PHY delivers: the frame control field, the header (absent when the data is shorter
      than one) and the rest. */
  datatype Received = Received(fcf: Word, header: Option<Header>, payload: seq<Byte>, lqi: Byte, rssi: int)

  /** PHY_DataInd */
  function PhyInd(s: State, d: Received): (r: State)
    requires Shape(s)
    ensures Shape(r)
  {
    if d.fcf !in {0x8861, 0x8841} || d.header.None? then s
    else
      match FirstFree(s.frames)
      case None => s
      case Some(j) => Allocate(s, j, Frame(RxReceived, d.header.value, d.payload, Rx(d.lqi, d.rssi)))
  }

  /** nwkTxBroadcastFrame: a copy of frame `i` is queued for a broadcast. */
  function BroadcastCopy(s: State, i: nat, rnd: nat): (r: State)
    requires Shape(s) && i < |s.frames| && s.frames[i].state != Free
    ensures Shape(r) && |r.frames| == |s.frames| && r.frames[i] == s.frames[i]
  {
    match FirstFree(s.frames)
    case None => s
    case Some(j) =>
      var macSeqNum := ToByte(s.macSeqNum + 1);
      var header := s.frames[i].header.(macFcf := 0x8841, macDst := BROADCAST, macSrc := s.addr, macSeq := macSeqNum);
      Allocate(s, j, Frame(TxDelay, header, s.frames[i].payload, Tx(Success, Jitter(rnd), 0, NoConfirm)))
        .(macSeqNum := macSeqNum)
  }

  /** nwkRxRejectDuplicate, with the route removal and the timer start it causes. */
  function RejectDuplicate(s: State, h: Header): (r: (State, bool))
    requires Shape(s)
    ensures Shape(r.0) && r.0.frames == s.frames && r.0.hist == s.hist
  {
    var (dups, v) := Duplicates.Arrive(s.dups, h.nwkSrc, h.nwkSeq);
    match v
    case Repeated =>
      (if h.macDst == s.addr then s.(dups := dups, routes := Routing.Remove(s.routes, h.nwkDst, MulticastBit(h)))
       else s.(dups := dups), true)
    case NoRoom => (s.(dups := dups), true)
    case Accepted(created) => (s.(dups := dups, dupTimer := s.dupTimer || created), false)
  }

  /** nwkRxHandleReceivedFrame */
  function HandleReceived(s: State, i: nat, rnd: nat): (r: State)
    requires Shape(s) && i < |s.frames| && s.frames[i].state == RxReceived
    ensures Shape(r) && |r.frames| == |s.frames|
  {
    var f := s.frames[i];
    var h := f.header;
    var done := Put(s, i, f.(state := RxFinish));
    var indicate := Put(s, i, f.(state := RxIndicate));
    if h.security || h.multicast then done
    else if h.macDstPan == BROADCAST_PAN then
      (if h.nwkDst == s.addr || h.nwkDst == BROADCAST then indicate else done)
    else if h.nwkDst == BROADCAST && h.ackRequest then done
    else if h.nwkSrc == s.addr then done
    else Learn(done, i, rnd)
  }

  /** The routing table learns from a frame, and the frame goes on unless it is a duplicate. */
  function Learn(s: State, i: nat, rnd: nat): (r: State)
    requires Shape(s) && i < |s.frames| && s.frames[i].state == RxFinish && s.frames[i].aux.Rx?
    ensures Shape(r) && |r.frames| == |s.frames|
  {
    var h := s.frames[i].header;
    var heard := Routing.Heard(h.macDstPan, h.macDst, h.macSrc, h.nwkSrc, h.nwkDst, s.frames[i].aux.lqi);
    var (judged, rejected) := RejectDuplicate(s.(routes := Routing.FrameReceived(s.routes, s.addr, heard)), h);
    if rejected then judged else Forward(judged, i, h, rnd)
  }

  /** A new frame is repeated when it is a broadcast for others, and goes up or on. */
  function Forward(s: State, i: nat, h: Header, rnd: nat): (r: State)
    requires Shape(s) && i < |s.frames| && s.frames[i].state == RxFinish && s.frames[i].aux.Rx?
    ensures Shape(r) && |r.frames| == |s.frames|
  {
    var copied := if h.macDst == BROADCAST && h.nwkDst != s.addr && !h.linkLocal then BroadcastCopy(s, i, rnd) else s;
    if h.nwkDst == s.addr || h.nwkDst == BROADCAST then Put(copied, i, copied.frames[i].(state := RxIndicate))
    else if h.macDst == s.addr then Put(copied, i, copied.frames[i].(state := RxRoute))
    else copied
  }

  predicate AwaitsAck(f: Frame, seqNo: Byte) {
    f.state == TxWaitAck && f.header.nwkSeq == seqNo
  }

  /** The first frame that waits for an acknowledgment of `seqNo`. */
  function AckWaiter(frames: seq<Frame>, seqNo: Byte, i: nat := 0): (r: Option<nat>)
    requires i <= |frames|
    ensures r.Some? ==> i <= r.value < |frames| && AwaitsAck(frames[r.value], seqNo)
    ensures r.Some? ==> forall k | i <= k < r.value :: !AwaitsAck(frames[k], seqNo)
    ensures r.None? ==> forall k | i <= k < |frames| :: !AwaitsAck(frames[k], seqNo)
    decreases |frames| - i
  {
    if i == |frames| then None
    else if AwaitsAck(frames[i], seqNo) then Some(i)
    else AckWaiter(frames, seqNo, i + 1)
  }

  /** nwkTxAckReceived */
  function AckReceived(s: State, data: seq<Byte>): (r: (State, bool))
    requires Shape(s)
    ensures Shape(r.0) && |r.0.frames| == |s.frames|
    ensures forall i | 0 <= i < |s.frames| && s.frames[i].state != TxWaitAck :: r.0.frames[i] == s.frames[i]
  {
    if |data| != 3 then (s, false)
    else
      match AckWaiter(s.frames, data[1])
      case None => (s, false)
      case Some(k) =>
        var f := s.frames[k];
        (Note(Put(s, k, f.(state := TxConfirm, aux := f.aux.(control := data[2]))), k,
              AckHeard(data[1], data[2])), true)
  }

  const COMMAND_ACK: Byte := 0
  const COMMAND_ROUTE_ERROR: Byte := 1
  const SERVICE_ENDPOINT: nat := 0

  /** nwkRouteErrorReceived: the two-byte fields are little-endian. */
  function RouteErrorReceived(s: State, data: seq<Byte>): (r: (State, bool))
    requires Shape(s)
    ensures Shape(r.0) && r.0.frames == s.frames && r.0.hist == s.hist
  {
    if |data| != 6 then (s, false)
    else
      var dst: int := data[4];
      (s.(routes := Routing.Remove(s.routes, data[3] + 0x100 * dst, data[5])), true)
  }

  /** What the handler of a frame's endpoint is told. */
  function IndicationOf(h: Header, payload: seq<Byte>, lqi: Byte, rssi: int): Indication {
    Indication(h.nwkSrc, h.nwkDst, h.srcEndpoint, h.dstEndpoint, payload, lqi, rssi,
               h.ackRequest, h.security, h.linkLocal, h.multicast, h.nwkDst == BROADCAST, h.nwkSrc == h.macSrc,
               h.macDstPan == BROADCAST_PAN)
  }

  /** The handler of the endpoint of frame `i` is called. */
  function Tell(s: State, i: nat): (r: State)
    requires i < |s.frames| && s.frames[i].aux.Rx?
    ensures Shape(s) ==> Shape(r)
  {
    var f := s.frames[i];
    s.(indications := s.indications + [IndicationOf(f.header, f.payload, f.aux.lqi, f.aux.rssi)])
  }

  /** nwkRxServiceDataInd */
  function ServiceCommand(s: State, data: seq<Byte>): (r: (State, bool))
    requires Shape(s)
    ensures Shape(r.0) && |r.0.frames| == |s.frames|
    ensures forall i | 0 <= i < |s.frames| && s.frames[i].state != TxWaitAck :: r.0.frames[i] == s.frames[i]
  {
    if |data| < 1 then (s, false)
    else if data[0] == COMMAND_ACK then AckReceived(s, data)
    else if data[0] == COMMAND_ROUTE_ERROR then RouteErrorReceived(s, data)
    else (s, false)
  }

  /** nwkRxIndicateFrame: the service endpoint takes commands, any other one is the application's. */
  function IndicateFrame(s: State, i: nat, reply: AppReply): (r: (State, bool))
    requires Shape(s) && i < |s.frames| && s.frames[i].state == RxIndicate
    ensures Shape(r.0) && |r.0.frames| == |s.frames| && r.0.frames[i] == s.frames[i]
  {
    var f := s.frames[i];
    if f.header.dstEndpoint == SERVICE_ENDPOINT then ServiceCommand(Tell(s, i), f.payload)
    else if !reply.open then (s, false)
    else (ActAll(Tell(s, i), reply.actions), reply.consumed)
  }

  /** Whether nwkRxHandleIndication answers with an acknowledgment. */
  predicate Acknowledges(addr: Word, h: Header, consumed: bool) {
    && ((consumed && h.ackRequest) || (h.macDst == BROADCAST && h.nwkDst == addr && !h.multicast))
    && h.macDstPan != BROADCAST_PAN
    && addr != BROADCAST
  }

  /** The end of nwkRxHandleIndication: an acknowledgment is sent when one is due, and the frame is
      finished. */
  function Answer(told: State, i: nat, h: Header, consumed: bool, rnd: nat): (r: State)
    requires Shape(told) && i < |told.frames| && told.frames[i].state == RxIndicate
    ensures Shape(r) && |r.frames| == |told.frames|
  {
    var command := [COMMAND_ACK, h.nwkSeq, told.ackControl];
    var acked := if Acknowledges(told.addr, h, consumed) then SendCommand(told, h.security, h.nwkSrc, command, rnd)
                 else told;
    CommandElsewhere(told, h.security, h.nwkSrc, command, rnd, i);
    Put(acked, i, acked.frames[i].(state := RxFinish))
  }

  /** nwkRxHandleIndication */
  function HandleIndication(s: State, i: nat, env: RxEnv): (r: State)
    requires Shape(s) && i < |s.frames| && s.frames[i].state == RxIndicate
    ensures Shape(r) && |r.frames| == |s.frames|
  {
    var (told, consumed) := IndicateFrame(s.(ackControl := 0), i, env.Reply(i));
    Answer(told, i, s.frames[i].header, consumed, env.Rnd(i))
  }

  /** The payload of a route error command. */
  function RouteErrorCommand(h: Header): seq<Byte> {
    [COMMAND_ROUTE_ERROR, h.nwkSrc % 0x100, h.nwkSrc / 0x100, h.nwkDst % 0x100, h.nwkDst / 0x100, MulticastBit(h)]
  }

  /** nwkRouteFrame: frame `i` is sent on, or dropped with a route error. */
  function RouteFrame(s: State, i: nat, rnd: nat): (r: State)
    requires Shape(s) && i < |s.frames| && s.frames[i].state == RxRoute
    ensures Shape(r) && |r.frames| == |s.frames|
  {
    var f := s.frames[i];
    if Routing.NextHop(s.routes, f.header.nwkDst, MulticastBit(f.header)) != Routing.UNKNOWN then
      TxFrame(Put(s, i, f.(aux := Tx(Success, 0, CONTROL_ROUTING, NoConfirm))), i, rnd)
    else
      var reported := SendCommand(s, false, f.header.nwkSrc, RouteErrorCommand(f.header), rnd);
      FreeFrame(reported, i)
  }

  /** nwkRxTaskHandler on frame `i`. */
  function RxStep(s: State, i: nat, env: RxEnv): (r: State)
    requires Shape(s) && i < |s.frames|
    ensures Shape(r) && |r.frames| == |s.frames|
  {
    match s.frames[i].state
    case RxReceived => HandleReceived(s, i, env.Rnd(i))
    case RxIndicate => HandleIndication(s, i, env)
    case RxRoute => RouteFrame(s, i, env.Rnd(i))
    case RxFinish => FreeFrame(s, i)
    case _ => s
  }

  // ----- the handlers over the whole pool -----

  /** nwkTxTaskHandler from frame `i` on. */
  function TxTask(s: State, i: nat := 0): (r: State)
    requires Shape(s) && i <= |s.frames|
    ensures Shape(r) && |r.frames| == |s.frames|
    decreases |s.frames| - i
  {
    if i == |s.frames| then s else TxTask(TxStep(s, i), i + 1)
  }

  /** nwkRxTaskHandler from frame `i` on. */
  function RxTask(s: State, env: RxEnv, i: nat := 0): (r: State)
    requires Shape(s) && i <= |s.frames|
    ensures Shape(r) && |r.frames| == |s.frames|
    decreases |s.frames| - i
  {
    if i == |s.frames| then s else RxTask(RxStep(s, i, env), env, i + 1)
  }

  function AckTicks(s: State, i: nat := 0): (r: State)
    requires Shape(s) && i <= |s.frames|
    ensures Shape(r) && |r.frames| == |s.frames|
    decreases |s.frames| - i
  {
    if i == |s.frames| then s else AckTicks(AckTick(s, i), i + 1)
  }

  function DelayTicks(s: State, i: nat := 0): (r: State)
    requires Shape(s) && i <= |s.frames|
    ensures Shape(r) && |r.frames| == |s.frames|
    decreases |s.frames| - i
  {
    if i == |s.frames| then s else DelayTicks(DelayTick(s, i), i + 1)
  }

  /** The acknowledgment timer fires: it leaves the timer list and is restarted when a frame waits. */
  function AckTimer(s: State): (r: State)
    requires Shape(s)
    ensures Shape(r) && |r.frames| == |s.frames|
  {
    AckTicks(s).(ackTimer := AnyIn(s.frames, TxWaitAck))
  }

  function DelayTimer(s: State): (r: State)
    requires Shape(s)
    ensures Shape(r) && |r.frames| == |s.frames|
  {
    DelayTicks(s).(delayTimer := AnyIn(s.frames, TxWaitDelay))
  }

  function DupTimer(s: State): (r: State)
    requires Shape(s)
    ensures Shape(r) && r.frames == s.frames
  {
    s.(dups := Duplicates.Tick(s.dups), dupTimer := Duplicates.AnyLive(s.dups))
  }
}
