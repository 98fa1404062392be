/** The state of the network layer as a value, and the operations of the frame pool
    (nwkFrame.c). A frame pointer is the index of the frame in the pool, so a pointer to a frame that
    was freed and allocated again is the index of another frame in the same place. */
module NetState {
  import opened Types
  import Routing
  import Duplicates

  const BUFFERS_AMOUNT: nat := 30
  const BROADCAST: Word := 0xffff
  const BROADCAST_PAN: Word := 0xffff
  const MAX_DELAY: nat := 8
  /** NWK_ACK_WAIT_TIME / NWK_TX_ACK_WAIT_TIMER_INTERVAL + 1 */
  const ACK_WAIT_TICKS: nat := 2000 / 50 + 1

  /** What the PHY confirms. */
  datatype PhyStatus = PhySuccess | PhyChannelAccess | PhyNoAckReceived | PhyOther

  datatype Status = Success | Error | OutOfMemory | NoAck | NoRoute | PhyChannelAccessFailure | PhyNoAck

  datatype FrameState =
    | Free
    | TxDelay | TxWaitDelay | TxSend | TxWaitConf | TxSent | TxWaitAck | TxConfirm
    | RxReceived | RxIndicate | RxRoute | RxFinish

  datatype Header = Header(
    macFcf: Word, macSeq: Byte, macDstPan: Word, macDst: Word, macSrc: Word,
    ackRequest: bool, security: bool, linkLocal: bool, multicast: bool,
    nwkSeq: Byte, nwkSrc: Word, nwkDst: Word, srcEndpoint: nat, dstEndpoint: nat)

  datatype Confirm = NoConfirm | DataReqConf

  /** The part of a frame that received and outgoing frames share. */
  datatype Aux =
    | Rx(lqi: Byte, rssi: int)
    | Tx(status: Status, timeout: Word, control: Byte, confirm: Confirm)

  datatype Frame = Frame(state: FrameState, header: Header, payload: seq<Byte>, aux: Aux)

  const ZERO_HEADER := Header(0, 0, 0, 0, 0, false, false, false, false, 0, 0, 0, 0, 0)
  const ZERO_FRAME := Frame(Free, ZERO_HEADER, [], Tx(Success, 0, 0, NoConfirm))

  datatype RequestState = Initial | WaitConf | Confirmed

  /** What happened to a frame since it was allocated. History only: no operation reads it. */
  datatype FrameEvent =
    | SentFor(ticket: nat)
    | PhyDone(result: PhyStatus)
    | AckHeard(seqNo: Byte, control: Byte)
    | AckTimedOut

  /** An application request in the queue. `id` is the application's request object; `ticket`
      (the number of the submission), `table` (the routing table when its frame was sent), `seqNo` and
      `evidence` are history. */
  datatype Request = Request(
    id: nat, state: RequestState, frame: Option<nat>, status: Status, control: Byte,
    dst: Word, dstEndpoint: nat, srcEndpoint: nat,
    ackRequest: bool, broadcastPan: bool, linkLocal: bool, data: seq<Byte>,
    ticket: nat, table: seq<Routing.Entry>, seqNo: Byte, evidence: seq<FrameEvent>)

  /** The confirm callback of a request was called. */
  datatype Callback = Callback(
    ticket: nat, ackRequest: bool, seqNo: Byte, status: Status, control: Byte, evidence: seq<FrameEvent>)

  /** A received frame was handed to the handler of its endpoint, with these parameters. */
  datatype Indication = Indication(
    src: Word, dst: Word, srcEndpoint: nat, dstEndpoint: nat, data: seq<Byte>, lqi: Byte, rssi: int,
    ackRequested: bool, secured: bool, linkLocal: bool, multicast: bool, broadcast: bool, local: bool,
    broadcastPan: bool)

  datatype State = State(
    addr: Word, panId: Word, nwkSeqNum: Byte, macSeqNum: Byte, lock: Word,
    frames: seq<Frame>, queue: seq<Request>, active: Option<nat>,
    ackTimer: bool, delayTimer: bool, dupTimer: bool,
    routes: seq<Routing.Entry>, dups: seq<Duplicates.Entry>, ackControl: Byte,
    // history; `submitted` has what the application submitted, by ticket
    hist: seq<seq<FrameEvent>>, callbacks: seq<Callback>, submitted: seq<Request>, indications: seq<Indication>,
    appLocks: int)

  predicate IsTx(st: FrameState) {
    st in {TxDelay, TxWaitDelay, TxSend, TxWaitConf, TxSent, TxWaitAck, TxConfirm}
  }

  function MulticastBit(h: Header): Byte {
    if h.multicast then 1 else 0
  }

  /** The typing of the shared state: what every operation below relies on. The PHY has no frame, or
      one that waits for its confirmation. */
  ghost predicate Shape(s: State) {
    match s.active
    case None => TypedPool(s)
    case Some(i) => TypedPool(s) && i < |s.frames| && s.frames[i].state == TxWaitConf
  }

  ghost predicate TypedPool(s: State) {
    && |s.frames| == |s.hist| && Routing.HasSpare(s.routes)
    && forall i | 0 <= i < |s.frames| :: TypedFrame(s.frames[i])
  }

  predicate TypedFrame(f: Frame) {
    (IsTx(f.state) ==> f.aux.Tx?) && (f.state in {RxReceived, RxIndicate} ==> f.aux.Rx?)
  }

  // ----- the frame pool -----

  function FirstFree(frames: seq<Frame>, i: nat := 0): (r: Option<nat>)
    requires i <= |frames|
    ensures r.Some? ==> i <= r.value < |frames| && frames[r.value].state == Free
    ensures r.None? ==> forall k | i <= k < |frames| :: frames[k].state != Free
    decreases |frames| - i
  {
    if i == |frames| then None
    else if frames[i].state == Free then Some(i)
    else FirstFree(frames, i + 1)
  }

  /** Allocation of slot `i`, filled with `f`. */
  function Allocate(s: State, i: nat, f: Frame): (r: State)
    requires i < |s.frames| == |s.hist| && s.frames[i].state == Free
    ensures Shape(s) && TypedFrame(f) ==> Shape(r)
  {
    s.(frames := s.frames[i := f], hist := s.hist[i := []], lock := ToWord(s.lock + 1))
  }

  function Put(s: State, i: nat, f: Frame): (r: State)
    requires i < |s.frames|
    ensures Shape(s) && TypedFrame(f) && s.active != Some(i) ==> Shape(r)
  {
    s.(frames := s.frames[i := f])
  }

  function FreeFrame(s: State, i: nat): (r: State)
    requires i < |s.frames| && s.frames[i].state != Free
    ensures Shape(s) && s.active != Some(i) ==> Shape(r)
  {
    s.(frames := s.frames[i := s.frames[i].(state := Free)], lock := ToWord(s.lock - 1))
  }

  function Note(s: State, i: nat, e: FrameEvent): (r: State)
    requires i < |s.hist|
    ensures Shape(s) ==> Shape(r)
  {
    s.(hist := s.hist[i := s.hist[i] + [e]])
  }

  /** How many frames are in use. */
  function InUse(frames: seq<Frame>): nat {
    if frames == [] then 0
    else InUse(frames[..|frames| - 1]) + (if frames[|frames| - 1].state != Free then 1 else 0)
  }

  lemma {:induction false} InUseAfter(frames: seq<Frame>, i: nat, f: Frame)
    requires i < |frames|
    ensures InUse(frames[i := f]) + (if frames[i].state != Free then 1 else 0)
         == InUse(frames) + (if f.state != Free then 1 else 0)
  {
    var n := |frames| - 1;
    if i == n {
      assert frames[i := f][..n] == frames[..n];
    } else {
      assert frames[i := f][..n] == frames[..n][i := f];
      InUseAfter(frames[..n], i, f);
    }
  }

  // ----- network addresses of outgoing frames -----

  predicate ToBroadcastPan(control: Byte) { control % 2 == 1 }

  predicate DirectLink(control: Byte) { control / 4 % 2 == 1 }

  const CONTROL_ROUTING: Byte := 2

  /** nwkRoutePrepareTx: the next hop of an outgoing frame. */
  function PrepareHop(s: State, h: Header): Word {
    if h.nwkDst == BROADCAST then BROADCAST
    else if h.linkLocal then h.nwkDst
    else Routing.NextHop(s.routes, h.nwkDst, MulticastBit(h))
  }

  function Jitter(rnd: nat): (r: Word)
    ensures 1 <= r <= MAX_DELAY
  {
    rnd % 8 + 1
  }

  /** Frame `f` as it enters the transmitter; `rnd` is the random number drawn. */
  function OnAir(s: State, f: Frame, rnd: nat): (r: Frame)
    requires f.aux.Tx?
    ensures r.state == TxDelay && r.aux.Tx? && r.aux.confirm == f.aux.confirm && r.aux.timeout <= MAX_DELAY
    ensures r.aux.timeout > 0 <==> r.header.macDst == BROADCAST
    ensures r.header.nwkSrc == f.header.nwkSrc && r.header.ackRequest == f.header.ackRequest
  {
    var control := f.aux.control;
    var macDst := if DirectLink(control) || ToBroadcastPan(control) then f.header.nwkDst else PrepareHop(s, f.header);
    var header := f.header.(
      macDstPan := if ToBroadcastPan(control) then BROADCAST_PAN else s.panId,
      macDst := macDst, macSrc := s.addr, macSeq := ToByte(s.macSeqNum + 1),
      macFcf := if macDst == BROADCAST then 0x8841 else 0x8861);
    var aux := f.aux.(status := Success, timeout := if macDst == BROADCAST then Jitter(rnd) else 0);
    f.(state := TxDelay, header := header, aux := aux)
  }

  /** nwkTxFrame: frame `i` enters the transmitter. */
  function TxFrame(s: State, i: nat, rnd: nat): (r: State)
    requires Shape(s) && i < |s.frames| && s.frames[i].aux.Tx? && s.active != Some(i)
    ensures Shape(r) && |r.frames| == |s.frames|
  {
    Put(s, i, OnAir(s, s.frames[i], rnd)).(macSeqNum := ToByte(s.macSeqNum + 1))
  }

  /** The free slot `j` is filled with a command frame of the node's own. */
  function HoldCommand(s: State, j: nat, security: bool, dst: Word, payload: seq<Byte>): (r: State)
    requires Shape(s) && j < |s.frames| && s.frames[j].state == Free
    ensures Shape(r)
  {
    var nwkSeqNum := ToByte(s.nwkSeqNum + 1);
    var header := ZERO_HEADER.(nwkSeq := nwkSeqNum, nwkSrc := s.addr, security := security, nwkDst := dst);
    Allocate(s, j, ZERO_FRAME.(header := header, payload := payload)).(nwkSeqNum := nwkSeqNum)
  }

  /** A command frame (an acknowledgment or a route error) is allocated, filled and handed to the
      transmitter, unless the pool is exhausted. */
  function SendCommand(s: State, security: bool, dst: Word, payload: seq<Byte>, rnd: nat): (r: State)
    requires Shape(s)
    ensures Shape(r) && |r.frames| == |s.frames|
  {
    match FirstFree(s.frames)
    case None => s
    case Some(j) => TxFrame(HoldCommand(s, j, security, dst, payload), j, rnd)
  }

  /** The command frame takes a free slot, not one in use. */
  lemma CommandElsewhere(s: State, security: bool, dst: Word, payload: seq<Byte>, rnd: nat, i: nat)
    requires Shape(s) && i < |s.frames| && s.frames[i].state != Free
    ensures SendCommand(s, security, dst, payload, rnd).frames[i] == s.frames[i]
  {}
}
