/** What becomes of a received frame: its turns in the receiver, one after the other. */
module NetReceived {
  import opened Types
  import opened NetState
  import opened NetSteps
  import opened NetRuns
  import Routing
  import Duplicates

  // ----- which frames are for whom -----

  /** The frame is for this node, and not one that the receiver filters. */
  predicate ForNode(h: Header, addr: Word) {
    && !h.security && !h.multicast && (h.nwkDst == addr || h.nwkDst == 0xffff)
    && (h.macDstPan == 0xffff || (h.nwkSrc != addr && !(h.nwkDst == 0xffff && h.ackRequest)))
  }

  /** The frame is for another node, and was sent to this one on its way. */
  predicate ForHop(h: Header, addr: Word) {
    && !h.security && !h.multicast && h.macDstPan != 0xffff && h.nwkSrc != addr
    && h.nwkDst != addr && h.nwkDst != 0xffff && h.macDst == addr
  }

  /** The frame was broadcast, and others are to hear it too. */
  predicate ForOthers(h: Header, addr: Word) {
    && !h.security && !h.multicast && h.macDstPan != 0xffff && h.nwkSrc != addr
    && !(h.nwkDst == 0xffff && h.ackRequest) && h.nwkDst != addr && h.macDst == 0xffff && !h.linkLocal
  }

  /** Frames to all PANs are not checked for duplicates. */
  predicate New(s: State, h: Header) {
    h.macDstPan == 0xffff || Duplicates.Arrive(s.dups, h.nwkSrc, h.nwkSeq).1.Accepted?
  }

  predicate SameNode(s: State, r: State) {
    r.addr == s.addr && r.panId == s.panId
  }

  predicate IsRx(st: FrameState) {
    st in {RxReceived, RxIndicate, RxRoute, RxFinish}
  }

  /** An outgoing frame that no request waits for. */
  predicate Stray(f: Frame) {
    IsTx(f.state) && f.aux.Tx? && f.aux.confirm == NoConfirm
  }

  // ----- the first turn -----

  /** The copy of a broadcast that is sent on: only its MAC header is new. */
  predicate IsCopy(s: State, f: Frame, c: Frame) {
    && c.state == TxDelay && c.payload == f.payload && c.aux.Tx? && c.aux.confirm == NoConfirm
    && 1 <= c.aux.timeout <= 8 && c.aux.control == 0
    && c.header == f.header.(macFcf := 0x8841, macDst := 0xffff, macSrc := s.addr, macSeq := ToByte(s.macSeqNum + 1))
  }

  /** The frames after a first turn: frame `i` moves on to `st`, and a free slot may get a copy of it. */
  ghost predicate MovesOn(s: State, r: State, i: nat, st: FrameState, copied: bool)
    requires i < |s.frames|
  {
    var moved := s.frames[i := s.frames[i].(state := st)];
    if copied && FirstFree(s.frames).Some? then
      var j := FirstFree(s.frames).value;
      j < |r.frames| && IsCopy(s, s.frames[i], r.frames[j]) && r.frames == moved[j := r.frames[j]]
    else r.frames == moved
  }

  /** The first turn of a received frame decides what becomes of it: it goes up, goes on, or is dropped, and
      a broadcast for others is repeated once. */
  lemma FirstTurn(s: State, i: nat, env: RxEnv)
    requires Shape(s) && i < |s.frames| && s.frames[i].state == RxReceived
    ensures var r, h := RxStep(s, i, env), s.frames[i].header;
            && r.indications == s.indications && r.queue == s.queue && SameNode(s, r)
            && MovesOn(s, r, i, if ForNode(h, s.addr) && New(s, h) then RxIndicate
                                else if ForHop(h, s.addr) && New(s, h) then RxRoute else RxFinish,
                       ForOthers(h, s.addr) && New(s, h))
  {
    hide Learn, MovesOn;
    var f := s.frames[i];
    var h := f.header;
    assert TypedFrame(f);
    var done := Put(s, i, f.(state := RxFinish));
    assert RxStep(s, i, env) == HandleReceived(s, i, env.Rnd(i));
    if || h.security || h.multicast || h.macDstPan == 0xffff || (h.nwkDst == 0xffff && h.ackRequest)
       || h.nwkSrc == s.addr
    {
      PutMovesOn(s, i, RxFinish);
      PutMovesOn(s, i, RxIndicate);
    } else {
      LearnTurn(done, i, env.Rnd(i));
      var r := Learn(done, i, env.Rnd(i));
      var accepted := Duplicates.Arrive(s.dups, h.nwkSrc, h.nwkSeq).1.Accepted?;
      DoneMovesOn(s, r, i, if !accepted then RxFinish
                           else if h.nwkDst == s.addr || h.nwkDst == 0xffff then RxIndicate
                           else if h.macDst == s.addr then RxRoute else RxFinish,
                  accepted && h.macDst == 0xffff && h.nwkDst != s.addr && !h.linkLocal);
    }
  }

  lemma PutMovesOn(s: State, i: nat, st: FrameState)
    requires i < |s.frames|
    ensures MovesOn(s, Put(s, i, s.frames[i].(state := st)), i, st, false)
  {}

  /** It makes no difference that the frame was finished before it moved on. */
  lemma DoneMovesOn(s: State, r: State, i: nat, st: FrameState, copied: bool)
    requires i < |s.frames| && s.frames[i].state != Free
    requires MovesOn(Put(s, i, s.frames[i].(state := RxFinish)), r, i, st, copied)
    ensures MovesOn(s, r, i, st, copied)
  {
    var done := Put(s, i, s.frames[i].(state := RxFinish));
    SameFree(s.frames, done.frames, 0);
    assert done.frames[i := done.frames[i].(state := st)] == s.frames[i := s.frames[i].(state := st)];
    var f, g := s.frames[i], done.frames[i];
    assert f.header == g.header && f.payload == g.payload;
  }

  lemma {:induction false} SameFree(a: seq<Frame>, b: seq<Frame>, i: nat)
    requires |a| == |b| && i <= |a| && forall k | 0 <= k < |a| :: a[k].state == Free <==> b[k].state == Free
    ensures FirstFree(a, i) == FirstFree(b, i)
    decreases |a| - i
  {
    if i < |a| { SameFree(a, b, i + 1); }
  }

  lemma LearnTurn(s: State, i: nat, rnd: nat)
    requires Shape(s) && i < |s.frames| && s.frames[i].state == RxFinish && s.frames[i].aux.Rx?
    ensures var r, h := Learn(s, i, rnd), s.frames[i].header;
            var accepted := Duplicates.Arrive(s.dups, h.nwkSrc, h.nwkSeq).1.Accepted?;
            && r.indications == s.indications && r.queue == s.queue && SameNode(s, r)
            && MovesOn(s, r, i, if !accepted then RxFinish
                                else if h.nwkDst == s.addr || h.nwkDst == 0xffff then RxIndicate
                                else if h.macDst == s.addr then RxRoute else RxFinish,
                       accepted && h.macDst == 0xffff && h.nwkDst != s.addr && !h.linkLocal)
  {
    hide Routing.FrameReceived, Routing.Remove, Forward;
    var h := s.frames[i].header;
    var heard := Routing.Heard(h.macDstPan, h.macDst, h.macSrc, h.nwkSrc, h.nwkDst, s.frames[i].aux.lqi);
    var learned := s.(routes := Routing.FrameReceived(s.routes, s.addr, heard));
    var (judged, rejected) := RejectDuplicate(learned, h);
    ForwardTurn(judged, i, h, rnd);
    assert s.frames[i].(state := RxFinish) == s.frames[i] && s.frames[i := s.frames[i]] == s.frames;
  }

  lemma ForwardTurn(s: State, i: nat, h: Header, rnd: nat)
    requires Shape(s) && i < |s.frames| && s.frames[i].state == RxFinish && s.frames[i].aux.Rx?
    requires h == s.frames[i].header
    ensures var r := Forward(s, i, h, rnd);
            && r.indications == s.indications && r.queue == s.queue && SameNode(s, r)
            && MovesOn(s, r, i, if h.nwkDst == s.addr || h.nwkDst == 0xffff then RxIndicate
                                else if h.macDst == s.addr then RxRoute else RxFinish,
                       h.macDst == 0xffff && h.nwkDst != s.addr && !h.linkLocal)
  {
    hide Shape;
    assert s.frames[i].(state := RxFinish) == s.frames[i] && s.frames[i := s.frames[i]] == s.frames;
  }

  /** A first frame from a source starts the timer of the duplicate windows; nothing else does. */
  lemma WindowTimer(s: State, h: Header)
    requires Shape(s)
    ensures var (r, rejected) := RejectDuplicate(s, h);
            r.dupTimer <==> s.dupTimer || (!rejected && !Duplicates.HasEntry(s.dups, h.nwkSrc))
  {
    Duplicates.FindIs(s.dups, h.nwkSrc);
    hide Shape, Routing.Remove, Duplicates.HasEntry, Duplicates.Window;
  }

  /** What the handler of an endpoint is told: the frame's network addresses, endpoints and payload, its link
      quality, and how it was sent. */
  lemma HandlerIsTold(h: Header, payload: seq<Byte>, lqi: Byte, rssi: int)
    ensures var x := IndicationOf(h, payload, lqi, rssi);
            && x.src == h.nwkSrc && x.dst == h.nwkDst && x.srcEndpoint == h.srcEndpoint
            && x.dstEndpoint == h.dstEndpoint && x.data == payload && x.lqi == lqi && x.rssi == rssi
            && (x.ackRequested <==> h.ackRequest) && (x.secured <==> h.security)
            && (x.linkLocal <==> h.linkLocal) && (x.multicast <==> h.multicast)
            && (x.broadcast <==> h.nwkDst == 0xffff) && (x.local <==> h.nwkSrc == h.macSrc)
            && (x.broadcastPan <==> h.macDstPan == 0xffff)
  {}

  // ----- command frames -----

  /** The next hop of a frame with this destination, by the map that the routing table stands for. */
  ghost function Hop(s: State, dst: Word): Word {
    if dst == 0xffff then 0xffff
    else
      match Routing.Route(s.routes, dst, 0)
      case Some(hop) => hop
      case None => 0xffff
  }

  /** A command of the node's own on its way to `dst`. */
  ghost predicate IsCommand(s: State, c: Frame, security: bool, dst: Word, payload: seq<Byte>) {
    && c.state == TxDelay && c.payload == payload && c.aux.Tx? && c.aux.confirm == NoConfirm
    && c.header == Header(if Hop(s, dst) == 0xffff then 0x8841 else 0x8861, ToByte(s.macSeqNum + 1), s.panId,
                          Hop(s, dst), s.addr, false, security, false, false,
                          ToByte(s.nwkSeqNum + 1), s.addr, dst, 0, 0)
  }

  /** The command takes a free slot, if there is one, and nothing else changes but the numbers and the count. */
  ghost predicate Commands(s: State, r: State, security: bool, dst: Word, payload: seq<Byte>) {
    if FirstFree(s.frames).Some? then
      var j := FirstFree(s.frames).value;
      && j < |r.frames| && IsCommand(s, r.frames[j], security, dst, payload)
      && r == s.(frames := s.frames[j := r.frames[j]], hist := r.hist, lock := r.lock, nwkSeqNum := r.nwkSeqNum,
                 macSeqNum := r.macSeqNum)
    else r == s
  }

  lemma CommandSent(s: State, security: bool, dst: Word, payload: seq<Byte>, rnd: nat)
    requires Shape(s)
    ensures Commands(s, SendCommand(s, security, dst, payload, rnd), security, dst, payload)
  {
    hide Shape, TypedPool;
    if FirstFree(s.frames).Some? {
      var j := FirstFree(s.frames).value;
      CommandOnAir(HoldCommand(s, j, security, dst, payload), s, security, dst, payload, rnd);
    }
  }

  lemma CommandOnAir(held: State, s: State, security: bool, dst: Word, payload: seq<Byte>, rnd: nat)
    requires held.routes == s.routes && held.panId == s.panId && held.addr == s.addr && held.macSeqNum == s.macSeqNum
    ensures var header := ZERO_HEADER.(nwkSeq := ToByte(s.nwkSeqNum + 1), nwkSrc := s.addr, security := security,
                                       nwkDst := dst);
            var f := ZERO_FRAME.(header := header, payload := payload);
            IsCommand(s, OnAir(held, f, rnd), security, dst, payload)
  {}

  // ----- the second turn -----

  /** The control byte that the application set last, if it set one. */
  function ControlSet(actions: seq<AppAction>, control: Byte := 0): Byte
    decreases |actions|
  {
    if actions == [] then control
    else ControlSet(actions[1..], if actions[0].DoAckControl? then actions[0].control else control)
  }

  /** An indicated frame is acknowledged when its handler took it and its sender asked, or when it was flooded
      to this node; never across PANs, and never by a node without an address. */
  predicate IsAcknowledged(h: Header, addr: Word, consumed: bool) {
    && (if h.macDst == 0xffff && h.nwkDst == addr && !h.multicast then true else consumed && h.ackRequest)
    && h.macDstPan != 0xffff && addr != 0xffff
  }

  lemma IndicatedStep(s: State, i: nat, env: RxEnv)
    requires Shape(s) && i < |s.frames| && s.frames[i].state == RxIndicate
    ensures var (told, consumed) := IndicateFrame(s.(ackControl := 0), i, env.Reply(i));
            RxStep(s, i, env) == Answer(told, i, s.frames[i].header, consumed, env.Rnd(i))
  {
    hide IndicateFrame, Answer;
  }

  /** A frame for an open endpoint of the application is handed over, the application's actions are performed,
      an acknowledgment with the control byte that they set is sent when it is due, and the frame is finished. */
  lemma ApplicationTurn(s: State, i: nat, env: RxEnv)
    requires Shape(s) && i < |s.frames| && s.frames[i].state == RxIndicate
    requires s.frames[i].header.dstEndpoint != 0 && env.Reply(i).open
    ensures var r, f, reply := RxStep(s, i, env), s.frames[i], env.Reply(i);
            var told := ActAll(s, reply.actions);
            var ack := [0, f.header.nwkSeq, ControlSet(reply.actions)];
            && f.aux.Rx?
            && r.indications == s.indications + [IndicationOf(f.header, f.payload, f.aux.lqi, f.aux.rssi)]
            && r.queue == told.queue && r.submitted == told.submitted && r.appLocks == told.appLocks && SameNode(s, r)
            && Answers(s, r, i, IsAcknowledged(f.header, s.addr, reply.consumed), ack)
  {
    hide Answer, ActAll, Answers;
    var f, reply := s.frames[i], env.Reply(i);
    assert TypedFrame(f);
    var told := Tell(s.(ackControl := 0), i);
    var acted := ActAll(told, reply.actions);
    ActAllAlike(s, told, reply.actions);
    IndicatedStep(s, i, env);
    hide RxStep, IndicateFrame, Shape, TypedPool;
    AnswerTurn(acted, i, f.header, reply.consumed, env.Rnd(i));
    AnswersAlike(s, acted, RxStep(s, i, env), i, IsAcknowledged(f.header, s.addr, reply.consumed),
                 [0, f.header.nwkSeq, ControlSet(reply.actions)]);
  }

  lemma AnswersAlike(s: State, t: State, r: State, i: nat, due: bool, ack: seq<Byte>)
    requires i < |s.frames| && t.frames == s.frames && t.routes == s.routes && t.addr == s.addr && t.panId == s.panId
    requires t.nwkSeqNum == s.nwkSeqNum && t.macSeqNum == s.macSeqNum && Answers(t, r, i, due, ack)
    ensures Answers(s, r, i, due, ack)
  {}

  /** Frame `i` is finished, and `ack` is sent to its source if it is due. */
  ghost predicate Answers(s: State, r: State, i: nat, due: bool, ack: seq<Byte>)
    requires i < |s.frames|
  {
    var finished := s.frames[i := s.frames[i].(state := RxFinish)];
    if due && FirstFree(s.frames).Some? then
      var j, h := FirstFree(s.frames).value, s.frames[i].header;
      && j < |r.frames| && IsCommand(s, r.frames[j], h.security, h.nwkSrc, ack)
      && r.frames == finished[j := r.frames[j]]
    else r.frames == finished
  }

  /** The states differ in nothing that an application's action looks at. */
  predicate Alike(s: State, t: State) {
    t == s.(ackControl := t.ackControl, indications := t.indications)
  }

  /** An action leaves frames, routes, numbers and indications alone. */
  predicate Unmoved(s: State, r: State) {
    && r.frames == s.frames && r.routes == s.routes && r.addr == s.addr && r.panId == s.panId
    && r.nwkSeqNum == s.nwkSeqNum && r.macSeqNum == s.macSeqNum && r.indications == s.indications
  }

  lemma {:induction false} ActAllAlike(s: State, t: State, actions: seq<AppAction>)
    requires Alike(s, t)
    ensures Alike(ActAll(s, actions), ActAll(t, actions)) && Unmoved(t, ActAll(t, actions))
    ensures ActAll(t, actions).ackControl == ControlSet(actions, t.ackControl)
    decreases |actions|
  {
    if actions != [] {
      var a := actions[0];
      ActAlike(s, t, a);
      hide Act;
      ActAllAlike(Act(s, a), Act(t, a), actions[1..]);
    }
  }

  lemma ActAlike(s: State, t: State, a: AppAction)
    requires Alike(s, t)
    ensures Alike(Act(s, a), Act(t, a)) && Unmoved(t, Act(t, a))
    ensures Act(t, a).ackControl == if a.DoAckControl? then a.control else t.ackControl
  {}

  lemma AnswerTurn(s: State, i: nat, h: Header, consumed: bool, rnd: nat)
    requires Shape(s) && i < |s.frames| && s.frames[i].state == RxIndicate && h == s.frames[i].header
    ensures var r := Answer(s, i, h, consumed, rnd);
            && r.indications == s.indications && r.queue == s.queue && r.submitted == s.submitted
            && r.appLocks == s.appLocks && r.routes == s.routes && SameNode(s, r)
            && Answers(s, r, i, IsAcknowledged(h, s.addr, consumed), [0, h.nwkSeq, s.ackControl])
  {
    var ack := [COMMAND_ACK, h.nwkSeq, s.ackControl];
    assert Acknowledges(s.addr, h, consumed) <==> IsAcknowledged(h, s.addr, consumed);
    CommandSent(s, h.security, h.nwkSrc, ack, rnd);
    CommandElsewhere(s, h.security, h.nwkSrc, ack, rnd, i);
    hide Acknowledges, IsAcknowledged, Shape, TypedPool, SendCommand;
    if Acknowledges(s.addr, h, consumed) {
      FinishedAfter(s, SendCommand(s, h.security, h.nwkSrc, ack, rnd), i, ack);
      hide Commands;
    }
  }

  lemma FinishedAfter(s: State, told: State, i: nat, ack: seq<Byte>)
    requires i < |s.frames| == |told.frames| && told.frames[i] == s.frames[i] && s.frames[i].state == RxIndicate
    requires Commands(s, told, s.frames[i].header.security, s.frames[i].header.nwkSrc, ack)
    ensures var r := Put(told, i, told.frames[i].(state := RxFinish));
            && Answers(s, r, i, true, ack) && SameNode(s, r) && r.indications == s.indications && r.queue == s.queue
            && r.submitted == s.submitted && r.appLocks == s.appLocks && r.routes == s.routes
  {
    hide IsCommand;
  }

  /** A frame for an endpoint that is not open goes no further; one that was flooded to this node is
      acknowledged all the same. */
  lemma ClosedTurn(s: State, i: nat, env: RxEnv)
    requires Shape(s) && i < |s.frames| && s.frames[i].state == RxIndicate
    requires s.frames[i].header.dstEndpoint != 0 && !env.Reply(i).open
    ensures var r, h := RxStep(s, i, env), s.frames[i].header;
            && r.indications == s.indications && r.queue == s.queue && r.submitted == s.submitted && SameNode(s, r)
            && Answers(s, r, i, IsAcknowledged(h, s.addr, false), [0, h.nwkSeq, 0])
  {
    hide Answer, Answers;
    var h, s0 := s.frames[i].header, s.(ackControl := 0);
    IndicatedStep(s, i, env);
    hide RxStep, Shape, TypedPool;
    AnswerTurn(s0, i, h, false, env.Rnd(i));
    AnswersAlike(s, s0, RxStep(s, i, env), i, IsAcknowledged(h, s.addr, false), [0, h.nwkSeq, 0]);
  }

  /** A command is handed to the service endpoint, and its frame is finished. */
  lemma ServiceTurn(s: State, i: nat, env: RxEnv)
    requires Shape(s) && i < |s.frames| && s.frames[i].state == RxIndicate && s.frames[i].header.dstEndpoint == 0
    ensures var r, f := RxStep(s, i, env), s.frames[i];
            var (told, consumed) := ServiceCommand(s, f.payload);
            && f.aux.Rx? && r.queue == s.queue && r.submitted == s.submitted && r.routes == told.routes
            && SameNode(s, r)
            && r.indications == s.indications + [IndicationOf(f.header, f.payload, f.aux.lqi, f.aux.rssi)]
            && |told.frames| == |s.frames|
            && Answers(told, r, i, IsAcknowledged(f.header, s.addr, consumed), [0, f.header.nwkSeq, 0])
  {
    hide Answer, Answers;
    var f := s.frames[i];
    assert TypedFrame(f);
    var s0 := Tell(s.(ackControl := 0), i);
    var (told, consumed) := ServiceCommand(s, f.payload);
    ServiceAlike(s, s0, f.payload);
    var told0 := ServiceCommand(s0, f.payload).0;
    IndicatedStep(s, i, env);
    hide RxStep, Shape, TypedPool, ServiceCommand;
    AnswerTurn(told0, i, f.header, consumed, env.Rnd(i));
    AnswersAlike(told, told0, RxStep(s, i, env), i, IsAcknowledged(f.header, s.addr, consumed),
                 [0, f.header.nwkSeq, 0]);
  }

  lemma ServiceAlike(s: State, t: State, data: seq<Byte>)
    requires Shape(s) && Shape(t) && Alike(s, t)
    ensures var (a, b) := (ServiceCommand(s, data), ServiceCommand(t, data));
            && Alike(a.0, b.0) && b.1 == a.1 && b.0.ackControl == t.ackControl && b.0.indications == t.indications
            && a.0 == s.(frames := a.0.frames, hist := a.0.hist, routes := a.0.routes)
  {
    hide Shape, TypedPool, Routing.Remove, AwaitsAck;
    if |data| == 3 && data[0] == 0 { AckAlike(s, t, data); }
  }

  lemma AckAlike(s: State, t: State, data: seq<Byte>)
    requires Shape(s) && Shape(t) && Alike(s, t)
    ensures var (a, b) := (AckReceived(s, data), AckReceived(t, data));
            && Alike(a.0, b.0) && b.1 == a.1 && b.0.ackControl == t.ackControl && b.0.indications == t.indications
            && a.0 == s.(frames := a.0.frames, hist := a.0.hist)
  {
    hide Shape, TypedPool, AwaitsAck;
  }

  /** A well-formed acknowledgment ends the wait of the first frame that waits for its number, if one does. */
  lemma AckCommand(s: State, seqNo: Byte, control: Byte)
    requires Shape(s)
    ensures var (told, consumed) := ServiceCommand(s, [0, seqNo, control]);
            && told.routes == s.routes
            && (consumed <==> exists k | 0 <= k < |s.frames| :: AwaitsAck(s.frames[k], seqNo))
            && (!consumed ==> told == s)
            && (consumed ==> exists k: nat :: FirstWaiter(s, told, seqNo, control, k))
  {
    assert forall k | 0 <= k < |s.frames| :: TypedFrame(s.frames[k]);
    hide Shape;
    var data := [0, seqNo, control];
    assert ServiceCommand(s, data) == AckReceived(s, data);
    if AckWaiter(s.frames, seqNo).Some? {
      var k := AckWaiter(s.frames, seqNo).value;
      assert TypedFrame(s.frames[k]);
      assert FirstWaiter(s, ServiceCommand(s, data).0, seqNo, control, k);
    }
  }

  /** Frame `k` is the first that waits for `seqNo`, and only its wait is over. */
  ghost predicate FirstWaiter(s: State, told: State, seqNo: Byte, control: Byte, k: nat) {
    && k < |s.frames| && AwaitsAck(s.frames[k], seqNo) && s.frames[k].aux.Tx?
    && (forall j | 0 <= j < k :: !AwaitsAck(s.frames[j], seqNo))
    && told.frames == s.frames[k := s.frames[k].(state := TxConfirm, aux := s.frames[k].aux.(control := control))]
  }

  /** A well-formed route error removes the route that it names, unless that is fixed; its two-byte fields come
      with the low byte first. */
  lemma RouteErrorCommandTaken(s: State, src: Word, dst: Word, multicast: Byte)
    requires Shape(s) && Routing.Inv(s.routes)
    ensures var (told, consumed) :=
              ServiceCommand(s, [1, src % 0x100, src / 0x100, dst % 0x100, dst / 0x100, multicast]);
            var found := Routing.Find(s.routes, dst, multicast);
            && consumed && told.frames == s.frames && Routing.Inv(told.routes)
            && if found.Some? && s.routes[found.value].fixed then told.routes == s.routes
               else Routing.RouteDropped(s.routes, told.routes, dst, multicast)
  {
    hide Routing.Remove, Routing.Inv, Routing.RouteDropped, Routing.Find;
    Routing.RemoveRefines(s.routes, dst, multicast);
    assert dst % 0x100 + 0x100 * (dst / 0x100) == dst;
    hide Shape, TypedPool;
  }

  /** Any other command is ignored. */
  lemma OtherCommand(s: State, data: seq<Byte>)
    requires Shape(s) && !(|data| == 3 && data[0] == 0) && !(|data| == 6 && data[0] == 1)
    ensures ServiceCommand(s, data) == (s, false)
  {}

  // ----- the turn of a frame for another node -----

  /** The frame on its way to the next hop: only its MAC header is new. */
  ghost predicate IsRouted(s: State, f: Frame, g: Frame) {
    && Stray(g) && g.state == TxDelay && g.payload == f.payload && g.aux.timeout == 0
    && g.header == f.header.(
         macFcf := 0x8861, macSeq := ToByte(s.macSeqNum + 1), macDstPan := s.panId,
         macDst := if f.header.linkLocal then f.header.nwkDst else Hop(s, f.header.nwkDst), macSrc := s.addr)
  }

  /** The frame goes on to the hop that the routing table knows, with its network header and payload as they
      were; without one it is dropped, and its source is told. */
  lemma RouteTurn(s: State, i: nat, env: RxEnv)
    requires Shape(s) && i < |s.frames| && s.frames[i].state == RxRoute
    requires !s.frames[i].header.multicast && s.frames[i].header.nwkDst != 0xffff
    ensures var r, f := RxStep(s, i, env), s.frames[i];
            var h := f.header;
            && r.indications == s.indications && r.queue == s.queue && r.submitted == s.submitted && SameNode(s, r)
            && if Hop(s, h.nwkDst) != 0xffff then
                 i < |r.frames| && r.frames == s.frames[i := r.frames[i]] && IsRouted(s, f, r.frames[i])
               else
                 ReportsError(s, r, i, [1, h.nwkSrc % 0x100, h.nwkSrc / 0x100, h.nwkDst % 0x100, h.nwkDst / 0x100, 0])
  {
    hide Shape, TypedPool, RxStep, Hop, Stray, ReportsError;
    if Hop(s, s.frames[i].header.nwkDst) != 0xffff { RoutedOn(s, i, env); } else { RoutedNowhere(s, i, env); }
  }

  lemma RoutedOn(s: State, i: nat, env: RxEnv)
    requires Shape(s) && i < |s.frames| && s.frames[i].state == RxRoute
    requires !s.frames[i].header.multicast && s.frames[i].header.nwkDst != 0xffff
    requires Hop(s, s.frames[i].header.nwkDst) != 0xffff
    ensures var r, f := RxStep(s, i, env), s.frames[i];
            && r.indications == s.indications && r.queue == s.queue && r.submitted == s.submitted && SameNode(s, r)
            && r.frames == s.frames[i := OnAir(s, f.(aux := Tx(Success, 0, CONTROL_ROUTING, NoConfirm)), env.Rnd(i))]
            && IsRouted(s, f, OnAir(s, f.(aux := Tx(Success, 0, CONTROL_ROUTING, NoConfirm)), env.Rnd(i)))
  {
    var f := s.frames[i];
    assert RxStep(s, i, env) == RouteFrame(s, i, env.Rnd(i));
    RoutedOnAir(s, f, env.Rnd(i));
    var put := Put(s, i, f.(aux := Tx(Success, 0, CONTROL_ROUTING, NoConfirm)));
    SameAir(s, put, put.frames[i], env.Rnd(i));
    hide Shape, TypedPool, SendCommand, FreeFrame, OnAir, RxStep, IsRouted;
  }

  lemma RoutedNowhere(s: State, i: nat, env: RxEnv)
    requires Shape(s) && i < |s.frames| && s.frames[i].state == RxRoute
    requires !s.frames[i].header.multicast && s.frames[i].header.nwkDst != 0xffff
    requires Hop(s, s.frames[i].header.nwkDst) == 0xffff
    ensures var r, h := RxStep(s, i, env), s.frames[i].header;
            && r.indications == s.indications && r.queue == s.queue && r.submitted == s.submitted && SameNode(s, r)
            && ReportsError(s, r, i, [1, h.nwkSrc % 0x100, h.nwkSrc / 0x100, h.nwkDst % 0x100, h.nwkDst / 0x100, 0])
  {
    var h := s.frames[i].header;
    NoHop(s, i, env);
    CommandSent(s, false, h.nwkSrc, RouteErrorCommand(h), env.Rnd(i));
    CommandElsewhere(s, false, h.nwkSrc, RouteErrorCommand(h), env.Rnd(i), i);
    hide Shape, TypedPool, SendCommand, OnAir, RxStep, IsCommand, Hop;
    FreedAfter(s, SendCommand(s, false, h.nwkSrc, RouteErrorCommand(h), env.Rnd(i)), i, RouteErrorCommand(h));
    hide FreeFrame, Commands;
  }

  lemma NoHop(s: State, i: nat, env: RxEnv)
    requires Shape(s) && i < |s.frames| && s.frames[i].state == RxRoute
    requires !s.frames[i].header.multicast && s.frames[i].header.nwkDst != 0xffff
    requires Hop(s, s.frames[i].header.nwkDst) == 0xffff
    ensures var h := s.frames[i].header;
            var told := SendCommand(s, false, h.nwkSrc, RouteErrorCommand(h), env.Rnd(i));
            && i < |told.frames| && told.frames[i].state != Free
            && RxStep(s, i, env) == FreeFrame(told, i)
  {
    var h := s.frames[i].header;
    CommandElsewhere(s, false, h.nwkSrc, RouteErrorCommand(h), env.Rnd(i), i);
    hide Shape, TypedPool, SendCommand, FreeFrame, TxFrame, RouteErrorCommand;
  }

  lemma FreedAfter(s: State, told: State, i: nat, payload: seq<Byte>)
    requires i < |s.frames| == |told.frames| && told.frames[i] == s.frames[i] && s.frames[i].state == RxRoute
    requires Commands(s, told, false, s.frames[i].header.nwkSrc, payload)
    ensures var r := FreeFrame(told, i);
            && ReportsError(s, r, i, payload) && SameNode(s, r) && r.indications == s.indications
            && r.queue == s.queue && r.submitted == s.submitted
  {
    hide IsCommand;
  }

  ghost predicate ReportsError(s: State, r: State, i: nat, payload: seq<Byte>)
    requires i < |s.frames|
  {
    var freed := s.frames[i := s.frames[i].(state := Free)];
    if FirstFree(s.frames).Some? then
      var j := FirstFree(s.frames).value;
      && j < |r.frames| && IsCommand(s, r.frames[j], false, s.frames[i].header.nwkSrc, payload)
      && r.frames == freed[j := r.frames[j]]
    else r.frames == freed
  }

  lemma SameAir(s: State, t: State, f: Frame, rnd: nat)
    requires f.aux.Tx? && t.routes == s.routes && t.panId == s.panId && t.addr == s.addr && t.macSeqNum == s.macSeqNum
    ensures OnAir(t, f, rnd) == OnAir(s, f, rnd)
  {}

  lemma Freed(s: State, i: nat)
    requires i < |s.frames| && s.frames[i].state != Free
    ensures var r := FreeFrame(s, i);
            && r.frames == s.frames[i := s.frames[i].(state := Free)]
            && r.indications == s.indications && r.queue == s.queue && r.submitted == s.submitted && SameNode(s, r)
  {}

  lemma RoutedOnAir(s: State, f: Frame, rnd: nat)
    requires !f.header.multicast && f.header.nwkDst != 0xffff && Hop(s, f.header.nwkDst) != 0xffff
    ensures IsRouted(s, f, OnAir(s, f.(aux := Tx(Success, 0, CONTROL_ROUTING, NoConfirm)), rnd))
  {}

  /** A finished frame is freed. */
  lemma LastTurn(s: State, i: nat, env: RxEnv)
    requires Shape(s) && i < |s.frames| && s.frames[i].state == RxFinish
    ensures var r := RxStep(s, i, env);
            && r.frames == s.frames[i := s.frames[i].(state := Free)]
            && r.indications == s.indications && r.queue == s.queue && r.submitted == s.submitted && SameNode(s, r)
  {
    Freed(s, i);
  }
}
