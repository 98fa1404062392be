/** What every step of the network layer keeps: who owns a frame, what the busy counter counts,
    which timers run, and what a confirmation is worth. The parts of the invariant speak of parts of
    the state: the pool, the queue and its order, the counter, the callbacks, the duplicate table.
    For every handler there is a lemma that the whole is kept. */
module NetInvariants {
  import opened Types
  import opened NetState
  import opened NetSteps
  import Routing
  import Duplicates

  // ----- what the invariant says -----

  /** A frame that will report to the request queue. */
  predicate Owned(f: Frame) {
    IsTx(f.state) && f.aux.Tx? && f.aux.confirm == DataReqConf
  }

  /** What a final status tells: the request's own frame was sent; without acknowledgment the
      status is that of the PHY; with one, success means that the acknowledgment carrying the
      frame's number was heard after the PHY had succeeded. */
  predicate Explains(e: seq<FrameEvent>, ticket: nat, ackRequest: bool, seqNo: Byte, status: Status, control: Byte) {
    || (&& |e| == 2 && e[0] == SentFor(ticket) && e[1].PhyDone? && status == ConvertPhyStatus(e[1].result)
        && (status == Success ==> !ackRequest))
    || (e == [SentFor(ticket), PhyDone(PhySuccess), AckHeard(seqNo, control)] && ackRequest && status == Success)
    || (e == [SentFor(ticket), PhyDone(PhySuccess), AckTimedOut] && ackRequest && status == NoAck)
  }

  predicate Justified(e: seq<FrameEvent>, ticket: nat, ackRequest: bool, seqNo: Byte, status: Status, control: Byte) {
    Explains(e, ticket, ackRequest, seqNo, status, control) || (e == [] && status == OutOfMemory)
  }

  /** The history of an owned frame matches its state. */
  predicate HistoryOk(f: Frame, h: seq<FrameEvent>) {
    && |h| > 0 && h[0].SentFor? && f.aux.Tx?
    && var t := h[0].ticket;
       match f.state
       case TxSent => |h| == 2 && h[1].PhyDone? && f.aux.status == ConvertPhyStatus(h[1].result)
       case TxWaitAck => h == [SentFor(t), PhyDone(PhySuccess)] && f.aux.status == Success && f.header.ackRequest
       case TxConfirm => Explains(h, t, f.header.ackRequest, f.header.nwkSeq, f.aux.status, f.aux.control)
       case _ => h == [SentFor(t)]
  }

  /** Broadcasts wait before they are sent, and nothing else does. */
  predicate DelayOk(f: Frame, delayTimer: bool) {
    match f.state
    case TxDelay => f.aux.Tx? && f.aux.timeout <= MAX_DELAY && (f.aux.timeout > 0 <==> f.header.macDst == BROADCAST)
    case TxWaitDelay => f.aux.Tx? && 1 <= f.aux.timeout <= MAX_DELAY && f.header.macDst == BROADCAST && delayTimer
    case TxSend => f.aux.Tx? && f.aux.timeout == 0
    case _ => true
  }

  predicate FrameOk(f: Frame, h: seq<FrameEvent>, isActive: bool, ackTimer: bool, delayTimer: bool, addr: Word) {
    && (f.state == TxWaitConf <==> isActive)
    && TypedFrame(f) && DelayOk(f, delayTimer)
    && (f.state == TxWaitAck ==> 1 <= f.aux.timeout <= ACK_WAIT_TICKS && ackTimer)
    && (Owned(f) ==> f.header.nwkSrc == addr && HistoryOk(f, h))
  }

  ghost predicate PoolOk(frames: seq<Frame>, hist: seq<seq<FrameEvent>>, active: Option<nat>,
                         ackTimer: bool, delayTimer: bool, addr: Word) {
    && |frames| == |hist|
    && (active.Some? ==> active.value < |frames|)
    && forall i | 0 <= i < |frames| ::
         FrameOk(frames[i], hist[i], active == Some(i), ackTimer, delayTimer, addr)
  }

  /** The request asks for what the application submitted under its ticket. */
  predicate AsSubmitted(r: Request, log: seq<Request>) {
    && r.ticket < |log|
    && var o := log[r.ticket];
       && r.id == o.id && r.dst == o.dst && r.dstEndpoint == o.dstEndpoint && r.srcEndpoint == o.srcEndpoint
       && r.ackRequest == o.ackRequest && r.broadcastPan == o.broadcastPan && r.linkLocal == o.linkLocal
       && r.data == o.data
  }

  predicate RequestOk(r: Request, log: seq<Request>) {
    && AsSubmitted(r, log)
    && match r.state
       case Initial => r.frame.None? && r.evidence == []
       case WaitConf => r.frame.Some?
       case Confirmed => Justified(r.evidence, r.ticket, r.ackRequest, r.seqNo, r.status, r.control)
  }

  /** Where a request's frame is sent to: broadcasts and direct frames to their destination, and other ones
      to the hop that the routing table knew then. Without a route that is everybody. */
  ghost function HopFor(r: Request): Word {
    if r.dst == 0xffff || r.linkLocal || r.broadcastPan then r.dst
    else
      match Routing.Route(r.table, r.dst, 0)
      case Some(hop) => hop
      case None => 0xffff
  }

  /** The frame carries what the request asks for. */
  ghost predicate Carries(r: Request, f: Frame, pan: Word) {
    && f.payload == r.data
    && var h := f.header;
       && h.nwkDst == r.dst && h.srcEndpoint == r.srcEndpoint && h.dstEndpoint == r.dstEndpoint
       && h.ackRequest == r.ackRequest && h.linkLocal == r.linkLocal && !h.security && !h.multicast
       && h.macSrc == h.nwkSrc && h.macDst == HopFor(r)
       && h.macDstPan == (if r.broadcastPan then 0xffff else pan)
       && h.macFcf == (if h.macDst == 0xffff then 0x8841 else 0x8861)
  }

  /** The waiting request `q` owns its frame: the frame was sent for it, it carries what was asked for, and
      it is the first request in the queue that holds the frame. */
  ghost predicate Owns(queue: seq<Request>, q: nat, frames: seq<Frame>, hist: seq<seq<FrameEvent>>, pan: Word)
    requires q < |queue| && |frames| == |hist|
  {
    && queue[q].frame.Some? && queue[q].frame.value < |frames|
    && var f := queue[q].frame.value;
       && Owned(frames[f]) && Holder(queue, f) == Some(q)
       && |hist[f]| > 0 && hist[f][0] == SentFor(queue[q].ticket)
       && Carries(queue[q], frames[f], pan)
  }

  /** The first holder of frame `f` is waiting for it. */
  predicate Waited(queue: seq<Request>, f: nat) {
    Holder(queue, f).Some? && queue[Holder(queue, f).value].state == WaitConf
  }

  /** The newest request is the first. */
  ghost predicate QueueOk(queue: seq<Request>, frames: seq<Frame>, hist: seq<seq<FrameEvent>>, log: seq<Request>,
                          pan: Word) {
    && |frames| == |hist|
    && (forall q | 0 <= q < |queue| :: RequestOk(queue[q], log))
    && (forall p, q | 0 <= p < q < |queue| :: queue[p].ticket > queue[q].ticket && queue[p].id != queue[q].id)
    && (forall q | 0 <= q < |queue| && queue[q].state == WaitConf :: Owns(queue, q, frames, hist, pan))
    && (forall f | 0 <= f < |frames| && Owned(frames[f]) :: Waited(queue, f))
  }

  function Active(active: Option<nat>): nat {
    if active.Some? then 1 else 0
  }

  /** The busy counter is a 16-bit count of the frames in use, the queued requests, the frame the
      PHY holds, and the locks of the application. */
  ghost predicate LockOk(lock: Word, frames: seq<Frame>, queue: seq<Request>, active: Option<nat>, appLocks: int) {
    lock == ToWord(InUse(frames) + |queue| + Active(active) + appLocks)
  }

  function Callbacks(callbacks: seq<Callback>, ticket: nat): nat {
    if callbacks == [] then 0
    else
      var n := |callbacks| - 1;
      Callbacks(callbacks[..n], ticket) + (if callbacks[n].ticket == ticket then 1 else 0)
  }

  ghost predicate Holds(queue: seq<Request>, ticket: nat) {
    exists q | 0 <= q < |queue| :: queue[q].ticket == ticket
  }

  /** Every submission is either still in the queue or has had its callback, once. */
  ghost predicate OnceOk(callbacks: seq<Callback>, queue: seq<Request>, tickets: nat) {
    forall t: nat :: Callbacks(callbacks, t) == if t < tickets && !Holds(queue, t) then 1 else 0
  }

  ghost predicate CallbacksOk(callbacks: seq<Callback>) {
    forall k | 0 <= k < |callbacks| ::
      var c := callbacks[k]; Justified(c.evidence, c.ticket, c.ackRequest, c.seqNo, c.status, c.control)
  }

  ghost predicate DupsOk(dups: seq<Duplicates.Entry>, dupTimer: bool) {
    Duplicates.DistinctSources(dups) && (Duplicates.AnyLive(dups) ==> dupTimer)
  }

  ghost predicate Inv(s: State) {
    && PoolOk(s.frames, s.hist, s.active, s.ackTimer, s.delayTimer, s.addr)
    && QueueOk(s.queue, s.frames, s.hist, s.submitted, s.panId)
    && LockOk(s.lock, s.frames, s.queue, s.active, s.appLocks)
    && OnceOk(s.callbacks, s.queue, |s.submitted|)
    && CallbacksOk(s.callbacks)
    && DupsOk(s.dups, s.dupTimer)
    && Routing.HasSpare(s.routes)
  }

  lemma FrameOf(s: State, i: nat)
    requires Inv(s) && i < |s.frames|
    ensures |s.hist| == |s.frames|
    ensures FrameOk(s.frames[i], s.hist[i], s.active == Some(i), s.ackTimer, s.delayTimer, s.addr)
  {}

  // ----- one frame changes -----

  /** A change of frame `i` that does not touch its ownership. */
  predicate SameOwner(f: Frame, h: seq<FrameEvent>, f': Frame, h': seq<FrameEvent>) {
    && (Owned(f) <==> Owned(f'))
    && (Owned(f) ==> |h| > 0 && |h'| > 0 && h[0] == h'[0] && f.header == f'.header && f.payload == f'.payload)
  }

  lemma PoolSet(frames: seq<Frame>, hist: seq<seq<FrameEvent>>, active: Option<nat>, ackTimer: bool, delayTimer: bool,
                addr: Word, i: nat, f: Frame, h: seq<FrameEvent>,
                active': Option<nat>, ackTimer': bool, delayTimer': bool)
    requires PoolOk(frames, hist, active, ackTimer, delayTimer, addr) && i < |frames|
    requires FrameOk(f, h, active' == Some(i), ackTimer', delayTimer', addr)
    requires active' == active || (active.None? && active' == Some(i)) || (active == Some(i) && active'.None?)
    requires (ackTimer ==> ackTimer') && (delayTimer ==> delayTimer')
    ensures PoolOk(frames[i := f], hist[i := h], active', ackTimer', delayTimer', addr)
  {
    var frames', hist' := frames[i := f], hist[i := h];
    forall k | 0 <= k < |frames'|
      ensures FrameOk(frames'[k], hist'[k], active' == Some(k), ackTimer', delayTimer', addr)
    {
      if k != i {
        assert FrameOk(frames[k], hist[k], active == Some(k), ackTimer, delayTimer, addr);
      }
    }
  }

  lemma QueueSet(queue: seq<Request>, frames: seq<Frame>, hist: seq<seq<FrameEvent>>, log: seq<Request>, pan: Word,
                 i: nat, f: Frame, h: seq<FrameEvent>)
    requires QueueOk(queue, frames, hist, log, pan) && i < |frames| && SameOwner(frames[i], hist[i], f, h)
    ensures QueueOk(queue, frames[i := f], hist[i := h], log, pan)
  {
    var frames', hist' := frames[i := f], hist[i := h];
    forall q | 0 <= q < |queue| && queue[q].state == WaitConf ensures Owns(queue, q, frames', hist', pan) {
      assert Owns(queue, q, frames, hist, pan);
    }
    forall k | 0 <= k < |frames'| && Owned(frames'[k]) ensures Waited(queue, k) {
      assert Owned(frames[k]);
    }
  }

  function Used(f: Frame): nat {
    if f.state != Free then 1 else 0
  }

  /** A change of the count changes the counter alike, modulo its width. */
  lemma LockStep(lock: Word, count: int, delta: int)
    requires lock == ToWord(count)
    ensures ToWord(lock + delta) == ToWord(count + delta)
  {}

  lemma LockSet(s: State, r: State, i: nat, f: Frame)
    requires LockOk(s.lock, s.frames, s.queue, s.active, s.appLocks) && i < |s.frames|
    requires r.frames == s.frames[i := f] && |r.queue| == |s.queue| && r.appLocks == s.appLocks
    requires r.lock == ToWord(s.lock + Used(f) - Used(s.frames[i]) + Active(r.active) - Active(s.active))
    ensures LockOk(r.lock, r.frames, r.queue, r.active, r.appLocks)
  {
    InUseAfter(s.frames, i, f);
    LockStep(s.lock, InUse(s.frames) + |s.queue| + Active(s.active) + s.appLocks,
             Used(f) - Used(s.frames[i]) + Active(r.active) - Active(s.active));
  }

  /** The general step on one frame: its content, history, the PHY's frame and the timers. */
  lemma FrameSet(s: State, r: State, i: nat, f: Frame, h: seq<FrameEvent>)
    requires Inv(s) && i < |s.frames|
    requires r == s.(frames := s.frames[i := f], hist := s.hist[i := h], active := r.active, lock := r.lock,
                     ackTimer := r.ackTimer, delayTimer := r.delayTimer,
                     nwkSeqNum := r.nwkSeqNum, macSeqNum := r.macSeqNum)
    requires SameOwner(s.frames[i], s.hist[i], f, h)
    requires FrameOk(f, h, r.active == Some(i), r.ackTimer, r.delayTimer, s.addr)
    requires r.active == s.active || (s.active.None? && r.active == Some(i)) || (s.active == Some(i) && r.active.None?)
    requires (s.ackTimer ==> r.ackTimer) && (s.delayTimer ==> r.delayTimer)
    requires r.lock == ToWord(s.lock + Used(f) - Used(s.frames[i]) + Active(r.active) - Active(s.active))
    ensures Inv(r)
  {
    PoolSet(s.frames, s.hist, s.active, s.ackTimer, s.delayTimer, s.addr, i, f, h, r.active, r.ackTimer, r.delayTimer);
    QueueSet(s.queue, s.frames, s.hist, s.submitted, s.panId, i, f, h);
    LockSet(s, r, i, f);
  }

  lemma PutKeeps(s: State, i: nat, f: Frame)
    requires Inv(s) && i < |s.frames| && s.frames[i].state != Free && f.state != Free
    requires SameOwner(s.frames[i], s.hist[i], f, s.hist[i])
    requires FrameOk(f, s.hist[i], s.active == Some(i), s.ackTimer, s.delayTimer, s.addr)
    ensures Inv(Put(s, i, f))
  {
    assert s.hist[i := s.hist[i]] == s.hist;
    FrameSet(s, Put(s, i, f), i, f, s.hist[i]);
  }

  lemma AllocateKeeps(s: State, r: State, j: nat, f: Frame)
    requires Inv(s) && j < |s.frames| && s.frames[j].state == Free && f.state != Free && !Owned(f)
    requires FrameOk(f, [], false, s.ackTimer, s.delayTimer, s.addr)
    requires r == Allocate(s, j, f).(nwkSeqNum := r.nwkSeqNum, macSeqNum := r.macSeqNum)
    ensures Inv(r)
  {
    hide Inv;
    FrameOf(s, j);
    FrameSet(s, r, j, f, []);
  }

  lemma FreeKeeps(s: State, i: nat)
    requires Inv(s) && i < |s.frames| && s.frames[i].state != Free && !Owned(s.frames[i]) && s.active != Some(i)
    ensures Inv(FreeFrame(s, i))
  {
    assert s.hist[i := s.hist[i]] == s.hist;
    FrameSet(s, FreeFrame(s, i), i, s.frames[i].(state := Free), s.hist[i]);
  }

  // ----- the queue changes -----

  lemma {:induction false} HolderShift(queue: seq<Request>, r: Request, f: nat, q: nat)
    requires q <= |queue|
    ensures Holder([r] + queue, f, q + 1) == match Holder(queue, f, q) case Some(k) => Some(k + 1) case None => None
    decreases |queue| - q
  {
    if q < |queue| { HolderShift(queue, r, f, q + 1); }
  }

  lemma SubmitQueue(queue: seq<Request>, frames: seq<Frame>, hist: seq<seq<FrameEvent>>, log: seq<Request>,
                    pan: Word, o: Request, r: Request)
    requires QueueOk(queue, frames, hist, log, pan) && !Queued(queue, r.id)
    requires r == o.(state := Initial, status := Success, frame := None, ticket := |log|, table := [], seqNo := 0,
                     evidence := [])
    ensures QueueOk([r] + queue, frames, hist, log + [o], pan)
  {
    hide Holder, Carries, Waited, Owns, Owned, HopFor;
    var queue' := [r] + queue;
    forall q | 0 <= q < |queue'| && queue'[q].state == WaitConf ensures Owns(queue', q, frames, hist, pan) {
      SubmitOwns(queue, frames, hist, pan, r, q - 1);
    }
    forall f | 0 <= f < |frames| && Owned(frames[f]) ensures Waited(queue', f) {
      SubmitWaited(queue, r, f);
    }
    forall q | 0 <= q < |queue'| ensures RequestOk(queue'[q], log + [o]) {
      if q > 0 { assert RequestOk(queue[q - 1], log); }
    }
  }

  lemma FirstIsNone(queue: seq<Request>, r: Request, f: nat)
    requires queue != [] && queue[0] == r && r.frame.None?
    ensures Holder(queue, f) == Holder(queue, f, 1)
  {}

  lemma SubmitOwns(queue: seq<Request>, frames: seq<Frame>, hist: seq<seq<FrameEvent>>, pan: Word, r: Request, q: nat)
    requires r.frame.None? && |frames| == |hist| && q < |queue| && Owns(queue, q, frames, hist, pan)
    ensures Owns([r] + queue, q + 1, frames, hist, pan)
  {
    hide Holder, Carries;
    HolderShift(queue, r, queue[q].frame.value, 0);
    FirstIsNone([r] + queue, r, queue[q].frame.value);
  }

  lemma SubmitWaited(queue: seq<Request>, r: Request, f: nat)
    requires Waited(queue, f) && r.frame.None?
    ensures Waited([r] + queue, f)
  {
    hide Holder;
    HolderShift(queue, r, f, 0);
    FirstIsNone([r] + queue, r, f);
  }

  lemma SubmitOnce(callbacks: seq<Callback>, queue: seq<Request>, tickets: nat, r: Request)
    requires OnceOk(callbacks, queue, tickets) && r.ticket == tickets
    ensures OnceOk(callbacks, [r] + queue, tickets + 1)
  {
    var queue' := [r] + queue;
    forall t: nat ensures Holds(queue', t) <==> (Holds(queue, t) || t == tickets) {
      if k :| 0 <= k < |queue| && queue[k].ticket == t { assert queue'[k + 1].ticket == t; }
      assert queue'[0].ticket == tickets;
    }
  }

  lemma SubmitKeeps(s: State, req: Request)
    requires Inv(s)
    ensures Inv(Submit(s, req))
  {
    hide PoolOk, QueueOk, OnceOk, CallbacksOk, DupsOk, Routing.HasSpare, InUse;
    if !Queued(s.queue, req.id) {
      var r := Submit(s, req);
      SubmitQueue(s.queue, s.frames, s.hist, s.submitted, s.panId, req, r.queue[0]);
      SubmitOnce(s.callbacks, s.queue, |s.submitted|, r.queue[0]);
      LockStep(s.lock, InUse(s.frames) + |s.queue| + Active(s.active) + s.appLocks, 1);
    }
  }

  /** A request changes, but not in whether it holds frame `f`. */
  lemma {:induction false} HolderSet(queue: seq<Request>, q: nat, r: Request, f: nat, from: nat)
    requires q < |queue| && from <= |queue|
    requires r.frame == Some(f) <==> queue[q].frame == Some(f)
    ensures Holder(queue[q := r], f, from) == Holder(queue, f, from)
    decreases |queue| - from
  {
    if from < |queue| { HolderSet(queue, q, r, f, from + 1); }
  }

  lemma HoldsSet(queue: seq<Request>, q: nat, r: Request, t: nat)
    requires q < |queue| && r.ticket == queue[q].ticket
    ensures Holds(queue[q := r], t) <==> Holds(queue, t)
  {
    if k :| 0 <= k < |queue| && queue[k].ticket == t { assert queue[q := r][k].ticket == t; }
  }

  lemma HoldsSetAll(queue: seq<Request>, q: nat, r: Request)
    requires q < |queue| && r.ticket == queue[q].ticket
    ensures forall t: nat :: Holds(queue[q := r], t) <==> Holds(queue, t)
  {
    forall t: nat ensures Holds(queue[q := r], t) <==> Holds(queue, t) { HoldsSet(queue, q, r, t); }
  }

  lemma OnceSet(callbacks: seq<Callback>, queue: seq<Request>, tickets: nat, q: nat, r: Request)
    requires OnceOk(callbacks, queue, tickets) && q < |queue| && r.ticket == queue[q].ticket
    ensures OnceOk(callbacks, queue[q := r], tickets)
  {
    HoldsSetAll(queue, q, r);
  }

  /** The holder of frame `i` is told, and the frame is freed. */
  lemma ToldQueue(queue: seq<Request>, frames: seq<Frame>, hist: seq<seq<FrameEvent>>, log: seq<Request>, pan: Word,
                  i: nat, q: nat, r: Request)
    requires QueueOk(queue, frames, hist, log, pan) && i < |frames| && Holder(queue, i) == Some(q)
    requires r == queue[q].(state := Confirmed, status := r.status, control := r.control, seqNo := r.seqNo,
                            evidence := r.evidence)
    requires Justified(r.evidence, r.ticket, r.ackRequest, r.seqNo, r.status, r.control)
    ensures QueueOk(queue[q := r], frames[i := frames[i].(state := Free)], hist, log, pan)
  {
    hide Holder, HistoryOk, Carries;
    var queue', frames' := queue[q := r], frames[i := frames[i].(state := Free)];
    assert RequestOk(queue[q], log);
    forall k | 0 <= k < |queue'| && queue'[k].state == WaitConf ensures Owns(queue', k, frames', hist, pan) {
      assert Owns(queue, k, frames, hist, pan);
      HolderSet(queue, q, r, queue'[k].frame.value, 0);
    }
    forall f | 0 <= f < |frames'| && Owned(frames'[f]) ensures Waited(queue', f) {
      assert Owned(frames[f]) && Waited(queue, f);
      HolderSet(queue, q, r, f, 0);
    }
  }

  lemma HolderOwns(queue: seq<Request>, frames: seq<Frame>, hist: seq<seq<FrameEvent>>, log: seq<Request>, pan: Word,
                   i: nat)
    requires QueueOk(queue, frames, hist, log, pan) && i < |frames| && Owned(frames[i])
    ensures Waited(queue, i) && Owns(queue, Holder(queue, i).value, frames, hist, pan)
  {
    assert Waited(queue, i);
  }

  /** Confirmation by a frame: the holder is told what happened to its own frame, and the frame
      is free. */
  lemma TxConfKeeps(s: State, i: nat)
    requires Inv(s) && Shape(s) && i < |s.frames| && s.frames[i].state == TxConfirm && Owned(s.frames[i])
    ensures Inv(TxConf(s, i))
  {
    hide PoolOk, QueueOk, LockOk, OnceOk, CallbacksOk, DupsOk;
    var r := TxConf(s, i);
    FrameOf(s, i);
    HolderOwns(s.queue, s.frames, s.hist, s.submitted, s.panId, i);
    var q := Holder(s.queue, i).value;
    var gone := s.frames[i].(state := Free);
    assert s.hist[i := s.hist[i]] == s.hist;
    PoolSet(s.frames, s.hist, s.active, s.ackTimer, s.delayTimer, s.addr, i, gone, s.hist[i],
            s.active, s.ackTimer, s.delayTimer);
    ToldQueue(s.queue, s.frames, s.hist, s.submitted, s.panId, i, q, r.queue[q]);
    OnceSet(s.callbacks, s.queue, |s.submitted|, q, r.queue[q]);
    LockSet(s, r, i, gone);
  }

  lemma {:induction false} HolderRemove(queue: seq<Request>, q: nat, f: nat, from: nat)
    requires q < |queue| && from < |queue|
    requires Holder(queue, f, from) != Some(q)
    ensures var rest, h := queue[..q] + queue[q + 1..], Holder(queue, f, from);
            && (from <= q ==> Holder(rest, f, from) == if h.None? || h.value < q then h else Some(h.value - 1))
            && (q < from ==> Holder(rest, f, from - 1) == if h.None? then None else Some(h.value - 1))
    decreases |queue| - from
  {
    var rest := queue[..q] + queue[q + 1..];
    if from + 1 < |queue| {
      if queue[from].frame != Some(f) || from == q { HolderRemove(queue, q, f, from + 1); }
    } else if from < q || q < from {
      assert q < from;
      assert rest[from - 1] == queue[from];
    }
    if from < q { assert rest[from] == queue[from]; }
    if q < from { assert rest[from - 1] == queue[from]; }
  }

  /** The finished request `q` owns nothing, so it is not the first holder of an owned frame. */
  lemma RemoveOwns(queue: seq<Request>, frames: seq<Frame>, hist: seq<seq<FrameEvent>>, pan: Word, q: nat, k: nat)
    requires |frames| == |hist| && q < |queue| && queue[q].state == Confirmed
    requires k < |queue| && queue[k].state == WaitConf && Owns(queue, k, frames, hist, pan)
    ensures Owns(queue[..q] + queue[q + 1..], if k < q then k else k - 1, frames, hist, pan)
  {
    hide Holder;
    HolderRemove(queue, q, queue[k].frame.value, 0);
  }

  lemma RemoveWaited(queue: seq<Request>, q: nat, f: nat)
    requires q < |queue| && queue[q].state == Confirmed && Waited(queue, f)
    ensures Waited(queue[..q] + queue[q + 1..], f)
  {
    hide Holder;
    HolderRemove(queue, q, f, 0);
  }

  lemma RemoveQueue(queue: seq<Request>, frames: seq<Frame>, hist: seq<seq<FrameEvent>>, log: seq<Request>, pan: Word,
                    q: nat)
    requires QueueOk(queue, frames, hist, log, pan) && q < |queue| && queue[q].state == Confirmed
    ensures QueueOk(queue[..q] + queue[q + 1..], frames, hist, log, pan)
  {
    hide Owns, Waited, Owned, RequestOk;
    var rest := queue[..q] + queue[q + 1..];
    forall k | 0 <= k < |rest| && rest[k].state == WaitConf ensures Owns(rest, k, frames, hist, pan) {
      RemoveOwns(queue, frames, hist, pan, q, if k < q then k else k + 1);
    }
    forall f | 0 <= f < |frames| && Owned(frames[f]) ensures Waited(rest, f) {
      RemoveWaited(queue, q, f);
    }
  }

  lemma RemoveOnce(callbacks: seq<Callback>, queue: seq<Request>, tickets: nat, q: nat, c: Callback)
    requires OnceOk(callbacks, queue, tickets) && q < |queue| && c.ticket == queue[q].ticket < tickets
    requires forall i, j | 0 <= i < j < |queue| :: queue[i].ticket != queue[j].ticket
    ensures OnceOk(callbacks + [c], queue[..q] + queue[q + 1..], tickets)
  {
    var rest := queue[..q] + queue[q + 1..];
    forall t: nat
      ensures Callbacks(callbacks + [c], t) == Callbacks(callbacks, t) + (if t == c.ticket then 1 else 0)
      ensures Holds(rest, t) <==> (Holds(queue, t) && t != c.ticket)
    {
      assert (callbacks + [c])[..|callbacks|] == callbacks;
      if k :| 0 <= k < |queue| && queue[k].ticket == t && t != c.ticket {
        assert rest[if k < q then k else k - 1].ticket == t;
      }
    }
    assert Holds(queue, c.ticket);
  }

  /** The callback of a finished request is called, and this is how it leaves the queue. */
  lemma ConfirmKeeps(s: State, q: nat)
    requires Inv(s) && q < |s.queue| && s.queue[q].state == Confirmed
    ensures Inv(ConfirmRequest(s, q))
  {
    var r := ConfirmRequest(s, q);
    assert RequestOk(s.queue[q], s.submitted);
    RemoveQueue(s.queue, s.frames, s.hist, s.submitted, s.panId, q);
    RemoveOnce(s.callbacks, s.queue, |s.submitted|, q, r.callbacks[|s.callbacks|]);
    LockStep(s.lock, InUse(s.frames) + |s.queue| + Active(s.active) + s.appLocks, -1);
  }

  /** Request `q` gets the free frame `j`. Every request nearer the head is waiting, so none of
      them holds `j`: stale holders are all farther from the head. */
  lemma SentQueue(queue: seq<Request>, frames: seq<Frame>, hist: seq<seq<FrameEvent>>, log: seq<Request>, pan: Word,
                  q: nat, r: Request, j: nat, f: Frame, h: seq<FrameEvent>)
    requires QueueOk(queue, frames, hist, log, pan) && q < |queue| && j < |frames|
    requires forall p | 0 <= p < q :: queue[p].state == WaitConf
    requires queue[q].state == Initial && r == queue[q].(frame := Some(j), state := WaitConf, table := r.table)
    requires frames[j].state == Free && Owned(f) && Carries(r, f, pan)
    requires |h| > 0 && h[0] == SentFor(r.ticket)
    ensures QueueOk(queue[q := r], frames[j := f], hist[j := h], log, pan)
  {
    var queue', frames', hist' := queue[q := r], frames[j := f], hist[j := h];
    assert RequestOk(queue[q], log) && RequestOk(r, log);
    assert !Owned(frames[j]);
    hide Holder, Owned, Owns, Waited, RequestOk, Carries, HopFor;
    NewOwner(queue, frames, hist, pan, q, r, j, f, h);
    forall k | 0 <= k < |queue'| && queue'[k].state == WaitConf ensures Owns(queue', k, frames', hist', pan) {
      if k != q { SentOwns(queue, frames, hist, pan, q, r, j, f, h, k); }
    }
    forall g | 0 <= g < |frames'| && Owned(frames'[g]) ensures Waited(queue', g) {
      if g != j {
        assert Waited(queue, g);
        SentWaited(queue, q, r, j, g);
      }
    }
  }

  lemma NewOwner(queue: seq<Request>, frames: seq<Frame>, hist: seq<seq<FrameEvent>>, pan: Word, q: nat, r: Request,
                 j: nat, f: Frame, h: seq<FrameEvent>)
    requires |frames| == |hist| && q < |queue| && j < |frames| && !Owned(frames[j]) && r.frame == Some(j)
    requires forall p | 0 <= p < q :: Owns(queue, p, frames, hist, pan)
    requires r.state == WaitConf && Owned(f) && Carries(r, f, pan) && |h| > 0 && h[0] == SentFor(r.ticket)
    ensures Owns(queue[q := r], q, frames[j := f], hist[j := h], pan) && Waited(queue[q := r], j)
  {
    FirstHolder(queue, frames, hist, pan, q, r, j);
    hide Carries, Owned, Holder;
  }

  lemma FirstHolder(queue: seq<Request>, frames: seq<Frame>, hist: seq<seq<FrameEvent>>, pan: Word, q: nat, r: Request,
                    j: nat)
    requires |frames| == |hist| && q < |queue| && j < |frames| && !Owned(frames[j]) && r.frame == Some(j)
    requires forall p | 0 <= p < q :: Owns(queue, p, frames, hist, pan)
    ensures Holder(queue[q := r], j) == Some(q)
  {
    var queue' := queue[q := r];
    assert queue'[q].frame == Some(j);
    forall p | 0 <= p < q ensures queue'[p].frame != Some(j) {
      assert Owns(queue, p, frames, hist, pan);
    }
  }

  lemma SentWaited(queue: seq<Request>, q: nat, r: Request, j: nat, g: nat)
    requires q < |queue| && queue[q].state == Initial && queue[q].frame.None? && r.frame == Some(j) && g != j
    requires Waited(queue, g)
    ensures Waited(queue[q := r], g)
  {
    HolderSet(queue, q, r, g, 0);
  }

  lemma SentOwns(queue: seq<Request>, frames: seq<Frame>, hist: seq<seq<FrameEvent>>, pan: Word,
                 q: nat, r: Request, j: nat, f: Frame, h: seq<FrameEvent>, k: nat)
    requires |frames| == |hist| && q < |queue| && j < |frames| && !Owned(frames[j])
    requires queue[q].frame.None? && r.frame == Some(j)
    requires k < |queue| && k != q && Owns(queue, k, frames, hist, pan)
    ensures Owns(queue[q := r], k, frames[j := f], hist[j := h], pan)
  {
    hide Holder, Owned;
    HolderSet(queue, q, r, queue[k].frame.value, 0);
  }

  lemma NoMemoryQueue(queue: seq<Request>, frames: seq<Frame>, hist: seq<seq<FrameEvent>>, log: seq<Request>, pan: Word,
                      q: nat, r: Request)
    requires QueueOk(queue, frames, hist, log, pan) && q < |queue| && queue[q].state == Initial
    requires r == queue[q].(state := Confirmed, status := OutOfMemory)
    ensures QueueOk(queue[q := r], frames, hist, log, pan)
  {
    var queue' := queue[q := r];
    assert RequestOk(queue[q], log) && RequestOk(r, log);
    hide RequestOk, Owns, Waited, Owned;
    forall k | 0 <= k < |queue'| && queue'[k].state == WaitConf ensures Owns(queue', k, frames, hist, pan) {
      NoMemoryOwns(queue, frames, hist, pan, q, r, k);
    }
    forall g | 0 <= g < |frames| && Owned(frames[g]) ensures Waited(queue', g) {
      NoMemoryWaited(queue, q, r, g);
    }
  }

  lemma NoMemoryOwns(queue: seq<Request>, frames: seq<Frame>, hist: seq<seq<FrameEvent>>, pan: Word, q: nat, r: Request,
                     k: nat)
    requires |frames| == |hist| && q < |queue| && k < |queue| && k != q && queue[q].state == Initial
    requires r == queue[q].(state := Confirmed, status := OutOfMemory) && Owns(queue, k, frames, hist, pan)
    ensures Owns(queue[q := r], k, frames, hist, pan)
  {
    hide Owned, Carries;
    HolderSet(queue, q, r, queue[k].frame.value, 0);
  }

  lemma NoMemoryWaited(queue: seq<Request>, q: nat, r: Request, g: nat)
    requires q < |queue| && queue[q].state == Initial && Waited(queue, g)
    requires r == queue[q].(state := Confirmed, status := OutOfMemory)
    ensures Waited(queue[q := r], g)
  {
    HolderSet(queue, q, r, g, 0);
  }

  /** The frame that is sent for a request carries what the request asks for. */
  lemma SentCarries(s: State, held: State, req: Request, nwkSeq: Byte, rnd: nat)
    requires held.routes == s.routes && held.panId == s.panId && held.addr == s.addr
    ensures Carries(req.(table := s.routes), OnAir(held, RequestFrame(s.addr, req, nwkSeq), rnd), s.panId)
  {}

  lemma SendFrameKeeps(s: State, q: nat, rnd: nat)
    requires Inv(s) && Shape(s) && q < |s.queue| && s.queue[q].state == Initial
    requires forall p | 0 <= p < q :: s.queue[p].state == WaitConf
    ensures Inv(SendFrame(s, q, rnd))
  {
    hide Inv, PrepareHop;
    var r := SendFrame(s, q, rnd);
    var free := FirstFree(s.frames);
    if free.None? {
      NoMemoryKeeps(s, q);
    } else {
      var j := free.value;
      assert [] + [SentFor(s.queue[q].ticket)] == [SentFor(s.queue[q].ticket)];
      assert r.hist == s.hist[j := [SentFor(s.queue[q].ticket)]];
      assert r.frames == s.frames[j := r.frames[j]];
      SentCarries(s, HoldData(s, q, j), s.queue[q], ToByte(s.nwkSeqNum + 1), rnd);
      SentKeeps(s, r, q, j);
    }
  }

  lemma NoMemoryKeeps(s: State, q: nat)
    requires Inv(s) && q < |s.queue| && s.queue[q].state == Initial
    ensures Inv(s.(queue := s.queue[q := s.queue[q].(state := Confirmed, status := OutOfMemory)]))
  {
    hide Holder, QueueOk, OnceOk;
    var r := s.queue[q].(state := Confirmed, status := OutOfMemory);
    NoMemoryQueue(s.queue, s.frames, s.hist, s.submitted, s.panId, q, r);
    OnceSet(s.callbacks, s.queue, |s.submitted|, q, r);
  }

  lemma SentKeeps(s: State, r: State, q: nat, j: nat)
    requires Inv(s) && q < |s.queue| && s.queue[q].state == Initial && j < |s.frames| && s.frames[j].state == Free
    requires forall p | 0 <= p < q :: s.queue[p].state == WaitConf
    requires j < |r.frames| && q < |r.queue|
    requires r.queue[q] == s.queue[q].(frame := Some(j), state := WaitConf, table := s.routes)
    requires r.frames[j].state == TxDelay && Owned(r.frames[j]) && DelayOk(r.frames[j], s.delayTimer)
    requires r.frames[j].header.nwkSrc == s.addr && Carries(r.queue[q], r.frames[j], s.panId)
    requires r == s.(frames := s.frames[j := r.frames[j]], hist := s.hist[j := [SentFor(s.queue[q].ticket)]],
                     queue := s.queue[q := r.queue[q]], lock := ToWord(s.lock + 1),
                     nwkSeqNum := r.nwkSeqNum, macSeqNum := r.macSeqNum)
    ensures Inv(r)
  {
    hide PoolOk, QueueOk, LockOk, OnceOk, CallbacksOk, DupsOk;
    var f, h := r.frames[j], [SentFor(s.queue[q].ticket)];
    FrameOf(s, j);
    SentQueue(s.queue, s.frames, s.hist, s.submitted, s.panId, q, r.queue[q], j, f, h);
    PoolSet(s.frames, s.hist, s.active, s.ackTimer, s.delayTimer, s.addr, j, f, h, s.active, s.ackTimer, s.delayTimer);
    OnceSet(s.callbacks, s.queue, |s.submitted|, q, r.queue[q]);
    LockSet(s, r, j, f);
  }

  lemma {:induction false} DataReqTaskKeeps(s: State, rnd: nat, q: nat)
    requires Inv(s) && Shape(s) && q <= |s.queue|
    requires forall p | 0 <= p < q :: s.queue[p].state == WaitConf
    ensures Inv(DataReqTask(s, rnd, q))
    decreases |s.queue| - q
  {
    hide Inv;
    if q < |s.queue| {
      match s.queue[q].state
      case Initial => SendFrameKeeps(s, q, rnd);
      case Confirmed => ConfirmKeeps(s, q);
      case WaitConf => DataReqTaskKeeps(s, rnd, q + 1);
    }
  }

  lemma RoutesKeep(s: State, routes: seq<Routing.Entry>)
    requires Inv(s) && Routing.HasSpare(routes)
    ensures Inv(s.(routes := routes))
  {}

  // ----- the transmitter -----

  lemma DelayStepKeeps(s: State, i: nat)
    requires Inv(s) && Shape(s) && i < |s.frames| && s.frames[i].state == TxDelay
    ensures Inv(DelayStep(s, i))
  {
    hide Inv;
    var f := s.frames[i];
    FrameOf(s, i);
    assert s.hist[i := s.hist[i]] == s.hist;
    if f.aux.timeout > 0 {
      var f' := f.(state := TxWaitDelay);
      FrameSet(s, Put(s, i, f').(delayTimer := true), i, f', s.hist[i]);
    } else {
      PutKeeps(s, i, f.(state := TxSend));
    }
  }

  lemma SendStepKeeps(s: State, i: nat)
    requires Inv(s) && Shape(s) && i < |s.frames| && s.frames[i].state == TxSend
    ensures Inv(SendStep(s, i))
  {
    hide Inv;
    if s.active.None? {
      var f := s.frames[i];
      FrameOf(s, i);
      assert s.hist[i := s.hist[i]] == s.hist;
      FrameSet(s, SendStep(s, i), i, f.(state := TxWaitConf), s.hist[i]);
    }
  }

  /** A frame that was sent may wait for its acknowledgment or be finished. */
  lemma SentFrameOk(f: Frame, h: seq<FrameEvent>, isActive: bool, ackTimer: bool, delayTimer: bool, addr: Word)
    requires FrameOk(f, h, isActive, ackTimer, delayTimer, addr) && f.state == TxSent && f.aux.Tx?
    ensures SameOwner(f, h, f.(state := TxWaitAck, aux := f.aux.(timeout := ACK_WAIT_TICKS)), h)
    ensures SameOwner(f, h, f.(state := TxConfirm), h)
    ensures f.aux.status == Success && f.header.ackRequest ==>
      FrameOk(f.(state := TxWaitAck, aux := f.aux.(timeout := ACK_WAIT_TICKS)), h, isActive, true, delayTimer, addr)
    ensures !(f.aux.status == Success && f.header.nwkSrc == addr && f.header.ackRequest) ==>
      FrameOk(f.(state := TxConfirm), h, isActive, ackTimer, delayTimer, addr)
  {}

  lemma SentStepKeeps(s: State, i: nat)
    requires Inv(s) && Shape(s) && i < |s.frames| && s.frames[i].state == TxSent
    ensures Inv(SentStep(s, i))
  {
    hide Inv, HistoryOk;
    var f := s.frames[i];
    FrameOf(s, i);
    SentFrameOk(f, s.hist[i], s.active == Some(i), s.ackTimer, s.delayTimer, s.addr);
    hide FrameOk, SameOwner;
    assert s.hist[i := s.hist[i]] == s.hist;
    if f.aux.status == Success && f.header.nwkSrc == s.addr && f.header.ackRequest {
      FrameSet(s, SentStep(s, i), i, f.(state := TxWaitAck, aux := f.aux.(timeout := ACK_WAIT_TICKS)), s.hist[i]);
    } else {
      PutKeeps(s, i, f.(state := TxConfirm));
    }
  }

  lemma ConfirmStepKeeps(s: State, i: nat)
    requires Inv(s) && Shape(s) && i < |s.frames| && s.frames[i].state == TxConfirm
    ensures Inv(ConfirmStep(s, i))
  {
    hide Inv;
    var f := s.frames[i];
    FrameOf(s, i);
    var routes := Routing.FrameSent(s.routes, f.header.nwkDst, MulticastBit(f.header), f.aux.status == Success);
    RoutesKeep(s, routes);
    var sent := s.(routes := routes);
    if f.aux.confirm == NoConfirm { FreeKeeps(sent, i); } else { TxConfKeeps(sent, i); }
  }

  lemma TxStepKeeps(s: State, i: nat)
    requires Inv(s) && Shape(s) && i < |s.frames|
    ensures Inv(TxStep(s, i))
  {
    hide Inv;
    match s.frames[i].state
    case TxDelay => DelayStepKeeps(s, i); assert TxStep(s, i) == DelayStep(s, i);
    case TxSend => SendStepKeeps(s, i); assert TxStep(s, i) == SendStep(s, i);
    case TxSent => SentStepKeeps(s, i); assert TxStep(s, i) == SentStep(s, i);
    case TxConfirm => ConfirmStepKeeps(s, i); assert TxStep(s, i) == ConfirmStep(s, i);
    case _ => assert TxStep(s, i) == s;
  }

  lemma DoneFrame(f: Frame, h: seq<FrameEvent>, p: PhyStatus, ackTimer: bool, delayTimer: bool, addr: Word)
    requires FrameOk(f, h, true, ackTimer, delayTimer, addr)
    ensures f.state == TxWaitConf && f.aux.Tx?
    ensures var done, h' := f.(state := TxSent, aux := f.aux.(status := ConvertPhyStatus(p))), h + [PhyDone(p)];
            FrameOk(done, h', false, ackTimer, delayTimer, addr) && SameOwner(f, h, done, h')
  {}

  lemma PhyConfKeeps(s: State, p: PhyStatus)
    requires Inv(s) && Shape(s)
    ensures Inv(PhyConf(s, p))
  {
    hide Inv, FrameOk, SameOwner, ConvertPhyStatus;
    if s.active.Some? {
      var i := s.active.value;
      FrameOf(s, i);
      DoneFrame(s.frames[i], s.hist[i], p, s.ackTimer, s.delayTimer, s.addr);
      var done := s.frames[i].(state := TxSent, aux := s.frames[i].aux.(status := ConvertPhyStatus(p)));
      FrameSet(s, PhyConf(s, p), i, done, s.hist[i] + [PhyDone(p)]);
    }
  }

  lemma AckTickKeeps(s: State, i: nat)
    requires Inv(s) && Shape(s) && i < |s.frames|
    ensures Inv(AckTick(s, i))
  {
    hide Inv;
    if s.frames[i].state == TxWaitAck {
      var f, h := s.frames[i], s.hist[i];
      FrameOf(s, i);
      if f.aux.timeout == 1 {
        AckExpires(s, i);
      } else {
        PutKeeps(s, i, CountDown(f));
      }
    }
  }

  lemma AckExpires(s: State, i: nat)
    requires Inv(s) && i < |s.frames| && s.frames[i].state == TxWaitAck && s.frames[i].aux.Tx?
    ensures var f := CountDown(s.frames[i]);
            Inv(Note(Put(s, i, f.(state := TxConfirm, aux := f.aux.(status := NoAck))), i, AckTimedOut))
  {
    hide Inv;
    FrameOf(s, i);
    var f, h := CountDown(s.frames[i]), s.hist[i];
    var f', h' := f.(state := TxConfirm, aux := f.aux.(status := NoAck)), h + [AckTimedOut];
    if Owned(s.frames[i]) { assert h' == [h[0], PhyDone(PhySuccess), AckTimedOut]; }
    FrameSet(s, Note(Put(s, i, f'), i, AckTimedOut), i, f', h');
  }

  lemma DelayTickKeeps(s: State, i: nat)
    requires Inv(s) && Shape(s) && i < |s.frames|
    ensures Inv(DelayTick(s, i))
  {
    hide Inv;
    if s.frames[i].state == TxWaitDelay {
      var f := CountDown(s.frames[i]);
      FrameOf(s, i);
      PutKeeps(s, i, if f.aux.timeout == 0 then f.(state := TxSend) else f);
    }
  }

  // ----- the receiver -----

  lemma SendCommandKeeps(s: State, security: bool, dst: Word, payload: seq<Byte>, rnd: nat)
    requires Inv(s) && Shape(s)
    ensures Inv(SendCommand(s, security, dst, payload, rnd))
  {
    hide Inv, PrepareHop;
    var r, free := SendCommand(s, security, dst, payload, rnd), FirstFree(s.frames);
    if free.Some? {
      var j := free.value;
      assert r.frames == s.frames[j := r.frames[j]];
      AllocateKeeps(s, r, j, r.frames[j]);
    }
  }

  lemma PhyIndKeeps(s: State, d: Received)
    requires Inv(s) && Shape(s)
    ensures Inv(PhyInd(s, d))
  {
    hide Inv;
    var r, free := PhyInd(s, d), FirstFree(s.frames);
    if d.fcf in {0x8861, 0x8841} && d.header.Some? && free.Some? {
      AllocateKeeps(s, r, free.value, r.frames[free.value]);
    }
  }

  lemma BroadcastCopyKeeps(s: State, i: nat, rnd: nat)
    requires Inv(s) && Shape(s) && i < |s.frames| && s.frames[i].state != Free
    ensures Inv(BroadcastCopy(s, i, rnd))
  {
    hide Inv;
    var r, free := BroadcastCopy(s, i, rnd), FirstFree(s.frames);
    if free.Some? {
      AllocateKeeps(s, r, free.value, r.frames[free.value]);
    }
  }

  lemma RejectDuplicateKeeps(s: State, h: Header)
    requires Inv(s) && Shape(s)
    ensures Inv(RejectDuplicate(s, h).0)
  {
    var r := RejectDuplicate(s, h).0;
    var (dups, v) := Duplicates.Arrive(s.dups, h.nwkSrc, h.nwkSeq);
    Duplicates.ArriveKeepsSources(s.dups, h.nwkSrc, h.nwkSeq);
    DupsKeep(s, dups, s.dupTimer || v == Duplicates.Accepted(true));
    assert r == s.(dups := dups, dupTimer := s.dupTimer || v == Duplicates.Accepted(true)).(routes := r.routes);
  }

  lemma DupsKeep(s: State, dups: seq<Duplicates.Entry>, dupTimer: bool)
    requires Inv(s) && DupsOk(dups, dupTimer)
    ensures Inv(s.(dups := dups, dupTimer := dupTimer))
  {}

  /** A received frame moves on to another receiver state. */
  lemma RxPutKeeps(s: State, i: nat, st: FrameState)
    requires Inv(s) && i < |s.frames| && s.frames[i].state in {RxReceived, RxIndicate, RxFinish}
    requires st in {RxIndicate, RxRoute, RxFinish}
    requires s.frames[i].aux.Rx?
    ensures Inv(Put(s, i, s.frames[i].(state := st)))
  {
    hide Inv;
    FrameOf(s, i);
    PutKeeps(s, i, s.frames[i].(state := st));
  }

  lemma HandleReceivedKeeps(s: State, i: nat, rnd: nat)
    requires Inv(s) && Shape(s) && i < |s.frames| && s.frames[i].state == RxReceived
    ensures Inv(HandleReceived(s, i, rnd))
  {
    hide Inv, Learn;
    RxPutKeeps(s, i, RxFinish);
    RxPutKeeps(s, i, RxIndicate);
    LearnKeeps(Put(s, i, s.frames[i].(state := RxFinish)), i, rnd);
  }

  lemma LearnKeeps(s: State, i: nat, rnd: nat)
    requires Inv(s) && Shape(s) && i < |s.frames| && s.frames[i].state == RxFinish && s.frames[i].aux.Rx?
    ensures Inv(Learn(s, i, rnd))
  {
    hide Inv, Routing.FrameReceived, RejectDuplicate, Forward;
    var h := s.frames[i].header;
    var heard := Routing.Heard(h.macDstPan, h.macDst, h.macSrc, h.nwkSrc, h.nwkDst, s.frames[i].aux.lqi);
    var learned := s.(routes := Routing.FrameReceived(s.routes, s.addr, heard));
    RoutesKeep(s, learned.routes);
    RejectDuplicateKeeps(learned, h);
    ForwardKeeps(RejectDuplicate(learned, h).0, i, h, rnd);
  }

  lemma ForwardKeeps(s: State, i: nat, h: Header, rnd: nat)
    requires Inv(s) && Shape(s) && i < |s.frames| && s.frames[i].state == RxFinish && s.frames[i].aux.Rx?
    ensures Inv(Forward(s, i, h, rnd))
  {
    hide Inv;
    BroadcastCopyKeeps(s, i, rnd);
    HandOverKeeps(s, i);
    HandOverKeeps(BroadcastCopy(s, i, rnd), i);
    var copied := if h.macDst == BROADCAST && h.nwkDst != s.addr && !h.linkLocal then BroadcastCopy(s, i, rnd) else s;
    var r := Forward(s, i, h, rnd);
    if h.nwkDst == s.addr || h.nwkDst == BROADCAST {
      assert r == Put(copied, i, copied.frames[i].(state := RxIndicate));
    } else if h.macDst == s.addr {
      assert r == Put(copied, i, copied.frames[i].(state := RxRoute));
    } else {
      assert r == copied;
    }
  }

  lemma HandOverKeeps(s: State, i: nat)
    requires Inv(s) && i < |s.frames| && s.frames[i].state == RxFinish && s.frames[i].aux.Rx?
    ensures Inv(Put(s, i, s.frames[i].(state := RxIndicate))) && Inv(Put(s, i, s.frames[i].(state := RxRoute)))
  {
    hide Inv;
    RxPutKeeps(s, i, RxIndicate);
    RxPutKeeps(s, i, RxRoute);
  }

  /** The application takes or gives back a lock. */
  lemma AppLockKeeps(s: State, delta: int)
    requires Inv(s)
    ensures Inv(s.(lock := ToWord(s.lock + delta), appLocks := s.appLocks + delta))
  {
    hide PoolOk, QueueOk, OnceOk, CallbacksOk, DupsOk, Routing.HasSpare;
    LockStep(s.lock, InUse(s.frames) + |s.queue| + Active(s.active) + s.appLocks, delta);
  }

  lemma ActKeeps(s: State, a: AppAction)
    requires Inv(s)
    ensures Inv(Act(s, a))
  {
    hide PoolOk, QueueOk, LockOk, OnceOk, CallbacksOk, DupsOk, Routing.HasSpare;
    match a
    case DoSubmit(req) => SubmitKeeps(s, req);
    case DoLock => AppLockKeeps(s, 1);
    case DoUnlock => AppLockKeeps(s, -1);
    case DoAckControl(_) =>
  }

  lemma {:induction false} ActAllKeeps(s: State, actions: seq<AppAction>)
    requires Inv(s)
    ensures Inv(ActAll(s, actions))
    decreases |actions|
  {
    hide Inv;
    if actions != [] {
      ActKeeps(s, actions[0]);
      ActAllKeeps(Act(s, actions[0]), actions[1..]);
    }
  }

  lemma AckReceivedKeeps(s: State, data: seq<Byte>)
    requires Inv(s) && Shape(s)
    ensures Inv(AckReceived(s, data).0)
  {
    hide Inv, TypedPool;
    if |data| == 3 && AckWaiter(s.frames, data[1]).Some? {
      var k := AckWaiter(s.frames, data[1]).value;
      FrameOf(s, k);
      var r := AckReceived(s, data).0;
      assert r.hist == s.hist[k := r.hist[k]];
      FrameSet(s, r, k, r.frames[k], r.hist[k]);
    }
  }

  lemma ServiceCommandKeeps(s: State, data: seq<Byte>)
    requires Inv(s) && Shape(s)
    ensures Inv(ServiceCommand(s, data).0)
  {
    hide Inv;
    var r := ServiceCommand(s, data).0;
    if |data| >= 1 && data[0] == COMMAND_ACK {
      AckReceivedKeeps(s, data);
      assert r == AckReceived(s, data).0;
    } else {
      RoutesKeep(s, r.routes);
      assert r == s.(routes := r.routes);
    }
  }

  lemma IndicateFrameKeeps(s: State, i: nat, reply: AppReply)
    requires Inv(s) && Shape(s) && i < |s.frames| && s.frames[i].state == RxIndicate
    ensures Inv(IndicateFrame(s, i, reply).0)
  {
    hide ServiceCommand, ActAll;
    var f := s.frames[i];
    assert TypedFrame(f);
    var told := Tell(s, i);
    assert Inv(told) && Shape(told);
    hide Inv, Shape;
    if f.header.dstEndpoint == SERVICE_ENDPOINT {
      ServiceCommandKeeps(told, f.payload);
    } else if reply.open {
      ActAllKeeps(told, reply.actions);
    }
  }

  lemma HandleIndicationKeeps(s: State, i: nat, env: RxEnv)
    requires Inv(s) && Shape(s) && i < |s.frames| && s.frames[i].state == RxIndicate
    ensures Inv(HandleIndication(s, i, env))
  {
    hide Answer, IndicateFrame;
    var h := s.frames[i].header;
    var s0 := s.(ackControl := 0);
    assert Inv(s0) && Shape(s0);
    hide Inv;
    IndicateFrameKeeps(s0, i, env.Reply(i));
    var (told, consumed) := IndicateFrame(s0, i, env.Reply(i));
    AnswerKeeps(told, i, h, consumed, env.Rnd(i));
  }

  lemma AnswerKeeps(told: State, i: nat, h: Header, consumed: bool, rnd: nat)
    requires Inv(told) && Shape(told) && i < |told.frames| && told.frames[i].state == RxIndicate
    ensures Inv(Answer(told, i, h, consumed, rnd))
  {
    hide Inv, SendCommand;
    var command := [COMMAND_ACK, h.nwkSeq, told.ackControl];
    var acked := SendCommand(told, h.security, h.nwkSrc, command, rnd);
    SendCommandKeeps(told, h.security, h.nwkSrc, command, rnd);
    CommandElsewhere(told, h.security, h.nwkSrc, command, rnd, i);
    RxPutKeeps(told, i, RxFinish);
    RxPutKeeps(acked, i, RxFinish);
  }

  /** A received frame becomes an outgoing one. */
  lemma RouteOnKeeps(s: State, i: nat, rnd: nat)
    requires Inv(s) && Shape(s) && i < |s.frames| && s.frames[i].state == RxRoute
    ensures Inv(TxFrame(Put(s, i, s.frames[i].(aux := Tx(Success, 0, CONTROL_ROUTING, NoConfirm))), i, rnd))
  {
    FrameOf(s, i);
    hide Inv, OnAir, TypedPool, HistoryOk, Shape;
    var r := TxFrame(Put(s, i, s.frames[i].(aux := Tx(Success, 0, CONTROL_ROUTING, NoConfirm))), i, rnd);
    assert r.frames == s.frames[i := r.frames[i]];
    assert s.hist[i := s.hist[i]] == s.hist;
    FrameSet(s, r, i, r.frames[i], s.hist[i]);
  }

  lemma RouteFrameKeeps(s: State, i: nat, rnd: nat)
    requires Inv(s) && Shape(s) && i < |s.frames| && s.frames[i].state == RxRoute
    ensures Inv(RouteFrame(s, i, rnd))
  {
    hide Inv, TxFrame, SendCommand;
    var h := s.frames[i].header;
    FrameOf(s, i);
    RouteOnKeeps(s, i, rnd);
    SendCommandKeeps(s, false, h.nwkSrc, RouteErrorCommand(h), rnd);
    CommandElsewhere(s, false, h.nwkSrc, RouteErrorCommand(h), rnd, i);
    FreeKeeps(SendCommand(s, false, h.nwkSrc, RouteErrorCommand(h), rnd), i);
  }

  lemma RxStepKeeps(s: State, i: nat, env: RxEnv)
    requires Inv(s) && Shape(s) && i < |s.frames|
    ensures Inv(RxStep(s, i, env))
  {
    hide Inv;
    FrameOf(s, i);
    match s.frames[i].state
    case RxReceived => HandleReceivedKeeps(s, i, env.Rnd(i));
    case RxIndicate => HandleIndicationKeeps(s, i, env);
    case RxRoute => RouteFrameKeeps(s, i, env.Rnd(i));
    case RxFinish => FreeKeeps(s, i);
    case _ =>
  }
}
