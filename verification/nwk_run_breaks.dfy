/** The other side of the condition on the routing table: a run that the PHY can cause, at the end of which
    the table is no longer good. Neighbours 1 to 100 send a link-local broadcast each, and then one more
    frame arrives that claims the source 0xffff. */
module NetRunBreaks {
  import opened Types
  import opened NetState
  import opened NetSteps
  import opened NetRuns
  import Routing
  import Duplicates

  const SILENT := RxEnv([], [])

  /** A link-local broadcast of `src` for the application's endpoint 1. */
  function Beacon(src: Word): Received {
    var header := ZERO_HEADER.(macFcf := 0x8841, macDst := BROADCAST, macSrc := src, linkLocal := true,
                               nwkSrc := src, nwkDst := BROADCAST, dstEndpoint := 1);
    Received(0x8841, Some(header), [], 1, 0)
  }

  /** It is received, and the receiver runs until it is done with it. */
  function Arrival(src: Word): seq<Event> {
    [PhyIndication(Beacon(src)), RxTaskRuns(SILENT), RxTaskRuns(SILENT), RxTaskRuns(SILENT)]
  }

  /** The node has address 0, and only its first frame, if any, is in use. */
  ghost predicate OnlyFirst(s: State, st: FrameState) {
    && Shape(s) && s.addr == 0 && |s.frames| > 0 && s.frames[0].state == st
    && forall k | 0 < k < |s.frames| :: s.frames[k].state == Free
  }

  lemma {:induction false} RestIsFree(s: State, env: RxEnv, i: nat)
    requires Shape(s) && i <= |s.frames| && forall k | i <= k < |s.frames| :: s.frames[k].state == Free
    ensures RxTask(s, env, i) == s
    decreases |s.frames| - i
  {
    hide Shape;
    if i < |s.frames| {
      assert RxStep(s, i, env) == s;
      RestIsFree(s, env, i + 1);
    }
  }

  /** The receiver has a turn for the first frame only. */
  lemma FirstTurn(s: State)
    requires Shape(s) && |s.frames| > 0
    requires forall k | 0 < k < |s.frames| :: RxStep(s, 0, SILENT).frames[k].state == Free
    ensures RxTask(s, SILENT) == RxStep(s, 0, SILENT)
  {
    hide RxStep, Shape;
    RestIsFree(RxStep(s, 0, SILENT), SILENT, 1);
  }

  lemma Indicated(s: State, src: Word)
    requires OnlyFirst(s, Free)
    ensures var r := PhyInd(s, Beacon(src));
            && OnlyFirst(r, RxReceived) && r.routes == s.routes
            && r.frames[0] == Frame(RxReceived, Beacon(src).header.value, [], Rx(1, 0))
  {
    assert FirstFree(s.frames) == Some(0);
  }

  /** It is finished as a duplicate, or goes up to the application. */
  ghost predicate Judged(s: State, src: Word) {
    OnlyFirst(s, RxFinish) || (OnlyFirst(s, RxIndicate) && s.frames[0].header == Beacon(src).header.value)
  }

  /** It is learned from, whether it is a duplicate or not. */
  lemma Learned(s: State, src: Word)
    requires OnlyFirst(s, RxReceived) && src != 0
    requires s.frames[0] == Frame(RxReceived, Beacon(src).header.value, [], Rx(1, 0))
    ensures var r := RxStep(s, 0, SILENT);
            && Judged(r, src)
            && r.routes == Routing.FrameReceived(s.routes, 0, Routing.HeardFrom(src))
  {
    hide Routing.FrameReceived;
    var done := Put(s, 0, s.frames[0].(state := RxFinish));
    var learned := done.(routes := Routing.FrameReceived(s.routes, 0, Routing.HeardFrom(src)));
    assert RxStep(s, 0, SILENT) == HandleReceived(s, 0, 0) == Learn(done, 0, 0);
    NoRouteRemoved(learned, done.frames[0].header);
    hide RejectDuplicate;
    var (judged, rejected) := RejectDuplicate(learned, done.frames[0].header);
    assert Learn(done, 0, 0) == if rejected then judged else Forward(judged, 0, done.frames[0].header, 0);
  }

  lemma NoRouteRemoved(s: State, h: Header)
    requires Shape(s) && h.macDst != s.addr
    ensures var r := RejectDuplicate(s, h).0; r.routes == s.routes && r.frames == s.frames && r.addr == s.addr
  {}

  /** The handlers of the application see it and do nothing, and no acknowledgment is due. */
  lemma Seen(s: State, src: Word)
    requires OnlyFirst(s, RxIndicate) && s.frames[0].header == Beacon(src).header.value
    ensures var r := RxStep(s, 0, SILENT); OnlyFirst(r, RxFinish) && r.routes == s.routes
  {
    var s0 := s.(ackControl := 0);
    assert IndicateFrame(s0, 0, AppReply(false, [], false)) == (s0, false);
    hide IndicateFrame, SendCommand;
    assert RxStep(s, 0, SILENT) == HandleIndication(s, 0, SILENT);
    assert !Acknowledges(0, s.frames[0].header, false);
  }

  lemma Finished(s: State)
    requires OnlyFirst(s, RxFinish)
    ensures var r := RxStep(s, 0, SILENT); OnlyFirst(r, Free) && r.routes == s.routes
  {}

  lemma TaskOn(s: State, r: State, st: FrameState)
    requires Shape(s) && |s.frames| > 0 && r == RxStep(s, 0, SILENT) && OnlyFirst(r, st)
    ensures RxTask(s, SILENT) == r
  {
    hide RxStep, Shape;
    FirstTurn(s);
  }

  /** What the first turn leaves, the next two finish. */
  lemma TwoMoreTurns(b: State, src: Word)
    requires Shape(b) && Judged(b, src)
    ensures var d := RxTask(RxTask(b, SILENT), SILENT); OnlyFirst(d, Free) && d.routes == b.routes
  {
    var c := RxStep(b, 0, SILENT);
    if b.frames[0].state == RxIndicate {
      Seen(b, src);
      TaskOn(b, c, RxFinish);
      Finished(c);
      hide RxStep, OnlyFirst;
      TaskOn(c, RxStep(c, 0, SILENT), Free);
    } else {
      Finished(b);
      TaskOn(b, c, Free);
      RestIsFree(c, SILENT, 0);
    }
  }

  /** One arrival: the table has learned from it, and everything is free again. */
  lemma Arrives(s: State, src: Word)
    requires Shape(s) && OnlyFirst(s, Free) && src != 0
    ensures OnlyFirst(Run(s, Arrival(src)), Free)
    ensures Run(s, Arrival(src)).routes == Routing.FrameReceived(s.routes, 0, Routing.HeardFrom(src))
  {
    hide PhyInd, RxTask, Routing.FrameReceived, Shape, OnlyFirst, Judged, Beacon;
    Indicated(s, src);
    var a := PhyInd(s, Beacon(src));
    FirstOfThree(a, src);
    TwoMoreTurns(RxTask(a, SILENT), src);
    FourEvents(s, Arrival(src));
  }

  lemma FirstOfThree(a: State, src: Word)
    requires Shape(a) && OnlyFirst(a, RxReceived) && src != 0
    requires a.frames[0] == Frame(RxReceived, Beacon(src).header.value, [], Rx(1, 0))
    ensures var b := RxTask(a, SILENT);
            Judged(b, src) && b.routes == Routing.FrameReceived(a.routes, 0, Routing.HeardFrom(src))
  {
    hide RxTask, Routing.FrameReceived;
    Learned(a, src);
    hide RxStep, Beacon;
    var b := RxStep(a, 0, SILENT);
    TaskOn(a, b, b.frames[0].state);
  }

  lemma FourEvents(s: State, e: seq<Event>)
    requires Shape(s) && |e| == 4
    ensures Run(s, e) == Step(Step(Step(Step(s, e[0]), e[1]), e[2]), e[3])
  {
    hide Shape, Step;
    assert e[1..][0] == e[1] && e[1..][1..][0] == e[2] && e[1..][1..][1..][0] == e[3];
    assert e[1..][1..][1..][1..] == [];
    var a := Step(s, e[0]);
    var b := Step(a, e[1]);
    var c := Step(b, e[2]);
    assert Run(c, e[1..][1..][1..]) == Step(c, e[3]);
    assert Run(b, e[1..][1..]) == Run(c, e[1..][1..][1..]);
  }

  /** The arrivals of the neighbours 1, ..., `n`. */
  function Arrivals(n: nat): seq<Event>
    requires n <= Routing.TABLE_SIZE
  {
    if n == 0 then [] else Arrivals(n - 1) + Arrival(n)
  }

  /** The neighbours 1, ..., `n` were heard, and everything is free. */
  ghost predicate Heard(s: State, n: nat)
    requires n <= Routing.TABLE_SIZE
  {
    OnlyFirst(s, Free) && s.routes == Routing.Filled(n)
  }

  lemma NobodyHeard()
    ensures Heard(Start(0, 0), 0)
  {
    assert Routing.EmptyTable() == Routing.Filled(0);
  }

  lemma NextHeard(s: State, n: nat)
    requires n < Routing.TABLE_SIZE && Shape(s) && Heard(s, n)
    ensures Heard(Run(s, Arrival(n + 1)), n + 1)
  {
    hide Run, OnlyFirst, Routing.FrameReceived, Routing.Filled, Shape;
    Arrives(s, n + 1);
    Routing.NextFilled(n, 0);
  }

  lemma {:induction false} TableFills(n: nat)
    requires n <= Routing.TABLE_SIZE
    ensures Heard(Run(Start(0, 0), Arrivals(n)), n)
  {
    hide Heard, Shape, Start, Arrival, Step;
    if n == 0 {
      NobodyHeard();
    } else {
      hide Run;
      TableFills(n - 1);
      RunOn(Start(0, 0), Arrivals(n - 1), Arrival(n));
      NextHeard(Run(Start(0, 0), Arrivals(n - 1)), n - 1);
    }
  }

  /** The run: the table is good until the last frame, and not after it. */
  lemma BrokenInARun()
    ensures var events := Arrivals(Routing.TABLE_SIZE);
            && Routing.Inv(Run(Start(0, 0), events).routes)
            && !Routing.Inv(Run(Start(0, 0), events + Arrival(Routing.UNKNOWN)).routes)
  {
    hide Run, Start, Routing.FrameReceived, OnlyFirst, Arrivals, Arrival, Shape, Routing.Inv, Routing.Filled;
    var n := Routing.TABLE_SIZE;
    TableFills(n);
    RunOn(Start(0, 0), Arrivals(n), Arrival(Routing.UNKNOWN));
    Arrives(Run(Start(0, 0), Arrivals(n)), Routing.UNKNOWN);
    Routing.UnknownSourceBreaks(0);
  }
}
