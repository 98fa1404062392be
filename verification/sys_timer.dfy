/** The timer queue in memory: timers linked by `next`, updated in place. The methods are proved
    against the functions of DeltaList. */
module TimerQueue {
  import opened Types
  import opened DeltaList

  const TIMER_INTERVAL := 10

  ghost predicate Distinct(order: seq<Timer>) {
    forall i, j | 0 <= i < j < |order| :: order[i] != order[j]
  }

  ghost predicate Linked(head: Timer?, order: seq<Timer>)
    reads order
  {
    && head == (if order == [] then null else order[0])
    && forall i {:trigger order[i].next} | 0 <= i < |order| ::
         order[i].next == if i + 1 < |order| then order[i + 1] else null
  }

  /** The slots say which timer is where and with what timeout. */
  ghost predicate Mirrors(slots: seq<Slot>, order: seq<Timer>)
    reads order
  {
    && |slots| == |order|
    && forall i {:trigger slots[i]} | 0 <= i < |order| :: slots[i] == Slot(order[i], order[i].timeout)
  }

  lemma {:induction false} StartedIn(l: seq<Slot>, t: Timer)
    ensures Started(l, t) <==> exists i | 0 <= i < |l| :: l[i].timer == t
  {
    if l != [] {
      StartedIn(l[1..], t);
      if i :| 0 <= i < |l| && l[i].timer == t && l[0].timer != t {
        assert l[1..][i - 1].timer == t;
      }
    }
  }

  /** `whole` is what `fired` and the rest of the run amount to. */
  ghost predicate Pending(whole: (seq<Slot>, seq<Timer>), l: seq<Slot>, elapsed: nat, h: nat -> seq<Command>, n: nat,
                          fired: seq<Timer>)
    requires PositiveList(l) && Handlers(h)
  {
    whole.0 == Consume(l, elapsed, h, n).0 && whole.1 == fired + Consume(l, elapsed, h, n).1
  }

  class Queue {
    var timers: Timer?
    var irqCount: Byte
    ghost var order: seq<Timer>
    ghost var slots: seq<Slot>

    /** The list is not cyclic and holds no timer twice. */
    ghost predicate Chained()
      reads this, order
    {
      Distinct(order) && Linked(timers, order)
    }

    ghost predicate Valid()
      reads this, order
    {
      Chained() && Mirrors(slots, order)
    }

    constructor ()
      ensures Valid() && slots == [] && irqCount == 0 && order == []
    {
      timers := null;
      irqCount := 0;
      order := [];
      slots := [];
    }

    method TimerStarted(timer: Timer) returns (r: bool)
      requires Valid()
      ensures r == Started(slots, timer)
      ensures r <==> timer in order
    {
      StartedIn(slots, timer);
      var t := timers;
      ghost var i := 0;
      while t != null
        invariant i <= |order| && t == (if i < |order| then order[i] else null)
        invariant timer !in order[..i]
        decreases |order| - i
      {
        if t == timer {
          assert slots[i].timer == timer;
          return true;
        }
        t := t.next;
        i := i + 1;
      }
      return false;
    }

    /** Takes the timer after `prev` out of the chain. */
    method Unlink(prev: Timer?, timer: Timer, ghost i: nat)
      requires Chained() && i < |order| && timer == order[i]
      requires prev == if i == 0 then null else order[i - 1]
      modifies this`timers, this`order, order`next
      ensures Chained() && order == old(order[..i] + order[i + 1..]) && timer.next == old(timer.next)
    {
      assert timer.next == if i + 1 < |order| then order[i + 1] else null;
      if prev != null {
        prev.next := timer.next;
      } else {
        timers := timer.next;
      }
      order := order[..i] + order[i + 1..];
    }

    /** Takes `timer` out of the list; the next timer gains its timeout. */
    method Extract(prev: Timer?, timer: Timer, ghost i: nat)
      requires Valid() && i < |order| && timer == order[i]
      requires prev == if i == 0 then null else order[i - 1]
      modifies this`timers, this`order, this`slots, order
      ensures Valid() && slots == Cut(old(slots), i)
      ensures order == old(order[..i] + order[i + 1..])
    {
      assert timer.next == if i + 1 < |order| then order[i + 1] else null;
      assert slots[i] == Slot(timer, timer.timeout);
      Unlink(prev, timer, i);
      if timer.next != null {
        assert slots[i + 1] == Slot(timer.next, timer.next.timeout);
        timer.next.timeout := timer.next.timeout + timer.timeout;
      }
      slots := Cut(slots, i);
      CutLength(old(slots), i);
      hide Distinct, Linked, Cut;
      forall k | 0 <= k < |order| ensures slots[k] == Slot(order[k], order[k].timeout) {
        CutAt(old(slots), i, k);
        ghost var j := if k < i then k else k + 1;
        assert old(slots)[j] == old(Slot(order[j], order[j].timeout));
      }
    }

    /** Puts `timer` into the chain after `prev`. */
    method Link(prev: Timer?, timer: Timer, ghost i: nat)
      requires Chained() && timer !in order && i <= |order|
      requires prev == if i == 0 then null else order[i - 1]
      modifies this`timers, this`order, order`next, timer`next
      ensures Chained() && order == old(order[..i] + [timer] + order[i..])
    {
      if prev != null {
        assert prev.next == if i < |order| then order[i] else null;
        timer.next := prev.next;
        prev.next := timer;
      } else {
        timer.next := timers;
        timers := timer;
      }
      order := order[..i] + [timer] + order[i..];
    }

    /** Puts `timer` after `prev` and before `t`, which loses its timeout. */
    method Insert(prev: Timer?, t: Timer?, timer: Timer, timeout: nat, ghost i: nat)
      requires Valid() && timer !in order && i <= |order|
      requires prev == if i == 0 then null else order[i - 1]
      requires t == if i < |order| then order[i] else null
      requires i < |slots| ==> timeout <= slots[i].timeout
      modifies this`timers, this`order, this`slots, order, timer
      ensures Valid() && slots == Splice(old(slots), i, timer, timeout)
      ensures order == old(order[..i] + [timer] + order[i..])
    {
      if t != null {
        assert slots[i] == Slot(t, t.timeout);
        t.timeout := t.timeout - timeout;
      }
      timer.timeout := timeout;
      Link(prev, timer, i);
      slots := Splice(slots, i, timer, timeout);
      hide Distinct, Linked;
      forall k | 0 <= k < |order| ensures slots[k] == Slot(order[k], order[k].timeout) {
        if k < i {
          assert old(slots)[k] == old(Slot(order[k], order[k].timeout));
        } else if k > i {
          assert old(slots)[k - 1] == old(Slot(order[k - 1], order[k - 1].timeout));
        }
      }
    }

    method TimerStop(timer: Timer)
      requires Valid()
      modifies this`timers, this`order, this`slots, order
      ensures Valid() && slots == Remove(old(slots), timer)
      ensures forall t | t in order :: t in old(order)
    {
      var prev: Timer? := null;
      var t := timers;
      ghost var i := 0;
      while t != null
        invariant i <= |order| && t == (if i < |order| then order[i] else null)
        invariant prev == if i == 0 then null else order[i - 1]
        invariant order == old(order) && Valid() && slots == old(slots)
        invariant forall k | 0 <= k < i :: slots[k].timer != timer
        decreases |order| - i
      {
        assert slots[i].timer == t;
        if t == timer {
          RemoveAt(slots, i, timer);
          Extract(prev, timer, i);
          return;
        }
        prev := t;
        t := t.next;
        i := i + 1;
      }
      RemoveNone(slots, timer);
    }

    method TimerStart(timer: Timer)
      requires Valid()
      modifies this`timers, this`order, this`slots, order, timer
      ensures Valid() && slots == Perform(old(slots), Start(timer))
      ensures forall t | t in order :: t in old(order) || t == timer
    {
      var started := TimerStarted(timer);
      if !started {
        PlaceTimer(timer);
      }
    }

    method PlaceTimer(timer: Timer)
      requires Valid() && timer !in order
      modifies this`timers, this`order, this`slots, order, timer
      ensures Valid() && slots == Place(old(slots), timer, timer.interval)
      ensures forall t | t in order :: t in old(order) || t == timer
    {
      if timers != null {
        var prev: Timer? := null;
        var timeout: nat := timer.interval;
        var t := timers;
        ghost var i := 0;
        while t != null && timeout >= t.timeout
          invariant i <= |order| && t == (if i < |order| then order[i] else null)
          invariant prev == if i == 0 then null else order[i - 1]
          invariant order == old(order) && Valid() && slots == old(slots)
          invariant timeout == timer.interval - Ahead(slots, i)
          decreases |order| - i
        {
          assert slots[i] == Slot(t, t.timeout);
          timeout := timeout - t.timeout;
          prev := t;
          t := t.next;
          i := i + 1;
        }
        assert t != null ==> slots[i] == Slot(t, t.timeout);
        PlaceAt(slots, i, timer, timer.interval);
        Insert(prev, t, timer, timeout, i);
      } else {
        timer.next := null;
        timer.timeout := timer.interval;
        timers := timer;
        order := [timer];
        slots := [Slot(timer, timer.timeout)];
      }
    }

    /** What a handler does, one command after the other. */
    method Handler(commands: seq<Command>, universe: set<Timer>)
      requires Valid() && forall t | t in order :: t in universe
      requires forall i | 0 <= i < |commands| :: commands[i].timer in universe
      modifies this`timers, this`order, this`slots, universe
      ensures Valid() && slots == PerformAll(old(slots), commands)
      ensures forall t | t in order :: t in universe
    {
      var i := 0;
      while i < |commands|
        invariant i <= |commands| && Valid() && forall t | t in order :: t in universe
        invariant PerformAll(old(slots), commands) == PerformAll(slots, commands[i..])
      {
        assert commands[i..][1..] == commands[i + 1..];
        match commands[i] {
          case Start(t) => TimerStart(t);
          case Stop(t) => TimerStop(t);
        }
        i := i + 1;
      }
    }

    /** The body of the loop of SYS_TimerTaskHandler: the first timer leaves the list, goes back if it is
        periodic, and its handler runs. */
    method FireFirst(commands: seq<Command>, universe: set<Timer>) returns (timer: Timer)
      requires Valid() && timers != null && forall t | t in order :: t in universe
      requires forall i | 0 <= i < |commands| :: commands[i].timer in universe
      modifies this`timers, this`order, this`slots, universe
      ensures Valid() && timer == old(timers)
      ensures slots == Fire(old(slots), commands)
      ensures forall t | t in order :: t in universe
    {
      timer := timers;
      assert timer == order[0];
      timers := timers.next;
      order := order[1..];
      slots := slots[1..];
      if timer.periodic {
        PlaceTimer(timer);
      }
      assert slots == Rearm(old(slots));
      Handler(commands, universe);
    }

    method Advance(elapsed: nat)
      requires Valid() && (timers != null ==> timers.timeout > elapsed)
      modifies this`slots, order
      ensures Valid()
      ensures slots == if old(slots) == [] then []
                       else old(slots)[0 := old(slots)[0].(timeout := old(slots)[0].timeout - elapsed)]
    {
      if timers != null {
        assert slots[0] == Slot(timers, timers.timeout);
        timers.timeout := timers.timeout - elapsed;
        slots := slots[0 := slots[0].(timeout := slots[0].timeout - elapsed)];
      }
    }

    /** The loop of SYS_TimerTaskHandler: `h(n)` is what the handler of the n-th firing does, `fired`
        the record of the handlers that ran. */
    method ConsumeTime(time: nat, h: nat -> seq<Command>, universe: set<Timer>) returns (fired: seq<Timer>)
      requires Valid() && forall t | t in order :: t in universe
      requires forall n: nat, i: nat | i < |h(n)| :: h(n)[i].timer in universe
      requires PositiveList(slots) && Handlers(h)
      modifies this`timers, this`order, this`slots, universe
      ensures Valid()
      ensures slots == Consume(old(slots), time, h).0
      ensures fired == Consume(old(slots), time, h).1
    {
      hide Fire, Rearm, PerformAll, Perform;
      fired := [];
      var elapsed: nat := time;
      var n: nat := 0;
      ghost var whole := Consume(slots, time, h);
      while timers != null && timers.timeout <= elapsed
        invariant Valid() && forall t | t in order :: t in universe
        invariant PositiveList(slots) && Pending(whole, slots, elapsed, h, n, fired)
        decreases elapsed, DueNow(slots)
      {
        var commands := h(n);
        ghost var before := slots;
        assert before != [] && before[0] == Slot(timers, timers.timeout);
        ConsumeStep(before, elapsed, h, n, fired);
        elapsed := elapsed - timers.timeout;
        var timer := FireFirst(commands, universe);
        fired := fired + [timer];
        n := n + 1;
      }
      ConsumeStop(slots, elapsed, h, n, fired);
      Advance(elapsed);
    }

    /** The timer interrupt */
    method TimerInterrupt()
      requires Valid()
      modifies this`irqCount
      ensures Valid() && irqCount == (old(irqCount) + 1) % 256
    {
      irqCount := ToByte(irqCount + 1);
    }

    /** SYS_TimerTaskHandler */
    method TaskHandler(h: nat -> seq<Command>, universe: set<Timer>) returns (fired: seq<Timer>)
      requires Valid() && forall t | t in order :: t in universe
      requires forall n: nat, i: nat | i < |h(n)| :: h(n)[i].timer in universe
      requires PositiveList(slots) && Handlers(h)
      modifies this, universe
      ensures Valid() && irqCount == 0
      ensures (slots, fired) == if old(irqCount) == 0 then (old(slots), [])
                                else Consume(old(slots), old(irqCount) * 10, h)
    {
      fired := [];
      if irqCount == 0 {
        return;
      }
      var ticks := irqCount;
      irqCount := 0;
      fired := ConsumeTime(ticks * TIMER_INTERVAL, h, universe);
    }
  }
}
