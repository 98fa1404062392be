/** The timer interrupt between calls of SYS_TimerTaskHandler: time is what counts, not how it is dealt out. */
module TimerRuns {
  import opened Types
  import opened DeltaList

  /** The interrupt comes every 10 ms and counts in a byte. */
  datatype Happening = Interrupt | Call

  /** The list, the counter and the number of firings, and what fired. */
  datatype Outcome = Outcome(l: seq<Slot>, count: Byte, fired: seq<Timer>)

  ghost function RunFrom(l: seq<Slot>, count: Byte, es: seq<Happening>, h: nat -> seq<Command>, n: nat): Outcome
    requires PositiveList(l) && Handlers(h)
    decreases |es|
  {
    if es == [] then Outcome(l, count, [])
    else if es[0].Interrupt? then RunFrom(l, ToByte(count + 1), es[1..], h, n)
    else if count == 0 then RunFrom(l, 0, es[1..], h, n)
    else
      var (rest, fired) := Consume(l, count * 10, h, n);
      StaysPositive(l, count * 10, h, n);
      var r := RunFrom(rest, 0, es[1..], h, n + |fired|);
      r.(fired := fired + r.fired)
  }

  lemma {:induction false} StaysPositive(l: seq<Slot>, elapsed: nat, h: nat -> seq<Command>, n: nat)
    requires PositiveList(l) && Handlers(h)
    ensures PositiveList(Consume(l, elapsed, h, n).0)
    decreases elapsed, DueNow(l)
  {
    if l != [] && l[0].timeout <= elapsed {
      FireDue(l, h(n));
      StaysPositive(Fire(l, h(n)), elapsed - l[0].timeout, h, n + 1);
    }
  }

  lemma FireForgets(l: seq<Slot>, cs: seq<Command>, timeout: nat)
    requires l != []
    ensures Fire(l[0 := l[0].(timeout := timeout)], cs) == Fire(l, cs)
  {
    assert l[0 := l[0].(timeout := timeout)][1..] == l[1..];
  }

  /** Time that is consumed in two parts has the effect of the whole: the same timers fire, in the same
      order, and the same list is left. */
  lemma {:induction false} ConsumeInParts(l: seq<Slot>, a: nat, b: nat, h: nat -> seq<Command>, n: nat)
    requires PositiveList(l) && Handlers(h)
    ensures var (mid, early) := Consume(l, a, h, n);
            && PositiveList(mid)
            && var (rest, late) := Consume(mid, b, h, n + |early|);
               Consume(l, a + b, h, n) == (rest, early + late)
    decreases a, DueNow(l)
  {
    hide Fire;
    StaysPositive(l, a, h, n);
    if l == [] {
      var none: seq<Timer> := [];
      assert none + none == none && Consume(l, a, h, n) == Consume(l, b, h, n) == Consume(l, a + b, h, n) == (l, none);
    } else if l[0].timeout > a {
      var mid := l[0 := l[0].(timeout := l[0].timeout - a)];
      var (rest, late) := Consume(mid, b, h, n);
      assert Consume(l, a, h, n) == (mid, []) && [] + late == late;
      FireForgets(l, h(n), l[0].timeout - a);
      if l[0].timeout <= a + b {
        FireDue(l, h(n));
        FireDue(mid, h(n));
      } else {
        assert mid[0 := mid[0].(timeout := mid[0].timeout - b)] == l[0 := l[0].(timeout := l[0].timeout - (a + b))];
      }
    } else {
      FireDue(l, h(n));
      ConsumeInParts(Fire(l, h(n)), a - l[0].timeout, b, h, n + 1);
      PartsAfterFirst(l, a, b, h, n);
    }
  }

  lemma PartsAfterFirst(l: seq<Slot>, a: nat, b: nat, h: nat -> seq<Command>, n: nat)
    requires PositiveList(l) && Handlers(h) && l != [] && l[0].timeout <= a
    requires PositiveList(Fire(l, h(n))) && PositiveList(Consume(l, a, h, n).0)
    requires var t := a - l[0].timeout;
             var (mid, early) := Consume(Fire(l, h(n)), t, h, n + 1);
             && PositiveList(mid)
             && var (rest, late) := Consume(mid, b, h, n + 1 + |early|);
                Consume(Fire(l, h(n)), t + b, h, n + 1) == (rest, early + late)
    ensures var (mid, early) := Consume(l, a, h, n);
            var (rest, late) := Consume(mid, b, h, n + |early|);
            Consume(l, a + b, h, n) == (rest, early + late)
  {
    hide Fire;
    FireDue(l, h(n));
    var (mid, early) := Consume(Fire(l, h(n)), a - l[0].timeout, h, n + 1);
    var (rest, late) := Consume(mid, b, h, n + 1 + |early|);
    assert Consume(l, a, h, n) == (mid, [l[0].timer] + early);
    assert Consume(l, a + b, h, n) == (rest, [l[0].timer] + (early + late));
    assert [l[0].timer] + (early + late) == [l[0].timer] + early + late;
  }

  function Interrupts(es: seq<Happening>): nat {
    if es == [] then 0 else (if es[0].Interrupt? then 1 else 0) + Interrupts(es[1..])
  }

  /** No 256 interrupts come between two calls. */
  predicate CallsInTime(count: nat, es: seq<Happening>)
    decreases |es|
  {
    es == [] || (if es[0].Interrupt? then count < 255 && CallsInTime(count + 1, es[1..]) else CallsInTime(0, es[1..]))
  }

  /** However the interrupts are dealt out among the calls, if none is lost: what has fired and what is
      left is what 10 ms for each counted interrupt amount to, consumed at once. */
  lemma {:induction false} DealingDoesNotMatter(l: seq<Slot>, count: Byte, es: seq<Happening>, h: nat -> seq<Command>,
                                                n: nat)
    requires PositiveList(l) && Handlers(h) && CallsInTime(count, es)
    ensures var r := RunFrom(l, count, es, h, n);
            && r.count <= count + Interrupts(es)
            && var time := (count + Interrupts(es) - r.count) * 10;
               (r.l, r.fired) == if time == 0 then (l, []) else Consume(l, time, h, n)
    decreases |es|
  {
    hide Consume;
    if es != [] {
      if es[0].Interrupt? {
        DealingDoesNotMatter(l, count + 1, es[1..], h, n);
      } else if count == 0 {
        DealingDoesNotMatter(l, 0, es[1..], h, n);
      } else {
        var (rest, fired) := Consume(l, count * 10, h, n);
        StaysPositive(l, count * 10, h, n);
        DealingDoesNotMatter(rest, 0, es[1..], h, n + |fired|);
        var r := RunFrom(rest, 0, es[1..], h, n + |fired|);
        ConsumeInParts(l, count * 10, (Interrupts(es) - r.count) * 10, h, n);
        assert fired + [] == fired;
      }
    }
  }

  /** With a 256th interrupt before the next call all of them are lost. */
  lemma {:induction false} LostTime(l: seq<Slot>, count: nat, h: nat -> seq<Command>, n: nat)
    requires PositiveList(l) && Handlers(h) && count <= 256
    ensures RunFrom(l, ToByte(256 - count), seq(count, _ => Interrupt) + [Call], h, n) == Outcome(l, 0, [])
    decreases count
  {
    var es := seq(count, _ => Interrupt) + [Call];
    if count == 0 {
      assert es[1..] == [];
    } else {
      assert es[0] == Interrupt && es[1..] == seq(count - 1, _ => Interrupt) + [Call];
      LostTime(l, count - 1, h, n);
    }
  }
}
