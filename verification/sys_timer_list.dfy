/** The timer list as a value, whose slots store time differences, and its meaning: a queue of deadlines. */
module DeltaList {
  import opened Types

  class Timer {
    var next: Timer?
    var timeout: nat
    const interval: nat
    const periodic: bool

    constructor (interval: nat, periodic: bool)
      ensures this.interval == interval && this.periodic == periodic
    {
      this.interval := interval;
      this.periodic := periodic;
      next := null;
      timeout := 0;
    }
  }

  /** An entry of the list, with the timeout it stores. */
  datatype Slot = Slot(timer: Timer, timeout: nat)

  /** What a timer handler does. */
  datatype Command = Start(timer: Timer) | Stop(timer: Timer)

  /** SYS_TimerStarted */
  predicate Started(l: seq<Slot>, t: Timer) {
    l != [] && (l[0].timer == t || Started(l[1..], t))
  }

  /** placeTimer */
  function Place(l: seq<Slot>, t: Timer, timeout: nat): (r: seq<Slot>)
    ensures |r| == |l| + 1
  {
    if l == [] then [Slot(t, timeout)]
    else if timeout < l[0].timeout then [Slot(t, timeout), l[0].(timeout := l[0].timeout - timeout)] + l[1..]
    else [l[0]] + Place(l[1..], t, timeout - l[0].timeout)
  }

  /** SYS_TimerStop */
  function Remove(l: seq<Slot>, t: Timer): (r: seq<Slot>)
    ensures |r| <= |l|
  {
    if l == [] then []
    else if l[0].timer == t then
      (if |l| == 1 then [] else [l[1].(timeout := l[1].timeout + l[0].timeout)] + l[2..])
    else [l[0]] + Remove(l[1..], t)
  }

  function Perform(l: seq<Slot>, c: Command): seq<Slot> {
    match c
    case Start(t) => if Started(l, t) then l else Place(l, t, t.interval)
    case Stop(t) => Remove(l, t)
  }

  function PerformAll(l: seq<Slot>, cs: seq<Command>): seq<Slot>
    decreases |cs|
  {
    if cs == [] then l else PerformAll(Perform(l, cs[0]), cs[1..])
  }

  /** The list once its first timer is off it and, if periodic, back on it. */
  function Rearm(l: seq<Slot>): seq<Slot>
    requires l != []
  {
    if l[0].timer.periodic then Place(l[1..], l[0].timer, l[0].timer.interval) else l[1..]
  }

  /** The list after the first timer fired and its handler ran. */
  function Fire(l: seq<Slot>, cs: seq<Command>): seq<Slot>
    requires l != []
  {
    PerformAll(Rearm(l), cs)
  }

  // Walking down the list to the place of a timer.

  /** The time from now to the n-th slot. */
  function Ahead(l: seq<Slot>, n: nat): nat
    requires n <= |l|
  {
    if n == 0 then 0 else Ahead(l, n - 1) + l[n - 1].timeout
  }

  lemma {:induction false} AheadTail(l: seq<Slot>, n: nat)
    requires 1 <= n <= |l|
    ensures Ahead(l, n) == l[0].timeout + Ahead(l[1..], n - 1)
  {
    if n > 1 { AheadTail(l, n - 1); }
  }

  /** The list without its i-th slot, whose timeout goes to the slot after it. */
  function Cut(l: seq<Slot>, i: nat): seq<Slot>
    requires i < |l|
  {
    l[..i] + if i + 1 < |l| then [l[i + 1].(timeout := l[i + 1].timeout + l[i].timeout)] + l[i + 2..] else []
  }

  lemma CutLength(l: seq<Slot>, i: nat)
    requires i < |l|
    ensures |Cut(l, i)| == |l| - 1
  {}

  lemma CutAt(l: seq<Slot>, i: nat, k: nat)
    requires i < |l| && k + 1 < |l|
    ensures |Cut(l, i)| == |l| - 1
    ensures Cut(l, i)[k] ==
            if k < i then l[k] else if k == i then l[k + 1].(timeout := l[k + 1].timeout + l[i].timeout) else l[k + 1]
  {}

  lemma {:induction false} RemoveAt(l: seq<Slot>, i: nat, t: Timer)
    requires i < |l| && l[i].timer == t && forall k | 0 <= k < i :: l[k].timer != t
    ensures Remove(l, t) == Cut(l, i)
  {
    if i > 0 {
      RemoveAt(l[1..], i - 1, t);
      assert Cut(l, i) == [l[0]] + Cut(l[1..], i - 1);
    }
  }

  lemma {:induction false} RemoveNone(l: seq<Slot>, t: Timer)
    requires forall k | 0 <= k < |l| :: l[k].timer != t
    ensures Remove(l, t) == l
  {
    if l != [] {
      RemoveNone(l[1..], t);
    }
  }

  /** The list with a timer put before its i-th slot, whose timeout shrinks by as much. */
  function Splice(l: seq<Slot>, i: nat, t: Timer, timeout: nat): seq<Slot>
    requires i <= |l| && (i < |l| ==> timeout <= l[i].timeout)
  {
    l[..i] + [Slot(t, timeout)] + if i < |l| then [l[i].(timeout := l[i].timeout - timeout)] + l[i + 1..] else []
  }

  lemma SpliceTail(l: seq<Slot>, i: nat, t: Timer, timeout: nat)
    requires 0 < i <= |l| && (i < |l| ==> timeout <= l[i].timeout)
    ensures Splice(l, i, t, timeout) == [l[0]] + Splice(l[1..], i - 1, t, timeout)
  {
    assert l[..i] == [l[0]] + l[1..][..i - 1];
    if i < |l| { assert l[i + 1..] == l[1..][i..]; }
  }

  lemma {:induction false} PlaceAt(l: seq<Slot>, i: nat, t: Timer, timeout: nat)
    requires i <= |l| && Ahead(l, i) <= timeout && (i < |l| ==> timeout < Ahead(l, i + 1))
    ensures Place(l, t, timeout) == Splice(l, i, t, timeout - Ahead(l, i))
  {
    if i > 0 {
      AheadTail(l, i);
      if i < |l| { AheadTail(l, i + 1); }
      SpliceTail(l, i, t, timeout - Ahead(l, i));
      hide Ahead, Splice;
      PlaceAt(l[1..], i - 1, t, timeout - l[0].timeout);
    }
  }

  // ----- termination: no timer comes back at once -----

  /** Every timer that a handler starts has an interval of at least 1. */
  ghost predicate Positive(cs: seq<Command>) {
    forall i | 0 <= i < |cs| && cs[i].Start? :: cs[i].timer.interval >= 1
  }

  /** A periodic timer has an interval of at least 1. */
  predicate Advances(t: Timer) {
    t.periodic ==> t.interval >= 1
  }

  ghost predicate PositiveList(l: seq<Slot>) {
    forall i | 0 <= i < |l| :: Advances(l[i].timer)
  }

  /** How many timers are due at once. */
  function DueNow(l: seq<Slot>): nat {
    if l == [] || l[0].timeout > 0 then 0 else 1 + DueNow(l[1..])
  }

  lemma {:induction false} PlaceDue(l: seq<Slot>, t: Timer, timeout: nat)
    requires timeout >= 1 && PositiveList(l) && Advances(t)
    ensures DueNow(Place(l, t, timeout)) == DueNow(l) && PositiveList(Place(l, t, timeout))
  {
    if l != [] && timeout >= l[0].timeout && timeout - l[0].timeout >= 1 {
      PlaceDue(l[1..], t, timeout - l[0].timeout);
    } else if l != [] && timeout == l[0].timeout {
      PlacePositive(l[1..], t, 0);
    }
  }

  lemma {:induction false} PlacePositive(l: seq<Slot>, t: Timer, timeout: nat)
    requires PositiveList(l) && Advances(t)
    ensures PositiveList(Place(l, t, timeout))
  {
    if l != [] && timeout >= l[0].timeout {
      PlacePositive(l[1..], t, timeout - l[0].timeout);
    }
  }

  lemma {:induction false} RemoveDue(l: seq<Slot>, t: Timer)
    requires PositiveList(l)
    ensures DueNow(Remove(l, t)) <= DueNow(l) && PositiveList(Remove(l, t))
  {
    if l != [] && l[0].timer != t {
      RemoveDue(l[1..], t);
    }
  }

  lemma {:induction false} PerformDue(l: seq<Slot>, cs: seq<Command>)
    requires PositiveList(l) && Positive(cs)
    ensures DueNow(PerformAll(l, cs)) <= DueNow(l) && PositiveList(PerformAll(l, cs))
    decreases |cs|
  {
    if cs != [] {
      match cs[0] {
        case Start(t) => PlaceDue(l, t, t.interval);
        case Stop(t) => RemoveDue(l, t);
      }
      PerformDue(Perform(l, cs[0]), cs[1..]);
    }
  }

  lemma FireDue(l: seq<Slot>, cs: seq<Command>)
    requires l != [] && PositiveList(l) && Positive(cs)
    ensures PositiveList(Fire(l, cs))
    ensures l[0].timeout == 0 ==> DueNow(Fire(l, cs)) < DueNow(l)
  {
    var t := l[0].timer;
    if t.periodic { PlaceDue(l[1..], t, t.interval); }
    PerformDue(Rearm(l), cs);
  }

  ghost predicate Handlers(h: nat -> seq<Command>) {
    forall n: nat :: Positive(h(n))
  }

  /** SYS_TimerTaskHandler: `elapsed` ms are consumed; the handler of the n-th firing does `h(n)`.
      The result is the list and the timers that fired, in order. It ends whatever the handlers
      start or stop. */
  ghost function Consume(l: seq<Slot>, elapsed: nat, h: nat -> seq<Command>, n: nat := 0)
      : (r: (seq<Slot>, seq<Timer>))
    requires PositiveList(l) && Handlers(h)
    decreases elapsed, DueNow(l)
  {
    if l == [] then (l, [])
    else if l[0].timeout > elapsed then (l[0 := l[0].(timeout := l[0].timeout - elapsed)], [])
    else
      FireDue(l, h(n));
      var (rest, fired) := Consume(Fire(l, h(n)), elapsed - l[0].timeout, h, n + 1);
      (rest, [l[0].timer] + fired)
  }

  lemma ConsumeStep(l: seq<Slot>, elapsed: nat, h: nat -> seq<Command>, n: nat, fired: seq<Timer>)
    requires PositiveList(l) && Handlers(h) && l != [] && l[0].timeout <= elapsed
    ensures PositiveList(Fire(l, h(n)))
    ensures l[0].timeout == 0 ==> DueNow(Fire(l, h(n))) < DueNow(l)
    ensures Consume(l, elapsed, h, n).0 == Consume(Fire(l, h(n)), elapsed - l[0].timeout, h, n + 1).0
    ensures fired + Consume(l, elapsed, h, n).1 ==
            fired + [l[0].timer] + Consume(Fire(l, h(n)), elapsed - l[0].timeout, h, n + 1).1
  {
    FireDue(l, h(n));
  }

  lemma ConsumeStop(l: seq<Slot>, elapsed: nat, h: nat -> seq<Command>, n: nat, fired: seq<Timer>)
    requires PositiveList(l) && Handlers(h) && (l == [] || l[0].timeout > elapsed)
    ensures Consume(l, elapsed, h, n).0 ==
            if l == [] then [] else l[0 := l[0].(timeout := l[0].timeout - elapsed)]
    ensures fired + Consume(l, elapsed, h, n).1 == fired
  {
  }

  // ----- the meaning: absolute deadlines -----

  datatype Due = Due(timer: Timer, at: nat)

  /** The absolute deadlines of a list that counts from `now`. */
  function Deadlines(l: seq<Slot>, now: nat): (r: seq<Due>)
    ensures |r| == |l|
  {
    if l == [] then [] else [Due(l[0].timer, now + l[0].timeout)] + Deadlines(l[1..], now + l[0].timeout)
  }

  /** Insertion by deadline, after equal ones. */
  function Insert(q: seq<Due>, d: Due): (r: seq<Due>)
    ensures |r| == |q| + 1
  {
    if q == [] || d.at < q[0].at then [d] + q else [q[0]] + Insert(q[1..], d)
  }

  function Delete(q: seq<Due>, t: Timer): seq<Due> {
    if q == [] then [] else if q[0].timer == t then q[1..] else [q[0]] + Delete(q[1..], t)
  }

  /** The map that the queue stands for: the deadline of each timer that waits. */
  function Deadline(q: seq<Due>, t: Timer): Option<nat> {
    if q == [] then None else if q[0].timer == t then Some(q[0].at) else Deadline(q[1..], t)
  }

  /** A timer is placed at its interval from now, and no other deadline moves. */
  lemma {:induction false} PlaceRefines(l: seq<Slot>, t: Timer, timeout: nat, now: nat)
    ensures Deadlines(Place(l, t, timeout), now) == Insert(Deadlines(l, now), Due(t, now + timeout))
  {
    if l != [] {
      if timeout < l[0].timeout {
        var r := Place(l, t, timeout);
        assert r[1..] == [l[0].(timeout := l[0].timeout - timeout)] + l[1..];
        assert r[1..][1..] == l[1..];
      } else {
        PlaceRefines(l[1..], t, timeout - l[0].timeout, now + l[0].timeout);
      }
    }
  }

  /** A timer is taken out, and no other deadline moves. */
  lemma {:induction false} RemoveRefines(l: seq<Slot>, t: Timer, now: nat)
    ensures Deadlines(Remove(l, t), now) == Delete(Deadlines(l, now), t)
  {
    if l != [] {
      if l[0].timer == t {
        if |l| > 1 {
          assert Remove(l, t)[1..] == l[2..] == l[1..][1..];
        }
      } else {
        RemoveRefines(l[1..], t, now + l[0].timeout);
      }
    }
  }

  lemma {:induction false} StartedRefines(l: seq<Slot>, now: nat, t: Timer)
    ensures Started(l, t) <==> Deadline(Deadlines(l, now), t).Some?
  {
    if l != [] {
      assert Deadlines(l, now)[1..] == Deadlines(l[1..], now + l[0].timeout);
      StartedRefines(l[1..], now + l[0].timeout, t);
    }
  }

  function Do(q: seq<Due>, now: nat, c: Command): seq<Due> {
    match c
    case Start(t) => if Deadline(q, t).Some? then q else Insert(q, Due(t, now + t.interval))
    case Stop(t) => Delete(q, t)
  }

  function DoAll(q: seq<Due>, now: nat, cs: seq<Command>): seq<Due>
    decreases |cs|
  {
    if cs == [] then q else DoAll(Do(q, now, cs[0]), now, cs[1..])
  }

  lemma {:induction false} PerformRefines(l: seq<Slot>, now: nat, cs: seq<Command>)
    ensures Deadlines(PerformAll(l, cs), now) == DoAll(Deadlines(l, now), now, cs)
    decreases |cs|
  {
    if cs != [] {
      match cs[0] {
        case Start(t) => StartedRefines(l, now, t); PlaceRefines(l, t, t.interval, now);
        case Stop(t) => RemoveRefines(l, t, now);
      }
      PerformRefines(Perform(l, cs[0]), now, cs[1..]);
    }
  }

  /** The queue once its first timer reached its deadline: a periodic timer is due again one
      interval after that deadline. */
  function RearmAt(q: seq<Due>): seq<Due>
    requires q != []
  {
    if q[0].timer.periodic then Insert(q[1..], Due(q[0].timer, q[0].at + q[0].timer.interval)) else q[1..]
  }

  /** ... and its handler ran, whose starts also count from that deadline. */
  function FireAt(q: seq<Due>, cs: seq<Command>): seq<Due>
    requires q != []
  {
    DoAll(RearmAt(q), q[0].at, cs)
  }

  lemma RearmRefines(l: seq<Slot>, now: nat)
    requires l != []
    ensures Deadlines(Rearm(l), now + l[0].timeout) == RearmAt(Deadlines(l, now))
  {
    assert Deadlines(l, now)[1..] == Deadlines(l[1..], now + l[0].timeout);
    PlaceRefines(l[1..], l[0].timer, l[0].timer.interval, now + l[0].timeout);
  }

  lemma FireRefines(l: seq<Slot>, now: nat, cs: seq<Command>)
    requires l != []
    ensures Deadlines(Fire(l, cs), now + l[0].timeout) == FireAt(Deadlines(l, now), cs)
  {
    RearmRefines(l, now);
    PerformRefines(Rearm(l), now + l[0].timeout, cs);
  }

  /** The reference: up to time `end`, the first timer of the queue fires at its deadline. `log`
      is the run of the n-th firing and later ones; it is as long as the run lasts. */
  ghost predicate FiresUntil(q: seq<Due>, end: nat, h: nat -> seq<Command>, n: nat,
                                log: seq<Due>, final: seq<Due>)
    decreases |log|
  {
    if log == [] then final == q && (q == [] || q[0].at > end)
    else q != [] && q[0].at <= end && log[0] == q[0] && FiresUntil(FireAt(q, h(n)), end, h, n + 1, log[1..], final)
  }

  function Timers(log: seq<Due>): (r: seq<Timer>)
    ensures |r| == |log|
  {
    if log == [] then [] else [log[0].timer] + Timers(log[1..])
  }

  /** SYS_TimerTaskHandler refines the reference: it fires the same timers in the same order, and what
      it leaves are the deadlines that the reference leaves. */
  lemma {:induction false} ConsumeRefines(l: seq<Slot>, now: nat, elapsed: nat,
                                             h: nat -> seq<Command>, n: nat) returns (log: seq<Due>)
    requires PositiveList(l) && Handlers(h)
    ensures var (rest, fired) := Consume(l, elapsed, h, n);
            && Timers(log) == fired
            && FiresUntil(Deadlines(l, now), now + elapsed, h, n, log, Deadlines(rest, now + elapsed))
    decreases elapsed, DueNow(l)
  {
    hide Fire, FireAt;
    if l == [] || l[0].timeout > elapsed {
      log := [];
      if l != [] {
        var rest := Consume(l, elapsed, h, n).0;
        assert rest[1..] == l[1..];
      }
    } else {
      FireDue(l, h(n));
      FireRefines(l, now, h(n));
      var at := now + l[0].timeout;
      var tail := ConsumeRefines(Fire(l, h(n)), at, elapsed - l[0].timeout, h, n + 1);
      log := [Due(l[0].timer, at)] + tail;
      assert log[1..] == tail;
    }
  }

  // ----- what the reference guarantees -----

  /** A queue from `now` on: in order, no timer twice, nothing overdue. */
  predicate Proper(q: seq<Due>, now: nat) {
    q != [] ==> q[0].at >= now && Deadline(q[1..], q[0].timer).None? && Proper(q[1..], q[0].at)
  }

  lemma {:induction false} ProperEarlier(q: seq<Due>, now: nat, then': nat)
    requires Proper(q, now) && then' <= now
    ensures Proper(q, then')
  {
  }

  /** Placing a timer changes its own deadline and no other. */
  lemma {:induction false} InsertDeadline(q: seq<Due>, d: Due, t: Timer)
    requires Deadline(q, d.timer).None?
    ensures Deadline(Insert(q, d), t) == if t == d.timer then Some(d.at) else Deadline(q, t)
  {
    if q != [] && d.at >= q[0].at {
      InsertDeadline(q[1..], d, t);
    }
  }

  lemma {:induction false} InsertProper(q: seq<Due>, d: Due, now: nat)
    requires Proper(q, now) && d.at >= now && Deadline(q, d.timer).None?
    ensures Proper(Insert(q, d), now)
  {
    if q != [] && d.at >= q[0].at {
      InsertProper(q[1..], d, q[0].at);
      InsertDeadline(q[1..], d, q[0].timer);
    }
  }

  /** A placed timer goes after every equal deadline and before every later one. */
  lemma {:induction false} InsertPlace(q: seq<Due>, d: Due, now: nat) returns (k: nat)
    requires Proper(q, now)
    ensures k <= |q| && Insert(q, d) == q[..k] + [d] + q[k..]
    ensures forall i | 0 <= i < k :: q[i].at <= d.at
    ensures k < |q| ==> d.at < q[k].at
  {
    k := 0;
    if q != [] && d.at >= q[0].at {
      var m := InsertPlace(q[1..], d, q[0].at);
      k := m + 1;
      assert q[..k] == [q[0]] + q[1..][..m] && q[k..] == q[1..][m..];
    }
  }

  /** Removing a timer forgets its deadline and no other. */
  lemma {:induction false} DeleteDeadline(q: seq<Due>, now: nat, t: Timer, u: Timer)
    requires Proper(q, now)
    ensures Deadline(Delete(q, t), u) == if u == t then None else Deadline(q, u)
  {
    if q != [] && q[0].timer != t {
      DeleteDeadline(q[1..], q[0].at, t, u);
    }
  }

  lemma {:induction false} DeleteProper(q: seq<Due>, t: Timer, now: nat)
    requires Proper(q, now)
    ensures Proper(Delete(q, t), now)
  {
    if q != [] {
      if q[0].timer == t {
        ProperEarlier(q[1..], q[0].at, now);
      } else {
        DeleteProper(q[1..], t, q[0].at);
        DeleteDeadline(q[1..], q[0].at, t, q[0].timer);
      }
    }
  }

  lemma {:induction false} DoAllProper(q: seq<Due>, now: nat, cs: seq<Command>)
    requires Proper(q, now)
    ensures Proper(DoAll(q, now, cs), now)
    decreases |cs|
  {
    if cs != [] {
      match cs[0] {
        case Start(t) => if Deadline(q, t).None? { InsertProper(q, Due(t, now + t.interval), now); }
        case Stop(t) => DeleteProper(q, t, now);
      }
      DoAllProper(Do(q, now, cs[0]), now, cs[1..]);
    }
  }

  lemma RearmProper(q: seq<Due>, now: nat)
    requires q != [] && Proper(q, now)
    ensures Proper(RearmAt(q), q[0].at)
  {
    InsertProper(q[1..], Due(q[0].timer, q[0].at + q[0].timer.interval), q[0].at);
  }

  predicate Names(cs: seq<Command>, t: Timer) {
    cs != [] && (cs[0].timer == t || Names(cs[1..], t))
  }

  /** Commands about other timers do not move a deadline. */
  lemma {:induction false} DoAllDeadline(q: seq<Due>, now: nat, cs: seq<Command>, t: Timer)
    requires Proper(q, now) && !Names(cs, t)
    ensures Deadline(DoAll(q, now, cs), t) == Deadline(q, t)
    decreases |cs|
  {
    if cs != [] {
      DoAllProper(q, now, [cs[0]]);
      assert DoAll(q, now, [cs[0]]) == Do(q, now, cs[0]);
      match cs[0] {
        case Start(u) => if Deadline(q, u).None? { InsertDeadline(q, Due(u, now + u.interval), t); }
        case Stop(u) => DeleteDeadline(q, now, u, t);
      }
      DoAllDeadline(Do(q, now, cs[0]), now, cs[1..], t);
    }
  }

  /** The times at which a timer fired. */
  function TimesOf(log: seq<Due>, t: Timer): seq<nat> {
    if log == [] then []
    else (if log[0].timer == t then [log[0].at] else []) + TimesOf(log[1..], t)
  }

  ghost predicate LeftAlone(h: nat -> seq<Command>, n: nat, t: Timer) {
    forall k: nat | k >= n :: !Names(h(k), t)
  }

  /** When a timer with deadline `d` that nobody starts or stops fires up to `end`. */
  function Firings(t: Timer, d: nat, end: nat): seq<nat>
    requires Advances(t)
    decreases end - d
  {
    if d > end then [] else if t.periodic then [d] + Firings(t, d + t.interval, end) else [d]
  }

  /** The deadline that is left then. */
  function NextDeadline(t: Timer, d: nat, end: nat): Option<nat>
    requires Advances(t)
    decreases end - d
  {
    if d > end then Some(d) else if t.periodic then NextDeadline(t, d + t.interval, end) else None
  }

  /** The i-th number after `d` in steps of `p`. */
  function Nth(d: nat, p: nat, i: nat): nat
    decreases i
  {
    if i == 0 then d else Nth(d + p, p, i - 1)
  }

  lemma {:induction false} NthIs(d: nat, p: nat, i: nat)
    ensures Nth(d, p, i) == d + i * p
    decreases i
  {
    if i > 0 {
      NthIs(d + p, p, i - 1);
      assert (i - 1) * p + p == i * p;
    }
  }

  lemma {:induction false} FiringTimes(t: Timer, d: nat, end: nat)
    requires t.interval >= 1 && t.periodic
    ensures forall i | 0 <= i < |Firings(t, d, end)| :: Firings(t, d, end)[i] == Nth(d, t.interval, i)
    ensures NextDeadline(t, d, end) == Some(Nth(d, t.interval, |Firings(t, d, end)|))
    decreases end - d
  {
    if d <= end {
      FiringTimes(t, d + t.interval, end);
    }
  }

  lemma {:induction false} FiringCount(t: Timer, d: nat, end: nat)
    requires t.interval >= 1 && t.periodic
    ensures |Firings(t, d, end)| == if d <= end then (end - d) / t.interval + 1 else 0
    decreases end - d
  {
    if d <= end {
      var p := t.interval;
      FiringCount(t, d + p, end);
      if d + p <= end {
        QuotientStep(end - (d + p), p);
        assert end - (d + p) + p == end - d;
      } else {
        QuotientSmall(end - d, p);
      }
    }
  }

  /** A periodic timer fires (end - d) / p + 1 times and does not drift. */
  lemma NoDrift(t: Timer, d: nat, end: nat)
    requires t.interval >= 1 && t.periodic
    ensures var r := Firings(t, d, end);
            && |r| == (if d <= end then (end - d) / t.interval + 1 else 0)
            && (forall i | 0 <= i < |r| :: r[i] == d + i * t.interval)
            && NextDeadline(t, d, end) == Some(d + |r| * t.interval)
  {
    var r := Firings(t, d, end);
    FiringCount(t, d, end);
    FiringTimes(t, d, end);
    NthIs(d, t.interval, |r|);
    forall i | 0 <= i < |r| ensures r[i] == d + i * t.interval { NthIs(d, t.interval, i); }
  }

  lemma QuotientSmall(x: nat, p: nat)
    requires x < p
    ensures x / p == 0
  {
  }

  lemma {:induction false} MoreMultiples(a: nat, b: nat, p: nat)
    requires a > b
    ensures a * p >= b * p + p
  {
    assert a * p == (a - 1) * p + p;
    if a - 1 > b { MoreMultiples(a - 1, b, p); }
  }

  lemma QuotientUnique(x: nat, p: nat, k: nat, q: nat)
    requires k * p <= x < k * p + p && q * p <= x < q * p + p
    ensures q == k
  {
    if q > k { MoreMultiples(q, k, p); } else if q < k { MoreMultiples(k, q, p); }
  }

  lemma QuotientStep(y: nat, p: nat)
    requires p >= 1
    ensures (y + p) / p == y / p + 1
  {
    var q := y / p;
    assert q * p <= y < q * p + p;
    assert (q + 1) * p == q * p + p;
    QuotientUnique(y + p, p, q + 1, (y + p) / p);
  }

  /** Timers fire in order of deadline, none early and none late, and nothing that is left is due. */
  lemma {:induction false} FiresInOrder(q: seq<Due>, now: nat, end: nat, h: nat -> seq<Command>,
                                           n: nat, log: seq<Due>, final: seq<Due>)
    requires Proper(q, now) && now <= end && FiresUntil(q, end, h, n, log, final)
    ensures forall i | 0 <= i < |log| :: now <= log[i].at <= end
    ensures forall i, j | 0 <= i < j < |log| :: log[i].at <= log[j].at
    ensures Proper(final, end) && (final != [] ==> final[0].at > end)
    decreases |log|
  {
    if log == [] {
    } else {
      RearmProper(q, now);
      DoAllProper(RearmAt(q), q[0].at, h(n));
      FiresInOrder(FireAt(q, h(n)), q[0].at, end, h, n + 1, log[1..], final);
      forall i | 0 < i < |log| ensures q[0].at <= log[i].at <= end { assert log[i] == log[1..][i - 1]; }
      forall i, j | 0 < i < j < |log| ensures log[i].at <= log[j].at {
        assert log[i] == log[1..][i - 1] && log[j] == log[1..][j - 1];
      }
    }
  }

  /** From deadline `before`, firing at `times` and ending with deadline `after`, is what a timer
      does by itself up to `end`. */
  predicate OnTime(t: Timer, before: Option<nat>, times: seq<nat>, after: Option<nat>, end: nat)
    requires Advances(t)
  {
    match before
    case None => times == [] && after == None
    case Some(d) => times == Firings(t, d, end) && after == NextDeadline(t, d, end)
  }

  lemma RearmDeadline(q: seq<Due>, now: nat, cs: seq<Command>, t: Timer)
    requires q != [] && Proper(q, now) && !Names(cs, t)
    ensures Proper(FireAt(q, cs), q[0].at)
    ensures Deadline(FireAt(q, cs), t) ==
            if t != q[0].timer then Deadline(q, t)
            else if t.periodic then Some(q[0].at + t.interval)
            else None
  {
    RearmProper(q, now);
    DoAllProper(RearmAt(q), q[0].at, cs);
    DoAllDeadline(RearmAt(q), q[0].at, cs, t);
    InsertDeadline(q[1..], Due(q[0].timer, q[0].at + q[0].timer.interval), t);
  }

  /** A timer that no handler starts or stops fires exactly at its deadline and, if periodic, at
      every interval after that; a timer that is not due keeps its deadline. */
  lemma {:induction false} FiresOnTime(q: seq<Due>, now: nat, end: nat, h: nat -> seq<Command>,
                                          n: nat, log: seq<Due>, final: seq<Due>, t: Timer)
    requires Proper(q, now) && now <= end && FiresUntil(q, end, h, n, log, final)
    requires LeftAlone(h, n, t) && Advances(t)
    ensures OnTime(t, Deadline(q, t), TimesOf(log, t), Deadline(final, t), end)
    decreases |log|
  {
    if log == [] {
      DueLater(q, now, end, t);
    } else {
      RearmDeadline(q, now, h(n), t);
      FiresOnTime(FireAt(q, h(n)), q[0].at, end, h, n + 1, log[1..], final, t);
    }
  }

  lemma {:induction false} DueLater(q: seq<Due>, now: nat, end: nat, t: Timer)
    requires Proper(q, now) && (q == [] || q[0].at > end)
    ensures Deadline(q, t).Some? ==> Deadline(q, t).value > end
  {
    if q != [] && q[0].timer != t && q[1..] != [] {
      DueLater(q[1..], q[0].at, end, t);
    }
  }

  // ----- no wrap-around -----

  /** The sum of the timeouts: the last deadline, counted from now. */
  function Span(l: seq<Slot>): nat {
    if l == [] then 0 else l[0].timeout + Span(l[1..])
  }

  lemma {:induction false} PlaceSpan(l: seq<Slot>, t: Timer, timeout: nat)
    ensures Span(Place(l, t, timeout)) == Max(Span(l), timeout)
  {
    if l != [] {
      if timeout < l[0].timeout {
        var r := Place(l, t, timeout);
        assert r[1..][1..] == l[1..];
      } else {
        PlaceSpan(l[1..], t, timeout - l[0].timeout);
      }
    }
  }

  lemma {:induction false} RemoveSpan(l: seq<Slot>, t: Timer)
    ensures Span(Remove(l, t)) <= Span(l)
  {
    if l != [] {
      if l[0].timer != t {
        RemoveSpan(l[1..], t);
      } else if |l| > 1 {
        assert Remove(l, t)[1..] == l[1..][1..];
      }
    }
  }

  /** No interval is longer than `limit`. */
  ghost predicate Within(limit: nat, cs: seq<Command>) {
    forall i | 0 <= i < |cs| :: cs[i].timer.interval <= limit
  }

  lemma {:induction false} PerformSpan(l: seq<Slot>, cs: seq<Command>, limit: nat)
    requires Span(l) <= limit && Within(limit, cs)
    ensures Span(PerformAll(l, cs)) <= limit
    decreases |cs|
  {
    if cs != [] {
      match cs[0] {
        case Start(t) => PlaceSpan(l, t, t.interval);
        case Stop(t) => RemoveSpan(l, t);
      }
      PerformSpan(Perform(l, cs[0]), cs[1..], limit);
    }
  }

  ghost predicate WithinList(limit: nat, l: seq<Slot>) {
    forall i | 0 <= i < |l| :: l[i].timer.interval <= limit
  }

  lemma {:induction false} PlaceWithin(l: seq<Slot>, t: Timer, timeout: nat, limit: nat)
    requires WithinList(limit, l) && t.interval <= limit
    ensures WithinList(limit, Place(l, t, timeout))
  {
    if l != [] && timeout >= l[0].timeout {
      PlaceWithin(l[1..], t, timeout - l[0].timeout, limit);
    }
  }

  lemma {:induction false} RemoveWithin(l: seq<Slot>, t: Timer, limit: nat)
    requires WithinList(limit, l)
    ensures WithinList(limit, Remove(l, t))
  {
    if l != [] && l[0].timer != t {
      RemoveWithin(l[1..], t, limit);
    }
  }

  lemma {:induction false} PerformWithin(l: seq<Slot>, cs: seq<Command>, limit: nat)
    requires WithinList(limit, l) && Within(limit, cs)
    ensures WithinList(limit, PerformAll(l, cs))
    decreases |cs|
  {
    if cs != [] {
      match cs[0] {
        case Start(t) => PlaceWithin(l, t, t.interval, limit);
        case Stop(t) => RemoveWithin(l, t, limit);
      }
      PerformWithin(Perform(l, cs[0]), cs[1..], limit);
    }
  }

  /** Every list that SYS_TimerTaskHandler forms, from the one it finds to the one it leaves, spans at
      most `limit`: before and after each firing, and between any two commands of a handler. */
  ghost predicate StaysWithin(limit: nat, l: seq<Slot>, elapsed: nat, h: nat -> seq<Command>, n: nat)
    requires PositiveList(l) && Handlers(h)
    decreases elapsed, DueNow(l)
  {
    && Span(l) <= limit
    && (if l == [] || l[0].timeout > elapsed then Span(Consume(l, elapsed, h, n).0) <= limit
        else
          FireDue(l, h(n));
          && Span(l[1..]) <= limit
          && (forall k | 0 <= k <= |h(n)| :: Span(PerformAll(Rearm(l), h(n)[..k])) <= limit)
          && StaysWithin(limit, Fire(l, h(n)), elapsed - l[0].timeout, h, n + 1))
  }

  /** If every interval is at most `limit`, so is every sum of timeouts that the handler can form, all
      through its run: with 32-bit intervals no timeout wraps around. */
  lemma {:induction false} ConsumeSpan(l: seq<Slot>, elapsed: nat, h: nat -> seq<Command>, n: nat, limit: nat)
    requires PositiveList(l) && Handlers(h)
    requires Span(l) <= limit && WithinList(limit, l) && forall k: nat :: Within(limit, h(k))
    ensures StaysWithin(limit, l, elapsed, h, n)
    decreases elapsed, DueNow(l)
  {
    if l == [] {
    } else if l[0].timeout > elapsed {
      var r := Consume(l, elapsed, h, n).0;
      assert r[1..] == l[1..];
    } else {
      var cs := h(n);
      FireDue(l, cs);
      PlaceSpan(l[1..], l[0].timer, l[0].timer.interval);
      PlaceWithin(l[1..], l[0].timer, l[0].timer.interval, limit);
      forall k | 0 <= k <= |cs| ensures Span(PerformAll(Rearm(l), cs[..k])) <= limit {
        PerformSpan(Rearm(l), cs[..k], limit);
      }
      PerformWithin(Rearm(l), cs, limit);
      assert cs[..|cs|] == cs;
      ConsumeSpan(Fire(l, cs), elapsed - l[0].timeout, h, n + 1, limit);
    }
  }

  /** One call of SYS_TimerTaskHandler: timers fire in order of deadline, each left-alone timer exactly
      on time, and every deadline that is left lies in the future. */
  lemma TaskFiresOnTime(l: seq<Slot>, now: nat, elapsed: nat, h: nat -> seq<Command>)
      returns (log: seq<Due>)
    requires PositiveList(l) && Handlers(h) && Proper(Deadlines(l, now), now)
    ensures var (rest, fired) := Consume(l, elapsed, h);
            var after := Deadlines(rest, now + elapsed);
            && Timers(log) == fired
            && (forall i, j | 0 <= i < j < |log| :: log[i].at <= log[j].at)
            && Proper(after, now + elapsed) && (after != [] ==> after[0].at > now + elapsed)
            && forall t | LeftAlone(h, 0, t) && Advances(t) ::
                 OnTime(t, Deadline(Deadlines(l, now), t), TimesOf(log, t), Deadline(after, t), now + elapsed)
  {
    log := ConsumeRefines(l, now, elapsed, h, 0);
    var after := Deadlines(Consume(l, elapsed, h).0, now + elapsed);
    FiresInOrder(Deadlines(l, now), now, now + elapsed, h, 0, log, after);
    forall t | LeftAlone(h, 0, t) && Advances(t)
      ensures OnTime(t, Deadline(Deadlines(l, now), t), TimesOf(log, t), Deadline(after, t), now + elapsed)
    {
      FiresOnTime(Deadlines(l, now), now, now + elapsed, h, 0, log, after, t);
    }
  }
}
