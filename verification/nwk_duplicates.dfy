/** Duplicate rejection (nwkRx.c): 8-bit sliding windows that stand for unbounded sets of frame numbers. */
module Duplicates {
  import opened Types

  const TABLE_SIZE: nat := 10
  /** NWK_DUPLICATE_REJECTION_TTL / timer interval + 1 */
  const ENTRY_TTL: nat := 3000 / 100 + 1

  datatype Entry = Entry(src: Word, seqNo: Byte, mask: bv8, ttl: Byte) {
    predicate Live() { ttl > 0 }
  }

  datatype Verdict = Repeated | NoRoom | Accepted(created: bool)

  /** The table after nwkRxInit. */
  function EmptyTable(): (t: seq<Entry>)
    ensures |t| == TABLE_SIZE && forall i | 0 <= i < |t| :: !t[i].Live()
  {
    seq(TABLE_SIZE, _ => Entry(0, 0, 0, 0))
  }

  // ----- one window -----

  predicate Bit(mask: bv8, d: nat)
    requires d < 8
  {
    (mask >> d) & 1 == 1
  }

  function SetBit(mask: bv8, d: nat): bv8
    requires d < 8
  {
    mask | ((1 as bv8) << d)
  }

  /** `mask << shift`, truncated to a byte; every shift of 8 or more empties the byte. */
  function ShiftLeft(mask: bv8, shift: nat): bv8 {
    if shift < 8 then mask << shift else 0
  }

  /** `(int8_t)entry->seq - header->nwkSeq`, kept in a byte. */
  function Diff(newest: Byte, n: Byte): Byte {
    ToByte(ToInt8(newest) - n)
  }

  /** `-(int8_t)diff`, kept in a byte. */
  function Shift(diff: Byte): Byte {
    ToByte(-ToInt8(diff))
  }

  /** What a live entry does with the 8-bit number of an arriving frame. */
  function Window(e: Entry, n: Byte): (r: (Entry, bool)) {
    var diff := Diff(e.seqNo, n);
    if diff < 8 then
      if Bit(e.mask, diff) then (e, false)
      else (e.(mask := SetBit(e.mask, diff)), true)
    else
      (e.(seqNo := n, mask := ShiftLeft(e.mask, Shift(diff)) | 1, ttl := ENTRY_TTL), true)
  }

  /** The meaning of a window: `accepted` are the unbounded numbers accepted since the entry
      was created, `max` the largest of them. */
  ghost predicate Tracks(e: Entry, accepted: set<nat>, max: nat) {
    && max in accepted
    && (forall a <- accepted :: a <= max)
    && e.seqNo == max % 0x100
    && forall d: nat | d < 8 :: Bit(e.mask, d) <==> (d <= max && (max - d) in accepted)
  }

  /** How far, relative to the largest accepted number, an arrival may lie for the window to
      be exact: up to 7 back, up to 248 ahead, and further jumps whose residue is 8..248. */
  predicate InReach(jump: int) {
    -7 <= jump <= 248 || (jump >= 0x100 && 8 <= jump % 0x100 <= 248)
  }

  lemma BitsOfSet(m: bv8, d: nat, k: nat)
    requires d < 8 && k < 8
    ensures Bit(SetBit(m, d), k) <==> (k == d || Bit(m, k))
  {
    if k == d { SetBitIsSet(m, d); } else { OtherBits(m, d, k); }
  }

  lemma SetBitIsSet(m: bv8, d: nat)
    requires d < 8
    ensures Bit(SetBit(m, d), d)
  {
    if d == 0 {} else if d == 1 {} else if d == 2 {} else if d == 3 {}
    else if d == 4 {} else if d == 5 {} else if d == 6 {} else {}
  }

  lemma OtherBits(m: bv8, d: nat, k: nat)
    requires d < 8 && k < 8 && k != d
    ensures Bit(SetBit(m, d), k) <==> Bit(m, k)
  {
    if d == 0 {} else if d == 1 {} else if d == 2 {} else if d == 3 {}
    else if d == 4 {} else if d == 5 {} else if d == 6 {} else {}
  }

  lemma BitsOfShift(m: bv8, s: nat, k: nat)
    requires k < 8 && s > 0
    ensures Bit(ShiftLeft(m, s) | 1, k) <==> (k == 0 || (s <= k && Bit(m, k - s)))
  {
    if s >= 8 {
      if k == 0 {} else if k == 1 {} else if k == 2 {} else if k == 3 {}
      else if k == 4 {} else if k == 5 {} else if k == 6 {} else {}
    } else {
      BitsOfShortShift(m, s, k);
    }
  }

  lemma BitsOfShortShift(m: bv8, s: nat, k: nat)
    requires k < 8 && 0 < s < 8
    ensures Bit((m << s) | 1, k) <==> (k == 0 || (s <= k && Bit(m, k - s)))
  {
    if k == 0 {} else if s == 1 {} else if s == 2 {} else if s == 3 {}
    else if s == 4 {} else if s == 5 {} else if s == 6 {} else {}
  }

  /** The 8-bit differences are the differences of the unbounded numbers modulo 256. */
  lemma DiffMeans(max: nat, n: nat)
    ensures Diff(max % 0x100, n % 0x100) == (max - n) % 0x100
  {
    var a, b := max % 0x100, n % 0x100;
    var quotients := max / 0x100 - n / 0x100;
    assert max - n == (a - b) + 0x100 * quotients;
    ModuloPeriod(a - b, quotients);
    ModuloPeriod(a - b, -1);
  }

  lemma ModuloPeriod(x: int, k: int)
    ensures (x + 0x100 * k) % 0x100 == x % 0x100
  {}

  lemma Opposite(x: int)
    ensures (-x) % 0x100 == if x % 0x100 == 0 then 0 else 0x100 - x % 0x100
  {
    var q, r := x / 0x100, x % 0x100;
    assert -x == 0x100 * (-q - 1) + (0x100 - r);
  }

  lemma ShiftMeans(max: nat, n: nat)
    requires 8 <= (max - n) % 0x100
    ensures Shift((max - n) % 0x100) == (n - max) % 0x100
  {
    var diff := (max - n) % 0x100;
    Opposite(max - n);
    assert -(max - n) == n - max;
    assert Shift(diff) == 0x100 - diff;
  }

  lemma ShortDistance(max: nat, n: nat)
    requires InReach(n - max)
    ensures n <= max ==> (max - n) % 0x100 == max - n < 8
    ensures n > max ==>
      var shift := (n - max) % 0x100;
      && 8 <= (max - n) % 0x100
      && 0 < shift <= n - max && (n - max == shift || shift >= 8)
  {}

  /** One arrival within reach: the 8-bit decision is the decision on the unbounded set. */
  lemma WindowStep(e: Entry, accepted: set<nat>, max: nat, n: nat)
    requires Tracks(e, accepted, max) && InReach(n - max)
    ensures var (after, ok) := Window(e, n % 0x100);
            && (ok <==> n !in accepted)
            && Tracks(after, accepted + {n}, Max(max, n))
  {
    DiffMeans(max, n);
    ShortDistance(max, n);
    if n <= max {
      OldArrival(e, accepted, max, n, n % 0x100);
    } else {
      ShiftMeans(max, n);
      NewArrival(e, accepted, max, n, n % 0x100, (n - max) % 0x100);
    }
  }

  lemma OldArrival(e: Entry, accepted: set<nat>, max: nat, n: nat, wire: Byte)
    requires Tracks(e, accepted, max)
    requires n <= max < n + 8 && Diff(e.seqNo, wire) == max - n
    ensures var (after, ok) := Window(e, wire);
            (ok <==> n !in accepted) && Tracks(after, accepted + {n}, max)
  {
    var diff := max - n;
    var (after, ok) := Window(e, wire);
    forall d: nat | d < 8
      ensures Bit(after.mask, d) <==> (d <= max && (max - d) in accepted + {n})
    {
      BitsOfSet(e.mask, diff, d);
    }
  }

  lemma NewArrival(e: Entry, accepted: set<nat>, max: nat, n: nat, wire: Byte, shift: nat)
    requires Tracks(e, accepted, max) && n > max && wire == n % 0x100
    requires 8 <= Diff(e.seqNo, wire) && Shift(Diff(e.seqNo, wire)) == shift
    requires 0 < shift <= n - max && (n - max == shift || shift >= 8)
    ensures var (after, ok) := Window(e, wire);
            ok && n !in accepted && Tracks(after, accepted + {n}, n)
  {
    var (after, ok) := Window(e, wire);
    forall d: nat | d < 8
      ensures Bit(after.mask, d) <==> (d <= n && (n - d) in accepted + {n})
    {
      BitsOfShift(e.mask, shift, d);
      if 0 < d < shift && d <= n {
        assert n - d > max;
      }
    }
  }

  /** The window decides `n` rightly, and stays a faithful window, for every history whose
      largest accepted number is `max`. */
  ghost predicate RightForEveryHistory(max: nat, n: nat) {
    forall e, accepted: set<nat> {:trigger Tracks(e, accepted, max)} | Tracks(e, accepted, max) ::
      var (after, ok) := Window(e, n % 0x100);
      (ok <==> n !in accepted) && Tracks(after, accepted + {n}, Max(max, n))
  }

  /** The reach is exact: beyond it some history makes the window wrong. */
  lemma ReachIsExact(max: nat, n: nat)
    ensures RightForEveryHistory(max, n) <==> InReach(n - max)
  {
    if InReach(n - max) {
      forall e, accepted: set<nat> | Tracks(e, accepted, max)
        ensures var (after, ok) := Window(e, n % 0x100);
                (ok <==> n !in accepted) && Tracks(after, accepted + {n}, Max(max, n))
      {
        WindowStep(e, accepted, max, n);
      }
    } else {
      OutOfReachFails(max, n);
    }
  }

  lemma OnlyNewest(max: nat)
    ensures Tracks(Entry(0, max % 0x100, 1, ENTRY_TTL), {max}, max)
  {
    forall d: nat | d < 8 ensures Bit(1, d) <==> d == 0 {
      if d == 0 {} else if d == 1 {} else if d == 2 {} else if d == 3 {}
      else if d == 4 {} else if d == 5 {} else if d == 6 {} else {}
    }
  }

  lemma FarJump(jump: int)
    requires !InReach(jump)
    ensures var rest := jump % 0x100;
            && (jump <= -8 || 249 <= jump)
            && (jump < 0 || rest < 8 || 248 < rest)
  {}

  lemma SameResidue(max: nat, n: nat)
    requires max % 0x100 == n % 0x100
    ensures (max - n) % 0x100 == 0
  {
    assert max - n == 0x100 * (max / 0x100 - n / 0x100);
  }

  lemma FarDistance(max: nat, n: nat)
    requires !InReach(n - max)
    ensures var diff := (max - n) % 0x100;
            && (n + 8 <= max || max + 249 <= n)
            && (diff == 0 || n < max || diff < 8 || (0 < (n - max) % 0x100 < 8 && 0x100 - 8 < diff))
            && (0 < diff ==> max % 0x100 != n % 0x100)
  {
    var jump := n - max;
    FarJump(jump);
    Opposite(jump);
    assert -jump == max - n;
    if max % 0x100 == n % 0x100 { SameResidue(max, n); }
  }

  lemma OutOfReachFails(max: nat, n: nat)
    requires !InReach(n - max)
    ensures !RightForEveryHistory(max, n)
  {
    var e := Entry(0, max % 0x100, 1, ENTRY_TTL);
    OnlyNewest(max);
    DiffMeans(max, n);
    FarDistance(max, n);
    var diff := (max - n) % 0x100;
    if diff < 8 {
      assert Bit(e.mask, diff) <==> diff == 0 && max in {max};
    }
    if diff != 0 && n < max {
      AcceptedTwice(e, max, n);
    } else if diff >= 8 {
      ShiftMeans(max, n);
      StaleBit(e, max, n, (n - max) % 0x100);
    } else {
      // taken for the newest number and rejected, or filed as an old one
      assert Tracks(e, {max}, max);
    }
  }

  /** An old number that was accepted is accepted again. */
  lemma AcceptedTwice(e: Entry, max: nat, n: nat)
    requires Tracks(e, {max}, max) && n + 8 <= max && Diff(e.seqNo, n % 0x100) != 0
    ensures !RightForEveryHistory(max, n)
  {
    assert Tracks(e, {n, max}, max);
    var diff := Diff(e.seqNo, n % 0x100);
    assert diff < 8 ==> !Bit(e.mask, diff);
    assert Window(e, n % 0x100).1;
  }

  /** A jump of 257..263 keeps a bit of the window it leaves behind. */
  lemma StaleBit(e: Entry, max: nat, n: nat, shift: nat)
    requires Tracks(e, {max}, max) && n > max + 248
    requires 0 < shift < 8 <= Diff(e.seqNo, n % 0x100) && Shift(Diff(e.seqNo, n % 0x100)) == shift
    ensures !RightForEveryHistory(max, n)
  {
    var (after, ok) := Window(e, n % 0x100);
    BitsOfShift(e.mask, shift, shift);
    assert Bit(e.mask, 0);
    assert Bit(after.mask, shift) && (n - shift) !in {max} + {n};
    assert !Tracks(after, {max} + {n}, n);
  }

  // ----- whole runs of one window -----

  /** The verdicts of a live entry on the numbers of `arrivals`, in order. */
  function Verdicts(e: Entry, arrivals: seq<nat>): seq<bool>
    decreases |arrivals|
  {
    if arrivals == [] then []
    else
      var (after, ok) := Window(e, arrivals[0] % 0x100);
      [ok] + Verdicts(after, arrivals[1..])
  }

  /** The reference: keep the set, accept what is not in it. */
  function SetVerdicts(accepted: set<nat>, arrivals: seq<nat>): seq<bool>
    decreases |arrivals|
  {
    if arrivals == [] then []
    else [arrivals[0] !in accepted] + SetVerdicts(accepted + {arrivals[0]}, arrivals[1..])
  }

  predicate AllInReach(max: nat, arrivals: seq<nat>)
    decreases |arrivals|
  {
    arrivals == []
    || (InReach(arrivals[0] - max) && AllInReach(Max(max, arrivals[0]), arrivals[1..]))
  }

  /** Over every run the 8-bit window refines the unbounded set. */
  lemma {:induction false} WindowRefinesSet(e: Entry, accepted: set<nat>, max: nat, arrivals: seq<nat>)
    requires Tracks(e, accepted, max) && AllInReach(max, arrivals)
    ensures Verdicts(e, arrivals) == SetVerdicts(accepted, arrivals)
    decreases |arrivals|
  {
    if arrivals != [] {
      WindowStep(e, accepted, max, arrivals[0]);
      var (after, ok) := Window(e, arrivals[0] % 0x100);
      WindowRefinesSet(after, accepted + {arrivals[0]}, Max(max, arrivals[0]), arrivals[1..]);
    }
  }

  // ----- runs that leave the reach -----

  /** The entry created for frame number `n`. */
  function Fresh(n: nat): Entry {
    Entry(0, n % 0x100, 1, ENTRY_TTL)
  }

  /** The entry after a run, and the reference's set and largest number after it. */
  function WindowAfter(e: Entry, arrivals: seq<nat>): Entry
    decreases |arrivals|
  {
    if arrivals == [] then e else WindowAfter(Window(e, arrivals[0] % 0x100).0, arrivals[1..])
  }

  function SetAfter(accepted: set<nat>, arrivals: seq<nat>): set<nat>
    decreases |arrivals|
  {
    if arrivals == [] then accepted else SetAfter(accepted + {arrivals[0]}, arrivals[1..])
  }

  function Newest(max: nat, arrivals: seq<nat>): nat
    decreases |arrivals|
  {
    if arrivals == [] then max else Newest(Max(max, arrivals[0]), arrivals[1..])
  }

  lemma {:induction false} VerdictsSplit(e: Entry, a: seq<nat>, b: seq<nat>)
    ensures Verdicts(e, a + b) == Verdicts(e, a) + Verdicts(WindowAfter(e, a), b) && |Verdicts(e, a)| == |a|
    decreases |a|
  {
    hide Window;
    if a == [] {
      assert a + b == b;
    } else {
      assert (a + b)[1..] == a[1..] + b;
      VerdictsSplit(Window(e, a[0] % 0x100).0, a[1..], b);
    }
  }

  lemma {:induction false} SetVerdictsSplit(accepted: set<nat>, a: seq<nat>, b: seq<nat>)
    ensures SetVerdicts(accepted, a + b) == SetVerdicts(accepted, a) + SetVerdicts(SetAfter(accepted, a), b)
    ensures |SetVerdicts(accepted, a)| == |a|
    decreases |a|
  {
    if a == [] {
      assert a + b == b;
    } else {
      assert (a + b)[1..] == a[1..] + b;
      SetVerdictsSplit(accepted + {a[0]}, a[1..], b);
    }
  }

  /** Numbers from `n` up to `max`, each between 8 and 248 ahead of the one before. */
  function Climb(n: nat, max: nat): seq<nat>
    requires n + 8 <= max
    decreases max - n
  {
    if max - n <= 248 then [max] else [n + 8] + Climb(n + 8, max)
  }

  lemma AheadStep(e: Entry, max: nat, n: nat)
    requires e.seqNo == max % 0x100 && max + 8 <= n <= max + 248
    ensures Window(e, n % 0x100) == (e.(seqNo := n % 0x100, mask := 1, ttl := ENTRY_TTL), true) && InReach(n - max)
  {
    DiffMeans(max, n);
    ShortDistance(max, n);
    ShiftMeans(max, n);
  }

  /** The climb stays in reach, and the window behind it has forgotten where it began. */
  lemma {:induction false} ClimbForgets(e: Entry, accepted: set<nat>, n: nat, max: nat)
    requires e.seqNo == n % 0x100 && n + 8 <= max && n in accepted
    ensures AllInReach(n, Climb(n, max)) && Newest(n, Climb(n, max)) == max
    ensures var after := WindowAfter(e, Climb(n, max)); after.seqNo == max % 0x100 && after.mask == 1
    ensures n in SetAfter(accepted, Climb(n, max))
    decreases max - n
  {
    hide Window, InReach;
    if max - n <= 248 {
      AheadStep(e, n, max);
    } else {
      var first := n + 8;
      AheadStep(e, n, first);
      var after := Window(e, first % 0x100).0;
      ClimbForgets(after, accepted + {first}, first, max);
      StaysAccepted(accepted + {first}, Climb(first, max), n);
      assert Climb(n, max)[0] == first && Climb(n, max)[1..] == Climb(first, max);
    }
  }

  lemma {:induction false} StaysAccepted(accepted: set<nat>, arrivals: seq<nat>, n: nat)
    requires n in accepted
    ensures n in SetAfter(accepted, arrivals)
    decreases |arrivals|
  {
    if arrivals != [] { StaysAccepted(accepted + {arrivals[0]}, arrivals[1..], n); }
  }

  /** A window that knows only its newest number accepts every old number of another residue. */
  lemma FarResidue(e: Entry, max: nat, n: nat)
    requires e.seqNo == max % 0x100 && e.mask == 1
    ensures Window(e, n % 0x100).1 <==> (max - n) % 0x100 != 0
  {
    DiffMeans(max, n);
    OnlyNewest(max);
    hide Bit, Diff, Shift;
    var diff := (max - n) % 0x100;
    if diff < 8 { assert Bit(1, diff) <==> diff == 0; }
  }

  /** It files a new number as an old one when the residue says so. */
  lemma FiledAsOld(e: Entry, max: nat, n: nat)
    requires e.seqNo == max % 0x100 && e.mask == 1 && 0 < (max - n) % 0x100 < 8
    ensures var after := Window(e, n % 0x100).0; after.seqNo == e.seqNo && Bit(after.mask, 0)
  {
    DiffMeans(max, n);
    OnlyNewest(max);
    hide Bit, Diff, Shift;
    BitsOfSet(1, (max - n) % 0x100, 0);
  }

  /** It keeps its bit when a far number seems to be less than 8 ahead. */
  lemma KeepsBit(e: Entry, max: nat, n: nat)
    requires e.seqNo == max % 0x100 && e.mask == 1 && 0x100 - 8 < (max - n) % 0x100
    ensures var after, back := Window(e, n % 0x100).0, 0x100 - (max - n) % 0x100;
            after.seqNo == n % 0x100 && Bit(after.mask, back)
  {
    DiffMeans(max, n);
    ShiftedBit(e, n % 0x100, (max - n) % 0x100);
  }

  lemma NearShift(diff: Byte)
    requires 0x100 - 8 < diff
    ensures Shift(diff) == 0x100 - diff
  {}

  lemma FirstBit()
    ensures Bit(1, 0)
  {}

  lemma ShiftedBit(e: Entry, wire: Byte, diff: Byte)
    requires e.mask == 1 && Diff(e.seqNo, wire) == diff && 0x100 - 8 < diff
    ensures var after := Window(e, wire).0; after.seqNo == wire && Bit(after.mask, 0x100 - diff)
  {
    hide Bit, Diff, Shift, ShiftLeft;
    NearShift(diff);
    FirstBit();
    BitsOfShift(1, 0x100 - diff, 0x100 - diff);
  }

  /** A number whose bit is set is rejected. */
  lemma SetBitRejects(e: Entry, newest: nat, n: nat)
    requires e.seqNo == newest % 0x100 && (newest - n) % 0x100 < 8 && Bit(e.mask, (newest - n) % 0x100)
    ensures !Window(e, n % 0x100).1
  {
    DiffMeans(newest, n);
  }

  /** A run from a new entry on in which the window and the set disagree in the end. */
  predicate Apart(first: nat, arrivals: seq<nat>) {
    Verdicts(Fresh(first), arrivals) != SetVerdicts({first}, arrivals)
  }

  lemma ApartAt(first: nat, arrivals: seq<nat>, n: nat)
    requires Window(WindowAfter(Fresh(first), arrivals), n % 0x100).1 == (n in SetAfter({first}, arrivals))
    ensures Apart(first, arrivals + [n])
  {
    hide Window;
    var e, accepted := WindowAfter(Fresh(first), arrivals), SetAfter({first}, arrivals);
    VerdictsSplit(Fresh(first), arrivals, [n]);
    SetVerdictsSplit({first}, arrivals, [n]);
    var k := |arrivals|;
    assert Verdicts(e, [n])[0] == Window(e, n % 0x100).1 && SetVerdicts(accepted, [n])[0] == (n !in accepted);
    assert Verdicts(Fresh(first), arrivals + [n])[k] == Window(e, n % 0x100).1;
    assert SetVerdicts({first}, arrivals + [n])[k] == (n !in accepted);
  }

  /** `n` and then the numbers `more` in its reach, after a run in reach from a new entry on, get other
      verdicts than from the set. */
  predicate Misjudges(first: nat, arrivals: seq<nat>, max: nat, n: nat, more: seq<nat>) {
    && AllInReach(first, arrivals) && Newest(first, arrivals) == max
    && AllInReach(Max(max, n), more)
    && Apart(first, arrivals + [n] + more)
  }

  lemma NextIsMisjudged(max: nat, n: nat, next: nat)
    requires max < n && InReach(next - n) && next != max && next != n
    requires !Window(Window(Fresh(max), n % 0x100).0, next % 0x100).1
    ensures Misjudges(max, [], max, n, [next])
  {
    hide Window;
    assert [] + [n] == [n] && WindowAfter(Fresh(max), [n]) == Window(Fresh(max), n % 0x100).0;
    assert [n][1..] == [] && [next][1..] == [] && AllInReach(n, [next]);
    assert SetAfter({max}, [n]) == {max, n};
    ApartAt(max, [n], next);
    assert [] + [n] + [next] == [n] + [next];
  }

  /** A number with the residue of the newest one is rejected. */
  lemma SameResidueMisjudged(max: nat, n: nat)
    requires n != max && (max - n) % 0x100 == 0
    ensures Misjudges(max, [], max, n, [])
  {
    hide Window;
    FarResidue(Fresh(max), max, n);
    ApartAt(max, [], n);
    assert [] + [n] + [] == [] + [n];
  }

  /** Any other old number is accepted a second time, once the window has forgotten it. */
  lemma OldMisjudged(max: nat, n: nat)
    requires n + 8 <= max && (max - n) % 0x100 != 0
    ensures Misjudges(n, Climb(n, max), max, n, [])
  {
    hide Window, InReach;
    ClimbForgets(Fresh(n), {n}, n, max);
    FarResidue(WindowAfter(Fresh(n), Climb(n, max)), max, n);
    ApartAt(n, Climb(n, max), n);
    assert Climb(n, max) + [n] + [] == Climb(n, max) + [n];
  }

  /** A new number less than 8 behind by its residue hides the next one that has the residue of the
      newest. */
  lemma FiledAsOldMisjudged(max: nat, n: nat)
    requires max + 8 <= n && 0 < (max - n) % 0x100 < 8
    ensures Misjudges(max, [], max, n, [n + (max - n) % 0x100])
  {
    hide Window;
    var diff := (max - n) % 0x100;
    assert (max - (n + diff)) % 0x100 == 0;
    FiledAsOld(Fresh(max), max, n);
    SetBitRejects(Window(Fresh(max), n % 0x100).0, max, n + diff);
    NextIsMisjudged(max, n, n + diff);
  }

  /** A far number less than 8 ahead by its residue leaves a bit for one that never came. */
  lemma KeptBitMisjudged(max: nat, n: nat)
    requires max + 8 <= n && 0x100 - 8 < (max - n) % 0x100
    ensures n >= 8 && Misjudges(max, [], max, n, [n - (0x100 - (max - n) % 0x100)])
  {
    hide Window;
    var back := 0x100 - (max - n) % 0x100;
    assert (n - (n - back)) % 0x100 == back;
    KeepsBit(Fresh(max), max, n);
    SetBitRejects(Window(Fresh(max), n % 0x100).0, n, n - back);
    NextIsMisjudged(max, n, n - back);
  }

  /** Every jump out of reach goes wrong in some run that was in reach until then: an old number is
      accepted a second time, or a new one is rejected, at once or as the next frame. */
  lemma OutOfReachMisjudges(max: nat, n: nat) returns (first: nat, arrivals: seq<nat>, more: seq<nat>)
    requires !InReach(n - max)
    ensures Misjudges(first, arrivals, max, n, more) && |more| <= 1
  {
    hide Misjudges;
    var diff := (max - n) % 0x100;
    FarDistance(max, n);
    first, arrivals, more := max, [], [];
    if diff == 0 {
      SameResidueMisjudged(max, n);
    } else if n < max {
      first, arrivals := n, Climb(n, max);
      OldMisjudged(max, n);
    } else if diff < 8 {
      more := [n + diff];
      FiledAsOldMisjudged(max, n);
    } else {
      KeptBitMisjudged(max, n);
      more := [n - (0x100 - diff)];
    }
  }

  // ----- the table -----

  /** Index of the first live entry for `src`, searching from `i`. */
  function FindLive(t: seq<Entry>, src: Word, i: nat := 0): (r: Option<nat>)
    requires i <= |t|
    ensures r.Some? ==> i <= r.value < |t| && t[r.value].Live() && t[r.value].src == src
    ensures r.Some? ==> forall k | i <= k < r.value :: !(t[k].Live() && t[k].src == src)
    ensures r.None? ==> forall k | i <= k < |t| :: !(t[k].Live() && t[k].src == src)
    decreases |t| - i
  {
    if i == |t| then None
    else if t[i].Live() && t[i].src == src then Some(i)
    else FindLive(t, src, i + 1)
  }

  /** Index of the last expired entry among the first `n`. */
  function LastExpired(t: seq<Entry>, n: nat): (r: Option<nat>)
    requires n <= |t|
    ensures r.Some? ==> r.value < n && !t[r.value].Live() && forall k | r.value < k < n :: t[k].Live()
    ensures r.None? ==> forall k | 0 <= k < n :: t[k].Live()
  {
    if n == 0 then None
    else if !t[n - 1].Live() then Some(n - 1)
    else LastExpired(t, n - 1)
  }

  /** The table after a frame number `n` arrived from `src`, and the verdict on it. */
  function Arrive(t: seq<Entry>, src: Word, n: Byte): (r: (seq<Entry>, Verdict))
    ensures |r.0| == |t|
  {
    match FindLive(t, src)
    case Some(i) =>
      var (after, ok) := Window(t[i], n);
      (if ok then t[i := after] else t, if ok then Accepted(false) else Repeated)
    case None =>
      match LastExpired(t, |t|)
      case Some(i) => (t[i := Entry(src, n, 1, ENTRY_TTL)], Accepted(true))
      case None => (t, NoRoom)
  }

  /** An entry after one firing of the 100 ms timer. */
  function Older(e: Entry): Entry {
    if e.Live() then e.(ttl := e.ttl - 1) else e
  }

  function Tick(t: seq<Entry>): (r: seq<Entry>)
    ensures |r| == |t|
  {
    seq(|t|, i requires 0 <= i < |t| => Older(t[i]))
  }

  predicate AnyLive(t: seq<Entry>) {
    exists i | 0 <= i < |t| :: t[i].Live()
  }

  ghost predicate DistinctSources(t: seq<Entry>) {
    forall i, j | 0 <= i < j < |t| && t[i].Live() && t[j].Live() :: t[i].src != t[j].src
  }

  /** Per source: the numbers accepted since its entry was created, and the largest one. */
  datatype History = History(accepted: set<nat>, max: nat)

  ghost predicate TableTracks(t: seq<Entry>, h: map<Word, History>) {
    && DistinctSources(t)
    && forall i | 0 <= i < |t| && t[i].Live() ::
         t[i].src in h && Tracks(t[i], h[t[i].src].accepted, h[t[i].src].max)
  }

  ghost predicate HasEntry(t: seq<Entry>, src: Word) {
    exists i | 0 <= i < |t| :: t[i].Live() && t[i].src == src
  }

  /** What the histories become when `n` from `src` was offered to table `t`. */
  ghost function Remember(t: seq<Entry>, h: map<Word, History>, src: Word, n: nat): map<Word, History> {
    if HasEntry(t, src) && src in h then
      h[src := History(h[src].accepted + {n}, Max(h[src].max, n))]
    else if LastExpired(t, |t|).Some? then
      h[src := History({n}, n)]
    else h
  }

  /** A frame of a source with a live entry is accepted exactly when its number was not
      accepted since the entry was created; a frame of any other source is accepted exactly
      when the table has an expired entry, which is then created anew; and the table keeps tracking every
      source. */
  lemma ArriveDecides(t: seq<Entry>, h: map<Word, History>, src: Word, n: nat)
    requires TableTracks(t, h)
    requires HasEntry(t, src) ==> InReach(n - h[src].max)
    ensures var (after, v) := Arrive(t, src, n % 0x100);
            && TableTracks(after, Remember(t, h, src, n))
            && (HasEntry(t, src) ==> (v.Accepted? <==> n !in h[src].accepted))
            && (!HasEntry(t, src) ==> (v.Accepted? <==> exists i | 0 <= i < |t| :: !t[i].Live()))
            && (v.Accepted? ==> HasEntry(after, src) && (v.created <==> !HasEntry(t, src)))
  {
    var found := FindLive(t, src);
    var (after, v) := Arrive(t, src, n % 0x100);
    if found.Some? {
      assert HasEntry(t, src);
      WindowStep(t[found.value], h[src].accepted, h[src].max, n);
      assert after[found.value].Live() && after[found.value].src == src;
    } else {
      assert !HasEntry(t, src);
      var free := LastExpired(t, |t|);
      if free.Some? {
        OnlyNewest(n);
        assert after[free.value] == Entry(src, n % 0x100, 1, ENTRY_TTL);
        assert Tracks(after[free.value], {n}, n);
      }
    }
  }

  /** The sources of live entries stay distinct, and an entry only comes alive by being created. */
  lemma ArriveKeepsSources(t: seq<Entry>, src: Word, n: Byte)
    requires DistinctSources(t)
    ensures var (after, v) := Arrive(t, src, n);
            DistinctSources(after) && (AnyLive(after) ==> AnyLive(t) || v == Accepted(true))
  {
    var (after, v) := Arrive(t, src, n);
    var found := FindLive(t, src);
    if found.Some? {
      assert t[found.value].Live();
    }
  }

  /** Expiry only forgets: the surviving entries track the same sets. */
  lemma TickTracks(t: seq<Entry>, h: map<Word, History>)
    requires TableTracks(t, h)
    ensures TableTracks(Tick(t), h)
  {
    forall i | 0 <= i < |t| && Tick(t)[i].Live()
      ensures t[i].Live() && t[i].src in h
      ensures Tracks(Tick(t)[i], h[t[i].src].accepted, h[t[i].src].max)
    {
      assert Tracks(t[i], h[t[i].src].accepted, h[t[i].src].max);
    }
  }

  // ----- whole runs of the table -----

  datatype Event = Arrival(src: Word, n: nat) | Expiry

  /** The verdicts of a table on the frames that arrive between firings of its timer. */
  function TableVerdicts(t: seq<Entry>, events: seq<Event>): seq<bool>
    decreases |events|
  {
    if events == [] then []
    else
      match events[0]
      case Arrival(src, n) =>
        var (after, v) := Arrive(t, src, n % 0x100);
        [v.Accepted?] + TableVerdicts(after, events[1..])
      case Expiry => TableVerdicts(Tick(t), events[1..])
  }

  function TableAfter(t: seq<Entry>, events: seq<Event>): seq<Entry>
    decreases |events|
  {
    if events == [] then t
    else
      match events[0]
      case Arrival(src, n) => TableAfter(Arrive(t, src, n % 0x100).0, events[1..])
      case Expiry => TableAfter(Tick(t), events[1..])
  }

  /** The reference: for up to 10 sources, the unbounded set of the numbers accepted since the source
      was first heard, and how many of 31 firings it still has; a new largest number starts that time anew. */
  datatype Session = Session(accepted: set<nat>, max: nat, left: nat)

  function Accepts(m: map<Word, Session>, src: Word, n: nat): bool {
    if src in m then n !in m[src].accepted else |m| < 10
  }

  function Heard(m: map<Word, Session>, src: Word, n: nat): map<Word, Session> {
    if !Accepts(m, src, n) then m
    else if src in m then
      m[src := Session(m[src].accepted + {n}, Max(m[src].max, n), if n > m[src].max then 31 else m[src].left)]
    else m[src := Session({n}, n, 31)]
  }

  function Aged(m: map<Word, Session>): map<Word, Session> {
    map src | src in m && m[src].left > 1 :: m[src].(left := m[src].left - 1)
  }

  function After(m: map<Word, Session>, e: Event): map<Word, Session> {
    match e case Arrival(src, n) => Heard(m, src, n) case Expiry => Aged(m)
  }

  function SessionVerdicts(m: map<Word, Session>, events: seq<Event>): seq<bool>
    decreases |events|
  {
    if events == [] then []
    else
      (if events[0].Arrival? then [Accepts(m, events[0].src, events[0].n)] else [])
      + SessionVerdicts(After(m, events[0]), events[1..])
  }

  function SessionsAfter(m: map<Word, Session>, events: seq<Event>): map<Word, Session>
    decreases |events|
  {
    if events == [] then m else SessionsAfter(After(m, events[0]), events[1..])
  }

  /** Every frame of a source that is remembered is in the reach of its window. */
  predicate EventsInReach(m: map<Word, Session>, events: seq<Event>)
    decreases |events|
  {
    events == [] ||
    (&& (events[0].Arrival? && events[0].src in m ==> InReach(events[0].n - m[events[0].src].max))
     && EventsInReach(After(m, events[0]), events[1..]))
  }

  /** The table stands for the sessions. */
  ghost predicate StandsFor(t: seq<Entry>, m: map<Word, Session>) {
    && |t| == TABLE_SIZE && DistinctSources(t)
    && (forall i | 0 <= i < |t| && t[i].Live() :: EntryStands(t[i], m))
    && (forall src | src in m :: HasEntry(t, src))
  }

  ghost predicate EntryStands(e: Entry, m: map<Word, Session>) {
    e.src in m && Tracks(e, m[e.src].accepted, m[e.src].max) && e.ttl == m[e.src].left
  }

  /** The sources with a live entry. */
  function Sources(t: seq<Entry>): set<Word> {
    if t == [] then {}
    else Sources(t[..|t| - 1]) + (if t[|t| - 1].Live() then {t[|t| - 1].src} else {})
  }

  lemma {:induction false} SourcesAre(t: seq<Entry>, src: Word)
    ensures src in Sources(t) <==> HasEntry(t, src)
  {
    if t != [] {
      var n := |t| - 1;
      SourcesAre(t[..n], src);
      if HasEntry(t, src) {
        var i :| 0 <= i < |t| && t[i].Live() && t[i].src == src;
        if i < n { assert t[..n][i] == t[i]; }
      }
    }
  }

  /** With distinct sources there are as many as live entries. */
  lemma {:induction false} SourcesCount(t: seq<Entry>)
    requires DistinctSources(t)
    ensures |Sources(t)| <= |t|
    ensures |Sources(t)| == |t| <==> forall i | 0 <= i < |t| :: t[i].Live()
  {
    if t != [] {
      var n := |t| - 1;
      SourcesCount(t[..n]);
      SourcesAre(t[..n], t[n].src);
      assert forall i | 0 <= i < n :: t[..n][i] == t[i];
    }
  }

  lemma RoomIs(t: seq<Entry>, m: map<Word, Session>)
    requires StandsFor(t, m)
    ensures |m| < TABLE_SIZE <==> LastExpired(t, |t|).Some?
    ensures forall src: Word :: src in m <==> HasEntry(t, src)
  {
    hide Tracks, Sources;
    forall src: Word ensures (src in m <==> HasEntry(t, src)) && (src in m <==> src in Sources(t)) {
      SourcesAre(t, src);
      if HasEntry(t, src) {
        var i :| 0 <= i < |t| && t[i].Live() && t[i].src == src;
        assert EntryStands(t[i], m);
      }
    }
    hide HasEntry;
    assert m.Keys == Sources(t);
    SourcesCount(t);
  }

  lemma FindIs(t: seq<Entry>, src: Word)
    ensures FindLive(t, src).Some? <==> HasEntry(t, src)
  {}

  /** A table that changes one entry, live or expired before, to a live one for `src`. */
  lemma EntrySet(t: seq<Entry>, m: map<Word, Session>, i: nat, e: Entry, s: Session)
    requires StandsFor(t, m) && i < |t| && e.Live()
    requires (t[i].Live() && t[i].src == e.src) || (!t[i].Live() && !HasEntry(t, e.src))
    requires Tracks(e, s.accepted, s.max) && e.ttl == s.left
    ensures StandsFor(t[i := e], m[e.src := s])
  {
    hide Tracks;
    var u, m' := t[i := e], m[e.src := s];
    forall k | 0 <= k < |u| && u[k].Live() ensures EntryStands(u[k], m') {
      if k != i { assert EntryStands(t[k], m) && t[k].src != e.src; }
    }
    forall src | src in m' ensures HasEntry(u, src) {
      if src == e.src {
        assert u[i].src == src;
      } else {
        var k :| 0 <= k < |t| && t[k].Live() && t[k].src == src;
        assert u[k] == t[k];
      }
    }
  }

  lemma WindowRenews(e: Entry, max: nat, n: nat)
    requires e.Live() && e.seqNo == max % 0x100 && InReach(n - max)
    ensures var after := Window(e, n % 0x100).0; after.src == e.src && after.ttl == if n > max then ENTRY_TTL else e.ttl
  {
    DiffMeans(max, n);
    ShortDistance(max, n);
  }

  lemma ArrivalStands(t: seq<Entry>, m: map<Word, Session>, src: Word, n: nat)
    requires StandsFor(t, m) && (src in m ==> InReach(n - m[src].max))
    ensures var (after, v) := Arrive(t, src, n % 0x100);
            (v.Accepted? <==> Accepts(m, src, n)) && StandsFor(after, Heard(m, src, n))
  {
    hide Window, Tracks, InReach, StandsFor;
    RoomIs(t, m);
    FindIs(t, src);
    var found, free := FindLive(t, src), LastExpired(t, |t|);
    if found.Some? {
      FoundStands(t, m, found.value, n);
    } else if free.Some? {
      CreatedStands(t, m, free.value, src, n);
    }
  }

  lemma CreatedStands(t: seq<Entry>, m: map<Word, Session>, i: nat, src: Word, n: nat)
    requires StandsFor(t, m) && i < |t| && !t[i].Live() && !HasEntry(t, src)
    ensures StandsFor(t[i := Entry(src, n % 0x100, 1, ENTRY_TTL)], m[src := Session({n}, n, ENTRY_TTL)])
  {
    OnlyNewest(n);
    var e := Entry(src, n % 0x100, 1, ENTRY_TTL);
    assert Tracks(e, {n}, n);
    hide StandsFor, Tracks;
    EntrySet(t, m, i, e, Session({n}, n, ENTRY_TTL));
  }

  /** A live entry takes the number like its session. */
  lemma EntryTakes(e: Entry, s: Session, n: nat)
    requires e.Live() && Tracks(e, s.accepted, s.max) && e.ttl == s.left && InReach(n - s.max)
    ensures var (after, ok) := Window(e, n % 0x100);
            && (ok <==> n !in s.accepted) && after.src == e.src && after.Live()
            && Tracks(after, s.accepted + {n}, Max(s.max, n))
            && after.ttl == if n > s.max then ENTRY_TTL else s.left
  {
    hide Window, Bit, InReach;
    WindowStep(e, s.accepted, s.max, n);
    WindowRenews(e, s.max, n);
  }

  lemma FoundStands(t: seq<Entry>, m: map<Word, Session>, i: nat, n: nat)
    requires StandsFor(t, m) && i < |t| && t[i].Live() && t[i].src in m && InReach(n - m[t[i].src].max)
    ensures var (after, ok) := Window(t[i], n % 0x100);
            && (ok <==> n !in m[t[i].src].accepted)
            && StandsFor(if ok then t[i := after] else t, Heard(m, t[i].src, n))
  {
    assert EntryStands(t[i], m) && |t| == TABLE_SIZE;
    hide Tracks, InReach, StandsFor, Window, FindLive;
    var s := m[t[i].src];
    EntryTakes(t[i], s, n);
    var (after, ok) := Window(t[i], n % 0x100);
    EntrySet(t, m, i, after, Session(s.accepted + {n}, Max(s.max, n), after.ttl));
  }

  lemma ExpiryStands(t: seq<Entry>, m: map<Word, Session>)
    requires StandsFor(t, m)
    ensures StandsFor(Tick(t), Aged(m))
  {
    hide Bit;
    var u := Tick(t);
    forall i | 0 <= i < |u| && u[i].Live() ensures t[i].Live() && u[i].src == t[i].src && EntryStands(u[i], Aged(m)) {
      assert u[i] == Older(t[i]);
      assert EntryStands(t[i], m);
    }
    forall src | src in Aged(m) ensures HasEntry(u, src) {
      var i :| 0 <= i < |t| && t[i].Live() && t[i].src == src;
      assert EntryStands(t[i], m);
      assert u[i].Live() && u[i].src == src;
    }
  }

  /** Over every run in reach, with frames of any sources between any firings of the timer, the verdicts
      of the 10 windows are those of the unbounded sets, and the table stands for the sessions. */
  lemma {:induction false} TableRefinesSessions(t: seq<Entry>, m: map<Word, Session>, events: seq<Event>)
    requires StandsFor(t, m) && EventsInReach(m, events)
    ensures TableVerdicts(t, events) == SessionVerdicts(m, events)
    ensures StandsFor(TableAfter(t, events), SessionsAfter(m, events))
    decreases |events|
  {
    hide StandsFor, Arrive, Tick, Heard, Aged, Accepts, InReach;
    if events != [] {
      match events[0]
      case Arrival(src, n) =>
        ArrivalStands(t, m, src, n);
        TableRefinesSessions(Arrive(t, src, n % 0x100).0, Heard(m, src, n), events[1..]);
      case Expiry =>
        ExpiryStands(t, m);
        TableRefinesSessions(Tick(t), Aged(m), events[1..]);
    }
  }

  lemma EmptyStands()
    ensures StandsFor(EmptyTable(), map[])
  {}

  /** ... in particular from the initial table on. */
  lemma RunsRefineSessions(events: seq<Event>)
    requires EventsInReach(map[], events)
    ensures TableVerdicts(EmptyTable(), events) == SessionVerdicts(map[], events)
  {
    EmptyStands();
    TableRefinesSessions(EmptyTable(), map[], events);
  }

  function Expiries(events: seq<Event>): nat
    decreases |events|
  {
    if events == [] then 0 else (if events[0].Expiry? then 1 else 0) + Expiries(events[1..])
  }

  /** A number that was accepted is remembered until its source's time has run out. */
  lemma {:induction false} Remembered(m: map<Word, Session>, src: Word, n: nat, events: seq<Event>)
    requires src in m && n in m[src].accepted && Expiries(events) < m[src].left <= 31
    ensures var after := SessionsAfter(m, events); src in after && n in after[src].accepted
    decreases |events|
  {
    if events != [] {
      Remembered(After(m, events[0]), src, n, events[1..]);
    }
  }

  /** The promise of duplicate rejection: once a frame was accepted as the newest of its source, it is
      rejected again in every run of up to 30 firings (3 seconds), whatever other frames arrive,
      as long as it is in reach. */
  lemma DuplicateRejected(t: seq<Entry>, m: map<Word, Session>, src: Word, n: nat, events: seq<Event>)
    requires StandsFor(t, m) && Accepts(m, src, n) && (src in m ==> m[src].max < n)
    requires EventsInReach(m, [Arrival(src, n)] + events) && Expiries(events) <= 30
    requires var end := SessionsAfter(Heard(m, src, n), events); src in end ==> InReach(n - end[src].max)
    ensures !Arrive(TableAfter(Arrive(t, src, n % 0x100).0, events), src, n % 0x100).1.Accepted?
  {
    hide StandsFor, Arrive, InReach;
    var first := [Arrival(src, n)] + events;
    assert first[0] == Arrival(src, n) && first[1..] == events;
    ArrivalStands(t, m, src, n);
    var t', m' := Arrive(t, src, n % 0x100).0, Heard(m, src, n);
    Remembered(m', src, n, events);
    TableRefinesSessions(t', m', events);
    ArrivalStands(TableAfter(t', events), SessionsAfter(m', events), src, n);
  }

  /** The table in memory. */
  class Table {
    const entries: array<Entry>

    constructor ()
      ensures fresh(entries) && entries[..] == EmptyTable()
    {
      entries := new Entry[TABLE_SIZE](_ => Entry(0, 0, 0, 0));
    }

    method RejectDuplicate(src: Word, n: Byte) returns (v: Verdict)
      modifies entries
      ensures (entries[..], v) == Arrive(old(entries[..]), src, n)
    {
      ghost var was := entries[..];
      var freeEntry: Option<nat> := None;
      for i := 0 to entries.Length
        invariant entries[..] == was
        invariant FindLive(was, src) == FindLive(was, src, i)
        invariant freeEntry == LastExpired(was, i)
      {
        var entry := entries[i];
        if entry.Live() && entry.src == src {
          var diff := Diff(entry.seqNo, n);
          if diff < 8 {
            if Bit(entry.mask, diff) {
              return Repeated;
            }
            entries[i] := entry.(mask := SetBit(entry.mask, diff));
            return Accepted(false);
          } else {
            var shift := Shift(diff);
            entries[i] := entry.(seqNo := n, mask := ShiftLeft(entry.mask, shift) | 1, ttl := ENTRY_TTL);
            return Accepted(false);
          }
        }
        if !entry.Live() {
          freeEntry := Some(i);
        }
      }
      assert was[..|was|] == was;
      if freeEntry.None? {
        return NoRoom;
      }
      entries[freeEntry.value] := Entry(src, n, 1, ENTRY_TTL);
      v := Accepted(true);
    }

    method TimerHandler() returns (restart: bool)
      modifies entries
      ensures entries[..] == Tick(old(entries[..]))
      ensures restart <==> AnyLive(old(entries[..]))
    {
      ghost var was := entries[..];
      restart := false;
      for i := 0 to entries.Length
        invariant forall k | 0 <= k < i :: entries[k] == Older(was[k])
        invariant forall k | i <= k < entries.Length :: entries[k] == was[k]
        invariant restart <==> exists k | 0 <= k < i :: was[k].Live()
      {
        if entries[i].Live() {
          entries[i] := entries[i].(ttl := entries[i].ttl - 1);
          restart := true;
        }
      }
      assert entries[..] == Tick(was);
    }
  }
}
