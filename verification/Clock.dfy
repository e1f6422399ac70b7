/**
 * The synthetic audio capture clock of rad (rad/rad_clock.c).
 *
 * The clock advances by sample count and slews toward the wall clock through a
 * filtered proportional loop in truncating integer arithmetic. The quadratic
 * form Q below is an exact Lyapunov function of the real-valued loop, and up to
 * a constant one of the integer loop, whatever the truncations do.
 */
module Clock {

  const RESYNC_BEHIND_US := 150000
  const RESYNC_AHEAD_US := 1000000
  const SLEW_MAX_US := 1000
  const EWMA_DIV := 16
  const GAIN_DIV := 16

  // C division: the quotient is truncated toward zero.
  function TruncDiv(a: int, b: int): (q: int)
    requires b != 0
  {
    if a >= 0 then a / b else -((-a) / b)
  }

  function Clamp(x: int): int {
    if x > SLEW_MAX_US then SLEW_MAX_US else if x < -SLEW_MAX_US then -SLEW_MAX_US else x
  }

  datatype State = State(ts: int, lastRead: int, ewma: int, resync: int)

  function Chunk(samples: int, rate: int): int
    requires rate != 0
  {
    TruncDiv(samples * 1000000, rate)
  }

  // The clock error a stamp at `now` sees, for a chunk lasting `chunk` microseconds.
  function Err(c: State, chunk: int, now: int): int { now - (c.ts + chunk) }

  predicate InWindow(e: int) { -RESYNC_AHEAD_US <= e <= RESYNC_BEHIND_US }

  predicate LivePaced(gap: int) { 15000 <= gap <= 150000 }

  function Filtered(e: int, m: int): int { m + TruncDiv(e - m, EWMA_DIV) }

  function Slew(m: int): int { Clamp(TruncDiv(m, GAIN_DIV)) }

  function Stamped(c: State, chunk: int, now: int): State {
    var e := Err(c, chunk, now);
    var m := Filtered(e, c.ewma);
    if InWindow(e) then State(c.ts + chunk + Slew(m), now, m, 0)
    else if LivePaced(now - c.lastRead) then State(now, now, 0, e)
    else State(c.ts + chunk, now, c.ewma, 0)
  }

  class RadClock {
    var ts: int
    var lastReadUs: int
    var errEwmaUs: int
    var resyncUs: int

    function View(): State
      reads this
    {
      State(ts, lastReadUs, errEwmaUs, resyncUs)
    }

    constructor Init(now: int)
      ensures View() == State(now, now, 0, 0)
    {
      ts, lastReadUs, errEwmaUs, resyncUs := now, now, 0, 0;
    }

    method Stamp(samples: int, rate: int, now: int) returns (out: int)
      requires rate != 0
      modifies this
      ensures out == old(ts)
      ensures View() == Stamped(old(View()), Chunk(samples, rate), now)
    {
      out := ts;
      resyncUs := 0;
      ts := ts + TruncDiv(samples * 1000000, rate);
      var readGap := now - lastReadUs;
      lastReadUs := now;
      var livePaced := readGap >= 15000 && readGap <= 150000;
      var clkErr := now - ts;
      if clkErr > RESYNC_BEHIND_US || clkErr < -RESYNC_AHEAD_US {
        if livePaced {
          ts := ts + clkErr;
          errEwmaUs := 0;
          resyncUs := clkErr;
        }
        return;
      }
      errEwmaUs := errEwmaUs + TruncDiv(clkErr - errEwmaUs, EWMA_DIV);
      var slew := TruncDiv(errEwmaUs, GAIN_DIV);
      if slew > SLEW_MAX_US {
        slew := SLEW_MAX_US;
      } else if slew < -SLEW_MAX_US {
        slew := -SLEW_MAX_US;
      }
      ts := ts + slew;
    }
  }

  /** A stamp either lands the clock exactly on the wall, and only from a live-paced read
      outside the window, or moves the timeline by the chunk to within a millisecond. */
  lemma StampedMoves(c: State, chunk: int, now: int)
    ensures var d := Stamped(c, chunk, now);
      && d.lastRead == now
      && (d.resync != 0 <==> !InWindow(Err(c, chunk, now)) && LivePaced(now - c.lastRead))
      && (d.resync != 0 ==> d.ts == now && d.ewma == 0 && d.ts == c.ts + chunk + d.resync)
      && (d.resync == 0 ==> -SLEW_MAX_US <= d.ts - (c.ts + chunk) <= SLEW_MAX_US)
  {
  }

  // ----- the loop as a map on (error, filtered error) ---------------------------------

  datatype Loop = Loop(e: int, m: int)

  // One in-window stamp, followed by a read that is `w` microseconds late for its chunk.
  function Step(l: Loop, w: int): Loop {
    var m := Filtered(l.e, l.m);
    Loop(l.e - Slew(m) + w, m)
  }

  function View(c: State, chunk: int, now: int): Loop { Loop(Err(c, chunk, now), c.ewma) }

  lemma StampIsStep(c: State, chunk: int, now: int, next: int)
    requires InWindow(Err(c, chunk, now))
    ensures var d := Stamped(c, chunk, now);
      d.resync == 0 && View(d, chunk, next) == Step(View(c, chunk, now), next - now - chunk)
  {
  }

  // The quadratic form that shrinks, as a polynomial.
  function Form(e: int, m: int): int { 16 * e * e - 15 * e * m + 15 * m * m }

  // The same with its products written as repeated addition, so that what is said of whole runs below is
  // linear in them.
  function Q(e: int, m: int): int { 16 * Product(e, e) - 15 * Product(e, m) + 15 * Product(m, m) }

  function Product(x: int, y: int): int
    decreases if y < 0 then -y else y
  {
    if y == 0 then 0 else if y > 0 then Product(x, y - 1) + x else Product(x, y + 1) - x
  }

  lemma {:induction false} ProductIs(x: int, y: int)
    ensures Product(x, y) == x * y
    decreases if y < 0 then -y else y
  {
    if y > 0 {
      ProductIs(x, y - 1);
      assert x * (y - 1) + x == x * y;
    } else if y < 0 {
      ProductIs(x, y + 1);
      assert x * (y + 1) - x == x * y;
    }
  }

  lemma QIsForm(e: int, m: int)
    ensures Q(e, m) == Form(e, m)
  {
    ProductIs(e, e);
    ProductIs(e, m);
    ProductIs(m, m);
    FormIs(e, m, Product(e, e), Product(e, m), Product(m, m));
  }

  lemma FormIs(e: int, m: int, ee: int, em: int, mm: int)
    requires ee == e * e && em == e * m && mm == m * m
    ensures Form(e, m) == 16 * ee - 15 * em + 15 * mm
  {
  }

  lemma QNonneg(e: int, m: int)
    ensures Q(e, m) >= 0
  {
    FormNonneg(e, m);
    QIsForm(e, m);
  }

  lemma QBoundsError(e: int, m: int)
    ensures 49 * (e * e) <= 4 * Q(e, m)
  {
    FormBoundsError(e, m);
    QIsForm(e, m);
  }

  function QReal(e: real, m: real): real { 16.0 * e * e - 15.0 * e * m + 15.0 * m * m }

  /** Without truncation or saturation every stamp shrinks Q by exactly 1/16. */
  lemma RealLoopContractsExactly(e: real, m: real)
    ensures var m' := m + (e - m) / 16.0; var e' := e - m' / 16.0;
      16.0 * QReal(e', m') == 15.0 * QReal(e, m)
  {
    var m' := m + (e - m) / 16.0;
    var e' := e - m' / 16.0;
    assert m' == (15.0 * m + e) / 16.0;
    assert e' == (255.0 * e - 15.0 * m) / 256.0;
  }

  lemma FormNonneg(e: int, m: int)
    ensures Form(e, m) >= 0
  {
    var x := 32 * e - 15 * m;
    assert 64 * Form(e, m) == x * x + 735 * (m * m);
  }

  // The error is bounded by Q: 4Q - 49e^2 is a square.
  lemma FormBoundsError(e: int, m: int)
    ensures 49 * (e * e) <= 4 * Form(e, m)
  {
    var y := 2 * m - e;
    assert 4 * Form(e, m) == 49 * (e * e) + 15 * (y * y);
  }

  // A square root taken by comparison.
  lemma SquareBound(x: int, b: int)
    requires b >= 0
    ensures x * x <= b * b ==> -b <= x <= b
  {
  }

  lemma Young(u: int, v: int, p: int, q: int)
    ensures 31 * Form(u + p, v + q) <= 32 * Form(u, v) + 992 * Form(p, q)
  {
    FormNonneg(u - 31 * p, v - 31 * q);
    assert 32 * Form(u, v) + 992 * Form(p, q) - 31 * Form(u + p, v + q) == Form(u - 31 * p, v - 31 * q);
  }

  function Abs(x: int): nat { if x < 0 then -x else x }

  // What truncation and a late read of at most `j` can add to Q.
  function Slack(j: nat): nat { 42722 + 45571 * j + 15872 * (j * j) }

  predicate Unsaturated(l: Loop) { -16015 <= Filtered(l.e, l.m) <= 16015 }

  // A truncated quotient by 16 leaves a remainder below 16 in size.
  lemma Remainder(a: int)
    ensures -15 <= a - 16 * TruncDiv(a, 16) <= 15
    ensures a >= 0 ==> a - 16 * TruncDiv(a, 16) >= 0
    ensures a <= 0 ==> a - 16 * TruncDiv(a, 16) <= 0
  {
  }

  lemma ProductBound(x: int, y: int, b: int)
    requires -b <= y <= b
    ensures x * y <= b * Abs(x)
  {
    if x >= 0 { assert x * y <= x * b; } else { assert (-x) * (-y) <= (-x) * b; }
  }

  lemma LateReadCost(p: int, q: int, w: int)
    requires -11760 <= 32 * p - 15 * q <= 11760
    ensures Form(p + 256 * w, q) <= Form(p, q) + 3010560 * Abs(w) + 1048576 * (Abs(w) * Abs(w))
  {
    ProductBound(w, 32 * p - 15 * q, 11760);
    assert Form(p + 256 * w, q) == Form(p, q) + 256 * (w * (32 * p - 15 * q)) + 1048576 * (w * w);
  }

  lemma TruncationCost(r: int, s: int)
    requires -15 <= r <= 15 && -15 <= s <= 15
    ensures Form(r + 16 * s, -16 * r) <= 2822400
  {
    assert Form(r + 16 * s, -16 * r) == 4096 * (r * r) + 4352 * (r * s) + 4096 * (s * s);
    ProductBound(r, r, 15);
    ProductBound(r, s, 15);
    ProductBound(s, s, 15);
  }

  // The same step in 256ths, where nothing is truncated: the exact image plus the noise.
  lemma ScaledStep(e: int, m: int, e': int, m': int, r: int, s: int, w: int)
    requires 16 * (m' - m) == e - m - r
    requires 16 * (e + w - e') == m' - s
    ensures 65536 * Form(e', m') == Form(255 * e - 15 * m + (r + 16 * s + 256 * w), 240 * m + 16 * e + -16 * r)
    ensures Form(255 * e - 15 * m, 240 * m + 16 * e) == 61440 * Form(e, m)
  {
    assert 256 * e' == 255 * e - 15 * m + (r + 16 * s + 256 * w);
    assert 256 * m' == 240 * m + 16 * e - 16 * r;
    assert Form(256 * e', 256 * m') == 65536 * Form(e', m');
  }

  /** The integer loop contracts Q to within the truncation noise, whatever both truncating
      divisions do, as long as the slew is not clamped. */
  lemma LoopContracts(l: Loop, w: int)
    requires Unsaturated(l)
    ensures var n := Step(l, w); 31 * Q(n.e, n.m) <= 30 * Q(l.e, l.m) + Slack(Abs(w))
  {
    var n := Step(l, w);
    Remainder(l.e - l.m);
    Remainder(n.m);
    var r := (l.e - l.m) - 16 * TruncDiv(l.e - l.m, 16);
    var s := n.m - 16 * TruncDiv(n.m, 16);
    ContractsWithNoise(l.e, l.m, n.e, n.m, r, s, w);
  }

  lemma ContractsWithNoise(e: int, m: int, e': int, m': int, r: int, s: int, w: int)
    requires 16 * (m' - m) == e - m - r && -15 <= r <= 15
    requires 16 * (e + w - e') == m' - s && -15 <= s <= 15
    ensures 31 * Q(e', m') <= 30 * Q(e, m) + Slack(Abs(w))
  {
    ScaledNoise(e, m, e', m', r, s, w);
    Unscale(Q(e', m'), Q(e, m), Abs(w), Abs(w) * Abs(w));
  }

  lemma ScaledNoise(e: int, m: int, e': int, m': int, r: int, s: int, w: int)
    requires 16 * (m' - m) == e - m - r && -15 <= r <= 15
    requires 16 * (e + w - e') == m' - s && -15 <= s <= 15
    ensures 2031616 * Q(e', m') <= 1966080 * Q(e, m) + 992 * (2822400 + 3010560 * Abs(w) + 1048576 * (Abs(w) * Abs(w)))
  {
    ScaledStep(e, m, e', m', r, s, w);
    Young(255 * e - 15 * m, 240 * m + 16 * e, r + 16 * s + 256 * w, -16 * r);
    LateReadCost(r + 16 * s, -16 * r, w);
    TruncationCost(r, s);
    QIsForm(e, m);
    QIsForm(e', m');
  }

  lemma Unscale(q': int, q: int, j: nat, jj: int)
    ensures 2031616 * q' <= 1966080 * q + 992 * (2822400 + 3010560 * j + 1048576 * jj)
      ==> 31 * q' <= 30 * q + 42722 + 45571 * j + 15872 * jj
  {
  }

  const CAPTURE := 2900000000

  predicate Captured(l: Loop) { Q(l.e, l.m) <= CAPTURE }

  // Below the capture level the error is far inside the window and the slew is not clamped.
  lemma CapturedIsCalm(l: Loop)
    requires Captured(l)
    ensures InWindow(l.e) && Unsaturated(l)
  {
    var e, m := l.e, l.m;
    QBoundsError(e, m);
    SquareBound(e, 15400);
    QIsForm(e, m);
    var x := 15 * m + e;
    var z := 670 * e - 345 * m;
    assert 1340 * (21 * Form(e, m) - x * x) == z * z + 1575 * (m * m);
    SquareBound(x, 246780);
    Remainder(e - m);
  }

  // ----- whole runs -------------------------------------------------------------------

  // The clock when it comes to stamp the chunk read at times[k].
  function StateAt(c: State, chunk: int, times: seq<int>, k: nat): State
    requires k <= |times|
  {
    if k == 0 then c else Stamped(StateAt(c, chunk, times, k - 1), chunk, times[k - 1])
  }

  function LoopAt(c: State, chunk: int, times: seq<int>, k: nat): Loop
    requires k < |times|
  {
    View(StateAt(c, chunk, times, k), chunk, times[k])
  }

  // Every read comes within `j` microseconds of a chunk after the one before it.
  predicate PacedWithin(chunk: int, times: seq<int>, j: nat) {
    forall k :: 0 < k < |times| ==> Abs(times[k] - times[k - 1] - chunk) <= j
  }

  lemma LoopAdvances(c: State, chunk: int, times: seq<int>, k: nat)
    requires 0 < k < |times| && InWindow(LoopAt(c, chunk, times, k - 1).e)
    ensures LoopAt(c, chunk, times, k)
         == Step(LoopAt(c, chunk, times, k - 1), times[k] - times[k - 1] - chunk)
    ensures StateAt(c, chunk, times, k).resync == 0
  {
    StampIsStep(StateAt(c, chunk, times, k - 1), chunk, times[k - 1], times[k]);
  }

  lemma SlackIsMonotone(i: nat, j: nat)
    requires i <= j
    ensures Slack(i) <= Slack(j)
  {
    assert i * i <= j * j;
  }

  // What is left of Q above the noise floor, which no step raises.
  function Excess(l: Loop, j: nat): nat {
    if Q(l.e, l.m) <= Slack(j) then 0 else Q(l.e, l.m) - Slack(j)
  }

  lemma CapturedStep(l: Loop, w: int, j: nat)
    requires Captured(l) && Abs(w) <= j <= 400
    ensures Captured(Step(l, w))
    ensures 31 * Excess(Step(l, w), j) <= 30 * Excess(l, j)
  {
    CapturedIsCalm(l);
    LoopContracts(l, w);
    SlackIsMonotone(Abs(w), j);
    SlackIsMonotone(j, 400);
  }

  // Captured loops stay captured, and 31 chunks halve the excess: while more than half of it
  // is left each chunk takes away a 62nd of what there was.
  lemma {:induction false} ExcessDecays(c: State, chunk: int, times: seq<int>, j: nat, from: nat, n: nat)
    requires from + n < |times| && PacedWithin(chunk, times, j) && j <= 400
    requires Captured(LoopAt(c, chunk, times, from))
    ensures Captured(LoopAt(c, chunk, times, from + n))
    ensures Decayed(Excess(LoopAt(c, chunk, times, from), j), Excess(LoopAt(c, chunk, times, from + n), j), n)
  {
    if n > 0 {
      var l0, l, l' := LoopAt(c, chunk, times, from), LoopAt(c, chunk, times, from + n - 1), LoopAt(c, chunk, times, from + n);
      ExcessDecays(c, chunk, times, j, from, n - 1);
      StaysCaptured(c, chunk, times, j, from + n, l, l');
      DecayStep(Excess(l0, j), Excess(l, j), Excess(l', j), n);
    }
  }

  // Of what there was more than half is gone, or a 62nd for each of n chunks.
  predicate Decayed(x0: nat, x: nat, n: nat) { x <= x0 && (2 * x <= x0 || 62 * x <= (62 - n) * x0) }

  lemma {:induction false} StaysCaptured(c: State, chunk: int, times: seq<int>, j: nat, k: nat, l: Loop, l': Loop)
    requires 0 < k < |times| && PacedWithin(chunk, times, j) && j <= 400
    requires l == LoopAt(c, chunk, times, k - 1) && l' == LoopAt(c, chunk, times, k) && Captured(l)
    ensures Captured(l') && 31 * Excess(l', j) <= 30 * Excess(l, j)
  {
    CapturedIsCalm(l);
    LoopAdvances(c, chunk, times, k);
    CapturedStep(l, times[k] - times[k - 1] - chunk, j);
  }

  lemma DecayStep(x0: nat, x: nat, x': nat, n: nat)
    requires 31 * x' <= 30 * x && n > 0 && Decayed(x0, x, n - 1)
    ensures Decayed(x0, x', n)
  {
    assert (62 - (n - 1)) * x0 == (62 - n) * x0 + x0;
  }

  lemma ExcessHalves(c: State, chunk: int, times: seq<int>, j: nat, from: nat)
    requires from + 31 < |times| && PacedWithin(chunk, times, j) && j <= 400
    requires Captured(LoopAt(c, chunk, times, from))
    ensures Captured(LoopAt(c, chunk, times, from + 31))
    ensures 2 * Excess(LoopAt(c, chunk, times, from + 31), j) <= Excess(LoopAt(c, chunk, times, from), j)
  {
    ExcessDecays(c, chunk, times, j, from, 31);
  }

  function Halvings(b: nat): nat { if b == 0 then 0 else 1 + Halvings(b / 2) }

  lemma {:induction false} ExcessVanishes(c: State, chunk: int, times: seq<int>, j: nat, from: nat, k: nat, b: nat)
    requires from + 31 * Halvings(b) <= k < |times| && PacedWithin(chunk, times, j) && j <= 400
    requires Captured(LoopAt(c, chunk, times, from)) && Excess(LoopAt(c, chunk, times, from), j) <= b
    ensures Excess(LoopAt(c, chunk, times, k), j) == 0
    decreases b
  {
    if b == 0 {
      ExcessDecays(c, chunk, times, j, from, k - from);
    } else {
      ExcessHalves(c, chunk, times, j, from);
      ExcessVanishes(c, chunk, times, j, from + 31, k, b / 2);
    }
  }

  lemma ErrorAtFloor(e: int, q: int, j: int)
    requires j >= 0 && 49 * (e * e) <= 4 * q && q <= 42722 + 45571 * j + 15872 * (j * j)
    ensures -(36 * j + 60) <= e <= 36 * j + 60
  {
    var b := 36 * j + 60;
    assert b * b == 1296 * (j * j) + 4320 * j + 3600;
    SquareBound(e, b);
  }

  lemma {:induction false} Eightfold(n: nat, m: nat)
    requires 1 <= m == n / 8
    ensures Halvings(n) == Halvings(m) + 3
  {
    assert Halvings(n) == 1 + Halvings(n / 2) == 2 + Halvings(n / 2 / 2) == 3 + Halvings(n / 2 / 2 / 2);
    assert n / 2 / 2 / 2 == n / 8;
  }

  lemma {:induction false} Thousandfold(n: nat, a: nat, b: nat, c: nat)
    requires a == n / 8 && b == a / 8 && 1 <= c == b / 8
    ensures Halvings(n) == Halvings(c) + 9
  {
    Eightfold(n, a);
    Eightfold(a, b);
    Eightfold(b, c);
  }

  lemma CaptureHalvings()
    ensures 31 * Halvings(CAPTURE) == SETTLE_CHUNKS
  {
    Thousandfold(CAPTURE, 362500000, 45312500, 5664062);
    Thousandfold(5664062, 708007, 88500, 11062);
    Thousandfold(11062, 1382, 172, 21);
    Eightfold(21, 2);
  }

  const SETTLE_CHUNKS := 992

  /** The loop tracks: once captured, and however each read is early or late by up to j <= 400
      microseconds, no stamp ever resyncs, and from the 992nd chunk on the clock is within
      36j + 60 microseconds of the wall, for ever. */
  lemma LoopSettles(c: State, chunk: int, times: seq<int>, j: nat, from: nat, k: nat)
    requires from <= k < |times| && PacedWithin(chunk, times, j) && j <= 400
    requires Captured(LoopAt(c, chunk, times, from))
    ensures Stamped(StateAt(c, chunk, times, k), chunk, times[k]).resync == 0
    ensures k >= from + SETTLE_CHUNKS ==> Abs(Err(StateAt(c, chunk, times, k), chunk, times[k])) <= 36 * j + 60
  {
    ExcessDecays(c, chunk, times, j, from, k - from);
    var l := LoopAt(c, chunk, times, k);
    CapturedIsCalm(l);
    if k >= from + SETTLE_CHUNKS {
      CaptureHalvings();
      ExcessVanishes(c, chunk, times, j, from, k, CAPTURE);
      QBoundsError(l.e, l.m);
      ErrorAtFloor(l.e, Q(l.e, l.m), j);
    }
  }

  // ----- from rest: every error the loop does not resync away is slewed away -------------

  // Behind the wall and filter still catching up; slew clamped; filter ahead and coming down.
  predicate Rising(l: Loop) { 0 <= l.m <= 16015 && l.m <= l.e }
  predicate Clamped(l: Loop) { l.m >= 16016 && l.m - l.e <= 16015 }
  predicate Falling(l: Loop) {
    0 <= l.m <= 16015 && 0 <= l.m - l.e <= 16015 && Q(l.e, l.m) <= CAPTURE + 93000 * l.m
  }

  lemma QAsLag(m: int, d: int)
    ensures Form(m - d, m) == 16 * (m * m) + d * (16 * d - 17 * m)
  {
  }

  lemma MulMono(x: int, a: int, b: int)
    requires x >= 0 && a <= b
    ensures x * a <= x * b
  {
  }

  lemma FallingBelowCapture(m: int, d: int)
    requires 0 <= m <= 16015 && 0 <= d <= 16015 && 16 * d - 17 * m <= 16000
    ensures Q(m - d, m) <= CAPTURE + 93000 * m
  {
    LagIsSmall(m, d, Form(m - d, m));
    QIsForm(m - d, m);
  }

  lemma LagIsSmall(m: int, d: int, f: int)
    requires 0 <= m <= 16015 && 0 <= d <= 16015 && 16 * d - 17 * m <= 16000 && f == Form(m - d, m)
    ensures f <= CAPTURE + 93000 * m
  {
    QAsLag(m, d);
    MulMono(m, m, 16015);
    MulMono(d, 16 * d - 17 * m, 16000);
  }

  lemma SmallIsCaptured(l: Loop)
    requires 0 <= l.m <= l.e <= 30
    ensures Captured(l)
  {
    SmallForm(l.e, l.m);
    QIsForm(l.e, l.m);
  }

  lemma SmallForm(e: int, m: int)
    requires 0 <= m <= e <= 30
    ensures Form(e, m) <= CAPTURE
  {
    MulMono(e, e, 30);
    MulMono(e, 0, m);
    MulMono(m, m, 30);
  }

  // While the filter catches up the gap closes, until the slew is clamped or the filter is past.
  lemma RisingStep(l: Loop)
    requires Rising(l) && (l.e - l.m > 15 || l.m > 15)
    ensures var n := Step(l, 0);
      && 0 <= l.e - n.e <= 1000
      && (|| (Rising(n) && n.e - n.m < l.e - l.m)
          || Clamped(n)
          || (0 <= n.m <= 16015 && 0 <= n.m - n.e <= 1000))
  {
    Remainder(l.e - l.m);
    Remainder(Step(l, 0).m);
  }

  lemma ClampedStep(l: Loop)
    requires Clamped(l)
    ensures var n := Step(l, 0);
      || (Clamped(n) && n.e == l.e - 1000)
      || (15000 <= n.m <= 16015 && 0 <= n.m - n.e <= 16015)
  {
    Remainder(l.e - l.m);
    Remainder(Step(l, 0).m);
  }

  lemma FallingMoves(l: Loop)
    requires 0 <= l.m <= 16015 && 0 <= l.m - l.e <= 16015
    ensures var n := Step(l, 0);
      Unsaturated(l) && l.m - 1000 <= n.m <= 16015 && 0 <= n.m - n.e + 1000 && (n.m >= 0 ==> 0 <= n.m - n.e <= 16015)
  {
    Remainder(l.e - l.m);
    Remainder(Step(l, 0).m);
  }

  lemma FallingStep(l: Loop)
    requires Falling(l) && !Captured(l)
    ensures var n := Step(l, 0); (Captured(n) || Falling(n)) && Q(n.e, n.m) < Q(l.e, l.m)
  {
    FallingMoves(l);
    LoopContracts(l, 0);
  }

  function Iterate(l: Loop, n: nat): Loop { if n == 0 then l else Step(Iterate(l, n - 1), 0) }

  ghost predicate CapturesAt(l: Loop, top: int, n: nat) {
    Captured(Iterate(l, n)) && forall k | 0 <= k <= n :: -16015 <= Iterate(l, k).e <= top
  }

  lemma {:induction false} IterateFromStep(l: Loop, n: nat)
    ensures Iterate(Step(l, 0), n) == Iterate(l, n + 1)
  {
    if n > 0 { IterateFromStep(l, n - 1); }
  }

  lemma OneMore(l: Loop, top: int, n: nat)
    requires CapturesAt(Step(l, 0), top, n) && -16015 <= l.e <= top
    ensures CapturesAt(l, top, n + 1)
  {
    IterateFromStep(l, n);
    forall k | 0 < k <= n + 1 ensures -16015 <= Iterate(l, k).e <= top {
      IterateFromStep(l, k - 1);
    }
  }

  lemma CapturedIsSmall(l: Loop)
    requires Captured(l)
    ensures -15400 <= l.e <= 15400
  {
    QBoundsError(l.e, l.m);
    SquareBound(l.e, 15400);
  }

  lemma {:induction false} FallingCaptures(l: Loop, top: int) returns (n: nat)
    requires (Falling(l) || Captured(l)) && top >= 16015
    ensures CapturesAt(l, top, n)
    decreases Q(l.e, l.m)
  {
    if Captured(l) {
      CapturedIsSmall(l);
      n := 0;
    } else {
      QNonneg(l.e, l.m);
      FallingStep(l);
      n := FallingCaptures(Step(l, 0), top);
      OneMore(l, top, n);
      n := n + 1;
    }
  }

  lemma {:induction false} ClampedCaptures(l: Loop, top: int) returns (n: nat)
    requires Clamped(l) && l.e <= top && top >= 16015
    ensures CapturesAt(l, top, n)
    decreases l.e
  {
    ClampedStep(l);
    var l' := Step(l, 0);
    if Clamped(l') {
      n := ClampedCaptures(l', top);
    } else {
      FallingBelowCapture(l'.m, l'.m - l'.e);
      n := FallingCaptures(l', top);
    }
    OneMore(l, top, n);
    n := n + 1;
  }

  lemma {:induction false} RisingCaptures(l: Loop, top: int) returns (n: nat)
    requires Rising(l) && l.e <= top && top >= 16015
    ensures CapturesAt(l, top, n)
    decreases l.e - l.m
  {
    if l.e - l.m <= 15 && l.m <= 15 {
      SmallIsCaptured(l);
      n := FallingCaptures(l, top);
      return;
    }
    RisingStep(l);
    var l' := Step(l, 0);
    if Rising(l') && l'.e - l'.m < l.e - l.m {
      n := RisingCaptures(l', top);
    } else if Clamped(l') {
      n := ClampedCaptures(l', top);
    } else {
      FallingBelowCapture(l'.m, l'.m - l'.e);
      n := FallingCaptures(l', top);
    }
    OneMore(l, top, n);
    n := n + 1;
  }

  // Truncation is odd, so the loop is: what is shown of a late clock holds of an early one.
  function Mirror(l: Loop): Loop { Loop(-l.e, -l.m) }

  lemma TruncDivIsOdd(a: int)
    ensures TruncDiv(-a, 16) == -TruncDiv(a, 16)
  {
  }

  lemma StepMirrors(l: Loop)
    ensures Step(Mirror(l), 0) == Mirror(Step(l, 0))
  {
    TruncDivIsOdd(l.e - l.m);
    assert -l.e - -l.m == -(l.e - l.m);
    TruncDivIsOdd(Filtered(l.e, l.m));
  }

  lemma {:induction false} IterateMirrors(l: Loop, n: nat)
    ensures Iterate(Mirror(l), n) == Mirror(Iterate(l, n))
  {
    if n > 0 {
      IterateMirrors(l, n - 1);
      StepMirrors(Iterate(l, n - 1));
    }
  }

  lemma FormMirrors(e: int, m: int)
    ensures Form(-e, -m) == Form(e, m)
  {
  }

  lemma QMirrors(e: int, m: int, d: int, n: int)
    requires d == -e && n == -m
    ensures Q(d, n) == Q(e, m)
  {
    FormMirrors(e, m);
    QIsForm(d, n);
    QIsForm(e, m);
  }

  lemma CapturedMirrors(l: Loop)
    ensures Captured(Mirror(l)) <==> Captured(l)
  {
    QMirrors(l.e, l.m, -l.e, -l.m);
  }

  // Reads exactly one chunk apart, `n` of them.
  function DriftFree(chunk: int, now: int, n: nat): seq<int> { seq(n, i => now + i * chunk) }

  lemma DriftFreeIsPaced(chunk: int, now: int, n: nat)
    ensures PacedWithin(chunk, DriftFree(chunk, now, n), 0)
  {
    forall k | 0 < k < n ensures now + k * chunk - (now + (k - 1) * chunk) == chunk {
    }
  }

  lemma {:induction false} DriftFreeIterates(c: State, chunk: int, now: int, n: nat, k: nat)
    requires k < n
    requires forall i | 0 <= i < k :: InWindow(Iterate(View(c, chunk, now), i).e)
    ensures LoopAt(c, chunk, DriftFree(chunk, now, n), k) == Iterate(View(c, chunk, now), k)
  {
    if k > 0 {
      DriftFreeIterates(c, chunk, now, n, k - 1);
      DriftFreeIsPaced(chunk, now, n);
      LoopAdvances(c, chunk, DriftFree(chunk, now, n), k);
    }
  }

  lemma CaptureFromRest(l: Loop) returns (n: nat)
    requires l.m == 0 && InWindow(l.e)
    ensures Captured(Iterate(l, n))
    ensures forall k | 0 <= k <= n :: InWindow(Iterate(l, k).e)
  {
    if l.e >= 0 {
      n := RisingCaptures(l, RESYNC_BEHIND_US);
    } else {
      n := RisingCaptures(Mirror(l), RESYNC_AHEAD_US);
      IterateMirrors(l, n);
      CapturedMirrors(Iterate(l, n));
      forall k | 0 <= k <= n ensures InWindow(Iterate(l, k).e) {
        IterateMirrors(l, k);
      }
    }
  }

  /** Global convergence. A clock whose filter is at rest (fresh from Init, or from a resync)
      and whose error is anywhere inside the resync window is slewed to within 60 microseconds
      of the wall and kept there, without a single resync on the way. */
  lemma RestConverges(c: State, chunk: int, now: int) returns (settled: nat)
    requires c.ewma == 0 && InWindow(Err(c, chunk, now))
    ensures forall n, k | 0 <= k < n :: var times := DriftFree(chunk, now, n);
      && Stamped(StateAt(c, chunk, times, k), chunk, times[k]).resync == 0
      && (k >= settled ==> Abs(Err(StateAt(c, chunk, times, k), chunk, times[k])) <= 60)
  {
    var l := View(c, chunk, now);
    var captured := CaptureFromRest(l);
    settled := captured + SETTLE_CHUNKS;
    forall n, k | 0 <= k < n
      ensures var times := DriftFree(chunk, now, n);
        && Stamped(StateAt(c, chunk, times, k), chunk, times[k]).resync == 0
        && (k >= settled ==> Abs(Err(StateAt(c, chunk, times, k), chunk, times[k])) <= 60)
    {
      var times := DriftFree(chunk, now, n);
      if k <= captured {
        DriftFreeIterates(c, chunk, now, n, k);
      } else {
        DriftFreeIterates(c, chunk, now, n, captured);
        DriftFreeIsPaced(chunk, now, n);
        LoopSettles(c, chunk, times, 0, captured, k);
      }
    }
  }
}
