/**
 * The password-guess limiter of rhd (rhd/rhd_authrate.c): a token bucket shared by everyone,
 * refilled on demand, and an eight-slot least-recently-seen table of hosts with doubling waits.
 */
module AuthRate {
  import opened Basics

  const SOURCES := 8
  const FREE_TRIES := 3
  const DELAY_MS := 1000
  const DELAY_MAX_MS := 30000
  const FORGET_MS := 300000
  const BURST := 6
  const REFILL_MS := 500
  const HOST_MAX := 63 // host[64], one byte of it the terminator

  // An empty host marks a free slot.
  datatype Source = Source(host: string, failures: nat, waitUntil: int, seen: int, told: bool)

  datatype Limiter = Limiter(src: seq<Source>, tokens: int, refill: int)

  ghost predicate Sound(l: Limiter) { |l.src| == SOURCES && 0 <= l.tokens <= BURST }

  // ----- the table ---------------------------------------------------------------------

  predicate Holds(s: Source, host: string) { s.host != "" && s.host == host }

  // The first slot holding `host` at or after `i`, or the end of the table.
  function Find(src: seq<Source>, host: string, i: nat): (k: nat)
    requires i <= |src|
    ensures i <= k <= |src|
    ensures k < |src| ==> Holds(src[k], host)
    ensures forall j | i <= j < k :: !Holds(src[j], host)
    decreases |src| - i
  {
    if i == |src| || Holds(src[i], host) then i else Find(src, host, i + 1)
  }

  predicate InTable(src: seq<Source>, host: string) { exists s | s in src :: Holds(s, host) }

  // The slot the first n leave to be taken over.
  function Victim(src: seq<Source>, n: nat): (k: nat)
    requires n <= |src| && src != []
    ensures k < |src|
  {
    if n == 0 then 0
    else
      var o := Victim(src, n - 1);
      if src[n - 1].host == "" then n - 1
      else if src[o].host != "" && src[n - 1].seen < src[o].seen then n - 1
      else o
  }

  function Forgiven(s: Source, now: int): Source {
    if now - s.seen > FORGET_MS then s.(failures := 0, waitUntil := 0, told := false) else s
  }

  function Stored(host: string): string { if |host| <= HOST_MAX then host else host[..HOST_MAX] }

  function SlotIndex(src: seq<Source>, host: string): (k: nat)
    requires src != []
    ensures k < |src|
  {
    var k := Find(src, host, 0);
    if k < |src| then k else Victim(src, |src|)
  }

  function Slotted(src: seq<Source>, host: string, now: int): (t: seq<Source>)
    requires src != []
    ensures |t| == |src|
  {
    var k := Find(src, host, 0);
    if k < |src| then src[k := Forgiven(src[k], now)]
    else src[Victim(src, |src|) := Source(Stored(host), 0, 0, 0, false)]
  }

  // ----- the bucket and the waits ------------------------------------------------------

  function Min(a: int, b: int): int { if a <= b then a else b }

  // Half-second tokens since the last refill, up to the burst.
  function Earned(tokens: int, refill: int, now: int): int {
    if now < refill then 0 else Min(BURST - tokens, (now - refill) / REFILL_MS)
  }

  function Refilled(l: Limiter, now: int): Limiter
    requires l.tokens <= BURST
  {
    var start := if l.refill == 0 then now else l.refill;
    var n := Earned(l.tokens, start, now);
    var at := start + REFILL_MS * n;
    l.(tokens := l.tokens + n, refill := if l.tokens + n >= BURST || at > now then now else at)
  }

  // The wait the nth failure in a row sets.
  function Wait(n: nat): int {
    if n <= FREE_TRIES then 0 else Min(DELAY_MS * Pow2(n - FREE_TRIES - 1), DELAY_MAX_MS)
  }

  // ----- the three calls ---------------------------------------------------------------

  datatype Verdict = Verdict(after: Limiter, granted: bool, retrySec: int)

  function Asked(l: Limiter, host: string, now: int): Verdict
    requires Sound(l)
  {
    var k := SlotIndex(l.src, host);
    var src := Slotted(l.src, host, now);
    var s := src[k].(seen := now);
    if s.waitUntil > now then
      Verdict(l.(src := src[k := s.(told := true)]), false, (s.waitUntil - now + 999) / 1000)
    else
      var r := Refilled(l.(src := src[k := s]), now);
      if r.tokens <= 0 then Verdict(r, false, 1) else Verdict(r.(tokens := r.tokens - 1), true, 0)
  }

  function AfterFailure(l: Limiter, host: string, now: int): Limiter
    requires Sound(l)
  {
    var k := SlotIndex(l.src, host);
    var src := Slotted(l.src, host, now);
    var s := src[k].(failures := src[k].failures + 1);
    l.(src := src[k := if s.failures <= FREE_TRIES then s
                       else s.(waitUntil := now + Wait(s.failures), told := false)])
  }

  function AfterSuccess(l: Limiter, host: string, now: int): Limiter
    requires Sound(l)
  {
    var k := SlotIndex(l.src, host);
    var src := Slotted(l.src, host, now);
    l.(src := src[k := src[k].(failures := 0, waitUntil := 0, told := false)],
       tokens := if l.tokens < BURST then l.tokens + 1 else l.tokens)
  }

  class RateLimiter {
    const src: array<Source>
    var tokens: int
    var refillMs: int

    ghost function View(): Limiter
      reads this, src
    {
      Limiter(src[..], tokens, refillMs)
    }

    constructor Reset()
      ensures fresh(src) && src.Length == SOURCES
      ensures View() == Limiter(seq(SOURCES, _ => Source("", 0, 0, 0, false)), BURST, 0)
    {
      src := new Source[SOURCES](_ => Source("", 0, 0, 0, false));
      tokens, refillMs := BURST, 0;
    }

    method SlotFor(host: string, now: int) returns (k: nat)
      requires src.Length == SOURCES
      modifies src
      ensures k == SlotIndex(old(src[..]), host)
      ensures src[..] == Slotted(old(src[..]), host, now)
    {
      var oldest := 0;
      var i := 0;
      while i < SOURCES
        invariant 0 <= i <= SOURCES
        invariant src[..] == old(src[..])
        invariant oldest == Victim(src[..], i)
        invariant Find(src[..], host, 0) == Find(src[..], host, i)
      {
        var s := src[i];
        if s.host != "" && s.host == host {
          if now - s.seen > FORGET_MS {
            src[i] := s.(failures := 0, waitUntil := 0, told := false);
          }
          assert src[..] == old(src[..])[i := src[i]];
          return i;
        }
        if s.host == "" {
          oldest := i;
        } else if src[oldest].host != "" && s.seen < src[oldest].seen {
          oldest := i;
        }
        i := i + 1;
      }
      src[oldest] := Source(Stored(host), 0, 0, 0, false);
      assert src[..] == old(src[..])[oldest := src[oldest]];
      return oldest;
    }

    method MayHash(host: string, now: int) returns (granted: bool, retrySec: int)
      requires src.Length == SOURCES && 0 <= tokens <= BURST
      modifies this, src
      ensures Asked(old(View()), host, now) == Verdict(View(), granted, retrySec)
    {
      var k := SlotFor(host, now);
      ghost var slotted := src[..];
      src[k] := src[k].(seen := now);
      assert src[..] == slotted[k := src[k]];
      if src[k].waitUntil > now {
        retrySec := (src[k].waitUntil - now + 999) / 1000;
        if !src[k].told {
          src[k] := src[k].(told := true);
        }
        assert src[..] == slotted[k := src[k]];
        return false, retrySec;
      }
      ghost var before := View();
      if refillMs == 0 {
        refillMs := now;
      }
      ghost var start := refillMs;
      while tokens < BURST && now - refillMs >= REFILL_MS
        invariant src[..] == before.src
        invariant before.tokens <= tokens <= BURST
        invariant refillMs == start + REFILL_MS * (tokens - before.tokens)
        invariant tokens > before.tokens ==> refillMs <= now
        decreases BURST - tokens
      {
        tokens := tokens + 1;
        refillMs := refillMs + REFILL_MS;
      }
      if tokens >= BURST || refillMs > now {
        refillMs := now;
      }
      assert View() == Refilled(before, now);
      if tokens <= 0 {
        return false, 1;
      }
      tokens := tokens - 1;
      return true, 0;
    }

    method Failed(host: string, now: int)
      requires src.Length == SOURCES && 0 <= tokens <= BURST
      modifies src
      ensures View() == AfterFailure(old(View()), host, now)
    {
      var k := SlotFor(host, now);
      ghost var slotted := src[..];
      src[k] := src[k].(failures := src[k].failures + 1);
      if src[k].failures <= FREE_TRIES {
        assert src[..] == slotted[k := src[k]];
        return;
      }
      var wait := DELAY_MS;
      var i := FREE_TRIES + 1;
      while i < src[k].failures && wait < DELAY_MAX_MS
        invariant FREE_TRIES + 1 <= i <= src[k].failures
        invariant wait == DELAY_MS * Pow2(i - FREE_TRIES - 1)
      {
        wait := wait * 2;
        i := i + 1;
      }
      Pow2Grows(i - FREE_TRIES - 1, src[k].failures - FREE_TRIES - 1);
      if wait > DELAY_MAX_MS {
        wait := DELAY_MAX_MS;
      }
      src[k] := src[k].(waitUntil := now + wait, told := false);
      assert src[..] == slotted[k := src[k]];
    }

    method Succeeded(host: string, now: int)
      requires src.Length == SOURCES && 0 <= tokens <= BURST
      modifies this, src
      ensures View() == AfterSuccess(old(View()), host, now)
    {
      var k := SlotFor(host, now);
      ghost var slotted := src[..];
      src[k] := src[k].(failures := 0, waitUntil := 0, told := false);
      assert src[..] == slotted[k := src[k]];
      if tokens < BURST {
        tokens := tokens + 1;
      }
    }
  }

  lemma {:induction false} Pow2Grows(m: nat, n: nat)
    requires m <= n
    ensures Pow2(m) <= Pow2(n)
  {
    if m < n { Pow2Grows(m, n - 1); }
  }

  // ----- which host loses its slot -----------------------------------------------------

  lemma {:induction false} VictimOfPrefix(src: seq<Source>, n: nat)
    requires 0 < n <= |src|
    ensures var k := Victim(src, n);
      && k < n
      && ((exists i :: 0 <= i < n && src[i].host == "") ==> src[k].host == "")
      && (src[k].host != "" ==> forall i | 0 <= i < n :: src[k].seen <= src[i].seen)
  {
    if n > 1 { VictimOfPrefix(src, n - 1); }
  }

  /** A slot in use is taken over only when the asking host has none, all eight are in use and
      no other host has been quiet for longer. */
  lemma EvictsTheQuietest(src: seq<Source>, host: string, now: int, i: nat)
    requires |src| == SOURCES && i < SOURCES
    requires src[i].host != "" && Slotted(src, host, now)[i].host != src[i].host
    ensures !InTable(src, host)
    ensures forall j | 0 <= j < SOURCES :: src[j].host != "" && src[i].seen <= src[j].seen
  {
    VictimOfPrefix(src, SOURCES);
  }

  ghost predicate Distinct(src: seq<Source>) {
    forall i, j | 0 <= i < j < |src| :: src[i].host != "" ==> src[i].host != src[j].host
  }

  /** Taking a slot keeps the hosts distinct exactly when the name is not cut short onto a
      name another slot already holds; every name that fits does. */
  lemma SlotKeepsDistinct(src: seq<Source>, host: string, now: int)
    requires |src| == SOURCES && Distinct(src)
    ensures Distinct(Slotted(src, host, now)) <==>
      (InTable(src, host) || forall j | 0 <= j < SOURCES && j != SlotIndex(src, host) :: !Holds(src[j], Stored(host)))
    ensures |host| <= HOST_MAX ==> Distinct(Slotted(src, host, now))
  {
    var t, k := Slotted(src, host, now), SlotIndex(src, host);
    if Find(src, host, 0) == SOURCES {
      if j :| 0 <= j < SOURCES && j != k && Holds(src[j], Stored(host)) {
        assert t[j].host == t[k].host != "";
      }
    }
  }

  // Sixty-four characters are one too many: the second visit takes a second slot.
  lemma LongNamesRepeat()
    ensures var long := seq(64, _ => 'a');
      var once := Slotted(seq(SOURCES, _ => Source("", 0, 0, 0, false)), long, 0);
      Distinct(once) && !Distinct(Slotted(once, long, 0))
  {
    var long := seq(64, _ => 'a');
    var free := seq(SOURCES, _ => Source("", 0, 0, 0, false));
    var once := Slotted(free, long, 0);
    SlotKeepsDistinct(free, long, 0);
    VictimOfPrefix(free, SOURCES);
    VictimOfPrefix(once, SOURCES);
    var k := SlotIndex(free, long);
    assert |once[k].host| == 63;
    assert !InTable(free, long) && !InTable(once, long);
    assert exists i :: 0 <= i < SOURCES && once[i].host == "" by { assert once[if k == 0 then 1 else 0].host == ""; }
    assert Holds(once[k], Stored(long));
    SlotKeepsDistinct(once, long, 0);
  }

  // ----- the ceiling, for any number of hosts and any order of calls --------------------

  datatype Call = Ask(host: string, now: int) | Fail(host: string, now: int) | Succeed(host: string, now: int)

  function Do(l: Limiter, c: Call): (r: Limiter)
    requires Sound(l)
    ensures Sound(r)
  {
    match c
    case Ask(host, now) => Asked(l, host, now).after
    case Fail(host, now) => AfterFailure(l, host, now)
    case Succeed(host, now) => AfterSuccess(l, host, now)
  }

  function After(l: Limiter, calls: seq<Call>, n: nat): (r: Limiter)
    requires Sound(l) && n <= |calls|
    ensures Sound(r)
  {
    if n == 0 then l else Do(After(l, calls, n - 1), calls[n - 1])
  }

  predicate Granted(l: Limiter, calls: seq<Call>, i: nat)
    requires Sound(l) && i < |calls|
  {
    calls[i].Ask? && Asked(After(l, calls, i), calls[i].host, calls[i].now).granted
  }

  // Hashes granted, and hashes given back, among calls[from..to].
  function Grants(l: Limiter, calls: seq<Call>, from: nat, to: nat): nat
    requires Sound(l) && from <= to <= |calls|
  {
    if from == to then 0
    else Grants(l, calls, from, to - 1) + if Granted(l, calls, to - 1) then 1 else 0
  }

  function Returns(calls: seq<Call>, from: nat, to: nat): nat
    requires from <= to <= |calls|
  {
    if from == to then 0 else Returns(calls, from, to - 1) + if calls[to - 1].Succeed? then 1 else 0
  }

  predicate InOrder(calls: seq<Call>) {
    forall i, j | 0 <= i < j < |calls| :: calls[i].now <= calls[j].now
  }

  // Milliseconds of credit: what is in the bucket plus what is on its way into it.
  function Credit(l: Limiter, t: int): int { REFILL_MS * l.tokens + (t - l.refill) }

  lemma CreditOfOneCall(l: Limiter, c: Call, t: int)
    requires Sound(l) && l.refill <= t <= c.now
    ensures var r := Do(l, c);
      && r.refill <= c.now
      && Credit(r, c.now) <= Credit(l, t) + (c.now - t)
         - (if c.Ask? && Asked(l, c.host, c.now).granted then REFILL_MS else 0)
         + (if c.Succeed? then REFILL_MS else 0)
  {
  }

  // A granted hash leaves at most five tokens' worth of credit behind it.
  lemma CreditAfterGrant(l: Limiter, host: string, now: int)
    requires Sound(l) && Asked(l, host, now).granted
    ensures var r := Asked(l, host, now).after;
      r.refill <= now && Credit(r, now) <= REFILL_MS * (BURST - 1)
  {
  }

  // One call more, with g hashes granted and not given back so far.
  lemma CreditStep(x: Limiter, c: Call, r: Limiter, t: int, g: int, g': int, limit: int)
    requires Sound(x) && x.refill <= t <= c.now && r == Do(x, c) && Credit(x, t) + REFILL_MS * g <= limit
    requires g' == g + (if c.Ask? && Asked(x, c.host, c.now).granted then 1 else 0) - (if c.Succeed? then 1 else 0)
    ensures r.refill <= c.now && Credit(r, c.now) + REFILL_MS * g' <= limit + (c.now - t)
  {
    CreditOfOneCall(x, c, t);
  }

  ghost predicate WithinCredit(l: Limiter, calls: seq<Call>, a: nat, n: nat)
    requires Sound(l) && a < n <= |calls|
  {
    && After(l, calls, n).refill <= calls[n - 1].now
    && Credit(After(l, calls, n), calls[n - 1].now) + REFILL_MS * (Grants(l, calls, a, n) - Returns(calls, a, n))
       <= REFILL_MS * BURST + (calls[n - 1].now - calls[a].now)
  }

  lemma {:induction false} CreditOnce(l: Limiter, calls: seq<Call>, a: nat, n: nat, m: nat)
    requires Sound(l) && InOrder(calls) && a < n && m == n + 1 <= |calls| && WithinCredit(l, calls, a, n)
    ensures WithinCredit(l, calls, a, m)
  {
    var x, r, c := After(l, calls, n), After(l, calls, m), calls[n];
    var g, g' := Grants(l, calls, a, n) - Returns(calls, a, n), Grants(l, calls, a, m) - Returns(calls, a, m);
    CreditStep(x, c, r, calls[n - 1].now, g, g', REFILL_MS * BURST + (calls[n - 1].now - calls[a].now));
  }

  lemma {:induction false} CreditOverRun(l: Limiter, calls: seq<Call>, a: nat, n: nat)
    requires Sound(l) && InOrder(calls) && a < n <= |calls| && Granted(l, calls, a)
    ensures WithinCredit(l, calls, a, n)
  {
    if n == a + 1 {
      CreditAfterGrant(After(l, calls, a), calls[a].host, calls[a].now);
      assert Grants(l, calls, a, a) == 0 && Returns(calls, a, a) == 0;
    } else {
      CreditOverRun(l, calls, a, n - 1);
      CreditOnce(l, calls, a, n - 1, n);
    }
  }

  /** However many hosts ask, and in whatever order the three calls come, the hashes granted
      from one grant to a later one, less those given back, are six and two a second. */
  lemma HashCeiling(l: Limiter, calls: seq<Call>, a: nat, b: nat)
    requires Sound(l) && InOrder(calls) && a <= b < |calls|
    requires Granted(l, calls, a) && Granted(l, calls, b)
    ensures Grants(l, calls, a, b + 1) - Returns(calls, a, b + 1)
         <= BURST + (calls[b].now - calls[a].now) / REFILL_MS
  {
    CreditOverRun(l, calls, a, b + 1);
  }

  // ----- one host, under the caller's protocol -----------------------------------------

  // A password offered: a hash if one may be computed, then exactly one report of it.
  datatype Attempt = Attempt(host: string, now: int, right: bool)

  predicate Allowed(l: Limiter, a: Attempt)
    requires Sound(l)
  {
    Asked(l, a.host, a.now).granted
  }

  function Try(l: Limiter, a: Attempt): (r: Limiter)
    requires Sound(l)
    ensures Sound(r)
  {
    var v := Asked(l, a.host, a.now);
    if !v.granted then v.after
    else if a.right then AfterSuccess(v.after, a.host, a.now)
    else AfterFailure(v.after, a.host, a.now)
  }

  predicate Fits(host: string) { 0 < |host| <= HOST_MAX }

  // What every run of attempts keeps: no wait outlives the forgetting.
  ghost predicate Tended(l: Limiter, now: int) {
    && Sound(l)
    && Distinct(l.src)
    && forall s | s in l.src :: s.seen <= now && s.waitUntil <= s.seen + DELAY_MAX_MS
  }

  // What the limiter knows of a host; a host it does not hold has a clean record.
  function Record(l: Limiter, host: string, now: int): Source {
    var k := Find(l.src, host, 0);
    if k < |l.src| then l.src[k] else Source(host, 0, 0, now, false)
  }

  predicate Known(l: Limiter, host: string) { Find(l.src, host, 0) < |l.src| }

  // The asking host's record afterwards: a refusal, a right or a wrong answer.
  function OwnRecord(s: Source, a: Attempt, granted: bool): Source {
    var f := Forgiven(s, a.now).(seen := a.now);
    if !granted then (if f.waitUntil > a.now then f.(told := true) else f)
    else if a.right then f.(failures := 0, waitUntil := 0, told := false)
    else if f.failures < FREE_TRIES then f.(failures := f.failures + 1)
    else f.(failures := f.failures + 1, waitUntil := a.now + Wait(f.failures + 1), told := false)
  }

  // An attempt changes one slot, the asking host's.
  lemma OneSlotMoves(l: Limiter, a: Attempt)
    requires Sound(l) && Fits(a.host) && 0 <= a.now
    ensures var k, s, r := SlotIndex(l.src, a.host), Record(l, a.host, a.now), Try(l, a);
      && r.src[k] == OwnRecord(s, a, Allowed(l, a))
      && Holds(r.src[k], a.host)
      && (forall j | 0 <= j < SOURCES && j != k :: r.src[j] == l.src[j])
      && (Allowed(l, a) ==> Forgiven(s, a.now).waitUntil <= a.now)
  {
    var k := SlotIndex(l.src, a.host);
    var t := Asked(l, a.host, a.now).after.src;
    assert Holds(t[k], a.host);
    assert forall j | 0 <= j < k :: !Holds(t[j], a.host);
    assert Find(t, a.host, 0) == k;
  }

  // The asking host is found where it was put.
  lemma OwnRecordMoves(l: Limiter, a: Attempt)
    requires Sound(l) && Fits(a.host) && 0 <= a.now
    ensures Known(Try(l, a), a.host)
    ensures Record(Try(l, a), a.host, a.now) == OwnRecord(Record(l, a.host, a.now), a, Allowed(l, a))
  {
    var r, k := Try(l, a), SlotIndex(l.src, a.host);
    OneSlotMoves(l, a);
    assert forall j | 0 <= j < k :: !Holds(r.src[j], a.host);
    assert Find(r.src, a.host, 0) == k;
  }

  /** Under the caller's protocol the hosts stay distinct and no wait reaches more than thirty
      seconds past the host's last attempt, so that no forgetting can cut one short. */
  lemma TryKeepsTended(l: Limiter, a: Attempt, t: int)
    requires Tended(l, t) && t <= a.now && 0 <= a.now && Fits(a.host)
    ensures Tended(Try(l, a), a.now)
  {
    var r, k, s := Try(l, a), SlotIndex(l.src, a.host), Record(l, a.host, a.now);
    OneSlotMoves(l, a);
    assert s.seen <= a.now && s.waitUntil <= s.seen + DELAY_MAX_MS;
    forall x | x in r.src ensures x.seen <= a.now && x.waitUntil <= x.seen + DELAY_MAX_MS {
      var j :| 0 <= j < SOURCES && r.src[j] == x;
      if j != k { assert l.src[j] in l.src; }
    }
  }

  // Everyone else's record is left alone, unless the slot is lost.
  lemma TryKeepsOthers(l: Limiter, a: Attempt, h: string, now: int)
    requires Sound(l) && Fits(a.host) && 0 <= a.now && Distinct(l.src)
    requires h != a.host && Known(l, h) && Known(Try(l, a), h)
    ensures Record(Try(l, a), h, now) == Record(l, h, now)
  {
    OneSlotMoves(l, a);
    var k, j := SlotIndex(l.src, a.host), Find(Try(l, a).src, h, 0);
    assert j != k && Holds(l.src[j], h);
    assert Find(l.src, h, 0) == j;
  }

  // A run: attempts, the limiter before each and after the last, and which were allowed.
  ghost predicate Run(ls: seq<Limiter>, run: seq<Attempt>, ok: seq<bool>, start: int) {
    && |ls| == |run| + 1 && |ok| == |run|
    && Tended(ls[0], start)
    && (forall i | 0 <= i < |run| :: Fits(run[i].host) && 0 <= run[i].now && start <= run[i].now)
    && (forall i, j | 0 <= i < j < |run| :: run[i].now <= run[j].now)
    && (forall n {:trigger Step(ls, run, ok, n)} | 0 <= n < |run| :: Step(ls, run, ok, n))
  }

  ghost predicate Step(ls: seq<Limiter>, run: seq<Attempt>, ok: seq<bool>, n: nat)
    requires n < |run| == |ok| && |ls| == |run| + 1
  {
    Sound(ls[n]) ==> ls[n + 1] == Try(ls[n], run[n]) && ok[n] == Allowed(ls[n], run[n])
  }

  lemma {:induction false} RunKeepsTended(ls: seq<Limiter>, run: seq<Attempt>, ok: seq<bool>, start: int, n: nat)
    requires Run(ls, run, ok, start) && n <= |run|
    ensures Tended(ls[n], if n == 0 then start else run[n - 1].now)
  {
    if n > 0 {
      RunKeepsTended(ls, run, ok, start, n - 1);
      assert Step(ls, run, ok, n - 1);
      TryKeepsTended(ls[n - 1], run[n - 1], if n == 1 then start else run[n - 2].now);
    }
  }

  // No attempt of another's from run[a] to run[b] costs the host its slot.
  ghost predicate Keeps(ls: seq<Limiter>, run: seq<Attempt>, host: string, a: nat, b: nat)
    requires a <= b <= |run| && |ls| == |run| + 1
  {
    forall n | a < n <= b :: run[n - 1].host == host || Known(ls[n], host)
  }

  // The records one host passes through from run[a] to run[b].
  ghost predicate Trace(run: seq<Attempt>, h: string, rs: seq<Source>, ok: seq<bool>, a: nat, b: nat) {
    && a < b <= |run| && |rs| == |run| + 1 && |ok| == |run|
    && run[a].host == h
    && (forall n, m | a <= n < m < b :: run[n].now <= run[m].now)
    && (forall n | a <= n < b :: Moved(rs[n], rs[n + 1], run[n], h, ok[n]))
  }

  ghost predicate Moved(r: Source, r': Source, at: Attempt, h: string, ok: bool) {
    && r.seen <= at.now
    && (if at.host != h then r' == r
        else r' == OwnRecord(r, at, ok) && (ok ==> Forgiven(r, at.now).waitUntil <= at.now))
  }

  lemma RecordIsOld(l: Limiter, t: int, h: string, now: int)
    requires Tended(l, t) && t <= now
    ensures Record(l, h, now).seen <= now
  {
    if Known(l, h) { assert l.src[Find(l.src, h, 0)] in l.src; }
  }

  // How one attempt of the run moves the record of the host that makes it, and of another.
  lemma OwnTraceStep(ls: seq<Limiter>, run: seq<Attempt>, ok: seq<bool>, start: int, n: nat, now: int)
    requires Run(ls, run, ok, start) && n < |run|
    ensures Known(ls[n + 1], run[n].host)
    ensures Moved(Record(ls[n], run[n].host, run[n].now), Record(ls[n + 1], run[n].host, now), run[n], run[n].host, ok[n])
  {
    RunKeepsTended(ls, run, ok, start, n);
    assert Step(ls, run, ok, n);
    RecordIsOld(ls[n], if n == 0 then start else run[n - 1].now, run[n].host, run[n].now);
    OwnRecordMoves(ls[n], run[n]);
    OneSlotMoves(ls[n], run[n]);
  }

  lemma OtherTraceStep(ls: seq<Limiter>, run: seq<Attempt>, ok: seq<bool>, start: int, h: string, n: nat, now: int)
    requires Run(ls, run, ok, start) && n < |run|
    requires run[n].host != h && Known(ls[n], h) && Known(ls[n + 1], h)
    ensures Moved(Record(ls[n], h, run[n].now), Record(ls[n + 1], h, now), run[n], h, ok[n])
  {
    RunKeepsTended(ls, run, ok, start, n);
    assert Step(ls, run, ok, n);
    RecordIsOld(ls[n], if n == 0 then start else run[n - 1].now, h, run[n].now);
    TryKeepsOthers(ls[n], run[n], h, run[n].now);
  }

  function At(ls: seq<Limiter>, run: seq<Attempt>, h: string, n: nat): Source
    requires n <= |run| && |ls| == |run| + 1
  {
    Record(ls[n], h, if n < |run| then run[n].now else 0)
  }

  lemma TraceStep(ls: seq<Limiter>, run: seq<Attempt>, ok: seq<bool>, start: int, a: nat, b: nat, n: nat)
    requires Run(ls, run, ok, start) && a <= n < b <= |run| && Keeps(ls, run, run[a].host, a, b)
    ensures Moved(At(ls, run, run[a].host, n), At(ls, run, run[a].host, n + 1), run[n], run[a].host, ok[n])
  {
    var h, now := run[a].host, if n + 1 < |run| then run[n + 1].now else 0;
    if run[n].host == h {
      OwnTraceStep(ls, run, ok, start, n, now);
    } else {
      if run[n - 1].host == h { OwnTraceStep(ls, run, ok, start, n - 1, run[n].now); }
      OtherTraceStep(ls, run, ok, start, h, n, now);
    }
  }

  function Records(ls: seq<Limiter>, run: seq<Attempt>, h: string, n: nat): (rs: seq<Source>)
    requires n <= |run| && |ls| == |run| + 1
    ensures |rs| == n + 1 && forall i | 0 <= i <= n :: rs[i] == At(ls, run, h, i)
  {
    (if n == 0 then [] else Records(ls, run, h, n - 1)) + [At(ls, run, h, n)]
  }

  lemma TraceOf(ls: seq<Limiter>, run: seq<Attempt>, ok: seq<bool>, start: int, a: nat, b: nat) returns (rs: seq<Source>)
    requires Run(ls, run, ok, start) && a < b <= |run| && Keeps(ls, run, run[a].host, a, b)
    ensures Trace(run, run[a].host, rs, ok, a, b)
    ensures rs[a + 1] == At(ls, run, run[a].host, a + 1)
    ensures rs[b] == At(ls, run, run[a].host, b)
  {
    rs := Records(ls, run, run[a].host, |run|);
    forall n | a <= n < b ensures Moved(rs[n], rs[n + 1], run[n], run[a].host, ok[n]) {
      TraceStep(ls, run, ok, start, a, b, n);
    }
  }

  ghost predicate Waiting(r: Source, n: nat, since: int) {
    r.failures == n && r.waitUntil == since + Wait(n) && r.seen >= since
  }

  lemma {:induction false} WaitStands(run: seq<Attempt>, h: string, rs: seq<Source>, ok: seq<bool>, a: nat, b: nat)
    requires Trace(run, h, rs, ok, a, b) && ok[a] && !run[a].right
    requires rs[a + 1].failures > FREE_TRIES
    requires b > a + 1 ==> run[b - 1].now < run[a].now + Wait(rs[a + 1].failures)
    ensures Waiting(rs[b], rs[a + 1].failures, run[a].now)
  {
    assert Moved(rs[b - 1], rs[b], run[b - 1], h, ok[b - 1]);
    if b > a + 1 {
      WaitStands(run, h, rs, ok, a, b - 1);
    }
  }

  /** Backoff. While a host keeps its slot, its nth wrong answer in a row (n >= 4) at time t
      gets it no hash before t + min(1000 * 2^(n-4), 30000), whatever anybody does meanwhile,
      and the five-minute forgetting never shortens that. */
  lemma BackoffHolds(ls: seq<Limiter>, run: seq<Attempt>, ok: seq<bool>, start: int, a: nat, b: nat)
    requires Run(ls, run, ok, start) && a < b < |run| && Keeps(ls, run, run[a].host, a, b + 1)
    requires ok[a] && !run[a].right && run[b].host == run[a].host
    ensures var n := At(ls, run, run[a].host, a + 1).failures;
      n >= 4 && run[b].now < run[a].now + Wait(n) ==> !ok[b]
  {
    var rs := TraceOf(ls, run, ok, start, a, b + 1);
    var n := rs[a + 1].failures;
    if n >= 4 && run[b].now < run[a].now + Wait(n) {
      WaitStands(run, run[a].host, rs, ok, a, b);
      assert Moved(rs[b], rs[b + 1], run[b], run[a].host, ok[b]);
    }
  }

  // Wrong answers this host was allowed among run[a..b].
  function Guesses(run: seq<Attempt>, host: string, ok: seq<bool>, a: nat, b: nat): nat
    requires a <= b <= |run| == |ok|
  {
    if a == b then 0
    else Guesses(run, host, ok, a, b - 1) + if run[b - 1].host == host && ok[b - 1] then 1 else 0
  }

  // Thirty-second units not yet waited for: each failure adds one and its wait pays some back.
  function Unpaid(n: nat): int { if n == 0 then 0 else Unpaid(n - 1) + DELAY_MAX_MS - Wait(n - 1) }

  lemma {:induction false} UnpaidIsBounded(n: nat)
    ensures n >= 1 ==> DELAY_MAX_MS <= Unpaid(n)
    ensures Unpaid(n) <= 239000
  {
    if n <= 9 {
      assert Unpaid(1) == 30000 && Unpaid(4) == 120000;
      assert Pow2(0) == 1 && Pow2(1) == 2 && Pow2(2) == 4 && Pow2(3) == 8 && Pow2(4) == 16;
      assert Unpaid(6) == 177000 && Unpaid(9) == 239000;
    } else {
      UnpaidIsBounded(n - 1);
      assert Pow2(5) == 32;
      Pow2Grows(5, n - 1 - FREE_TRIES - 1);
    }
  }

  // `guesses` wrong answers from time `since` on, the last reckoned at `last`.
  ghost predicate Accounted(r: Source, last: int, since: int, guesses: nat) {
    && last <= r.seen
    && (r.failures > FREE_TRIES ==> r.waitUntil == last + Wait(r.failures))
    && DELAY_MAX_MS * guesses <= (last - since) + Unpaid(r.failures)
  }

  // One more attempt stays within the account, paid for by its wait or by the silence.
  lemma AnotherAttempt(r: Source, last: int, since: int, guesses: nat, a: Attempt, ok: bool) returns (last': int)
    requires Accounted(r, last, since, guesses) && r.seen <= a.now && !a.right
    requires ok ==> Forgiven(r, a.now).waitUntil <= a.now
    ensures last' <= a.now && (ok ==> last' == a.now)
    ensures Accounted(OwnRecord(r, a, ok), last', since, guesses + if ok then 1 else 0)
  {
    UnpaidIsBounded(r.failures);
    assert Unpaid(1) == DELAY_MAX_MS;
    last' := if ok || a.now - r.seen > FORGET_MS then a.now else last;
  }

  lemma {:induction false} GuessesAccounted(run: seq<Attempt>, h: string, rs: seq<Source>, ok: seq<bool>, a: nat, b: nat)
    returns (last: int)
    requires Trace(run, h, rs, ok, a, b) && ok[a]
    requires forall i | a <= i < b && run[i].host == h :: !run[i].right
    ensures last <= run[b - 1].now
    ensures Accounted(rs[b], last, run[a].now, Guesses(run, h, ok, a, b))
  {
    assert Moved(rs[b - 1], rs[b], run[b - 1], h, ok[b - 1]);
    if b == a + 1 {
      last := run[a].now;
      UnpaidIsBounded(rs[b].failures);
      assert Guesses(run, h, ok, a, a) == 0;
    } else {
      last := GuessesAccounted(run, h, rs, ok, a, b - 1);
      if run[b - 1].host == h {
        last := AnotherAttempt(rs[b - 1], last, run[a].now, Guesses(run, h, ok, a, b - 1), run[b - 1], ok[b - 1]);
      }
    }
  }

  /** What a dictionary costs. A host that keeps its slot and never answers right is allowed,
      from one wrong answer to a later attempt, one guess per thirty seconds and at most eight
      more, forgetting included. */
  lemma DictionaryBound(ls: seq<Limiter>, run: seq<Attempt>, ok: seq<bool>, start: int, a: nat, b: nat)
    requires Run(ls, run, ok, start) && a <= b < |run| && Keeps(ls, run, run[a].host, a, b + 1)
    requires ok[a] && forall i | a <= i <= b && run[i].host == run[a].host :: !run[i].right
    ensures DELAY_MAX_MS * Guesses(run, run[a].host, ok, a, b + 1) <= (run[b].now - run[a].now) + 239000
  {
    var rs := TraceOf(ls, run, ok, start, a, b + 1);
    var last := GuessesAccounted(run, run[a].host, rs, ok, a, b + 1);
    UnpaidIsBounded(rs[b + 1].failures);
  }
}
