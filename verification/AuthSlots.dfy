/**
 * When a host keeps its slot in the limiter of rhd (rhd/rhd_authrate.c), on which its waits depend:
 * as long as fewer than eight others have made an attempt since.
 */
module AuthSlots {
  import opened AuthRate

  // Every slot in use was last seen at an attempt of its host.
  ghost predicate Attested(l: Limiter, run: seq<Attempt>, n: nat) {
    forall j | 0 <= j < |l.src| && l.src[j].host != "" :: SeenAt(l.src[j], run, n)
  }

  ghost predicate SeenAt(s: Source, run: seq<Attempt>, n: nat) {
    exists i :: 0 <= i < n && i < |run| && run[i].host == s.host && run[i].now == s.seen
  }

  lemma OneMoreAttested(l: Limiter, run: seq<Attempt>, n: nat, r: Limiter)
    requires Sound(l) && n < |run| && Fits(run[n].host) && 0 <= run[n].now && Attested(l, run, n) && r == Try(l, run[n])
    ensures Attested(r, run, n + 1)
  {
    var k := SlotIndex(l.src, run[n].host);
    OneSlotMoves(l, run[n]);
    forall j | 0 <= j < |r.src| && r.src[j].host != "" ensures SeenAt(r.src[j], run, n + 1) {
      if j == k {
        assert run[n].host == r.src[k].host && run[n].now == r.src[k].seen;
      } else {
        assert SeenAt(l.src[j], run, n);
      }
    }
  }

  predicate Empty(l: Limiter) { forall j | 0 <= j < |l.src| :: l.src[j].host == "" }

  lemma StepIsTry(ls: seq<Limiter>, run: seq<Attempt>, ok: seq<bool>, start: int, n: nat, l: Limiter, r: Limiter, at: Attempt)
    requires Run(ls, run, ok, start) && n < |run| && l == ls[n] && r == ls[n + 1] && at == run[n]
    ensures Sound(l) && Fits(at.host) && 0 <= at.now && r == Try(l, at)
  {
    RunKeepsTended(ls, run, ok, start, n);
    assert Step(ls, run, ok, n);
  }

  lemma {:induction false} RunIsAttested(ls: seq<Limiter>, run: seq<Attempt>, ok: seq<bool>, start: int, n: nat)
    requires Run(ls, run, ok, start) && Empty(ls[0]) && n <= |run|
    ensures Attested(ls[n], run, n)
  {
    if n > 0 {
      RunIsAttested(ls, run, ok, start, n - 1);
      StepIsTry(ls, run, ok, start, n - 1, ls[n - 1], ls[n], run[n - 1]);
      OneMoreAttested(ls[n - 1], run, n - 1, ls[n]);
    }
  }

  // ----- counting hosts ------------------------------------------------------------------

  function HostSet(src: seq<Source>, n: nat): set<string>
    requires n <= |src|
  {
    if n == 0 then {} else HostSet(src, n - 1) + {src[n - 1].host}
  }

  lemma {:induction false} HostHasASlot(src: seq<Source>, n: nat, x: string) returns (j: nat)
    requires n <= |src| && x in HostSet(src, n)
    ensures j < n && src[j].host == x
  {
    if src[n - 1].host == x {
      j := n - 1;
    } else {
      j := HostHasASlot(src, n - 1, x);
    }
  }

  lemma {:induction false} SlotHasItsHost(src: seq<Source>, n: nat, j: nat)
    requires j < n <= |src|
    ensures src[j].host in HostSet(src, n)
  {
    if j < n - 1 { SlotHasItsHost(src, n - 1, j); }
  }

  lemma OneMoreInSet(s: set<string>, x: string, r: set<string>)
    requires x !in s && r == s + {x}
    ensures |r| == |s| + 1
  {
  }

  lemma NewHost(src: seq<Source>, n: nat)
    requires n < |src| && Distinct(src) && forall j | 0 <= j <= n :: src[j].host != ""
    ensures src[n].host !in HostSet(src, n)
  {
    if src[n].host in HostSet(src, n) { var j := HostHasASlot(src, n, src[n].host); }
  }

  lemma {:induction false} HostSetSize(src: seq<Source>, n: nat)
    requires n <= |src| && Distinct(src) && forall j | 0 <= j < n :: src[j].host != ""
    ensures |HostSet(src, n)| == n
  {
    if n > 0 {
      HostSetSize(src, n - 1);
      NewHost(src, n - 1);
      OneMoreInSet(HostSet(src, n - 1), src[n - 1].host, HostSet(src, n));
    }
  }

  // The other hosts that made an attempt at time t or later, among the first n.
  function Others(run: seq<Attempt>, h: string, t: int, n: nat): set<string> {
    set i | 0 <= i < |run| && i < n && run[i].now >= t && run[i].host != h :: run[i].host
  }

  lemma Included(small: set<string>, big: set<string>)
    requires small <= big
    ensures |small| <= |big|
  {
    assert big == small + (big - small);
  }

  // ----- losing a slot -------------------------------------------------------------------

  lemma HeldIsKnown(l: Limiter, h: string, j: nat)
    requires j < |l.src|
    ensures Holds(l.src[j], h) ==> Known(l, h)
  {
  }

  lemma {:induction false} LostToTheNewcomer(l: Limiter, at: Attempt, h: string)
    requires Sound(l) && Fits(at.host) && 0 <= at.now && h != at.host && Known(l, h) && !Known(Try(l, at), h)
    ensures !InTable(l.src, at.host)
    ensures forall j | 0 <= j < SOURCES :: l.src[j].host != "" && Record(l, h, 0).seen <= l.src[j].seen
  {
    var k, j := SlotIndex(l.src, at.host), Find(l.src, h, 0);
    OneSlotMoves(l, at);
    HeldIsKnown(Try(l, at), h, j);
    assert j == k;
    assert Slotted(l.src, at.host, at.now)[k].host != l.src[k].host;
    EvictsTheQuietest(l.src, at.host, at.now, k);
  }

  lemma HostIsInTable(src: seq<Source>, n: nat, x: string)
    requires n <= |src| && x in HostSet(src, n) && x != ""
    ensures InTable(src, x)
  {
    var j := HostHasASlot(src, n, x);
    assert Holds(src[j], x) && src[j] in src;
  }

  // A host of the table other than h was there at or after the time of whoever is quietest.
  lemma HostIsAnother(l: Limiter, run: seq<Attempt>, n: nat, h: string, since: int, x: string)
    requires Sound(l) && Attested(l, run, n) && n <= |run| && x in HostSet(l.src, SOURCES) && x != h
    requires forall j | 0 <= j < SOURCES :: l.src[j].host != "" && since <= l.src[j].seen
    ensures x in Others(run, h, since, n + 1)
  {
    var j := HostHasASlot(l.src, SOURCES, x);
    assert SeenAt(l.src[j], run, n);
    var i :| 0 <= i < n && i < |run| && run[i].host == l.src[j].host && run[i].now == l.src[j].seen;
  }

  lemma Exchanged(hosts: set<string>, h: string, x: string)
    requires h in hosts && x !in hosts
    ensures |hosts - {h} + {x}| == |hosts|
  {
  }

  // A full table without the newcomer, all of it seen since: eight others.
  lemma {:induction false} EightOthers(l: Limiter, run: seq<Attempt>, n: nat, h: string, since: int)
    requires Sound(l) && Distinct(l.src) && n < |run| && run[n].host != "" && h != run[n].host && Attested(l, run, n)
    requires Known(l, h) && !InTable(l.src, run[n].host) && since <= run[n].now
    requires forall j | 0 <= j < SOURCES :: l.src[j].host != "" && since <= l.src[j].seen
    ensures |Others(run, h, since, n + 1)| >= 8
  {
    var x, hosts := run[n].host, HostSet(l.src, SOURCES);
    HostSetSize(l.src, SOURCES);
    if x in hosts { HostIsInTable(l.src, SOURCES, x); }
    SlotHasItsHost(l.src, SOURCES, Find(l.src, h, 0));
    Exchanged(hosts, h, x);
    EachIsAnother(l, run, n, h, since, x, hosts);
    Included(hosts - {h} + {x}, Others(run, h, since, n + 1));
  }

  lemma {:induction false} EachIsAnother(l: Limiter, run: seq<Attempt>, n: nat, h: string, since: int, x: string, hosts: set<string>)
    requires Sound(l) && n < |run| && x == run[n].host != h && Attested(l, run, n) && since <= run[n].now
    requires hosts == HostSet(l.src, SOURCES) && forall j | 0 <= j < SOURCES :: l.src[j].host != "" && since <= l.src[j].seen
    ensures hosts - {h} + {x} <= Others(run, h, since, n + 1)
  {
    forall y | y in hosts - {h} + {x} ensures y in Others(run, h, since, n + 1) {
      if y != x { HostIsAnother(l, run, n, h, since, y); }
    }
  }

  /** A host loses its slot only when eight others have made an attempt no earlier than its own last. */
  lemma {:induction false} LostToEight(l: Limiter, run: seq<Attempt>, n: nat, h: string, since: int)
    requires Sound(l) && Distinct(l.src) && n < |run| && Fits(run[n].host) && 0 <= run[n].now && h != run[n].host
    requires Attested(l, run, n) && Known(l, h) && !Known(Try(l, run[n]), h) && since == Record(l, h, 0).seen <= run[n].now
    ensures |Others(run, h, since, n + 1)| >= 8
  {
    LostToTheNewcomer(l, run[n], h);
    EightOthers(l, run, n, h, since);
  }

  lemma {:induction false} SeenOnTrace(run: seq<Attempt>, h: string, rs: seq<Source>, ok: seq<bool>, a: nat, b: nat)
    requires Trace(run, h, rs, ok, a, b)
    ensures rs[b].seen >= run[a].now
  {
    assert Moved(rs[b - 1], rs[b], run[b - 1], h, ok[b - 1]);
    if b > a + 1 { SeenOnTrace(run, h, rs, ok, a, b - 1); }
  }

  lemma {:induction false} LaterIsFewer(run: seq<Attempt>, h: string, t: int, u: int, n: nat, m: nat)
    requires t <= u && n <= m
    ensures |Others(run, h, u, n)| <= |Others(run, h, t, m)|
  {
    Included(Others(run, h, u, n), Others(run, h, t, m));
  }

  // One attempt more: the slot is kept, or eight others have been there.
  lemma {:induction false} KeptByFew(l: Limiter, run: seq<Attempt>, n: nat, h: string, t: int, since: int)
    requires Tended(l, t) && n < |run| && t <= run[n].now && Fits(run[n].host) && 0 <= run[n].now && h != run[n].host
    requires Attested(l, run, n) && Known(l, h) && since <= Record(l, h, 0).seen && |Others(run, h, since, n + 1)| < 8
    ensures Known(Try(l, run[n]), h)
  {
    RecordIsOld(l, t, h, run[n].now);
    if !Known(Try(l, run[n]), h) {
      LostToEight(l, run, n, h, Record(l, h, 0).seen);
      LaterIsFewer(run, h, since, Record(l, h, 0).seen, n + 1, n + 1);
    }
  }

  lemma {:induction false} SeenSince(ls: seq<Limiter>, run: seq<Attempt>, ok: seq<bool>, start: int, a: nat, n: nat)
    requires Run(ls, run, ok, start) && a < n < |run| && Keeps(ls, run, run[a].host, a, n)
    ensures Known(ls[n], run[a].host) && Record(ls[n], run[a].host, 0).seen >= run[a].now
  {
    var rs := TraceOf(ls, run, ok, start, a, n);
    SeenOnTrace(run, run[a].host, rs, ok, a, n);
    if run[n - 1].host == run[a].host { OwnTraceStep(ls, run, ok, start, n - 1, run[n].now); }
  }

  lemma {:induction false} KeptOnce(ls: seq<Limiter>, run: seq<Attempt>, ok: seq<bool>, start: int, a: nat, n: nat)
    requires Run(ls, run, ok, start) && Empty(ls[0]) && a < n < |run| && Keeps(ls, run, run[a].host, a, n)
    requires run[n].host != run[a].host && |Others(run, run[a].host, run[a].now, n + 1)| < 8
    ensures Known(ls[n + 1], run[a].host)
  {
    SeenSince(ls, run, ok, start, a, n);
    RunKeepsTended(ls, run, ok, start, n);
    RunIsAttested(ls, run, ok, start, n);
    assert Step(ls, run, ok, n);
    KeptByFew(ls[n], run, n, run[a].host, run[n - 1].now, run[a].now);
  }

  /** From an empty limiter: a host keeps its slot, from an attempt of its own on, as long as fewer than
      eight others make one no earlier than that. */
  lemma {:induction false} FewHostsKeepSlots(ls: seq<Limiter>, run: seq<Attempt>, ok: seq<bool>, start: int, a: nat, b: nat)
    requires Run(ls, run, ok, start) && Empty(ls[0]) && a < b <= |run|
    requires |Others(run, run[a].host, run[a].now, b)| < 8
    ensures Keeps(ls, run, run[a].host, a, b)
  {
    if b > a + 1 {
      LaterIsFewer(run, run[a].host, run[a].now, run[a].now, b - 1, b);
      FewHostsKeepSlots(ls, run, ok, start, a, b - 1);
      if run[b - 1].host != run[a].host { KeptOnce(ls, run, ok, start, a, b - 1); }
    }
  }

  /** So the cost of a dictionary needs no word about slots: one guess per thirty seconds and at most
      eight more, for any host while fewer than eight others try. */
  lemma {:induction false} DictionaryBoundForFew(ls: seq<Limiter>, run: seq<Attempt>, ok: seq<bool>, start: int, a: nat, b: nat)
    requires Run(ls, run, ok, start) && Empty(ls[0]) && a <= b < |run| && ok[a]
    requires |Others(run, run[a].host, run[a].now, b + 1)| < 8
    requires forall i | a <= i <= b && run[i].host == run[a].host :: !run[i].right
    ensures DELAY_MAX_MS * Guesses(run, run[a].host, ok, a, b + 1) <= (run[b].now - run[a].now) + 239000
  {
    FewHostsKeepSlots(ls, run, ok, start, a, b + 1);
    DictionaryBound(ls, run, ok, start, a, b);
  }
}
