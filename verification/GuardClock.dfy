/**
 * The guard's clock over whole runs (rcd/rcd_guard.c): when it runs although nothing was applied,
 * what a restart of the daemon makes of it, what a confirm settles, and when a setting nobody
 * confirmed is in force without it.
 */
module GuardClock {
  import opened Basics
  import opened Guard
  import opened GuardRuns

  // ----- which enacts a pass calls -------------------------------------------------------

  // The i-th key of the snapshot has to be enacted: this pass puts it back, or an earlier one did
  // and could not enact it.
  predicate Due(t: seq<Key>, c: Camera, l: Luck, i: nat)
    requires i < |c.ram.guard| && c.ram.guard[i].key < |c.stores|
  {
    if Moved(c, i) then c.ram.guard[i].key !in l.badSets else c.ram.guard[i].owed
  }

  ghost predicate SomeDue(t: seq<Key>, c: Camera, l: Luck, n: nat, e: nat)
    requires Wf(t, c) && n <= |c.ram.guard|
  {
    exists i :: 0 <= i < n && DueFor(t, c, l, i, e)
  }

  ghost predicate DueFor(t: seq<Key>, c: Camera, l: Luck, i: nat, e: nat)
    requires Wf(t, c) && i < |c.ram.guard|
  {
    c.ram.guard[i].key < |t| && t[c.ram.guard[i].key].enact == e && Due(t, c, l, i)
  }

  // The enact it adds is its own, and it is due.
  lemma {:induction false} OneMoreDue(t: seq<Key>, c: Camera, l: Luck, n: nat, m: nat, p: Pass, r: Pass, e: nat)
    requires Wf(t, c) && n < |c.ram.guard| && m == n + 1 && p == PutBack(t, c, l, n) && r == PutBackOne(t, p, n, c.ram.deadline != 0, l)
    requires e in p.enacts ==> SomeDue(t, c, l, n, e)
    ensures e in r.enacts ==> SomeDue(t, c, l, m, e)
  {
    if e in p.enacts {
      var i :| 0 <= i < n && DueFor(t, c, l, i, e);
    } else if e in r.enacts {
      NextKeyUntouched(t, c, l, n, p);
      assert DueFor(t, c, l, n, e);
    }
  }

  lemma {:induction false} EnactsAreDue(t: seq<Key>, c: Camera, l: Luck, n: nat, r: Pass, e: nat)
    requires Wf(t, c) && n <= |c.ram.guard| && r == PutBack(t, c, l, n)
    ensures e in r.enacts ==> SomeDue(t, c, l, n, e)
  {
    if n > 0 {
      var p := PutBack(t, c, l, n - 1);
      EnactsAreDue(t, c, l, n - 1, p, e);
      OneMoreDue(t, c, l, n - 1, n, p, r, e);
    }
  }

  /** A pass calls an enact exactly when the clock was running and some key of it is due. */
  lemma {:induction false} PassEnactsIff(t: seq<Key>, c: Camera, l: Luck, e: nat)
    requires Wf(t, c) && e != 0
    ensures e in PutBack(t, c, l, |c.ram.guard|).enacts <==> c.ram.deadline != 0 && SomeDue(t, c, l, |c.ram.guard|, e)
  {
    var n := |c.ram.guard|;
    var p := PutBack(t, c, l, n);
    PutBackProgress(t, c, l, n);
    if e in p.enacts {
      EnactsAreDue(t, c, l, n, p, e);
    }
    if c.ram.deadline != 0 && SomeDue(t, c, l, n, e) {
      var i :| 0 <= i < n && DueFor(t, c, l, i, e);
      assert KeyProgress(t, c, l, n, p, i);
    }
  }

  // ----- the clock of a change that was never applied ------------------------------------

  ghost predicate PassAt(t: seq<Key>, cs: seq<Camera>, es: seq<Event>, n: nat) {
    n < |es| && n < |cs| && Facing(t, cs[n], es[n]).Some?
  }

  ghost predicate NoStart(es: seq<Event>, a: nat, b: nat) {
    forall n | a <= n < b && n < |es| :: !Starts(es[n])
  }

  // Some pass has been made, and the daemon has not been started after it.
  ghost predicate TriedSinceStart(t: seq<Key>, cs: seq<Camera>, es: seq<Event>, a: nat, b: nat) {
    exists n :: a <= n < b && PassAt(t, cs, es, n) && NoStart(es, n + 1, b)
  }

  lemma {:induction false} UnarmedClock(t: seq<Key>, c: Camera, e: Event, l: Luck)
    requires Inv(t, c) && Sound(c) && c.ram.guard != [] && Recorded(c) && !c.record.value.armed
    requires !Ends(t, c, e, l) && !Arms(t, c, e)
    ensures Facing(t, c, e).Some? ==> !Starts(e)
    ensures Step(t, c, e, l).ram.deadline != 0 <==> Facing(t, c, e).Some? || (c.ram.deadline != 0 && !Starts(e))
  {
    if Facing(t, c, e).Some? {
      FacingHolds(t, c, e);
      PassIs(t, c, e, l);
      PassOutcome(t, Facing(t, c, e).value, e.now, l);
    } else if Starts(e) {
      StartIs(t, c, e, l);
    } else {
      QuietStep(t, c, e, l);
    }
  }

  /** The clock of a change that was staged and never applied runs exactly when a revert has been
      tried, and has failed, since the daemon was last started. */
  lemma {:induction false} UnappliedClockRunsIff(t: seq<Key>, cs: seq<Camera>, es: seq<Event>, ls: seq<Luck>, a: nat, b: nat)
    requires Run(t, cs, es, ls) && a < b <= |es| && Holds(cs, es, ls, a) && Lasting(t, cs, es, ls, a + 1, b)
    requires forall n | a <= n < b :: !Arms(t, cs[n], es[n])
    ensures cs[b].ram.guard != [] && (cs[b].ram.deadline != 0 <==> TriedSinceStart(t, cs, es, a + 1, b))
  {
    HeldSinceThen(t, cs, es, ls, a, b);
    if b == a + 1 {
      StepOf(t, cs, es, ls, a, cs[a], es[a], ls[a], cs[b]);
      HoldWithoutClock(t, cs[a], es[a], ls[a], cs[b]);
    } else {
      UnappliedClockRunsIff(t, cs, es, ls, a, b - 1);
      HeldSinceThen(t, cs, es, ls, a, b - 1);
      UnappliedStep(t, cs, es, ls, b - 1, cs[b - 1], es[b - 1], ls[b - 1], cs[b]);
      TriedOneMore(t, cs, es, a + 1, b - 1);
    }
  }

  lemma {:induction false} UnappliedStep(t: seq<Key>, cs: seq<Camera>, es: seq<Event>, ls: seq<Luck>, n: nat, c: Camera, e: Event, l: Luck, d: Camera)
    requires Run(t, cs, es, ls) && n < |es| && c == cs[n] && e == es[n] && l == ls[n] && d == cs[n + 1]
    requires c.ram.guard != [] && Recorded(c) && !c.record.value.armed && GoesOn(t, cs, es, ls, n) && !Arms(t, c, e)
    ensures PassAt(t, cs, es, n) ==> !Starts(e)
    ensures d.ram.deadline != 0 <==> PassAt(t, cs, es, n) || (c.ram.deadline != 0 && !Starts(e))
  {
    StepOf(t, cs, es, ls, n, c, e, l, d);
    UnarmedClock(t, c, e, l);
  }

  lemma {:induction false} HoldWithoutClock(t: seq<Key>, c: Camera, e: Event, l: Luck, d: Camera)
    requires Inv(t, c) && Sound(c) && (e.Edit? || e.Apply?) && c.ram.guard == [] && !Arms(t, c, e) && d == Step(t, c, e, l)
    ensures d.ram.deadline == 0
  {
    QuietStep(t, c, e, l);
  }

  lemma {:induction false} TriedOneMore(t: seq<Key>, cs: seq<Camera>, es: seq<Event>, a: nat, b: nat)
    requires a <= b < |es| && |cs| == |es| + 1 && (PassAt(t, cs, es, b) ==> !Starts(es[b]))
    ensures TriedSinceStart(t, cs, es, a, b + 1) <==> PassAt(t, cs, es, b) || (TriedSinceStart(t, cs, es, a, b) && !Starts(es[b]))
  {
    if TriedSinceStart(t, cs, es, a, b + 1) {
      var n :| a <= n < b + 1 && PassAt(t, cs, es, n) && NoStart(es, n + 1, b + 1);
      assert n < b ==> NoStart(es, n + 1, b);
    }
    if TriedSinceStart(t, cs, es, a, b) && !Starts(es[b]) {
      var n :| a <= n < b && PassAt(t, cs, es, n) && NoStart(es, n + 1, b);
      assert NoStart(es, n + 1, b + 1);
    }
    if PassAt(t, cs, es, b) { assert NoStart(es, b + 1, b + 1); }
  }

  /** So a change that was never applied is undone without an enact, unless an earlier attempt
      failed: then the pass enacts whatever is due. */
  lemma {:induction false} UnappliedPassEnactsIff(t: seq<Key>, cs: seq<Camera>, es: seq<Event>, ls: seq<Luck>, a: nat, b: nat, l: Luck, e: nat)
    requires Run(t, cs, es, ls) && a < b <= |es| && Holds(cs, es, ls, a) && Lasting(t, cs, es, ls, a + 1, b) && e != 0
    requires forall n | a <= n < b :: !Arms(t, cs[n], es[n])
    ensures Wf(t, cs[b])
    ensures e in PutBack(t, cs[b], l, |cs[b].ram.guard|).enacts <==>
      TriedSinceStart(t, cs, es, a + 1, b) && SomeDue(t, cs[b], l, |cs[b].ram.guard|, e)
  {
    RunKeepsInv(t, cs, es, ls, b);
    UnappliedClockRunsIff(t, cs, es, ls, a, b);
    PassEnactsIff(t, cs[b], l, e);
  }

  // ----- a restart of the daemon ---------------------------------------------------------

  ghost predicate TmpfsWorks(ls: seq<Luck>) { forall l | l in ls :: l.tmpfs }

  // The marker is in step with the clock, and an armed guard has a window.
  ghost predicate Clocked(c: Camera) {
    && (c.ram.deadline != 0 ==> c.marker == Some(Marker(c.ram.deadline, c.ram.windowSec)))
    && (c.record.Some? && c.record.value.armed ==>
          && c.record.value.windowSec > 0
          && (c.marker.Some? ==> c.marker.value.windowSec > 0)
          && (c.ram.guard != [] ==> c.ram.windowSec > 0))
  }

  lemma {:induction false} EditKeepsClocked(t: seq<Key>, c: Camera, k: nat, v: Store, l: Luck)
    requires |c.stores| == |c.force| == |t| && Sound(c) && Clocked(c) && l.flash && k < |t|
    ensures Clocked(Edited(t, c, k, v, l))
  {
    EditsHold(t, c, k, v, l);
    if c.ram.guard == [] { HeldIs(t, c, l); }
  }

  lemma {:induction false} ApplyKeepsClocked(t: seq<Key>, c: Camera, now: nat, l: Luck)
    requires |c.stores| == |c.force| == |t| && Clocked(c) && l.flash && l.tmpfs
    ensures Clocked(Applied(t, c, now, l))
  {
  }

  lemma {:induction false} PassKeepsClocked(t: seq<Key>, c: Camera, now: nat, l: Luck)
    requires Inv(t, c) && c.ram.guard != [] && l.tmpfs && Recorded(c)
    requires c.record.value.armed ==> c.record.value.windowSec > 0 && c.ram.windowSec > 0
    ensures Clocked(Reverted(t, c, now, l))
  {
    PassOutcome(t, c, now, l);
  }

  lemma {:induction false} StartKeepsClocked(t: seq<Key>, c: Camera, e: Event, l: Luck)
    requires Inv(t, c) && Sound(c) && Clocked(c) && l.tmpfs && Starts(e)
    ensures Clocked(Step(t, c, e, l))
  {
    var b := Waking(c, e);
    StartIs(t, c, e, l);
    if b.record.Some? {
      WakingInv(t, c, e);
      InHandIs(t, b);
      if FacingAtStart(t, b, e.now).Some? { PassKeepsClocked(t, InHand(t, b), e.now, l); }
    }
  }

  lemma {:induction false} StepKeepsClocked(t: seq<Key>, c: Camera, e: Event, l: Luck)
    requires Inv(t, c) && Sound(c) && Recorded(c) && Clocked(c) && l.flash && l.tmpfs
    ensures Clocked(Step(t, c, e, l))
  {
    if Starts(e) {
      StartKeepsClocked(t, c, e, l);
    } else if Facing(t, c, e).Some? {
      FacingHolds(t, c, e);
      PassIs(t, c, e, l);
      PassKeepsClocked(t, Facing(t, c, e).value, e.now, l);
    } else if e.Apply? {
      ApplyKeepsClocked(t, c, e.now, l);
    } else if e.Edit? && e.key < |t| {
      EditKeepsClocked(t, c, e.key, e.value, l);
    }
  }

  lemma {:induction false} RunIsClocked(t: seq<Key>, cs: seq<Camera>, es: seq<Event>, ls: seq<Luck>, n: nat)
    requires Run(t, cs, es, ls) && FlashWorks(ls) && TmpfsWorks(ls) && n <= |es|
    ensures Clocked(cs[n])
  {
    if n > 0 {
      RunIsClocked(t, cs, es, ls, n - 1);
      RunIsRecorded(t, cs, es, ls, n - 1);
      RunKeepsInv(t, cs, es, ls, n - 1);
      RunIsSound(t, cs, es, ls, n - 1);
      assert Happened(t, cs, es, ls, n - 1);
      StepKeepsClocked(t, cs[n - 1], es[n - 1], ls[n - 1]);
    }
  }

  lemma {:induction false} RestartInHand(t: seq<Key>, c: Camera, now: nat)
    requires Inv(t, c) && Sound(c) && Recorded(c) && Clocked(c) && c.ram.deadline != 0
    ensures c.record.Some?
    ensures var f := InHand(t, Waking(c, Restart(now)));
      && Plain(f.ram.guard) == Plain(c.ram.guard)
      && f == c.(ram := f.ram, undone := {})
      && f.ram == Ram(f.ram.guard, if c.record.value.armed then c.ram.deadline else 0,
                      if c.record.value.armed then c.ram.windowSec else 0, 0, c.drift, false, 0)
  {
    WakingInv(t, c, Restart(now));
    InHandIs(t, Waking(c, Restart(now)));
  }

  /** A window outlives the daemon. Restarted while the clock is running, at any point of a run in
      which the files can be written, it resumes the same deadline, window and snapshot, or reverts
      that snapshot if the window ran out meanwhile; unless the clock is that of a retry of a change
      that was never applied, whose record is not armed: then the snapshot is kept and the clock is
      not. Retries start again, and the radio is no longer asked. */
  lemma {:induction false} RestartResumes(t: seq<Key>, cs: seq<Camera>, es: seq<Event>, ls: seq<Luck>, n: nat, now: nat, l: Luck)
    requires Run(t, cs, es, ls) && FlashWorks(ls) && TmpfsWorks(ls) && n <= |es| && cs[n].ram.deadline != 0
    ensures cs[n].record.Some? && |cs[n].stores| == |cs[n].force| == |t|
    ensures var c, d, f := cs[n], Step(t, cs[n], Restart(now), l), InHand(t, Waking(cs[n], Restart(now)));
      && Plain(f.ram.guard) == Plain(c.ram.guard)
      && f == c.(ram := f.ram, undone := {})
      && f.ram == Ram(f.ram.guard, if c.record.value.armed then c.ram.deadline else 0,
                      if c.record.value.armed then c.ram.windowSec else 0, 0, c.drift, false, 0)
      && d == if c.record.value.armed && now >= c.ram.deadline then Reverted(t, f, now, l) else f
  {
    RunIsClocked(t, cs, es, ls, n);
    RunIsRecorded(t, cs, es, ls, n);
    RunKeepsInv(t, cs, es, ls, n);
    RunIsSound(t, cs, es, ls, n);
    RestartInHand(t, cs[n], now);
    StartIs(t, cs[n], Restart(now), l);
  }

  // ----- a confirm is final --------------------------------------------------------------

  // Nothing is held, in memory or on flash.
  predicate Clear(c: Camera) { c.ram.guard == [] && c.ram.deadline == 0 && c.record.None? }

  // An event that takes a snapshot.
  predicate TakesHold(t: seq<Key>, c: Camera, e: Event) {
    Arms(t, c, e) || (e.Edit? && e.key < |t| && t[e.key].guardSec > 0)
  }

  lemma {:induction false} ClearStep(t: seq<Key>, c: Camera, e: Event, l: Luck, d: Camera, k: nat)
    requires |c.stores| == |c.force| == |t| && Clear(c) && !TakesHold(t, c, e) && k < |t| && d == Step(t, c, e, l)
    requires e.Edit? ==> e.key != k
    ensures Clear(d) && |d.stores| == |d.force| == |t| && d.stores[k] == c.stores[k]
    ensures d.force[k] == c.force[k] || d.force[k] == c.stores[k]
  {
  }

  ghost predicate LeftAlone(t: seq<Key>, cs: seq<Camera>, es: seq<Event>, n: nat, k: nat) {
    n < |es| && n < |cs| ==> !TakesHold(t, cs[n], es[n]) && (es[n].Edit? ==> es[n].key != k)
  }

  /** A confirm is final. Until a guarded key is set or applied again nothing is held, and through
      whatever else happens, ticks, cancels, restarts and reboots among it, a store nobody sets keeps
      the confirmed value; what is in force for it is what was, or that value. */
  lemma {:induction false} ConfirmIsFinal(t: seq<Key>, cs: seq<Camera>, es: seq<Event>, ls: seq<Luck>, a: nat, b: nat, k: nat)
    requires Run(t, cs, es, ls) && a < b <= |es| && Confirms(cs[a], es[a]) && k < |t|
    requires forall n | a < n < b :: LeftAlone(t, cs, es, n, k)
    ensures Clear(cs[b]) && |cs[a].stores| == |cs[b].stores| == |cs[a].force| == |cs[b].force| == |t|
    ensures cs[b].stores[k] == cs[a].stores[k] && (cs[b].force[k] == cs[a].force[k] || cs[b].force[k] == cs[a].stores[k])
  {
    RunKeepsInv(t, cs, es, ls, b - 1);
    assert Happened(t, cs, es, ls, b - 1);
    if b > a + 1 {
      ConfirmIsFinal(t, cs, es, ls, a, b - 1, k);
      assert LeftAlone(t, cs, es, b - 1, k);
      ClearStep(t, cs[b - 1], es[b - 1], ls[b - 1], cs[b], k);
    }
  }

  // ----- in force without a clock --------------------------------------------------------

  // The i-th key of c's snapshot is in force, in d, with another value than the snapshot has.
  predicate NewInForce(t: seq<Key>, c: Camera, d: Camera, i: nat) {
    i < |c.ram.guard| && c.ram.guard[i].key < |d.force| && d.force[c.ram.guard[i].key] != c.ram.guard[i].prev
  }

  // A change is staged: held and recorded, with nothing applied and nothing of it in force.
  ghost predicate Staged(t: seq<Key>, c: Camera) {
    && Inv(t, c) && Sound(c) && c.ram.guard != [] && Recorded(c) && !c.record.value.armed && c.ram.deadline == 0
    && forall i | 0 <= i < |c.ram.guard| :: !NewInForce(t, c, c, i)
  }

  // The event brings the i-th key into force as its store has it, and starts no clock.
  predicate Exposes(t: seq<Key>, c: Camera, e: Event, l: Luck, i: nat)
    requires |c.stores| == |c.force| == |t| && i < |c.ram.guard| && c.ram.guard[i].key < |t|
  {
    var s := c.ram.guard[i];
    match e
    case Edit(k, v) => k == s.key && t[k].enact == 0 && k !in l.badSets && v != s.prev
    case Apply(_) => !Arms(t, c, e) && t[s.key].enact in Goods(t, Owed(t, c.ram.stale), l) && Moved(c, i)
    case Reboot(_) => Moved(c, i)
    case _ => false
  }

  lemma {:induction false} ApplyExposes(t: seq<Key>, c: Camera, now: nat, l: Luck, d: Camera, i: nat)
    requires Staged(t, c) && i < |c.ram.guard| && c.ram.guard[i].key < |t| && d == Applied(t, c, now, l)
    ensures d.ram.deadline == 0 && NewInForce(t, c, d, i) <==> Exposes(t, c, Apply(now), l, i)
  {
    assert !NewInForce(t, c, c, i);
    if !Arms(t, c, Apply(now)) && Owed(t, c.ram.stale) != [] {
      var good := Goods(t, Owed(t, c.ram.stale), l);
      assert d.force == AllEnacted(t, c.stores, c.force, good);
    }
  }

  lemma {:induction false} CancelExposesNothing(t: seq<Key>, c: Camera, now: nat, l: Luck, i: nat)
    requires Staged(t, c) && i < |c.ram.guard|
    ensures !NewInForce(t, c, Reverted(t, c, now, l), i)
  {
    var n := |c.ram.guard|;
    var p := PutBack(t, c, l, n);
    PutBackProgress(t, c, l, n);
    HeldPassEnactsNothing(t, c, l);
    assert !NewInForce(t, c, c, i) && KeyProgress(t, c, l, n, p, i);
    assert Plain(c.ram.guard)[i].0 < |t|;
    assert WholePass(t, c, l).force == p.force by { assert p.enacts == []; }
  }

  lemma {:induction false} StartExposes(t: seq<Key>, c: Camera, e: Event, l: Luck, d: Camera, i: nat)
    requires Staged(t, c) && i < |c.ram.guard| && c.ram.guard[i].key < |t| && Starts(e) && d == Step(t, c, e, l)
    ensures d.ram.deadline == 0 && NewInForce(t, c, d, i) <==> Exposes(t, c, e, l, i)
  {
    assert !NewInForce(t, c, c, i);
    StartIs(t, c, e, l);
    WakingInv(t, c, e);
    InHandIs(t, Waking(c, e));
  }

  /** No value nobody confirmed should be in force while no clock runs. From a staged change, one
      event breaks this exactly when it is a reboot with the changed store in place, an apply that
      calls the key's enact for keys none of which has a window, or an edit of a key that needs no
      enact. */
  lemma {:induction false} ExposedIff(t: seq<Key>, c: Camera, e: Event, l: Luck, i: nat)
    requires Staged(t, c) && i < |c.ram.guard|
    ensures c.ram.guard[i].key < |t|
    ensures var d := Step(t, c, e, l); d.ram.deadline == 0 && NewInForce(t, c, d, i) <==> Exposes(t, c, e, l, i)
  {
    assert Plain(c.ram.guard)[i].0 < |t| && !NewInForce(t, c, c, i);
    match e
    case Edit(k, v) => if k < |t| { EditsHold(t, c, k, v, l); }
    case Apply(now) => ApplyExposes(t, c, now, l, Step(t, c, e, l), i);
    case Cancel(now) => CancelExposesNothing(t, c, now, l, i);
    case Restart(_) => StartExposes(t, c, e, l, Step(t, c, e, l), i);
    case Reboot(_) => StartExposes(t, c, e, l, Step(t, c, e, l), i);
    case _ =>
  }

  // ----- until a staged change is exposed ------------------------------------------------

  // The event neither arms nor reverts, and exposes no key of the snapshot.
  ghost predicate Harmless(t: seq<Key>, c: Camera, e: Event, l: Luck) {
    && !Arms(t, c, e) && Facing(t, c, e).None?
    && forall i | 0 <= i < |c.ram.guard| && c.ram.guard[i].key < |t| == |c.stores| == |c.force| :: !Exposes(t, c, e, l, i)
  }

  lemma {:induction false} NothingExposed(t: seq<Key>, c: Camera, e: Event, l: Luck, d: Camera, i: nat)
    requires Staged(t, c) && Harmless(t, c, e, l) && d == Step(t, c, e, l) && d.ram.deadline == 0
    requires Plain(d.ram.guard) == Plain(c.ram.guard) && i < |d.ram.guard|
    ensures !NewInForce(t, d, d, i)
  {
    ExposedIff(t, c, e, l, i);
    assert Plain(d.ram.guard)[i] == Plain(c.ram.guard)[i];
    assert d.ram.guard[i].key == c.ram.guard[i].key && d.ram.guard[i].prev == c.ram.guard[i].prev;
    assert NewInForce(t, d, d, i) <==> NewInForce(t, c, d, i);
  }

  lemma {:induction false} HarmlessStep(t: seq<Key>, c: Camera, e: Event, l: Luck, d: Camera)
    requires Staged(t, c) && Harmless(t, c, e, l) && d == Step(t, c, e, l)
    ensures Staged(t, d)
  {
    StepKeepsInv(t, c, e, l);
    StepKeepsSound(t, c, e, l);
    StepKeepsSnapshot(t, c, e, l, d);
    UnarmedClock(t, c, e, l);
    forall i | 0 <= i < |d.ram.guard| ensures !NewInForce(t, d, d, i) {
      NothingExposed(t, c, e, l, d, i);
    }
  }

  ghost predicate HarmlessAt(t: seq<Key>, cs: seq<Camera>, es: seq<Event>, ls: seq<Luck>, n: nat) {
    n < |es| && n < |cs| && n < |ls| ==> Harmless(t, cs[n], es[n], ls[n])
  }

  /** Over whole runs: a staged change stays staged, with nothing of it in force, through edits,
      confirms, ticks and restarts, up to the first event that arms, reverts or exposes; and that event
      puts an unconfirmed value in force without a clock exactly when it exposes one. */
  lemma {:induction false} StagedUntilExposed(t: seq<Key>, cs: seq<Camera>, es: seq<Event>, ls: seq<Luck>, a: nat, b: nat, i: nat)
    requires Run(t, cs, es, ls) && a <= b < |es| && Staged(t, cs[a])
    requires forall n | a <= n < b :: HarmlessAt(t, cs, es, ls, n)
    ensures Staged(t, cs[b]) && Plain(cs[b].ram.guard) == Plain(cs[a].ram.guard)
    ensures i < |cs[b].ram.guard| ==>
      && cs[b].ram.guard[i].key < |t|
      && (cs[b + 1].ram.deadline == 0 && NewInForce(t, cs[b], cs[b + 1], i) <==> Exposes(t, cs[b], es[b], ls[b], i))
  {
    StaysStaged(t, cs, es, ls, a, b);
    assert Happened(t, cs, es, ls, b);
    if i < |cs[b].ram.guard| { ExposedIff(t, cs[b], es[b], ls[b], i); }
  }

  lemma {:induction false} StaysStaged(t: seq<Key>, cs: seq<Camera>, es: seq<Event>, ls: seq<Luck>, a: nat, b: nat)
    requires Run(t, cs, es, ls) && a <= b <= |es| && Staged(t, cs[a])
    requires forall n | a <= n < b :: HarmlessAt(t, cs, es, ls, n)
    ensures Staged(t, cs[b]) && Plain(cs[b].ram.guard) == Plain(cs[a].ram.guard)
  {
    if a < b {
      StaysStaged(t, cs, es, ls, a, b - 1);
      assert Happened(t, cs, es, ls, b - 1) && HarmlessAt(t, cs, es, ls, b - 1);
      StepKeepsSnapshot(t, cs[b - 1], es[b - 1], ls[b - 1], cs[b]);
      HarmlessStep(t, cs[b - 1], es[b - 1], ls[b - 1], cs[b]);
    }
  }

  /** Such a change begins with a guarded set, of a key that needs an enact, on a camera where every
      store is in force. */
  lemma {:induction false} SetStages(t: seq<Key>, c: Camera, k: nat, v: Store, l: Luck)
    requires Inv(t, c) && Sound(c) && c.ram.guard == [] && c.force == c.stores && l.flash
    requires k < |t| && t[k].guardSec > 0 && t[k].enact != 0
    ensures Staged(t, Step(t, c, Edit(k, v), l))
  {
    var d := Step(t, c, Edit(k, v), l);
    StepKeepsInv(t, c, Edit(k, v), l);
    StepKeepsSound(t, c, Edit(k, v), l);
    EditsHold(t, c, k, v, l);
    HeldIs(t, c, l);
    SnapshotCovers(t, c.stores, |t|, k);
    SnapshotOk(t, c.stores, |t|);
    assert d.force == c.force;
    forall i | 0 <= i < |d.ram.guard| ensures !NewInForce(t, d, d, i) {
      assert d.ram.guard[i] == Snap(d.ram.guard[i].key, c.stores[d.ram.guard[i].key], false);
    }
  }
}
