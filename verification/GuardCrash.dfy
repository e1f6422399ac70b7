/**
 * A daemon or a camera that goes down in the middle of a revert or of an apply (rcd/rcd_guard.c,
 * rcd/rcd_apply.c): what the next start finds between two writes, and what it makes of it.
 */
module GuardCrash {
  import opened Basics
  import opened Guard
  import opened GuardDaemon
  import opened GuardRuns
  import GuardScenario

  // ----- inside a revert -----------------------------------------------------------------

  // Between two keys of the first loop, or between two enacts of the second.
  datatype Point = AfterKeys(n: nat) | AfterEnacts(n: nat)

  predicate Inside(t: seq<Key>, c: Camera, l: Luck, p: Point)
    requires |c.stores| == |c.force| == |t|
  {
    match p
    case AfterKeys(n) => n <= |c.ram.guard|
    case AfterEnacts(n) => n <= |PutBack(t, c, l, |c.ram.guard|).enacts|
  }

  // The pass up to there.
  function PassTo(t: seq<Key>, c: Camera, l: Luck, p: Point): Pass
    requires |c.stores| == |c.force| == |t| && Inside(t, c, l, p)
  {
    match p
    case AfterKeys(n) => PutBack(t, c, l, n)
    case AfterEnacts(n) => EnactAll(t, PutBack(t, c, l, |c.ram.guard|), n, l)
  }

  function At(t: seq<Key>, c: Camera, l: Luck, p: Point): Camera
    requires |c.stores| == |c.force| == |t| && Inside(t, c, l, p)
  {
    After(c, PassTo(t, c, l, p))
  }

  lemma {:induction false} KeyHonestAfter(t: seq<Key>, c: Camera, l: Luck, n: nat, p: Pass, i: nat)
    requires Inv(t, c) && n <= |c.ram.guard| && Progress(t, c, l, n, p) && i < |c.ram.guard|
    ensures KeyHonest(t, After(c, p), i)
  {
    assert KeyProgress(t, c, l, n, p, i) && KeyHonest(t, c, i);
    assert Plain(c.ram.guard)[i].0 < |t|;
  }

  lemma {:induction false} InForceAtOnce(t: seq<Key>, c: Camera, l: Luck, n: nat, p: Pass, k: nat)
    requires Inv(t, c) && n <= |c.ram.guard| && Progress(t, c, l, n, p) && k < |t| && t[k].enact == 0
    ensures p.force[k] == p.stores[k]
  {
    if !(p.stores[k] == c.stores[k] && p.force[k] == c.force[k]) {
      var i :| 0 <= i < n && c.ram.guard[i].key == k;
      assert KeyProgress(t, c, l, n, p, i);
    }
  }

  // Between two keys the camera is as honest as before the pass.
  lemma {:induction false} KeysInv(t: seq<Key>, c: Camera, l: Luck, n: nat, p: Pass)
    requires Inv(t, c) && n <= |c.ram.guard| && Progress(t, c, l, n, p)
    ensures Inv(t, After(c, p))
  {
    var d := After(c, p);
    assert GuardOk(t, d.ram.guard);
    forall i | 0 <= i < |d.ram.guard| ensures KeyHonest(t, d, i) { KeyHonestAfter(t, c, l, n, p, i); }
    forall k | 0 <= k < |t| && t[k].enact == 0 ensures d.force[k] == d.stores[k] { InForceAtOnce(t, c, l, n, p, k); }
  }

  // And between two enacts.
  lemma {:induction false} EnactsInv(t: seq<Key>, c: Camera, p: Pass, l: Luck, m: nat, r: Pass)
    requires m <= |p.enacts| && |p.stores| == |p.force| == |t| && Inv(t, After(c, p)) && 0 !in p.enacts
    requires EnactedSoFar(t, p, l, m, r)
    ensures Inv(t, After(c, r))
  {
    var x, d := After(c, p), After(c, r);
    assert GuardOk(t, d.ram.guard);
    forall i | 0 <= i < |d.ram.guard| ensures KeyHonest(t, d, i) {
      assert KeyHonest(t, x, i);
      assert Plain(p.guard)[i] == Plain(r.guard)[i];
    }
    forall k | 0 <= k < |t| && t[k].enact == 0 ensures d.force[k] == d.stores[k] {
      assert t[k].enact !in p.enacts[..m];
    }
  }

  /** Wherever a pass is cut short, the record, the marker and the clock are as they were, memory has the
      same snapshot, and what is written back and not in force is still marked as owed. */
  lemma {:induction false} MidwayIsHonest(t: seq<Key>, c: Camera, l: Luck, p: Point)
    requires Inv(t, c) && Sound(c) && c.ram.guard != [] && Recorded(c) && Inside(t, c, l, p)
    ensures var x := At(t, c, l, p);
      && Inv(t, x) && Sound(x) && Recorded(x) && Plain(x.ram.guard) == Plain(c.ram.guard) && x.ram.guard != []
      && x.record == c.record && x.marker == c.marker && x.drift == c.drift && x.ram.deadline == c.ram.deadline
  {
    var n := if p.AfterKeys? then p.n else |c.ram.guard|;
    var b := PutBack(t, c, l, n);
    PutBackProgress(t, c, l, n);
    KeysInv(t, c, l, n, b);
    if p.AfterEnacts? {
      EnactAllProgress(t, b, l, p.n);
      EnactsInv(t, c, b, l, p.n, EnactAll(t, b, p.n, l));
    }
  }

  /** The next start takes an armed guard up again, wherever its revert was cut short: it makes a pass
      itself, or leaves the clock running over the same snapshot. */
  lemma {:induction false} CutShortIsTakenUp(t: seq<Key>, c: Camera, l: Luck, p: Point, e: Event, l': Luck)
    requires Inv(t, c) && Sound(c) && c.ram.guard != [] && Recorded(c) && Inside(t, c, l, p) && c.record.value.armed && Starts(e)
    ensures var x := At(t, c, l, p); var d := Step(t, x, e, l');
      || Facing(t, x, e).Some?
      || (d.ram.deadline != 0 && Plain(d.ram.guard) == Plain(c.ram.guard) && d.record == c.record)
  {
    var x := At(t, c, l, p);
    MidwayIsHonest(t, c, l, p);
    StartIs(t, x, e, l');
    WakingInv(t, x, e);
    InHandIs(t, Waking(x, e));
  }

  /** And once that pass lands every store of the snapshot is back, as if nothing had happened. */
  lemma {:induction false} CutShortRestores(t: seq<Key>, c: Camera, l: Luck, p: Point, e: Event, l': Luck, i: nat)
    requires Inv(t, c) && Sound(c) && c.ram.guard != [] && Recorded(c) && Inside(t, c, l, p) && i < |c.ram.guard|
    requires Facing(t, At(t, c, l, p), e).Some? && |Facing(t, At(t, c, l, p), e).value.stores| == |Facing(t, At(t, c, l, p), e).value.force| == |t|
    requires Lands(t, Facing(t, At(t, c, l, p), e).value, l')
    ensures var d, (k, prev) := Step(t, At(t, c, l, p), e, l'), Plain(c.ram.guard)[i];
      d.ram.guard == [] && d.record.None? && k < |d.stores| && d.stores[k] == prev
  {
    MidwayIsHonest(t, c, l, p);
    var x := At(t, c, l, p);
    assert Plain(x.ram.guard)[i] == Plain(c.ram.guard)[i];
    PassLands(t, x, e, l', Step(t, x, e, l'), i);
  }

  // Some key of this enact has still to be put back.
  ghost predicate StillMoved(t: seq<Key>, keys: seq<(nat, Store)>, stores: seq<Store>, e: nat) {
    exists j :: 0 <= j < |keys| && keys[j].0 < |t| == |stores| && t[keys[j].0].enact == e && stores[keys[j].0] != keys[j].1
  }

  lemma {:induction false} CalledIsStillMoved(t: seq<Key>, c: Camera, e: nat)
    requires Wf(t, c) && forall i | 0 <= i < |c.ram.guard| :: !c.ram.guard[i].owed
    ensures Called(t, c, |c.ram.guard|, e) <==> StillMoved(t, Plain(c.ram.guard), c.stores, e)
  {
    var keys := Plain(c.ram.guard);
    if StillMoved(t, keys, c.stores, e) {
      var j :| 0 <= j < |keys| && keys[j].0 < |t| && t[keys[j].0].enact == e && c.stores[keys[j].0] != keys[j].1;
      assert Moved(c, j);
    }
    if Called(t, c, |c.ram.guard|, e) {
      var i :| 0 <= i < |c.ram.guard| && c.ram.guard[i].key < |t| && t[c.ram.guard[i].key].enact == e && (Moved(c, i) || c.ram.guard[i].owed);
      assert keys[i].0 < |t|;
    }
  }

  /** Not so what is in force. A daemon that went down between the loops has lost what was owed: when
      the revert it makes on its restart lands, a key's old value is in force exactly when it was by then
      or some key of its enact had not been put back yet. */
  lemma {:induction false} InForceAfterRestart(t: seq<Key>, c: Camera, l: Luck, p: Point, now: nat, l': Luck, i: nat)
    requires Inv(t, c) && Sound(c) && c.ram.guard != [] && Recorded(c) && Inside(t, c, l, p) && i < |c.ram.guard|
    requires c.record.value.armed && c.marker.Some? && 0 < c.marker.value.deadline <= now
    requires var x := At(t, c, l, p); |x.stores| == |x.force| == |t| && Lands(t, InHand(t, Waking(x, Restart(now))), l')
    ensures var x, (k, prev) := At(t, c, l, p), Plain(c.ram.guard)[i];
      && k < |t| == |Step(t, x, Restart(now), l').force|
      && (t[k].enact != 0 ==>
            (Step(t, x, Restart(now), l').force[k] == prev <==>
               x.force[k] == prev || StillMoved(t, Plain(c.ram.guard), x.stores, t[k].enact)))
  {
    var x := At(t, c, l, p);
    MidwayIsHonest(t, c, l, p);
    RestartRevert(t, x, now, l', i);
    assert Plain(x.ram.guard)[i] == Plain(c.ram.guard)[i];
  }

  lemma {:induction false} RestartRevert(t: seq<Key>, x: Camera, now: nat, l: Luck, i: nat)
    requires Inv(t, x) && Sound(x) && x.ram.guard != [] && Recorded(x) && i < |x.ram.guard|
    requires x.record.value.armed && x.marker.Some? && 0 < x.marker.value.deadline <= now
    requires Lands(t, InHand(t, Waking(x, Restart(now))), l)
    ensures var d, (k, prev) := Step(t, x, Restart(now), l), Plain(x.ram.guard)[i];
      && k < |t| == |d.force|
      && (t[k].enact != 0 ==> (d.force[k] == prev <==> x.force[k] == prev || StillMoved(t, Plain(x.ram.guard), x.stores, t[k].enact)))
  {
    var w := Waking(x, Restart(now));
    var f := InHand(t, w);
    WakingInv(t, x, Restart(now));
    InHandIs(t, w);
    StartIs(t, x, Restart(now), l);
    NothingOwed(t, w);
    assert Plain(f.ram.guard)[i] == Plain(x.ram.guard)[i];
    InForceAfterRevert(t, f, l, i);
    CalledIsStillMoved(t, f, t[f.ram.guard[i].key].enact);
  }

  lemma {:induction false} NothingOwed(t: seq<Key>, w: Camera)
    requires Wf(t, w) && w.record.Some?
    ensures forall i | 0 <= i < |InHand(t, w).ram.guard| :: !InHand(t, w).ram.guard[i].owed
  {
    RecalledOk(t, w.record.value.keys, |w.record.value.keys|);
  }

  // The change is in force and nobody confirmed it; its store has been put back, and the daemon goes down.
  lemma CutShort()
    ensures At(GuardScenario.TABLE, GuardScenario.InForce(), GuardScenario.FINE, AfterKeys(1)) ==
      GuardScenario.InForce().(ram := GuardScenario.InForce().ram.(guard := GuardScenario.Held1(true)), stores := [GuardScenario.OLD], undone := {0})
  {
    GuardScenario.PassPutsBack(GuardScenario.FINE);
  }

  lemma NothingToPutBack(c: Camera)
    requires c.ram.guard == GuardScenario.Held1(false) && c.stores == [GuardScenario.OLD] && |c.force| == 1
    ensures WholePass(GuardScenario.TABLE, c, GuardScenario.FINE) == Pass(c.ram.guard, c.stores, c.force, Forgotten(c.ram.stale, 0), c.undone, [], 0)
  {
    var p := PutBack(GuardScenario.TABLE, c, GuardScenario.FINE, 1);
    assert PutBack(GuardScenario.TABLE, c, GuardScenario.FINE, 0) == Pass(c.ram.guard, c.stores, c.force, c.ram.stale, c.undone, [], 0);
    assert p == Pass(c.ram.guard, c.stores, c.force, Forgotten(c.ram.stale, 0), c.undone, [], 0);
    assert EnactAll(GuardScenario.TABLE, p, 0, GuardScenario.FINE) == p;
  }

  /** The restart finds nothing to put back and is done with the guard: the old value is in the store,
      the new one in force, and nothing is armed. */
  lemma CutShortIsLost()
    ensures var d := Step(GuardScenario.TABLE, At(GuardScenario.TABLE, GuardScenario.InForce(), GuardScenario.FINE, AfterKeys(1)),
                          Restart(60005), GuardScenario.FINE);
      d.stores == [GuardScenario.OLD] && d.force == [GuardScenario.NEW] && d.record.None? && d.ram.guard == [] && d.ram.deadline == 0
  {
    CutShort();
    var x := At(GuardScenario.TABLE, GuardScenario.InForce(), GuardScenario.FINE, AfterKeys(1));
    var w := Waking(x, Restart(60005));
    assert Recalled(GuardScenario.TABLE, [(0, GuardScenario.OLD)], 0) == [];
    assert Recalled(GuardScenario.TABLE, [(0, GuardScenario.OLD)], 1) == GuardScenario.Held1(false);
    StartIs(GuardScenario.TABLE, x, Restart(60005), GuardScenario.FINE);
    NothingToPutBack(InHand(GuardScenario.TABLE, w));
  }

  /** After a power failure instead, what is in force is what the boot brought up: the old value exactly
      where its store had been put back by then. */
  lemma {:induction false} InForceAfterReboot(t: seq<Key>, c: Camera, l: Luck, p: Point, now: nat, l': Luck, i: nat)
    requires Inv(t, c) && Sound(c) && c.ram.guard != [] && Recorded(c) && Inside(t, c, l, p) && i < |c.ram.guard| && c.record.value.armed
    requires var x := At(t, c, l, p); |x.stores| == |x.force| == |t| && Step(t, x, Reboot(now), l').record.None?
    ensures var x, (k, prev) := At(t, c, l, p), Plain(c.ram.guard)[i];
      && k < |t| == |x.stores| == |Step(t, x, Reboot(now), l').force|
      && (t[k].enact != 0 ==> (Step(t, x, Reboot(now), l').force[k] == prev <==> x.stores[k] == prev))
  {
    MidwayIsHonest(t, c, l, p);
    RebootRestoresStoresOnly(t, At(t, c, l, p), now, l', i);
  }

  // ----- inside an apply -----------------------------------------------------------------

  // The clock is started in memory, the record is written, and the marker is with the first n enacts called.
  datatype Stage = Clocked | Noted | Calling(n: nat)

  function CallsOf(t: seq<Key>, c: Camera): seq<nat> {
    Distinct(t, Owed(t, c.ram.stale), |Owed(t, c.ram.stale)|)
  }

  function AtApply(t: seq<Key>, c: Camera, now: nat, l: Luck, at: Stage): Camera
    requires |c.stores| == |c.force| == |t| && Arms(t, c, Apply(now)) && (at.Calling? ==> at.n <= |CallsOf(t, c)|)
  {
    var w := Window(t, Owed(t, c.ram.stale));
    var s := Started(t, if c.ram.guard == [] then Taken(t, c) else c, w, now);
    match at
    case Clocked => s
    case Noted => RecordWritten(s, l)
    case Calling(n) =>
      var a := Armed(t, c, w, now, l);
      a.(force := AllEnacted(t, a.stores, a.force, Came(CallsOf(t, c)[..n], l)))
  }

  /** The last stage is the apply but for its bookkeeping of the drift. */
  lemma {:induction false} CallingEnds(t: seq<Key>, c: Camera, now: nat, l: Luck)
    requires |c.stores| == |c.force| == |t| && Arms(t, c, Apply(now))
    ensures var x, d := AtApply(t, c, now, l, Calling(|CallsOf(t, c)|)), Applied(t, c, now, l);
      d == x.(ram := x.ram.(stale := d.ram.stale), drift := d.drift)
  {
    var owed := Owed(t, c.ram.stale);
    assert CallsOf(t, c)[..|CallsOf(t, c)|] == CallsOf(t, c);
    CameAreGoods(t, owed, l);
  }

  /** Wherever an apply that arms is cut short, nothing has been enacted yet, or the armed record of the
      snapshot is on flash. */
  lemma {:induction false} RecordedBeforeInForce(t: seq<Key>, c: Camera, now: nat, l: Luck, at: Stage)
    requires Inv(t, c) && Arms(t, c, Apply(now)) && l.flash && (at.Calling? ==> at.n <= |CallsOf(t, c)|)
    ensures var x := AtApply(t, c, now, l, at);
      && x.stores == c.stores
      && ((x.force == c.force && x.record == c.record && x.marker == c.marker)
          || x.record == Some(Record(true, x.ram.windowSec, Plain(x.ram.guard))))
  {
  }

  /** An armed record is taken up by any start: with a pass, or with the clock running. */
  lemma {:induction false} ArmedIsTakenUp(t: seq<Key>, x: Camera, e: Event, l: Luck)
    requires |x.stores| == |x.force| == |t| && x.record.Some? && x.record.value.armed && Starts(e)
    ensures Facing(t, x, e).Some? || Step(t, x, e, l).ram.deadline != 0
  {
    StartIs(t, x, e, l);
  }
}
