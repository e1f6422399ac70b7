/**
 * Runs of the guard written out, over a table of one guarded key. In the first a change is set
 * and applied, nobody confirms it, the first revert cannot bring the old value into force, and
 * the second does. In the other it is set and cancelled while the store refuses to be written.
 */
module GuardScenario {
  import opened Basics
  import opened Guard

  const OLD: Store := Some("old")
  const NEW: Store := Some("new")

  const TABLE: seq<Key> := [Key(60, 1, false)]

  const FINE: Luck := Luck({}, {}, true, true)
  const NO_ENACT: Luck := Luck({}, {1}, true, true)
  const NO_STORE: Luck := Luck({0}, {}, true, true)

  const START: Camera := Camera(EMPTY, None, None, [], [OLD], [OLD], {})

  function Held1(owed: bool): seq<Snap> { [Snap(0, OLD, owed)] }

  function Saved(armed: bool, window: int): Option<Record> { Some(Record(armed, window, [(0, OLD)])) }

  // After the set, the apply, the failed revert and the one that lands.
  function SetOnly(): Camera {
    Camera(Ram(Held1(false), 0, 0, 0, [0], false, 0), Saved(false, 0), None, [0], [NEW], [OLD], {})
  }

  function InForce(): Camera {
    Camera(Ram(Held1(false), 60005, 60, 0, [], false, 30005), Saved(true, 60), Some(Marker(60005, 60)), [], [NEW], [NEW], {})
  }

  function Halfway(): Camera {
    Camera(Ram(Held1(true), 75005, 60, 1, [], false, 30005), Saved(true, 60), Some(Marker(75005, 60)), [], [OLD], [NEW], {0})
  }

  function Back(): Camera {
    Camera(Ram([], 0, 0, 0, [], false, 30005), None, None, [], [OLD], [OLD], {0})
  }

  lemma SetStages()
    ensures Step(TABLE, START, Edit(0, NEW), FINE) == SetOnly()
  {
    assert Snapshot(TABLE, [OLD], 0) == [];
    assert Snapshot(TABLE, [OLD], 1) == Held1(false);
    assert Plain(Held1(false)) == [(0, OLD)];
    assert [OLD][0 := NEW] == [NEW];
    assert StaleAdded([], 0) == [0];
  }

  lemma ApplyOwes()
    ensures Owed(TABLE, [0]) == [0] && Window(TABLE, [0]) == 60 && Goods(TABLE, [0], FINE) == {1} && Unowed(TABLE, [0], {1}) == []
  {
    assert [0][1..] == [];
    assert 0 in [0];
  }

  lemma ApplyArms()
    ensures Step(TABLE, SetOnly(), Apply(5), FINE) == InForce()
  {
    ApplyOwes();
    assert Plain(Held1(false)) == [(0, OLD)];
    assert AllEnacted(TABLE, [NEW], [OLD], {1}) == [NEW];
    assert !WifiMoved(TABLE, SetOnly());
  }

  lemma PassPutsBack(l: Luck)
    requires 0 !in l.badSets
    ensures PutBack(TABLE, InForce(), l, 1) == Pass(Held1(true), [OLD], [NEW], [], {0}, [1], 0)
  {
    assert PutBack(TABLE, InForce(), l, 0) == Pass(Held1(false), [NEW], [NEW], [], {}, [], 0);
    assert Held1(false)[0 := Snap(0, OLD, true)] == Held1(true);
    assert [NEW][0 := OLD] == [OLD];
    assert [] + [1] == [1];
  }

  lemma FirstRevertFails()
    ensures Step(TABLE, InForce(), Tick(60005, false), NO_ENACT) == Halfway()
  {
    PassPutsBack(NO_ENACT);
    var p := PutBack(TABLE, InForce(), NO_ENACT, 1);
    assert EnactAll(TABLE, p, 0, NO_ENACT) == p;
    assert EnactAll(TABLE, p, 1, NO_ENACT) == p.(failed := 1);
  }

  lemma SecondPass()
    ensures PutBack(TABLE, Halfway(), FINE, 1) == Pass(Held1(true), [OLD], [NEW], [], {0}, [1], 0)
  {
    assert PutBack(TABLE, Halfway(), FINE, 0) == Pass(Held1(true), [OLD], [NEW], [], {0}, [], 0);
    assert [] + [1] == [1];
  }

  lemma SecondRevertLands()
    ensures Step(TABLE, Halfway(), Tick(75005, false), FINE) == Back() && Lands(TABLE, Halfway(), FINE)
  {
    SecondPass();
    var p := PutBack(TABLE, Halfway(), FINE, 1);
    assert EnactAll(TABLE, p, 0, FINE) == p;
    assert Enacted(TABLE, [OLD], [NEW], 1) == [OLD];
    assert EnactAll(TABLE, p, 1, FINE).failed == 0;
  }

  // A run goes on with whatever happens next.
  lemma Then(cs: seq<Camera>, es: seq<Event>, ls: seq<Luck>, e: Event, l: Luck, d: Camera)
      returns (cs': seq<Camera>, es': seq<Event>, ls': seq<Luck>)
    requires Run(TABLE, cs, es, ls) && |cs[|es|].stores| == |cs[|es|].force| == |TABLE| && d == Step(TABLE, cs[|es|], e, l)
    ensures cs' == cs + [d] && es' == es + [e] && Run(TABLE, cs', es', ls')
  {
    cs', es', ls' := cs + [d], es + [e], ls + [l];
    forall n | 0 <= n < |es'| ensures Happened(TABLE, cs', es', ls', n) {
      assert n < |es| ==> Happened(TABLE, cs, es, ls, n);
    }
  }

  lemma RunToSet() returns (cs: seq<Camera>, es: seq<Event>, ls: seq<Luck>)
    ensures Run(TABLE, cs, es, ls) && es == [Edit(0, NEW)] && cs[1] == SetOnly()
  {
    SetStages();
    cs, es, ls := Then([START], [], [], Edit(0, NEW), FINE, SetOnly());
  }

  lemma RunToForce() returns (cs: seq<Camera>, es: seq<Event>, ls: seq<Luck>)
    ensures Run(TABLE, cs, es, ls) && es == [Edit(0, NEW)] + [Apply(5)] && cs[2] == InForce()
  {
    cs, es, ls := RunToSet();
    ApplyArms();
    cs, es, ls := Then(cs, es, ls, Apply(5), FINE, InForce());
  }

  lemma RunToHalfway() returns (cs: seq<Camera>, es: seq<Event>, ls: seq<Luck>)
    ensures Run(TABLE, cs, es, ls) && es == [Edit(0, NEW)] + [Apply(5)] + [Tick(60005, false)]
    ensures cs[2] == InForce() && cs[3] == Halfway()
  {
    cs, es, ls := RunToForce();
    FirstRevertFails();
    cs, es, ls := Then(cs, es, ls, Tick(60005, false), NO_ENACT, Halfway());
  }

  /** An unconfirmed change is undone in store and in force, over a failed pass. */
  lemma UnconfirmedIsUndone() returns (cs: seq<Camera>, es: seq<Event>, ls: seq<Luck>)
    ensures Run(TABLE, cs, es, ls) && es == [Edit(0, NEW)] + [Apply(5)] + [Tick(60005, false)] + [Tick(75005, false)]
    ensures cs[2] == InForce() && cs[3] == Halfway() && cs[4] == Back()
  {
    cs, es, ls := RunToHalfway();
    SecondRevertLands();
    cs, es, ls := Then(cs, es, ls, Tick(75005, false), FINE, Back());
  }

  // ----- a cancel the store refuses ------------------------------------------------------

  function Stuck(n: nat): Camera {
    Camera(Ram(Held1(false), 10 + n * RETRY_MS, 0, n, [0], false, 0), Saved(false, 0),
           Some(Marker(10 + n * RETRY_MS, 0)), [0], [NEW], [OLD], {})
  }

  function GivenUp(): Camera {
    Camera(EMPTY.(stale := [0]), Saved(false, 0), None, [0], [NEW], [OLD], {})
  }

  // After a reboot: the new value is in store and in force, and nothing is armed.
  function Exposed(): Camera {
    Camera(Ram(Held1(false), 0, 0, 0, [], false, 0), Saved(false, 0), None, [], [NEW], [NEW], {})
  }

  lemma RefusedPass(c: Camera)
    requires c.ram.guard == Held1(false) && c.stores == [NEW] && |c.force| == 1
    ensures WholePass(TABLE, c, NO_STORE) == Pass(c.ram.guard, c.stores, c.force, c.ram.stale, c.undone, [], 1)
  {
    var p := PutBack(TABLE, c, NO_STORE, 1);
    assert PutBack(TABLE, c, NO_STORE, 0) == Pass(c.ram.guard, c.stores, c.force, c.ram.stale, c.undone, [], 0);
    assert p == Pass(c.ram.guard, c.stores, c.force, c.ram.stale, c.undone, [], 1);
    assert EnactAll(TABLE, p, 0, NO_STORE) == p;
  }

  lemma CancelIsRefused()
    ensures Step(TABLE, SetOnly(), Cancel(10), NO_STORE) == Stuck(1)
  {
    RefusedPass(SetOnly());
  }

  lemma TickIsRefused(n: nat)
    requires 1 <= n <= RETRIES
    ensures Step(TABLE, Stuck(n), Tick(10 + n * RETRY_MS, false), NO_STORE) == if n < RETRIES then Stuck(n + 1) else GivenUp()
  {
    RefusedPass(Stuck(n));
  }

  lemma BootExposes(c: Camera)
    requires c == SetOnly() || c == GivenUp()
    ensures Step(TABLE, c, Reboot(0), FINE) == Exposed() && Step(TABLE, Exposed(), Apply(0), FINE) == Exposed()
  {
    assert Recalled(TABLE, [(0, OLD)], 0) == [];
    assert Recalled(TABLE, [(0, OLD)], 1) == Held1(false);
  }

  lemma RunToCancel() returns (cs: seq<Camera>, es: seq<Event>, ls: seq<Luck>)
    ensures Run(TABLE, cs, es, ls) && es == [Edit(0, NEW)] + [Cancel(10)] && cs[2] == Stuck(1)
  {
    cs, es, ls := RunToSet();
    CancelIsRefused();
    cs, es, ls := Then(cs, es, ls, Cancel(10), NO_STORE, Stuck(1));
  }

  lemma StuckOnce(cs: seq<Camera>, es: seq<Event>, ls: seq<Luck>, n: nat) returns (cs': seq<Camera>, es': seq<Event>, ls': seq<Luck>)
    requires Run(TABLE, cs, es, ls) && |es| == n + 1 && cs[n + 1] == Stuck(n) && 1 <= n < RETRIES
    ensures Run(TABLE, cs', es', ls') && es' == es + [Tick(10 + n * RETRY_MS, false)] && cs'[n + 2] == Stuck(n + 1)
  {
    TickIsRefused(n);
    cs', es', ls' := Then(cs, es, ls, Tick(10 + n * RETRY_MS, false), NO_STORE, Stuck(n + 1));
  }

  lemma {:induction false} RunToStuck(n: nat) returns (cs: seq<Camera>, es: seq<Event>, ls: seq<Luck>)
    requires 1 <= n <= RETRIES
    ensures Run(TABLE, cs, es, ls) && |es| == n + 1 && cs[n + 1] == Stuck(n)
    ensures es[0] == Edit(0, NEW) && es[1] == Cancel(10) && forall i | 2 <= i < |es| :: es[i].Tick?
  {
    if n == 1 {
      cs, es, ls := RunToCancel();
    } else {
      cs, es, ls := RunToStuck(n - 1);
      cs, es, ls := StuckOnce(cs, es, ls, n - 1);
    }
  }

  /** A change that is set and cancelled, with no apply at all: the cancel and its four retries are
      refused by the store. A reboot then does not put the old value back, although flash kept it:
      the new one is in store and in force, and nothing is armed. */
  lemma RefusedCancelIsNotUndone() returns (cs: seq<Camera>, es: seq<Event>, ls: seq<Luck>)
    ensures Run(TABLE, cs, es, ls) && |es| == 7 && es[0] == Edit(0, NEW) && es[1] == Cancel(10) && es[6] == Reboot(0)
    ensures forall i | 2 <= i < 6 :: es[i].Tick?
    ensures cs[6] == GivenUp() && cs[7] == Exposed()
  {
    cs, es, ls := RunToStuck(RETRIES);
    TickIsRefused(RETRIES);
    cs, es, ls := Then(cs, es, ls, Tick(10 + RETRIES * RETRY_MS, false), NO_STORE, GivenUp());
    BootExposes(GivenUp());
    cs, es, ls := Then(cs, es, ls, Reboot(0), FINE, Exposed());
  }

  /** And its first retry, once the store can be written, calls the enact of a change that was never
      in force. */
  lemma UnappliedIsEnacted() returns (cs: seq<Camera>, es: seq<Event>, ls: seq<Luck>)
    ensures Run(TABLE, cs, es, ls) && es == [Edit(0, NEW)] + [Cancel(10)] && cs[2] == Stuck(1) && cs[2].force == [OLD]
    ensures PutBack(TABLE, Stuck(1), FINE, 1).enacts == [1]
  {
    cs, es, ls := RunToCancel();
    assert PutBack(TABLE, Stuck(1), FINE, 0).enacts == [];
  }

  /** A reboot after the set alone does the same: the value nobody confirmed is in force, nothing is
      armed, and an apply has nothing left to do. */
  lemma RebootOfASet() returns (cs: seq<Camera>, es: seq<Event>, ls: seq<Luck>)
    ensures Run(TABLE, cs, es, ls) && es == [Edit(0, NEW)] + [Reboot(0)] + [Apply(0)] && cs[2] == cs[3] == Exposed()
  {
    cs, es, ls := RunToSet();
    BootExposes(SetOnly());
    cs, es, ls := Then(cs, es, ls, Reboot(0), FINE, Exposed());
    cs, es, ls := Then(cs, es, ls, Apply(0), FINE, Exposed());
  }
}
