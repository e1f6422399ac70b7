/**
 * The guard as the daemon runs it (rcd/rcd_guard.c, rcd/rcd_config.c, rcd/rcd_apply.c): one state
 * updated in place by loops over the key table, the snapshot and the drift list. Every method is
 * tied to the function of Guard that says what it comes to.
 */
module GuardDaemon {
  import opened Basics
  import opened Guard

  // Stores, files, clock and snapshot are alike, whatever is in force.
  predicate SameButForce(c: Camera, d: Camera) {
    && c.stores == d.stores && c.record == d.record && c.marker == d.marker
    && c.ram.deadline == d.ram.deadline && |c.ram.guard| == |d.ram.guard|
  }

  // The enacts of the first n owed keys, each where it comes first.
  function Distinct(t: seq<Key>, owed: seq<nat>, n: nat): (c: seq<nat>)
    requires n <= |owed|
  {
    if n == 0 then []
    else
      var c := Distinct(t, owed, n - 1);
      if owed[n - 1] >= |t| || t[owed[n - 1]].enact in c then c else c + [t[owed[n - 1]].enact]
  }

  /** These are exactly the enacts of the owed keys, each once. */
  lemma {:induction false} DistinctExactly(t: seq<Key>, owed: seq<nat>, n: nat, e: nat)
    requires n <= |owed|
    ensures e in Distinct(t, owed, n) <==> exists i :: 0 <= i < n && owed[i] < |t| && t[owed[i]].enact == e
    ensures forall i, j | 0 <= i < j < |Distinct(t, owed, n)| :: Distinct(t, owed, n)[i] != Distinct(t, owed, n)[j]
  {
    if n > 0 {
      DistinctExactly(t, owed, n - 1, e);
      if owed[n - 1] < |t| && t[owed[n - 1]].enact == e { assert 0 <= n - 1 < n && t[owed[n - 1]].enact == e; }
    }
  }

  // Those of them that came up.
  function Came(calls: seq<nat>, l: Luck): set<nat> { set e | e in calls && e !in l.badEnacts }

  lemma {:induction false} CameAreGoods(t: seq<Key>, owed: seq<nat>, l: Luck)
    ensures Came(Distinct(t, owed, |owed|), l) == Goods(t, owed, l)
  {
    var came, goods := Came(Distinct(t, owed, |owed|), l), Goods(t, owed, l);
    forall e: nat ensures e in came <==> e in goods {
      DistinctExactly(t, owed, |owed|, e);
      if e in came {
        var i :| 0 <= i < |owed| && owed[i] < |t| && t[owed[i]].enact == e;
        assert owed[i] in owed;
      }
      if e in goods {
        var k :| k in owed && k < |t| && t[k].enact !in l.badEnacts && t[k].enact == e;
        var i :| 0 <= i < |owed| && owed[i] == k;
      }
    }
  }

  function Concluded(c: Camera, failed: nat, now: nat, l: Luck): Camera {
    if failed > 0 then Retried(c, now, l)
    else DriftSaved(Cleared(c.(ram := c.ram.(deadline := 0, windowSec := 0, guard := [], retries := 0))), l)
  }

  class Rcd {
    const table: seq<Key>
    var guard: seq<Snap>
    var deadline: nat
    var windowSec: int
    var retries: nat
    var stale: seq<nat>
    var wifiMoved: bool
    var wifiAsk: nat

    // Files, providers and the running system.
    var record: Option<Record>
    var marker: Option<Marker>
    var drift: seq<nat>
    var stores: seq<Store>
    var force: seq<Store>
    ghost var undone: set<nat>

    // History: the enacts called so far, and the camera as each call found it.
    ghost var calls: seq<nat>
    ghost var found: seq<Camera>

    ghost function View(): Camera
      reads this
    {
      Camera(Ram(guard, deadline, windowSec, retries, stale, wifiMoved, wifiAsk),
             record, marker, drift, stores, force, undone)
    }

    ghost predicate Valid()
      reads this
    {
      |stores| == |force| == |table|
    }

    constructor (table: seq<Key>, stores: seq<Store>)
      requires |table| == |stores|
      ensures Valid() && View() == Camera(EMPTY, None, None, [], stores, stores, {}) && this.table == table
    {
      this.table, this.stores, force := table, stores, stores;
      guard, deadline, windowSec, retries, stale, wifiMoved, wifiAsk := [], 0, 0, 0, [], false, 0;
      record, marker, drift, undone := None, None, [], {};
    }

    // ----- files -----------------------------------------------------------------------

    method RecordWrite(l: Luck)
      modifies this`record
      ensures View() == RecordWritten(old(View()), l)
    {
      var keys := [];
      var i := 0;
      while i < |guard|
        invariant 0 <= i <= |guard| && keys == Plain(guard)[..i]
      {
        keys := keys + [(guard[i].key, guard[i].prev)];
        i := i + 1;
      }
      assert keys == Plain(guard);
      if l.flash {
        record := Some(Record(deadline != 0, windowSec, keys));
      }
    }

    method ArmedWrite(l: Luck)
      modifies this`marker
      ensures View() == MarkerWritten(old(View()), l)
    {
      if l.tmpfs {
        marker := Some(Marker(deadline, windowSec));
      }
    }

    method StaleSave(l: Luck)
      modifies this`drift
      ensures View() == DriftSaved(old(View()), l)
    {
      if stale == [] {
        drift := [];
      } else if l.tmpfs {
        drift := stale;
      }
    }

    // ----- providers -------------------------------------------------------------------

    method ProviderSet(k: nat, v: Store, l: Luck) returns (ok: bool)
      requires Valid() && k < |table|
      modifies this`stores, this`force
      ensures Valid() && ok == (k !in l.badSets)
      ensures stores == if ok then old(stores)[k := v] else old(stores)
      ensures force == if ok && table[k].enact == 0 then old(force)[k := v] else old(force)
    {
      ok := k !in l.badSets;
      if ok {
        stores := stores[k := v];
        if table[k].enact == 0 {
          force := force[k := v];
        }
      }
    }

    method ProviderEnact(e: nat, l: Luck) returns (ok: bool)
      requires Valid()
      modifies this`force, this`calls, this`found
      ensures Valid() && ok == (e !in l.badEnacts)
      ensures calls == old(calls) + [e] && found == old(found) + [old(View())]
      ensures force == if ok then Enacted(table, stores, old(force), e) else old(force)
    {
      calls, found := calls + [e], found + [View()];
      ok := e !in l.badEnacts;
      if ok {
        force := Enacted(table, stores, force, e);
      }
    }

    // ----- the drift list --------------------------------------------------------------

    method StaleAdd(k: nat)
      modifies this`stale
      ensures stale == StaleAdded(old(stale), k)
    {
      var i := 0;
      while i < |stale|
        invariant 0 <= i <= |stale| && k !in stale[..i]
      {
        if stale[i] == k {
          return;
        }
        i := i + 1;
      }
      assert stale[..i] == stale;
      if |stale| >= STALE_MAX {
        return;
      }
      stale := stale + [k];
    }

    method StaleForget(k: nat)
      modifies this`stale
      ensures stale == Forgotten(old(stale), k)
    {
      var kept := [];
      var i := 0;
      while i < |stale|
        invariant 0 <= i <= |stale| && stale == old(stale)
        invariant kept + Forgotten(stale[i..], k) == Forgotten(stale, k)
      {
        if stale[i] != k {
          kept := kept + [stale[i]];
        }
        assert stale[i..][1..] == stale[i + 1..];
        i := i + 1;
      }
      assert stale[i..] == [];
      stale := kept;
    }

    method EnactOwed() returns (owed: seq<nat>)
      ensures owed == Owed(table, stale)
    {
      owed := [];
      var i := 0;
      while i < |stale|
        invariant 0 <= i <= |stale|
        invariant owed + Owed(table, stale[i..]) == Owed(table, stale)
      {
        if stale[i] < |table| && table[stale[i]].enact != 0 {
          owed := owed + [stale[i]];
        }
        assert stale[i..][1..] == stale[i + 1..];
        i := i + 1;
      }
      assert stale[i..] == [];
    }

    method EnactDone(good: set<nat>)
      modifies this`stale
      ensures stale == Unowed(table, old(stale), good)
    {
      var kept := [];
      var i := 0;
      while i < |stale|
        invariant 0 <= i <= |stale| && stale == old(stale)
        invariant kept + Unowed(table, stale[i..], good) == Unowed(table, stale, good)
      {
        var enacted := stale[i] < |table| && table[stale[i]].enact != 0 && table[stale[i]].enact in good;
        if !enacted {
          kept := kept + [stale[i]];
        }
        assert stale[i..][1..] == stale[i + 1..];
        i := i + 1;
      }
      assert stale[i..] == [];
      stale := kept;
    }

    // ----- holding, arming, confirming -------------------------------------------------

    method TakeSnapshot()
      requires Valid()
      modifies this`guard, this`undone
      ensures View() == Taken(table, old(View()))
    {
      guard, undone := [], {};
      var i := 0;
      while i < |table|
        invariant 0 <= i <= |table|
        invariant guard == Snapshot(table, stores, i) && undone == {}
      {
        if table[i].guardSec > 0 && |guard| < GUARD_MAX {
          guard := guard + [Snap(i, stores[i], false)];
        }
        i := i + 1;
      }
    }

    method Hold(l: Luck)
      requires Valid()
      modifies this`guard, this`undone, this`record
      ensures Valid() && View() == Held(table, old(View()), l)
    {
      if |guard| > 0 {
        return;
      }
      TakeSnapshot();
      RecordWrite(l);
    }

    method AskWifiMoved() returns (moved: bool)
      requires Valid()
      ensures moved == WifiMoved(table, View())
    {
      var i := 0;
      while i < |guard|
        invariant 0 <= i <= |guard|
        invariant forall j | 0 <= j < i :: !(guard[j].key < |table| && table[guard[j].key].wifi && stores[guard[j].key] != guard[j].prev)
      {
        var s := guard[i];
        if s.key < |table| && table[s.key].wifi && stores[s.key] != s.prev {
          return true;
        }
        i := i + 1;
      }
      return false;
    }

    method StartClock(window: int, now: nat)
      requires Valid() && window > 0
      modifies this`retries, this`windowSec, this`deadline, this`wifiMoved, this`wifiAsk
      ensures View() == Started(table, old(View()), window, now)
    {
      var moved := AskWifiMoved();
      var extend := deadline != 0;
      retries := 0;
      windowSec := window;
      deadline := now + window * 1000;
      if !extend {
        wifiMoved := false;
      }
      wifiMoved := wifiMoved || moved;
      wifiAsk := now + WIFI_DWELL_MS;
    }

    method Arm(window: int, now: nat, l: Luck)
      requires Valid()
      modifies this`guard, this`undone, this`retries, this`windowSec, this`deadline, this`wifiMoved, this`wifiAsk,
               this`record, this`marker
      ensures Valid() && View() == Armed(table, old(View()), window, now, l)
    {
      if window <= 0 {
        return;
      }
      if |guard| == 0 {
        TakeSnapshot();
      }
      StartClock(window, now);
      RecordWrite(l);
      ArmedWrite(l);
    }

    method Confirm()
      modifies this
      ensures View() == Confirmed(old(View()))
    {
      if deadline == 0 {
        return;
      }
      deadline, windowSec, guard, retries, wifiMoved, wifiAsk := 0, 0, [], 0, false, 0;
      record, marker := None, None;
    }

    // ----- reverting -------------------------------------------------------------------

    // The pass so far, as the fields and the caller's list and count have it.
    ghost function PassView(enacts: seq<nat>, failed: nat): Pass
      reads this
    {
      Pass(guard, stores, force, stale, undone, enacts, failed)
    }

    method PutBackKey(i: nat, armed: bool, enacts: seq<nat>, failed: nat, l: Luck) returns (enacts': seq<nat>, failed': nat)
      requires Valid() && i < |guard|
      modifies this`guard, this`stores, this`force, this`stale, this`undone
      ensures Valid() && |guard| == old(|guard|)
      ensures PassView(enacts', failed') == PutBackOne(table, old(PassView(enacts, failed)), i, armed, l)
    {
      enacts', failed' := enacts, failed;
      var s := guard[i];
      if s.key >= |table| {
        return;
      }
      var e := table[s.key].enact;
      if stores[s.key] == s.prev {
        if s.owed && e != 0 {
          enacts' := AddEnact(enacts, e, armed);
        }
        StaleForget(s.key);
        return;
      }
      var ok := ProviderSet(s.key, s.prev, l);
      if !ok {
        failed' := failed + 1;
        return;
      }
      undone := undone + {s.key};
      if e != 0 {
        guard := guard[i := s.(owed := true)];
        enacts' := AddEnact(enacts, e, armed);
      }
      StaleForget(s.key);
    }

    method PutBackAll(l: Luck) returns (enacts: seq<nat>, failed: nat)
      requires Valid()
      modifies this`guard, this`stores, this`force, this`stale, this`undone
      ensures Valid() && |guard| == old(|guard|)
      ensures PassView(enacts, failed) == PutBack(table, old(View()), l, |guard|)
    {
      ghost var c := View();
      var armed := deadline != 0;
      enacts, failed := [], 0;
      var i := 0;
      while i < |guard|
        invariant 0 <= i <= |guard| == |c.ram.guard| && Valid()
        invariant PassView(enacts, failed) == PutBack(table, c, l, i)
      {
        enacts, failed := PutBackKey(i, armed, enacts, failed, l);
        i := i + 1;
      }
    }

    // In force, so nothing of this enact is halfway back any more.
    method SettleGroup(e: nat)
      modifies this`guard
      ensures guard == Settled(table, old(guard), e)
    {
      ghost var g := guard;
      var j := 0;
      while j < |guard|
        invariant 0 <= j <= |guard| == |g|
        invariant forall i | 0 <= i < j :: guard[i] == Settled(table, g, e)[i]
        invariant forall i | j <= i < |g| :: guard[i] == g[i]
      {
        if guard[j].key < |table| && table[guard[j].key].enact == e {
          guard := guard[j := guard[j].(owed := false)];
        }
        j := j + 1;
      }
    }

    // Every call since `before` found the stores, the files and the clock as they are in c.
    ghost predicate FoundSince(before: seq<Camera>, c: Camera)
      reads this`found
    {
      before <= found && forall i | |before| <= i < |found| :: SameButForce(found[i], c)
    }

    method EnactOnce(e: nat, failed: nat, ghost enacts: seq<nat>, l: Luck) returns (failed': nat)
      requires Valid()
      modifies this`force, this`guard, this`calls, this`found
      ensures Valid() && PassView(enacts, failed') == EnactOne(table, old(PassView(enacts, failed)), e, l)
      ensures calls == old(calls) + [e] && found == old(found) + [old(View())]
    {
      failed' := failed;
      var ok := ProviderEnact(e, l);
      if !ok {
        failed' := failed + 1;
        return;
      }
      SettleGroup(e);
    }

    method EnactEach(enacts: seq<nat>, failed: nat, l: Luck) returns (failed': nat)
      requires Valid()
      modifies this`force, this`guard, this`calls, this`found
      ensures Valid()
      ensures PassView(enacts, failed') == EnactAll(table, old(PassView(enacts, failed)), |enacts|, l)
      ensures calls == old(calls) + enacts && FoundSince(old(found), View())
    {
      ghost var p := PassView(enacts, failed);
      failed' := failed;
      var i := 0;
      while i < |enacts|
        invariant 0 <= i <= |enacts| && Valid()
        invariant PassView(enacts, failed') == EnactAll(table, p, i, l)
        invariant calls == old(calls) + enacts[..i] && FoundSince(old(found), View())
      {
        failed' := EnactOnce(enacts[i], failed', enacts, l);
        i := i + 1;
      }
    }

    method Retry(now: nat, l: Luck)
      modifies this`drift, this`retries, this`deadline, this`marker, this`windowSec, this`guard
      ensures View() == Retried(old(View()), now, l)
    {
      StaleSave(l);
      if retries < RETRIES {
        retries := retries + 1;
        deadline := now + RETRY_MS;
        ArmedWrite(l);
        return;
      }
      Disarm();
      marker := None;
    }

    // Both loops: the enacts called are those the first has collected, and each finds its work done.
    method RunPass(l: Luck) returns (failed: nat, ghost called: seq<nat>)
      requires Valid()
      modifies this`guard, this`stores, this`force, this`stale, this`undone, this`calls, this`found
      ensures Valid() && PassView(called, failed) == WholePass(table, old(View()), l)
      ensures called == PutBack(table, old(View()), l, |old(guard)|).enacts
      ensures calls == old(calls) + called && FoundSince(old(found), View())
    {
      var enacts;
      enacts, failed := PutBackAll(l);
      called := enacts;
      failed := EnactEach(enacts, failed, l);
    }

    method Disarm()
      modifies this`deadline, this`windowSec, this`guard, this`retries
      ensures View() == old(View()).(ram := old(View()).ram.(deadline := 0, windowSec := 0, guard := [], retries := 0))
    {
      deadline, windowSec, guard, retries := 0, 0, [], 0;
    }

    method Revert(now: nat, l: Luck)
      requires Valid()
      modifies this
      ensures Valid() && View() == Reverted(table, old(View()), now, l)
    {
      if deadline == 0 && |guard| == 0 {
        return;
      }
      ghost var c := View();
      var failed, called := RunPass(l);
      assert View() == After(c, PassView(called, failed));
      Conclude(failed, now, l);
    }

    // What becomes of the guard when a pass is over.
    method Conclude(failed: nat, now: nat, l: Luck)
      requires Valid()
      modifies this`drift, this`retries, this`deadline, this`marker, this`windowSec, this`guard, this`record
      ensures Valid() && View() == Concluded(old(View()), failed, now, l)
    {
      if failed > 0 {
        Retry(now, l);
      } else {
        Disarm();
        record, marker := None, None;
        StaleSave(l);
      }
    }

    // ----- the serve loop and startup --------------------------------------------------

    method Tick(now: nat, settled: bool, l: Luck)
      requires Valid()
      modifies this
      ensures Valid() && View() == Ticked(table, old(View()), now, settled, l)
    {
      if deadline == 0 {
        return;
      }
      if wifiMoved && wifiAsk != 0 && now >= wifiAsk {
        wifiAsk := now + WIFI_POLL_MS;
        if settled {
          Confirm();
          return;
        }
      }
      if now < deadline {
        return;
      }
      Revert(now, l);
    }

    method Recall(keys: seq<(nat, Store)>)
      modifies this`guard
      ensures guard == Recalled(table, keys, |keys|)
    {
      guard := [];
      var i := 0;
      while i < |keys|
        invariant 0 <= i <= |keys| && guard == Recalled(table, keys, i)
      {
        if keys[i].0 < |table| && |guard| < GUARD_MAX {
          guard := guard + [Snap(keys[i].0, keys[i].1, false)];
        }
        i := i + 1;
      }
    }

    method Load(now: nat, l: Luck)
      requires Valid()
      modifies this
      ensures Valid() && View() == Loaded(table, old(View()), now, l)
    {
      if record.None? {
        return;
      }
      var r := record.value;
      Recall(r.keys);
      if !r.armed {
        return;
      }
      var win := r.windowSec;
      var left := 0;
      if marker.Some? {
        left := marker.value.deadline;
        if marker.value.windowSec > 0 {
          win := marker.value.windowSec;
        }
      }
      windowSec := if win > 0 then win else NAME_SEC;
      if left == 0 {
        Revert(now, l);
        return;
      }
      deadline := left;
      if now >= deadline {
        Revert(now, l);
      }
    }

    // ----- edits and applies -----------------------------------------------------------

    method Edit(k: nat, v: Store, l: Luck) returns (stored: bool)
      requires Valid() && k < |table|
      modifies this
      ensures Valid() && View() == Edited(table, old(View()), k, v, l) && stored == (k !in l.badSets)
    {
      if table[k].guardSec > 0 {
        Hold(l);
      }
      var before := stores[k];
      stored := ProviderSet(k, v, l);
      if !stored {
        return;
      }
      undone := undone - {k};
      if before == stores[k] {
        return;
      }
      if table[k].enact != 0 {
        StaleAdd(k);
        StaleSave(l);
      }
    }

    method LongestWindow(owed: seq<nat>) returns (window: int)
      ensures window == Window(table, owed)
    {
      window := 0;
      var i := |owed|;
      while i > 0
        invariant 0 <= i <= |owed| && window == Window(table, owed[i..])
      {
        i := i - 1;
        assert owed[i..][1..] == owed[i + 1..];
        if owed[i] < |table| && table[owed[i]].guardSec > window {
          window := table[owed[i]].guardSec;
        }
      }
      assert owed[0..] == owed;
    }

    // The guard first, then one call per distinct enact.
    method ArmAndEnact(owed: seq<nat>, now: nat, l: Luck) returns (good: set<nat>)
      requires Valid() && forall i | 0 <= i < |owed| :: owed[i] < |table|
      modifies this
      ensures Valid() && good == Goods(table, owed, l) && calls == old(calls) + Distinct(table, owed, |owed|)
      ensures var d := Armed(table, old(View()), Window(table, owed), now, l);
        View() == d.(force := AllEnacted(table, d.stores, d.force, good)) && FoundSince(old(found), d)
    {
      var window := LongestWindow(owed);
      Arm(window, now, l);
      good := EnactDistinct(owed, l);
    }

    // And then the drift that was settled.
    method Apply(now: nat, l: Luck)
      requires Valid()
      modifies this
      ensures Valid() && View() == Applied(table, old(View()), now, l)
      ensures FoundSince(old(found), Armed(table, old(View()), Window(table, Owed(table, old(stale))), now, l))
      ensures var owed := Owed(table, old(stale)); calls == old(calls) + Distinct(table, owed, |owed|)
    {
      var owed := EnactOwed();
      if |owed| == 0 {
        return;
      }
      OwedAreKeys(table, stale);
      var good := ArmAndEnact(owed, now, l);
      EnactDone(good);
      StaleSave(l);
    }

    // One more enact, after those in `good` came up.
    method EnactNext(e: nat, good: set<nat>, ghost before: seq<Store>, l: Luck) returns (good': set<nat>)
      requires Valid() && |before| == |table| && force == AllEnacted(table, stores, before, good)
      modifies this`force, this`calls, this`found
      ensures Valid() && force == AllEnacted(table, stores, before, good')
      ensures good' == good + if e in l.badEnacts then {} else {e}
      ensures calls == old(calls) + [e] && found == old(found) + [old(View())]
    {
      good' := good;
      var ok := ProviderEnact(e, l);
      if ok {
        good' := good + {e};
      }
    }

    method EnactDistinct(owed: seq<nat>, l: Luck) returns (good: set<nat>)
      requires Valid() && forall i | 0 <= i < |owed| :: owed[i] < |table|
      modifies this`force, this`calls, this`found
      ensures Valid() && good == Goods(table, owed, l) && FoundSince(old(found), View())
      ensures calls == old(calls) + Distinct(table, owed, |owed|)
      ensures force == AllEnacted(table, stores, old(force), good)
    {
      var done: seq<nat> := [];
      good := {};
      var i := 0;
      assert force == AllEnacted(table, stores, old(force), {});
      while i < |owed|
        invariant 0 <= i <= |owed| && Valid() && done == Distinct(table, owed, i) && good == Came(done, l)
        invariant force == AllEnacted(table, stores, old(force), good) && FoundSince(old(found), View())
        invariant calls == old(calls) + done
      {
        var e := table[owed[i]].enact;
        if e !in done {
          good := EnactNext(e, good, old(force), l);
          done := done + [e];
        }
        i := i + 1;
      }
      CameAreGoods(table, owed, l);
    }
  }
}
