/**
 * Confirm-or-revert in rcd (rcd/rcd_guard.c, with the drift list of rcd/rcd_config.c and the
 * enacting half of rcd/rcd_apply.c).
 *
 * `set` remembers what every guarded store held, `apply` starts a clock and puts the stores into
 * force, and unless somebody confirms in time the stores are put back. The model follows the
 * daemon's memory, the record on flash, the marker on the tmpfs, the stores and what is in force,
 * through provider and file failures, daemon restarts and reboots.
 */
module Guard {
  import opened Basics

  const GUARD_MAX := 12
  const RETRY_MS := 15000
  const RETRIES := 4
  const STALE_MAX := 64
  const NAME_SEC := 90
  const WIFI_DWELL_MS := 30000
  const WIFI_POLL_MS := 5000

  // What a provider's store answers: a value, or nothing.
  type Store = Option<string>

  // A key of the table that is kept by a provider. Keys that are brought into force by the same
  // call share an enact; 0 is no enact, for a store that is in force as soon as it is written.
  datatype Key = Key(guardSec: int, enact: nat, wifi: bool)

  datatype Snap = Snap(key: nat, prev: Store, owed: bool)
  datatype Record = Record(armed: bool, windowSec: int, keys: seq<(nat, Store)>)
  datatype Marker = Marker(deadline: nat, windowSec: int)

  datatype Ram = Ram(guard: seq<Snap>, deadline: nat, windowSec: int, retries: nat,
                     stale: seq<nat>, wifiMoved: bool, wifiAsk: nat)

  const EMPTY := Ram([], 0, 0, 0, [], false, 0)

  // The daemon's memory; the record on flash; the marker and the drift list on the tmpfs; the
  // stores; and what is in force. `undone` is history: the keys whose store was last written by a
  // revert, since the snapshot was taken or the daemon started.
  datatype Camera = Camera(ram: Ram, record: Option<Record>, marker: Option<Marker>, drift: seq<nat>,
                           stores: seq<Store>, force: seq<Store>, undone: set<nat>)

  // What fails during one operation: stores that refuse to be written, enacts that do not come
  // up, and whether the flash and the tmpfs take writes.
  datatype Luck = Luck(badSets: set<nat>, badEnacts: set<nat>, flash: bool, tmpfs: bool)

  // ----- the snapshot ------------------------------------------------------------------

  function Snapshot(t: seq<Key>, stores: seq<Store>, n: nat): (g: seq<Snap>)
    requires n <= |t| == |stores|
  {
    if n == 0 then []
    else
      var g := Snapshot(t, stores, n - 1);
      if t[n - 1].guardSec <= 0 || |g| >= GUARD_MAX then g else g + [Snap(n - 1, stores[n - 1], false)]
  }

  function Plain(g: seq<Snap>): (p: seq<(nat, Store)>)
    ensures |p| == |g| && forall i | 0 <= i < |g| :: p[i] == (g[i].key, g[i].prev)
  {
    seq(|g|, i requires 0 <= i < |g| => (g[i].key, g[i].prev))
  }

  function RecordWritten(c: Camera, l: Luck): Camera {
    if l.flash then c.(record := Some(Record(c.ram.deadline != 0, c.ram.windowSec, Plain(c.ram.guard)))) else c
  }

  function MarkerWritten(c: Camera, l: Luck): Camera {
    if l.tmpfs then c.(marker := Some(Marker(c.ram.deadline, c.ram.windowSec))) else c
  }

  function DriftSaved(c: Camera, l: Luck): Camera {
    if l.tmpfs || c.ram.stale == [] then c.(drift := c.ram.stale) else c
  }

  function Taken(t: seq<Key>, c: Camera): Camera
    requires |t| == |c.stores|
  {
    c.(ram := c.ram.(guard := Snapshot(t, c.stores, |t|)), undone := {})
  }

  function Held(t: seq<Key>, c: Camera, l: Luck): Camera
    requires |t| == |c.stores|
  {
    if c.ram.guard != [] then c else RecordWritten(Taken(t, c), l)
  }

  predicate WifiMoved(t: seq<Key>, c: Camera)
    requires |t| == |c.stores|
  {
    exists s | s in c.ram.guard :: s.key < |t| && t[s.key].wifi && c.stores[s.key] != s.prev
  }

  function Started(t: seq<Key>, c: Camera, windowSec: int, now: nat): Camera
    requires |t| == |c.stores| && windowSec > 0
  {
    c.(ram := c.ram.(retries := 0, windowSec := windowSec, deadline := now + windowSec * 1000,
                     wifiMoved := (c.ram.deadline != 0 && c.ram.wifiMoved) || WifiMoved(t, c),
                     wifiAsk := now + WIFI_DWELL_MS))
  }

  function Armed(t: seq<Key>, c: Camera, windowSec: int, now: nat, l: Luck): Camera
    requires |t| == |c.stores|
  {
    if windowSec <= 0 then c
    else
      var d := if c.ram.guard == [] then Taken(t, c) else c;
      MarkerWritten(RecordWritten(Started(t, d, windowSec, now), l), l)
  }

  function Cleared(c: Camera): Camera {
    c.(record := None, marker := None)
  }

  function Confirmed(c: Camera): Camera {
    if c.ram.deadline == 0 then c
    else Cleared(c.(ram := c.ram.(deadline := 0, windowSec := 0, guard := [], retries := 0,
                                  wifiMoved := false, wifiAsk := 0)))
  }

  // ----- the drift list ----------------------------------------------------------------

  function StaleAdded(stale: seq<nat>, k: nat): seq<nat> {
    if k in stale || |stale| >= STALE_MAX then stale else stale + [k]
  }

  function Forgotten(stale: seq<nat>, k: nat): (r: seq<nat>)
    ensures k !in r && forall x :: x in r <==> x in stale && x != k
  {
    if stale == [] then []
    else (if stale[0] == k then [] else [stale[0]]) + Forgotten(stale[1..], k)
  }

  // ----- a revert ----------------------------------------------------------------------

  // What one pass over the snapshot has made of things so far.
  datatype Pass = Pass(guard: seq<Snap>, stores: seq<Store>, force: seq<Store>, stale: seq<nat>,
                       undone: set<nat>, enacts: seq<nat>, failed: nat)

  function AddEnact(list: seq<nat>, e: nat, armed: bool): seq<nat> {
    if !armed || |list| >= GUARD_MAX || e in list then list else list + [e]
  }

  function PutBackOne(t: seq<Key>, p: Pass, i: nat, armed: bool, l: Luck): (r: Pass)
    requires i < |p.guard| && |p.stores| == |p.force| == |t|
    ensures |r.guard| == |p.guard| && |r.stores| == |r.force| == |t|
  {
    var s := p.guard[i];
    if s.key >= |t| then p
    else
      var e := t[s.key].enact;
      if p.stores[s.key] == s.prev then
        p.(enacts := if s.owed && e != 0 then AddEnact(p.enacts, e, armed) else p.enacts,
           stale := Forgotten(p.stale, s.key))
      else if s.key in l.badSets then p.(failed := p.failed + 1)
      else
        p.(stores := p.stores[s.key := s.prev],
           force := if e == 0 then p.force[s.key := s.prev] else p.force,
           guard := if e != 0 then p.guard[i := s.(owed := true)] else p.guard,
           enacts := if e != 0 then AddEnact(p.enacts, e, armed) else p.enacts,
           stale := Forgotten(p.stale, s.key),
           undone := p.undone + {s.key})
  }

  function PutBack(t: seq<Key>, c: Camera, l: Luck, n: nat): (p: Pass)
    requires n <= |c.ram.guard| && |c.stores| == |c.force| == |t|
    ensures |p.guard| == |c.ram.guard| && |p.stores| == |p.force| == |t|
  {
    if n == 0 then Pass(c.ram.guard, c.stores, c.force, c.ram.stale, c.undone, [], 0)
    else PutBackOne(t, PutBack(t, c, l, n - 1), n - 1, c.ram.deadline != 0, l)
  }

  // One enact: everything it covers is in force as its store has it, and nothing of it is owed.
  function EnactOne(t: seq<Key>, p: Pass, e: nat, l: Luck): (r: Pass)
    requires |p.stores| == |p.force| == |t|
    ensures |r.guard| == |p.guard| && |r.stores| == |r.force| == |t|
  {
    if e in l.badEnacts then p.(failed := p.failed + 1)
    else p.(force := Enacted(t, p.stores, p.force, e), guard := Settled(t, p.guard, e))
  }

  function Enacted(t: seq<Key>, stores: seq<Store>, force: seq<Store>, e: nat): (f: seq<Store>)
    requires |stores| == |force| == |t|
    ensures |f| == |t| && forall k | 0 <= k < |t| :: f[k] == if t[k].enact == e then stores[k] else force[k]
  {
    seq(|t|, k requires 0 <= k < |t| => if t[k].enact == e then stores[k] else force[k])
  }

  function Settled(t: seq<Key>, g: seq<Snap>, e: nat): (r: seq<Snap>)
    ensures |r| == |g|
    ensures forall i | 0 <= i < |g| :: r[i] == if g[i].key < |t| && t[g[i].key].enact == e then g[i].(owed := false) else g[i]
  {
    seq(|g|, i requires 0 <= i < |g| =>
      if g[i].key < |t| && t[g[i].key].enact == e then g[i].(owed := false) else g[i])
  }

  function EnactAll(t: seq<Key>, p: Pass, n: nat, l: Luck): (r: Pass)
    requires n <= |p.enacts| && |p.stores| == |p.force| == |t|
    ensures |r.guard| == |p.guard| && |r.stores| == |r.force| == |t|
  {
    if n == 0 then p else EnactOne(t, EnactAll(t, p, n - 1, l), p.enacts[n - 1], l)
  }

  function WholePass(t: seq<Key>, c: Camera, l: Luck): (r: Pass)
    requires |c.stores| == |c.force| == |t|
    ensures |r.guard| == |c.ram.guard| && |r.stores| == |r.force| == |t|
  {
    var p := PutBack(t, c, l, |c.ram.guard|);
    EnactAll(t, p, |p.enacts|, l)
  }

  // The camera once a pass is over, before what becomes of the guard.
  function After(c: Camera, p: Pass): Camera {
    c.(ram := c.ram.(guard := p.guard, stale := p.stale), stores := p.stores, force := p.force, undone := p.undone)
  }

  function Retried(c: Camera, now: nat, l: Luck): Camera {
    var d := DriftSaved(c, l);
    if d.ram.retries < RETRIES then
      MarkerWritten(d.(ram := d.ram.(retries := d.ram.retries + 1, deadline := now + RETRY_MS)), l)
    else
      d.(ram := d.ram.(deadline := 0, windowSec := 0, guard := [], retries := 0), marker := None)
  }

  function Reverted(t: seq<Key>, c: Camera, now: nat, l: Luck): Camera
    requires |c.stores| == |c.force| == |t|
  {
    if c.ram.deadline == 0 && c.ram.guard == [] then c
    else
      var p := WholePass(t, c, l);
      var d := After(c, p);
      if p.failed > 0 then Retried(d, now, l)
      else DriftSaved(Cleared(d.(ram := d.ram.(deadline := 0, windowSec := 0, guard := [], retries := 0))), l)
  }

  // ----- the other events --------------------------------------------------------------

  function Ticked(t: seq<Key>, c: Camera, now: nat, settled: bool, l: Luck): Camera
    requires |c.stores| == |c.force| == |t|
  {
    if c.ram.deadline == 0 then c
    else
      var ask := c.ram.wifiMoved && c.ram.wifiAsk != 0 && now >= c.ram.wifiAsk;
      var d := if ask then c.(ram := c.ram.(wifiAsk := now + WIFI_POLL_MS)) else c;
      if ask && settled then Confirmed(d)
      else if now < d.ram.deadline then d
      else Reverted(t, d, now, l)
  }

  // rcd_guard_load, into empty memory. A key this build does not have is dropped.
  function Loaded(t: seq<Key>, c: Camera, now: nat, l: Luck): Camera
    requires |c.stores| == |c.force| == |t|
  {
    if c.record.None? then c
    else
      var r := c.record.value;
      var d := c.(ram := c.ram.(guard := Recalled(t, r.keys, |r.keys|)));
      if !r.armed then d
      else
        var win := if d.marker.Some? && d.marker.value.windowSec > 0 then d.marker.value.windowSec else r.windowSec;
        var w := d.(ram := d.ram.(windowSec := if win > 0 then win else NAME_SEC));
        if w.marker.None? || w.marker.value.deadline == 0 then Reverted(t, w, now, l)
        else
          var a := w.(ram := w.ram.(deadline := w.marker.value.deadline));
          if now >= a.ram.deadline then Reverted(t, a, now, l) else a
  }

  function Recalled(t: seq<Key>, keys: seq<(nat, Store)>, n: nat): seq<Snap>
    requires n <= |keys|
  {
    if n == 0 then []
    else
      var g := Recalled(t, keys, n - 1);
      if keys[n - 1].0 >= |t| || |g| >= GUARD_MAX then g else g + [Snap(keys[n - 1].0, keys[n - 1].1, false)]
  }

  // One edit of a provider's key.
  function Edited(t: seq<Key>, c: Camera, k: nat, v: Store, l: Luck): Camera
    requires |c.stores| == |c.force| == |t| && k < |t|
  {
    var d := if t[k].guardSec > 0 then Held(t, c, l) else c;
    if k in l.badSets then d
    else
      var e := d.(stores := d.stores[k := v],
                  force := if t[k].enact == 0 then d.force[k := v] else d.force,
                  undone := d.undone - {k});
      if d.stores[k] == v || t[k].enact == 0 then e
      else DriftSaved(e.(ram := e.ram.(stale := StaleAdded(e.ram.stale, k))), l)
  }

  // The keys an apply owes an enact to, and the longest window among them.
  function Owed(t: seq<Key>, stale: seq<nat>): seq<nat> {
    if stale == [] then []
    else (if stale[0] < |t| && t[stale[0]].enact != 0 then [stale[0]] else []) + Owed(t, stale[1..])
  }

  lemma {:induction false} OwedAreKeys(t: seq<Key>, stale: seq<nat>)
    ensures forall i | 0 <= i < |Owed(t, stale)| :: Owed(t, stale)[i] < |t| && t[Owed(t, stale)[i]].enact != 0
  {
    if stale != [] { OwedAreKeys(t, stale[1..]); }
  }

  function Window(t: seq<Key>, owed: seq<nat>): int {
    if owed == [] then 0
    else
      var w := Window(t, owed[1..]);
      if owed[0] < |t| && t[owed[0]].guardSec > w then t[owed[0]].guardSec else w
  }

  // The enacts an apply calls that come up, and what is in force once they have.
  function Goods(t: seq<Key>, owed: seq<nat>, l: Luck): set<nat> {
    set k | k in owed && k < |t| && t[k].enact !in l.badEnacts :: t[k].enact
  }

  function AllEnacted(t: seq<Key>, stores: seq<Store>, force: seq<Store>, good: set<nat>): (f: seq<Store>)
    requires |stores| == |force| == |t|
    ensures |f| == |t| && forall k | 0 <= k < |t| :: f[k] == if t[k].enact in good then stores[k] else force[k]
  {
    seq(|t|, k requires 0 <= k < |t| => if t[k].enact in good then stores[k] else force[k])
  }

  function Applied(t: seq<Key>, c: Camera, now: nat, l: Luck): Camera
    requires |c.stores| == |c.force| == |t|
  {
    var owed := Owed(t, c.ram.stale);
    if owed == [] then c
    else
      var d := Armed(t, c, Window(t, owed), now, l);
      var good := Goods(t, owed, l);
      DriftSaved(d.(force := AllEnacted(t, d.stores, d.force, good),
                    ram := d.ram.(stale := Unowed(t, d.ram.stale, good))), l)
  }

  function Unowed(t: seq<Key>, stale: seq<nat>, good: set<nat>): seq<nat> {
    if stale == [] then []
    else (if stale[0] < |t| && t[stale[0]].enact != 0 && t[stale[0]].enact in good then [] else [stale[0]])
         + Unowed(t, stale[1..], good)
  }

  datatype Event =
    | Edit(key: nat, value: Store)
    | Apply(now: nat)
    | Confirm
    | Cancel(now: nat)
    | Tick(now: nat, settled: bool)
    | Restart(now: nat)
    | Reboot(now: nat)

  function Step(t: seq<Key>, c: Camera, e: Event, l: Luck): Camera
    requires |c.stores| == |c.force| == |t|
  {
    match e
    case Edit(k, v) => if k < |t| then Edited(t, c, k, v, l) else c
    case Apply(now) => Applied(t, c, now, l)
    case Confirm => Confirmed(c)
    case Cancel(now) => Reverted(t, c, now, l)
    case Tick(now, settled) => Ticked(t, c, now, settled, l)
    case Restart(now) => Loaded(t, c.(ram := EMPTY.(stale := c.drift), undone := {}), now, l)
    case Reboot(now) => Loaded(t, c.(ram := EMPTY, marker := None, drift := [], force := c.stores, undone := {}), now, l)
  }

  // ----- well-formedness ---------------------------------------------------------------

  ghost predicate KeysOk(t: seq<Key>, keys: seq<(nat, Store)>) {
    && |keys| <= GUARD_MAX
    && (forall i | 0 <= i < |keys| :: keys[i].0 < |t|)
    && (forall i, j | 0 <= i < j < |keys| :: keys[i].0 != keys[j].0)
  }

  ghost predicate GuardOk(t: seq<Key>, g: seq<Snap>) { KeysOk(t, Plain(g)) }

  ghost predicate Wf(t: seq<Key>, c: Camera) {
    && |c.stores| == |c.force| == |t|
    && GuardOk(t, c.ram.guard)
    && (c.record.Some? ==> KeysOk(t, c.record.value.keys))
  }

  // The snapshot takes the guarded keys in table order, twelve at most, with what each store holds.
  lemma {:induction false} SnapshotOk(t: seq<Key>, stores: seq<Store>, n: nat)
    requires n <= |t| == |stores|
    ensures var g := Snapshot(t, stores, n);
      && GuardOk(t, g)
      && forall i | 0 <= i < |g| :: g[i].key < n && t[g[i].key].guardSec > 0 && g[i] == Snap(g[i].key, stores[g[i].key], false)
  {
    if n > 0 { SnapshotOk(t, stores, n - 1); }
  }

  // And it leaves none out while there is room.
  lemma {:induction false} SnapshotCovers(t: seq<Key>, stores: seq<Store>, n: nat, k: nat)
    requires k < n <= |t| == |stores| && t[k].guardSec > 0
    ensures var g := Snapshot(t, stores, n); |g| == GUARD_MAX || exists i :: 0 <= i < |g| && g[i].key == k
    ensures |Snapshot(t, stores, n)| <= GUARD_MAX
  {
    SnapshotOk(t, stores, n);
    var h, g := Snapshot(t, stores, n - 1), Snapshot(t, stores, n);
    if k < n - 1 {
      SnapshotCovers(t, stores, n - 1, k);
      if i :| 0 <= i < |h| && h[i].key == k { assert g[i].key == k; }
    } else if |h| < GUARD_MAX {
      assert g[|h|].key == k;
    }
  }

  lemma {:induction false} RecalledOk(t: seq<Key>, keys: seq<(nat, Store)>, n: nat)
    requires KeysOk(t, keys) && n <= |keys|
    ensures var g := Recalled(t, keys, n);
      |g| == n && forall i | 0 <= i < n :: g[i] == Snap(keys[i].0, keys[i].1, false)
  {
    if n > 0 { RecalledOk(t, keys, n - 1); }
  }

  // ----- what a pass does, key by key --------------------------------------------------

  predicate Moved(c: Camera, i: nat)
    requires i < |c.ram.guard| && c.ram.guard[i].key < |c.stores|
  {
    c.stores[c.ram.guard[i].key] != c.ram.guard[i].prev
  }

  // The pass after n keys: those put back read as the snapshot has them and owe their enact, those
  // whose store refused are counted, and nothing else has changed.
  ghost predicate Progress(t: seq<Key>, c: Camera, l: Luck, n: nat, p: Pass)
    requires Wf(t, c) && n <= |c.ram.guard|
  {
    && |p.guard| == |c.ram.guard| && |p.stores| == |p.force| == |t|
    && Plain(p.guard) == Plain(c.ram.guard)
    && (forall i | 0 <= i < |p.guard| :: KeyProgress(t, c, l, n, p, i))
    && (forall k | 0 <= k < |t| && t[k].enact != 0 :: p.force[k] == c.force[k])
    && (forall k | 0 <= k < |t| && !(p.stores[k] == c.stores[k] && p.force[k] == c.force[k]) ::
          exists i :: 0 <= i < n && c.ram.guard[i].key == k)
    && c.undone <= p.undone
    && |p.enacts| <= n && (c.ram.deadline == 0 ==> p.enacts == [])
    && (forall i, j | 0 <= i < j < |p.enacts| :: p.enacts[i] != p.enacts[j])
    && (forall e | e in p.enacts :: e != 0)
    && (forall k | k in p.stale :: k in c.ram.stale)
  }

  ghost predicate KeyProgress(t: seq<Key>, c: Camera, l: Luck, n: nat, p: Pass, i: nat)
    requires Wf(t, c) && i < |c.ram.guard| == |p.guard| && |p.stores| == |p.force| == |t|
  {
    var s := c.ram.guard[i];
    if i >= n then
      p.guard[i] == s && p.stores[s.key] == c.stores[s.key] && p.force[s.key] == c.force[s.key]
        && (s.key in p.undone ==> s.key in c.undone)
    else if Moved(c, i) && s.key in l.badSets then
      p.guard[i] == s && p.stores[s.key] == c.stores[s.key] && p.force[s.key] == c.force[s.key] && p.failed > 0
        && (s.key in p.undone ==> s.key in c.undone)
    else
      && p.stores[s.key] == s.prev
      && s.key !in p.stale
      && (if Moved(c, i) then s.key in p.undone && (t[s.key].enact == 0 ==> p.force[s.key] == s.prev)
          else p.force[s.key] == c.force[s.key] && (s.key in p.undone ==> s.key in c.undone))
      && p.guard[i] == s.(owed := s.owed || (Moved(c, i) && t[s.key].enact != 0))
      && (c.ram.deadline != 0 && p.guard[i].owed && t[s.key].enact != 0 ==> t[s.key].enact in p.enacts)
  }

  lemma KeyProgressOne(t: seq<Key>, c: Camera, l: Luck, n: nat, m: nat, p: Pass, r: Pass, i: nat)
    requires Wf(t, c) && n < |c.ram.guard| && m == n + 1 && Progress(t, c, l, n, p) && i < |c.ram.guard|
    requires r == PutBackOne(t, p, n, c.ram.deadline != 0, l)
    ensures KeyProgress(t, c, l, m, r, i)
  {
    assert KeyProgress(t, c, l, n, p, n) && KeyProgress(t, c, l, n, p, i);
    assert Plain(c.ram.guard)[i].0 < |t| && Plain(c.ram.guard)[n].0 < |t|;
    if i != n { assert Plain(c.ram.guard)[i].0 != Plain(c.ram.guard)[n].0; }
  }

  lemma ProgressOne(t: seq<Key>, c: Camera, l: Luck, n: nat, m: nat, p: Pass, r: Pass)
    requires Wf(t, c) && n < |c.ram.guard| && m == n + 1 && Progress(t, c, l, n, p)
    requires r == PutBackOne(t, p, n, c.ram.deadline != 0, l)
    ensures Progress(t, c, l, m, r)
  {
    assert KeyProgress(t, c, l, n, p, n);
    assert Plain(r.guard) == Plain(p.guard);
    var s := c.ram.guard[n];
    forall i | 0 <= i < |p.guard| ensures KeyProgress(t, c, l, m, r, i) {
      KeyProgressOne(t, c, l, n, m, p, r, i);
    }
    forall k | 0 <= k < |t| && !(r.stores[k] == c.stores[k] && r.force[k] == c.force[k])
      ensures exists i :: 0 <= i < m && c.ram.guard[i].key == k
    {
      if k == s.key {
        assert c.ram.guard[n].key == k;
      } else {
        assert !(p.stores[k] == c.stores[k] && p.force[k] == c.force[k]);
      }
    }
  }

  lemma ProgressStart(t: seq<Key>, c: Camera, l: Luck)
    requires Wf(t, c)
    ensures Progress(t, c, l, 0, PutBack(t, c, l, 0))
  {
    var p := PutBack(t, c, l, 0);
    forall i | 0 <= i < |p.guard| ensures KeyProgress(t, c, l, 0, p, i) {
      assert Plain(c.ram.guard)[i].0 < |t|;
    }
  }

  lemma {:induction false} PutBackProgress(t: seq<Key>, c: Camera, l: Luck, n: nat)
    requires Wf(t, c) && n <= |c.ram.guard|
    ensures Progress(t, c, l, n, PutBack(t, c, l, n))
  {
    if n == 0 {
      ProgressStart(t, c, l);
    } else {
      PutBackProgress(t, c, l, n - 1);
      ProgressOne(t, c, l, n - 1, n, PutBack(t, c, l, n - 1), PutBack(t, c, l, n));
    }
  }

  // The first n enacts of a pass have been called: each that came up settles its whole group.
  ghost predicate EnactedSoFar(t: seq<Key>, p: Pass, l: Luck, n: nat, r: Pass)
    requires n <= |p.enacts| && |p.stores| == |p.force| == |t|
  {
    && |r.guard| == |p.guard| && |r.stores| == |r.force| == |t|
    && r.stores == p.stores && r.stale == p.stale && r.undone == p.undone && Plain(r.guard) == Plain(p.guard)
    && (forall k | 0 <= k < |t| ::
          r.force[k] == if t[k].enact in p.enacts[..n] && t[k].enact !in l.badEnacts then p.stores[k] else p.force[k])
    && (forall i | 0 <= i < |p.guard| :: r.guard[i] ==
          if p.guard[i].key < |t| && t[p.guard[i].key].enact in p.enacts[..n] && t[p.guard[i].key].enact !in l.badEnacts
          then p.guard[i].(owed := false) else p.guard[i])
    && r.failed >= p.failed
    && (r.failed == p.failed ==> forall e | e in p.enacts[..n] :: e !in l.badEnacts)
  }

  lemma EnactedOneMore(t: seq<Key>, p: Pass, l: Luck, n: nat, m: nat, q: Pass, r: Pass)
    requires m == n + 1 && n < |p.enacts| && |p.stores| == |p.force| == |t| && EnactedSoFar(t, p, l, n, q)
    requires r == EnactOne(t, q, p.enacts[n], l)
    ensures EnactedSoFar(t, p, l, m, r)
  {
    assert p.enacts[..m] == p.enacts[..n] + [p.enacts[n]];
    assert Plain(r.guard) == Plain(q.guard);
  }

  lemma {:induction false} EnactAllProgress(t: seq<Key>, p: Pass, l: Luck, n: nat)
    requires n <= |p.enacts| && |p.stores| == |p.force| == |t|
    ensures EnactedSoFar(t, p, l, n, EnactAll(t, p, n, l))
  {
    if n > 0 {
      EnactAllProgress(t, p, l, n - 1);
      EnactedOneMore(t, p, l, n - 1, n, EnactAll(t, p, n - 1, l), EnactAll(t, p, n, l));
    }
  }

  // ----- what every event keeps ----------------------------------------------------------

  // A store without an enact is always in force; a store a revert put back still reads as the
  // snapshot has it, and is in force or known to owe its enact.
  ghost predicate Honest(t: seq<Key>, c: Camera)
    requires Wf(t, c)
  {
    && (forall k | 0 <= k < |t| && t[k].enact == 0 :: c.force[k] == c.stores[k])
    && (forall i | 0 <= i < |c.ram.guard| :: KeyHonest(t, c, i))
  }

  ghost predicate KeyHonest(t: seq<Key>, c: Camera, i: nat)
    requires |c.stores| == |c.force| == |t| && i < |c.ram.guard|
  {
    var s := c.ram.guard[i];
    s.key < |t| && s.key in c.undone ==> c.stores[s.key] == s.prev && (s.owed || c.force[s.key] == s.prev)
  }

  // One pass over an honest camera leaves it honest, landed or not.
  lemma PassHonest(t: seq<Key>, c: Camera, l: Luck)
    requires Wf(t, c) && Honest(t, c)
    ensures var d := After(c, WholePass(t, c, l)); Wf(t, d) && Honest(t, d) && Plain(d.ram.guard) == Plain(c.ram.guard)
  {
    var p := PutBack(t, c, l, |c.ram.guard|);
    var r := WholePass(t, c, l);
    var d := After(c, r);
    PutBackProgress(t, c, l, |c.ram.guard|);
    EnactAllProgress(t, p, l, |p.enacts|);
    forall i | 0 <= i < |d.ram.guard| ensures KeyHonest(t, d, i) {
      KeyStaysHonest(t, c, l, i);
    }
    forall k | 0 <= k < |t| && t[k].enact == 0 ensures d.force[k] == d.stores[k] {
      if !(p.stores[k] == c.stores[k] && p.force[k] == c.force[k]) {
        var i :| 0 <= i < |c.ram.guard| && c.ram.guard[i].key == k;
        assert KeyProgress(t, c, l, |c.ram.guard|, p, i);
      }
    }
  }

  lemma KeyStaysHonest(t: seq<Key>, c: Camera, l: Luck, i: nat)
    requires Wf(t, c) && Honest(t, c) && i < |c.ram.guard|
    ensures KeyHonest(t, After(c, WholePass(t, c, l)), i)
  {
    var p := PutBack(t, c, l, |c.ram.guard|);
    PutBackProgress(t, c, l, |c.ram.guard|);
    EnactAllProgress(t, p, l, |p.enacts|);
    assert KeyProgress(t, c, l, |c.ram.guard|, p, i);
    assert KeyHonest(t, c, i);
    assert Plain(p.guard)[i] == Plain(c.ram.guard)[i] && Plain(c.ram.guard)[i].0 < |t|;
    assert p.enacts[..|p.enacts|] == p.enacts;
  }

  // A pass in which nothing failed, seen from one key of the snapshot.
  lemma LandedKey(t: seq<Key>, c: Camera, l: Luck, i: nat)
    requires Wf(t, c) && Honest(t, c) && i < |c.ram.guard| && WholePass(t, c, l).failed == 0
    ensures var s, r := c.ram.guard[i], WholePass(t, c, l);
      && r.stores[s.key] == s.prev && s.key !in r.stale
      && (c.ram.deadline != 0 && s.key in r.undone ==> r.force[s.key] == s.prev)
  {
    var p := PutBack(t, c, l, |c.ram.guard|);
    PutBackProgress(t, c, l, |c.ram.guard|);
    EnactAllProgress(t, p, l, |p.enacts|);
    assert KeyProgress(t, c, l, |c.ram.guard|, p, i);
    assert KeyHonest(t, c, i);
    assert Plain(c.ram.guard)[i].0 < |t|;
    assert p.enacts[..|p.enacts|] == p.enacts;
    var s := c.ram.guard[i];
    if s.key in p.undone && t[s.key].enact == 0 {
      PassHonest(t, c, l);
    }
  }

  // A pass that finds no clock running enacts nothing.
  lemma HeldPassEnactsNothing(t: seq<Key>, c: Camera, l: Luck)
    requires Wf(t, c) && c.ram.deadline == 0
    ensures forall k | 0 <= k < |t| && t[k].enact != 0 :: WholePass(t, c, l).force[k] == c.force[k]
  {
    PutBackProgress(t, c, l, |c.ram.guard|);
  }

  // Each distinct enact is called at most once in a pass.
  lemma EnactsAreCalledOnce(t: seq<Key>, c: Camera, l: Luck)
    requires Wf(t, c)
    ensures var called := PutBack(t, c, l, |c.ram.guard|).enacts;
      forall i, j | 0 <= i < j < |called| :: called[i] != called[j]
  {
    PutBackProgress(t, c, l, |c.ram.guard|);
  }

  ghost predicate Inv(t: seq<Key>, c: Camera) { Wf(t, c) && Honest(t, c) }

  lemma TakenInv(t: seq<Key>, c: Camera)
    requires Inv(t, c)
    ensures Inv(t, Taken(t, c))
  {
    SnapshotOk(t, c.stores, |t|);
  }

  // The invariant speaks of the stores, the snapshot and its copy on flash, and of nothing else.
  ghost predicate Alike(c: Camera, d: Camera) {
    && d.stores == c.stores && d.force == c.force && d.undone == c.undone && d.ram.guard == c.ram.guard
    && (d.record == c.record || d.record.None? || d.record.value.keys == Plain(d.ram.guard))
  }

  lemma AlikeInv(t: seq<Key>, c: Camera, d: Camera)
    requires Inv(t, c) && Alike(c, d)
    ensures Inv(t, d)
  {
    forall i | 0 <= i < |d.ram.guard| ensures KeyHonest(t, d, i) {
      assert KeyHonest(t, c, i);
    }
  }

  lemma RevertKeepsInv(t: seq<Key>, c: Camera, now: nat, l: Luck)
    requires Inv(t, c)
    ensures Inv(t, Reverted(t, c, now, l))
  {
    if c.ram.deadline != 0 || c.ram.guard != [] {
      PassHonest(t, c, l);
      var d, f := After(c, WholePass(t, c, l)), Reverted(t, c, now, l);
      if f.ram.guard != [] { AlikeInv(t, d, f); }
    }
  }

  lemma ArmedInv(t: seq<Key>, c: Camera, windowSec: int, now: nat, l: Luck)
    requires Inv(t, c)
    ensures Inv(t, Armed(t, c, windowSec, now, l))
  {
    TakenInv(t, c);
    AlikeInv(t, if c.ram.guard == [] && windowSec > 0 then Taken(t, c) else c, Armed(t, c, windowSec, now, l));
  }

  lemma HeldInv(t: seq<Key>, c: Camera, l: Luck)
    requires Inv(t, c)
    ensures Inv(t, Held(t, c, l))
  {
    TakenInv(t, c);
    AlikeInv(t, if c.ram.guard == [] then Taken(t, c) else c, Held(t, c, l));
  }

  lemma WriteKeepsInv(t: seq<Key>, c: Camera, k: nat, v: Store)
    requires Inv(t, c) && k < |t|
    ensures Inv(t, c.(stores := c.stores[k := v], force := if t[k].enact == 0 then c.force[k := v] else c.force,
                      undone := c.undone - {k}))
  {
    var d := c.(stores := c.stores[k := v], force := if t[k].enact == 0 then c.force[k := v] else c.force,
                undone := c.undone - {k});
    forall i | 0 <= i < |d.ram.guard| ensures KeyHonest(t, d, i) {
      assert KeyHonest(t, c, i);
    }
  }

  lemma EditKeepsInv(t: seq<Key>, c: Camera, k: nat, v: Store, l: Luck)
    requires Inv(t, c) && k < |t|
    ensures Inv(t, Edited(t, c, k, v, l))
  {
    HeldInv(t, c, l);
    var d := if t[k].guardSec > 0 then Held(t, c, l) else c;
    WriteKeepsInv(t, d, k, v);
    var e := d.(stores := d.stores[k := v], force := if t[k].enact == 0 then d.force[k := v] else d.force,
                undone := d.undone - {k});
    if k !in l.badSets { AlikeInv(t, e, Edited(t, c, k, v, l)); }
  }

  lemma ApplyKeepsInv(t: seq<Key>, c: Camera, now: nat, l: Luck)
    requires Inv(t, c)
    ensures Inv(t, Applied(t, c, now, l))
  {
    var owed := Owed(t, c.ram.stale);
    if owed != [] {
      ArmedInv(t, c, Window(t, owed), now, l);
      var d, f := Armed(t, c, Window(t, owed), now, l), Applied(t, c, now, l);
      forall i | 0 <= i < |f.ram.guard| ensures KeyHonest(t, f, i) {
        assert KeyHonest(t, d, i);
      }
    }
  }

  lemma RecalledPlain(t: seq<Key>, keys: seq<(nat, Store)>)
    requires KeysOk(t, keys)
    ensures Plain(Recalled(t, keys, |keys|)) == keys
  {
    RecalledOk(t, keys, |keys|);
  }

  // The memory a load has in hand before it decides whether the window ran out.
  function Remembered(t: seq<Key>, c: Camera, deadline: nat, windowSec: int): Camera
    requires c.record.Some?
  {
    c.(ram := c.ram.(guard := Recalled(t, c.record.value.keys, |c.record.value.keys|), deadline := deadline, windowSec := windowSec))
  }

  lemma RememberedInv(t: seq<Key>, c: Camera, deadline: nat, windowSec: int)
    requires Inv(t, c) && c.undone == {} && c.record.Some?
    ensures Inv(t, Remembered(t, c, deadline, windowSec))
  {
    RecalledPlain(t, c.record.value.keys);
  }

  // A load remembers, and then either goes on as it is or reverts.
  lemma LoadCases(t: seq<Key>, c: Camera, now: nat, l: Luck) returns (d: Camera)
    requires |c.stores| == |c.force| == |t| && c.record.Some? && c.ram == EMPTY.(stale := c.ram.stale)
    ensures exists w :: d == Remembered(t, c, d.ram.deadline, w)
    ensures Loaded(t, c, now, l) == d || Loaded(t, c, now, l) == Reverted(t, d, now, l)
    ensures c.record.value.armed && c.marker.None? ==> d.ram.deadline == 0 && Loaded(t, c, now, l) == Reverted(t, d, now, l)
    ensures !c.record.value.armed ==> d.ram.deadline == 0 && Loaded(t, c, now, l) == d
  {
    var r := c.record.value;
    var win := if c.marker.Some? && c.marker.value.windowSec > 0 then c.marker.value.windowSec else r.windowSec;
    var w := if !r.armed then 0 else if win > 0 then win else NAME_SEC;
    var deadline := if r.armed && c.marker.Some? then c.marker.value.deadline else 0;
    d := Remembered(t, c, deadline, w);
  }

  lemma LoadKeepsInv(t: seq<Key>, c: Camera, now: nat, l: Luck)
    requires Inv(t, c) && c.undone == {} && c.ram == EMPTY.(stale := c.ram.stale)
    ensures Inv(t, Loaded(t, c, now, l))
  {
    if c.record.Some? {
      var d := LoadCases(t, c, now, l);
      var w :| d == Remembered(t, c, d.ram.deadline, w);
      RememberedInv(t, c, d.ram.deadline, w);
      RevertKeepsInv(t, d, now, l);
    }
  }

  lemma TickKeepsInv(t: seq<Key>, c: Camera, now: nat, settled: bool, l: Luck)
    requires Inv(t, c)
    ensures Inv(t, Ticked(t, c, now, settled, l))
  {
    var d := c.(ram := c.ram.(wifiAsk := now + WIFI_POLL_MS));
    AlikeInv(t, c, d);
    RevertKeepsInv(t, c, now, l);
    RevertKeepsInv(t, d, now, l);
  }

  lemma StepKeepsInv(t: seq<Key>, c: Camera, e: Event, l: Luck)
    requires Inv(t, c)
    ensures Inv(t, Step(t, c, e, l))
  {
    match e
    case Edit(k, v) => if k < |t| { EditKeepsInv(t, c, k, v, l); }
    case Apply(now) => ApplyKeepsInv(t, c, now, l);
    case Confirm =>
    case Cancel(now) => RevertKeepsInv(t, c, now, l);
    case Tick(now, settled) => TickKeepsInv(t, c, now, settled, l);
    case Restart(now) => LoadKeepsInv(t, c.(ram := EMPTY.(stale := c.drift), undone := {}), now, l);
    case Reboot(now) =>
      LoadKeepsInv(t, c.(ram := EMPTY, marker := None, drift := [], force := c.stores, undone := {}), now, l);
  }

  // ----- the first snapshot is on flash --------------------------------------------------

  ghost predicate Recorded(c: Camera) {
    c.ram.guard != [] ==> c.record.Some? && c.record.value.keys == Plain(c.ram.guard)
  }

  lemma RevertKeepsRecord(t: seq<Key>, c: Camera, now: nat, l: Luck)
    requires Inv(t, c) && Recorded(c)
    ensures var d := Reverted(t, c, now, l);
      Recorded(d) && (d.ram.guard != [] ==> Plain(d.ram.guard) == Plain(c.ram.guard))
  {
    PassHonest(t, c, l);
  }

  lemma LoadKeepsRecord(t: seq<Key>, c: Camera, now: nat, l: Luck)
    requires Inv(t, c) && c.undone == {} && c.ram == EMPTY.(stale := c.ram.stale)
    ensures var d := Loaded(t, c, now, l);
      Recorded(d) && (d.ram.guard != [] ==> c.record.Some? && Plain(d.ram.guard) == c.record.value.keys)
  {
    if c.record.Some? {
      var d := LoadCases(t, c, now, l);
      var w :| d == Remembered(t, c, d.ram.deadline, w);
      RememberedInv(t, c, d.ram.deadline, w);
      RecalledPlain(t, c.record.value.keys);
      RevertKeepsRecord(t, d, now, l);
    }
  }

  lemma EditKeepsRecord(t: seq<Key>, c: Camera, k: nat, v: Store, l: Luck)
    requires Inv(t, c) && Recorded(c) && l.flash && k < |t|
    ensures var d := Edited(t, c, k, v, l);
      Recorded(d) && (c.ram.guard != [] ==> d.ram.guard == c.ram.guard)
  {
  }

  lemma ApplyKeepsRecord(t: seq<Key>, c: Camera, now: nat, l: Luck)
    requires Inv(t, c) && Recorded(c) && l.flash
    ensures var d := Applied(t, c, now, l);
      Recorded(d) && (c.ram.guard != [] ==> d.ram.guard == c.ram.guard)
  {
  }

  lemma TickKeepsRecord(t: seq<Key>, c: Camera, now: nat, settled: bool, l: Luck)
    requires Inv(t, c) && Recorded(c)
    ensures var d := Ticked(t, c, now, settled, l);
      Recorded(d) && (d.ram.guard != [] ==> Plain(d.ram.guard) == Plain(c.ram.guard))
  {
    RevertKeepsRecord(t, c, now, l);
    var d := c.(ram := c.ram.(wifiAsk := now + WIFI_POLL_MS));
    AlikeInv(t, c, d);
    RevertKeepsRecord(t, d, now, l);
  }

  /** One event: what was held before and is still held after is the same snapshot, and flash has
      it, given that the flash takes writes. */
  lemma StepKeepsRecord(t: seq<Key>, c: Camera, e: Event, l: Luck)
    requires Inv(t, c) && Recorded(c) && l.flash
    ensures var d := Step(t, c, e, l);
      Recorded(d) && (c.ram.guard != [] && d.ram.guard != [] ==> Plain(d.ram.guard) == Plain(c.ram.guard))
  {
    match e
    case Edit(k, v) => if k < |t| { EditKeepsRecord(t, c, k, v, l); }
    case Apply(now) => ApplyKeepsRecord(t, c, now, l);
    case Confirm =>
    case Cancel(now) => RevertKeepsRecord(t, c, now, l);
    case Tick(now, settled) => TickKeepsRecord(t, c, now, settled, l);
    case Restart(now) => LoadKeepsRecord(t, c.(ram := EMPTY.(stale := c.drift), undone := {}), now, l);
    case Reboot(now) =>
      LoadKeepsRecord(t, c.(ram := EMPTY, marker := None, drift := [], force := c.stores, undone := {}), now, l);
  }

  // ----- whole runs ----------------------------------------------------------------------

  ghost predicate Happened(t: seq<Key>, cs: seq<Camera>, es: seq<Event>, ls: seq<Luck>, n: nat)
    requires n < |es| == |ls| && |cs| == |es| + 1
  {
    |cs[n].stores| == |cs[n].force| == |t| ==> cs[n + 1] == Step(t, cs[n], es[n], ls[n])
  }

  // A run from a camera with nothing held and everything in force.
  ghost predicate Run(t: seq<Key>, cs: seq<Camera>, es: seq<Event>, ls: seq<Luck>) {
    && |cs| == |es| + 1 && |ls| == |es|
    && cs[0].ram == EMPTY && cs[0].record.None? && cs[0].undone == {}
    && |cs[0].stores| == |t| && cs[0].force == cs[0].stores
    && forall n {:trigger Happened(t, cs, es, ls, n)} | 0 <= n < |es| :: Happened(t, cs, es, ls, n)
  }

  lemma {:induction false} RunKeepsInv(t: seq<Key>, cs: seq<Camera>, es: seq<Event>, ls: seq<Luck>, n: nat)
    requires Run(t, cs, es, ls) && n <= |es|
    ensures Inv(t, cs[n])
  {
    if n > 0 {
      RunKeepsInv(t, cs, es, ls, n - 1);
      assert Happened(t, cs, es, ls, n - 1);
      StepKeepsInv(t, cs[n - 1], es[n - 1], ls[n - 1]);
    }
  }

  ghost predicate FlashWorks(ls: seq<Luck>) { forall l | l in ls :: l.flash }

  lemma {:induction false} RunIsRecorded(t: seq<Key>, cs: seq<Camera>, es: seq<Event>, ls: seq<Luck>, n: nat)
    requires Run(t, cs, es, ls) && FlashWorks(ls) && n <= |es|
    ensures Recorded(cs[n])
  {
    if n > 0 {
      RunIsRecorded(t, cs, es, ls, n - 1);
      RunKeepsInv(t, cs, es, ls, n - 1);
      assert Happened(t, cs, es, ls, n - 1);
      StepKeepsRecord(t, cs[n - 1], es[n - 1], ls[n - 1]);
    }
  }

  // A revert lands when everything it tried to write and to enact went through.
  predicate Lands(t: seq<Key>, c: Camera, l: Luck)
    requires |c.stores| == |c.force| == |t|
  {
    WholePass(t, c, l).failed == 0
  }

  /** Reverts are right, across retries. When a revert of an armed guard lands, at any point of any
      run, the guard is gone from memory, flash and tmpfs; every snapshotted store reads as the
      snapshot has it; none of those keys is left in the drift list; and each of them that this pass
      or an earlier one wrote back is in force again. */
  lemma LandedRevertRestores(t: seq<Key>, cs: seq<Camera>, es: seq<Event>, ls: seq<Luck>, n: nat, now: nat, l: Luck, i: nat)
    requires Run(t, cs, es, ls) && n <= |es| && i < |cs[n].ram.guard|
    requires cs[n].ram.deadline != 0 && |cs[n].stores| == |cs[n].force| == |t| && Lands(t, cs[n], l)
    ensures var c, d := cs[n], Reverted(t, cs[n], now, l);
      var s := c.ram.guard[i];
      && d.ram.guard == [] && d.ram.deadline == 0 && d.record.None? && d.marker.None?
      && s.key < |d.stores| == |d.force|
      && d.stores[s.key] == s.prev
      && s.key !in d.ram.stale
      && (s.key in d.undone ==> d.force[s.key] == s.prev)
  {
    RunKeepsInv(t, cs, es, ls, n);
    assert Plain(cs[n].ram.guard)[i].0 < |t|;
    LandedKey(t, cs[n], l, i);
  }

  lemma {:induction false} WindowCovers(t: seq<Key>, owed: seq<nat>, k: nat)
    requires k in owed && k < |t|
    ensures Window(t, owed) >= t[k].guardSec
  {
    if owed[0] != k { WindowCovers(t, owed[1..], k); }
  }

  /** Nothing guarded is enacted unguarded. An apply that owes a guarded key an enact leaves the
      clock running over a snapshot, with the armed record on flash and the marker beside it. */
  lemma ApplyIsGuarded(t: seq<Key>, c: Camera, now: nat, l: Luck, k: nat)
    requires Inv(t, c) && l.flash && l.tmpfs && k in Owed(t, c.ram.stale) && k < |t| && t[k].guardSec > 0
    ensures var d := Applied(t, c, now, l);
      && d.ram.guard != [] && d.ram.deadline >= now + t[k].guardSec * 1000
      && d.record == Some(Record(true, d.ram.windowSec, Plain(d.ram.guard)))
      && d.marker == Some(Marker(d.ram.deadline, d.ram.windowSec))
      && (c.ram.guard != [] ==> d.ram.guard == c.ram.guard)
  {
    WindowCovers(t, Owed(t, c.ram.stale), k);
    SnapshotCovers(t, c.stores, |t|, k);
  }

  // ----- exactly what a revert brings back into force ------------------------------------

  // Some key of this enact has to be put back, or was by an earlier pass that could not enact it.
  predicate Called(t: seq<Key>, c: Camera, n: nat, e: nat)
    requires n <= |c.ram.guard|
  {
    exists i :: 0 <= i < n && c.ram.guard[i].key < |t| == |c.stores| && t[c.ram.guard[i].key].enact == e
      && (Moved(c, i) || c.ram.guard[i].owed)
  }

  // The next key of a pass, and its store, are as the pass found them.
  lemma {:induction false} NextKeyUntouched(t: seq<Key>, c: Camera, l: Luck, n: nat, p: Pass)
    requires Wf(t, c) && n < |c.ram.guard| && p == PutBack(t, c, l, n)
    ensures p.guard[n] == c.ram.guard[n] && c.ram.guard[n].key < |t| && p.stores[c.ram.guard[n].key] == c.stores[c.ram.guard[n].key]
  {
    PutBackProgress(t, c, l, n);
    assert KeyProgress(t, c, l, n, p, n);
    assert Plain(c.ram.guard)[n].0 < |t|;
  }

  lemma {:induction false} OnlyCalledAreEnacted(t: seq<Key>, c: Camera, l: Luck, n: nat, r: Pass, e: nat)
    requires Wf(t, c) && n <= |c.ram.guard| && r == PutBack(t, c, l, n)
    ensures e in r.enacts ==> Called(t, c, n, e)
  {
    if n > 0 {
      var p := PutBack(t, c, l, n - 1);
      OnlyCalledAreEnacted(t, c, l, n - 1, p, e);
      OneMoreCalled(t, c, l, n - 1, n, p, r, e);
    }
  }

  lemma {:induction false} OneMoreCalled(t: seq<Key>, c: Camera, l: Luck, n: nat, m: nat, p: Pass, r: Pass, e: nat)
    requires Wf(t, c) && n < |c.ram.guard| && m == n + 1 && p == PutBack(t, c, l, n) && r == PutBackOne(t, p, n, c.ram.deadline != 0, l)
    requires e in p.enacts ==> Called(t, c, n, e)
    ensures e in r.enacts ==> Called(t, c, m, e)
  {
    if e in p.enacts {
      var i :| 0 <= i < n && c.ram.guard[i].key < |t| && t[c.ram.guard[i].key].enact == e && (Moved(c, i) || c.ram.guard[i].owed);
    } else if e in r.enacts {
      NextKeyUntouched(t, c, l, n, p);
      assert t[c.ram.guard[n].key].enact == e;
    }
  }

  /** A revert that lands brings a key back into force exactly when some key of its enact had been
      moved, or was still owed one, or the old value was in force all along. A store set back by
      hand before the window closes is none of these. */
  lemma InForceAfterRevert(t: seq<Key>, c: Camera, l: Luck, i: nat)
    requires Inv(t, c) && c.ram.deadline != 0 && i < |c.ram.guard| && Lands(t, c, l)
    ensures var s := c.ram.guard[i];
      s.key < |t| && (t[s.key].enact != 0 ==>
        (WholePass(t, c, l).force[s.key] == s.prev <==> Called(t, c, |c.ram.guard|, t[s.key].enact) || c.force[s.key] == s.prev))
  {
    var n, s := |c.ram.guard|, c.ram.guard[i];
    var p := PutBack(t, c, l, n);
    assert Plain(c.ram.guard)[i].0 < |t|;
    LandedKey(t, c, l, i);
    PutBackProgress(t, c, l, n);
    EnactAllProgress(t, p, l, |p.enacts|);
    assert p.enacts[..|p.enacts|] == p.enacts;
    if t[s.key].enact != 0 { CalledAreEnacted(t, c, l, t[s.key].enact); }
  }

  lemma CalledAreEnacted(t: seq<Key>, c: Camera, l: Luck, e: nat)
    requires Wf(t, c) && c.ram.deadline != 0 && e != 0 && PutBack(t, c, l, |c.ram.guard|).failed == 0
    ensures e in PutBack(t, c, l, |c.ram.guard|).enacts <==> Called(t, c, |c.ram.guard|, e)
  {
    var n := |c.ram.guard|;
    var p := PutBack(t, c, l, n);
    OnlyCalledAreEnacted(t, c, l, n, p, e);
    if Called(t, c, n, e) {
      PutBackProgress(t, c, l, n);
      var j :| 0 <= j < n && c.ram.guard[j].key < |t| && t[c.ram.guard[j].key].enact == e && (Moved(c, j) || c.ram.guard[j].owed);
      assert KeyProgress(t, c, l, n, p, j);
    }
  }

  // ----- the guard comes to rest ---------------------------------------------------------

  // What becomes of the guard after a pass.
  lemma RevertOutcome(t: seq<Key>, c: Camera, now: nat, l: Luck)
    requires |c.stores| == |c.force| == |t| && (c.ram.deadline != 0 || c.ram.guard != [])
    ensures var d := Reverted(t, c, now, l);
      && |d.stores| == |d.force| == |t|
      && (if Lands(t, c, l) then
            d.ram.deadline == 0 && d.ram.guard == [] && d.ram.retries == 0 && d.record.None? && d.marker.None?
          else if c.ram.retries < RETRIES then
            d.ram.deadline == now + RETRY_MS && d.ram.retries == c.ram.retries + 1 && d.record == c.record
          else
            d.ram.deadline == 0 && d.ram.guard == [] && d.ram.retries == 0 && d.record == c.record && d.marker.None?)
  {
  }

  // A pass without a clock that lands: the stores are back and nothing is enacted.
  lemma UnclockedLands(t: seq<Key>, c: Camera, now: nat, l: Luck, d: Camera, i: nat)
    requires Inv(t, c) && c.ram.deadline == 0 && c.record.Some? && i < |c.ram.guard|
    requires d == Reverted(t, c, now, l) && d.record.None?
    ensures var s := c.ram.guard[i];
      && s.key < |t| == |d.stores| == |d.force| && d.stores[s.key] == s.prev
      && (t[s.key].enact != 0 ==> d.force[s.key] == c.force[s.key])
  {
    assert Plain(c.ram.guard)[i].0 < |t|;
    RevertOutcome(t, c, now, l);
    LandedKey(t, c, l, i);
    HeldPassEnactsNothing(t, c, l);
  }

  /** A reboot inside the window puts the stores back and enacts nothing: what the boot brought up
      stays in force, and is the old setting only where the store already held it. */
  lemma RebootRestoresStoresOnly(t: seq<Key>, c: Camera, now: nat, l: Luck, i: nat)
    requires Inv(t, c) && c.record.Some? && c.record.value.armed && i < |c.record.value.keys|
    requires Step(t, c, Reboot(now), l).record.None?
    ensures var d, (k, prev) := Step(t, c, Reboot(now), l), c.record.value.keys[i];
      && k < |d.stores| == |d.force| == |t| && d.stores[k] == prev
      && (t[k].enact != 0 ==> (d.force[k] == prev <==> c.stores[k] == prev))
  {
    var b := c.(ram := EMPTY, marker := None, drift := [], force := c.stores, undone := {});
    var r := LoadCases(t, b, now, l);
    var w :| r == Remembered(t, b, r.ram.deadline, w);
    RememberedInv(t, b, 0, w);
    RecalledPlain(t, c.record.value.keys);
    assert Plain(r.ram.guard)[i] == c.record.value.keys[i];
    UnclockedLands(t, r, now, l, Step(t, c, Reboot(now), l), i);
  }
}
