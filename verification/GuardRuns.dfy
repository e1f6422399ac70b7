/**
 * What becomes of a held guard over whole runs (rcd/rcd_guard.c): which events end it, that
 * everything else keeps its first snapshot, when its record on flash is armed, and so what a
 * restart or a reboot makes of it.
 */
module GuardRuns {
  import opened Basics
  import opened Guard

  // ----- nothing runs without a snapshot -------------------------------------------------

  // Without a snapshot no clock runs and no retry is counted, and no record on flash is empty.
  ghost predicate Sound(c: Camera) {
    && (c.ram.guard == [] ==> c.ram.deadline == 0 && c.ram.retries == 0)
    && (c.record.Some? ==> c.record.value.keys != [])
  }

  lemma {:induction false} SomeoneHasAWindow(t: seq<Key>, owed: seq<nat>) returns (k: nat)
    requires Window(t, owed) > 0
    ensures k in owed && k < |t| && t[k].guardSec > 0
  {
    if owed[0] < |t| && t[owed[0]].guardSec > 0 {
      k := owed[0];
    } else {
      k := SomeoneHasAWindow(t, owed[1..]);
    }
  }

  lemma EditKeepsSound(t: seq<Key>, c: Camera, k: nat, v: Store, l: Luck)
    requires Inv(t, c) && Sound(c) && k < |t|
    ensures Sound(Edited(t, c, k, v, l))
  {
    if t[k].guardSec > 0 { SnapshotCovers(t, c.stores, |t|, k); }
  }

  lemma ArmedIsSound(t: seq<Key>, c: Camera, owed: seq<nat>, now: nat, l: Luck)
    requires Inv(t, c) && Sound(c)
    ensures var d := Armed(t, c, Window(t, owed), now, l);
      Sound(d) && (Window(t, owed) > 0 ==> d.ram.guard != [])
  {
    if Window(t, owed) > 0 {
      var k := SomeoneHasAWindow(t, owed);
      SnapshotCovers(t, c.stores, |t|, k);
    }
  }

  lemma ApplyKeepsSound(t: seq<Key>, c: Camera, now: nat, l: Luck)
    requires Inv(t, c) && Sound(c)
    ensures Sound(Applied(t, c, now, l))
  {
    ArmedIsSound(t, c, Owed(t, c.ram.stale), now, l);
  }

  lemma RevertKeepsSound(t: seq<Key>, c: Camera, now: nat, l: Luck)
    requires Inv(t, c) && Sound(c)
    ensures Sound(Reverted(t, c, now, l))
  {
    if c.ram.guard != [] { RevertOutcome(t, c, now, l); PassHonest(t, c, l); }
  }

  // What a start finds: memory is empty, and after a reboot so is the tmpfs, and what the boot
  // brought up is what the stores held.
  function Waking(c: Camera, e: Event): Camera
    requires e.Restart? || e.Reboot?
  {
    if e.Restart? then c.(ram := EMPTY.(stale := c.drift), undone := {})
    else c.(ram := EMPTY, marker := None, drift := [], force := c.stores, undone := {})
  }

  lemma WakingInv(t: seq<Key>, c: Camera, e: Event)
    requires Inv(t, c) && (e.Restart? || e.Reboot?)
    ensures Inv(t, Waking(c, e))
  {
  }

  // The guard a load has in hand: the snapshot of the record and, when it was armed, what is left
  // of its window.
  function InHand(t: seq<Key>, c: Camera): Camera
    requires c.record.Some?
  {
    var r := c.record.value;
    if !r.armed then Remembered(t, c, 0, c.ram.windowSec)
    else
      var win := if c.marker.Some? && c.marker.value.windowSec > 0 then c.marker.value.windowSec else r.windowSec;
      Remembered(t, c, if c.marker.Some? then c.marker.value.deadline else 0, if win > 0 then win else NAME_SEC)
  }

  /** Nothing guarded is enacted unguarded: the camera an apply arms, and every enact it calls finds,
      has the clock running over a snapshot, the armed record on flash and the marker beside it. */
  lemma {:induction false} ArmedIsGuarded(t: seq<Key>, c: Camera, now: nat, l: Luck, k: nat)
    requires Inv(t, c) && l.flash && l.tmpfs && k in Owed(t, c.ram.stale) && k < |t| && t[k].guardSec > 0
    ensures var d := Armed(t, c, Window(t, Owed(t, c.ram.stale)), now, l);
      && d.ram.guard != [] && d.ram.deadline >= now + t[k].guardSec * 1000
      && d.record == Some(Record(true, d.ram.windowSec, Plain(d.ram.guard)))
      && d.marker == Some(Marker(d.ram.deadline, d.ram.windowSec))
      && d.stores == c.stores && d.force == c.force
  {
    WindowCovers(t, Owed(t, c.ram.stale), k);
    SnapshotCovers(t, c.stores, |t|, k);
  }

  // ----- the passes of a run -------------------------------------------------------------

  // The camera an event reverts, if it makes a pass at all.
  function Facing(t: seq<Key>, c: Camera, e: Event): Option<Camera> {
    match e
    case Cancel(_) => if c.ram.deadline == 0 && c.ram.guard == [] then None else Some(c)
    case Tick(now, settled) =>
      if c.ram.deadline == 0 || (Asks(c, now) && settled) || now < c.ram.deadline then None
      else Some(if Asks(c, now) then c.(ram := c.ram.(wifiAsk := now + WIFI_POLL_MS)) else c)
    case Restart(now) => FacingAtStart(t, Waking(c, e), now)
    case Reboot(now) => FacingAtStart(t, Waking(c, e), now)
    case _ => None
  }

  predicate Asks(c: Camera, now: nat) { c.ram.wifiMoved && c.ram.wifiAsk != 0 && now >= c.ram.wifiAsk }

  // A start reverts an armed guard whose window ran out, or whose clock did not survive.
  function FacingAtStart(t: seq<Key>, c: Camera, now: nat): Option<Camera> {
    if c.record.Some? && c.record.value.armed && now >= InHand(t, c).ram.deadline then Some(InHand(t, c)) else None
  }

  lemma StartIs(t: seq<Key>, c: Camera, e: Event, l: Luck)
    requires |c.stores| == |c.force| == |t| && (e.Restart? || e.Reboot?)
    ensures var b := Waking(c, e);
      Step(t, c, e, l) ==
        if b.record.None? then b
        else if FacingAtStart(t, b, e.now).Some? then Reverted(t, InHand(t, b), e.now, l)
        else InHand(t, b)
  {
  }

  lemma PassIs(t: seq<Key>, c: Camera, e: Event, l: Luck)
    requires |c.stores| == |c.force| == |t| && Facing(t, c, e).Some?
    ensures !e.Edit? && !e.Confirm?
    ensures |Facing(t, c, e).value.stores| == |Facing(t, c, e).value.force| == |t|
    ensures Step(t, c, e, l) == Reverted(t, Facing(t, c, e).value, e.now, l)
  {
    if e.Restart? || e.Reboot? { StartIs(t, c, e, l); }
  }

  lemma InHandIs(t: seq<Key>, c: Camera)
    requires Inv(t, c) && Sound(c) && c.undone == {} && c.ram == EMPTY.(stale := c.ram.stale) && c.record.Some?
    ensures var d := InHand(t, c);
      && Inv(t, d) && Sound(d) && Plain(d.ram.guard) == c.record.value.keys && d.ram.retries == 0
      && d.stores == c.stores && d.force == c.force && d.record == c.record && d.marker == c.marker
  {
    RememberedInv(t, c, InHand(t, c).ram.deadline, InHand(t, c).ram.windowSec);
    RecalledPlain(t, c.record.value.keys);
  }

  lemma StartKeepsSound(t: seq<Key>, c: Camera, e: Event, l: Luck)
    requires Inv(t, c) && Sound(c) && (e.Restart? || e.Reboot?)
    ensures Sound(Step(t, c, e, l))
  {
    var b := Waking(c, e);
    WakingInv(t, c, e);
    StartIs(t, c, e, l);
    if b.record.Some? {
      InHandIs(t, b);
      RevertKeepsSound(t, InHand(t, b), e.now, l);
    }
  }

  lemma StepKeepsSound(t: seq<Key>, c: Camera, e: Event, l: Luck)
    requires Inv(t, c) && Sound(c)
    ensures Sound(Step(t, c, e, l))
  {
    match e
    case Edit(k, v) => if k < |t| { EditKeepsSound(t, c, k, v, l); }
    case Apply(now) => ApplyKeepsSound(t, c, now, l);
    case Confirm =>
    case Cancel(now) => RevertKeepsSound(t, c, now, l);
    case Tick(now, settled) => TickKeepsSound(t, c, now, settled, l);
    case Restart(_) => StartKeepsSound(t, c, e, l);
    case Reboot(_) => StartKeepsSound(t, c, e, l);
  }

  lemma TickKeepsSound(t: seq<Key>, c: Camera, now: nat, settled: bool, l: Luck)
    requires Inv(t, c) && Sound(c)
    ensures Sound(Ticked(t, c, now, settled, l))
  {
    var d := c.(ram := c.ram.(wifiAsk := now + WIFI_POLL_MS));
    AlikeInv(t, c, d);
    RevertKeepsSound(t, c, now, l);
    RevertKeepsSound(t, d, now, l);
  }

  lemma {:induction false} RunIsSound(t: seq<Key>, cs: seq<Camera>, es: seq<Event>, ls: seq<Luck>, n: nat)
    requires Run(t, cs, es, ls) && n <= |es|
    ensures Sound(cs[n])
  {
    if n > 0 {
      RunIsSound(t, cs, es, ls, n - 1);
      RunKeepsInv(t, cs, es, ls, n - 1);
      assert Happened(t, cs, es, ls, n - 1);
      StepKeepsSound(t, cs[n - 1], es[n - 1], ls[n - 1]);
    }
  }

  // One step of a run, by name.
  lemma {:induction false} StepOf(t: seq<Key>, cs: seq<Camera>, es: seq<Event>, ls: seq<Luck>, n: nat, c: Camera, e: Event, l: Luck, d: Camera)
    requires Run(t, cs, es, ls) && n < |es| && c == cs[n] && e == es[n] && l == ls[n] && d == cs[n + 1]
    ensures Inv(t, c) && Sound(c) && d == Step(t, c, e, l)
  {
    RunKeepsInv(t, cs, es, ls, n);
    RunIsSound(t, cs, es, ls, n);
    assert Happened(t, cs, es, ls, n);
  }

  // ----- what ends a guard ---------------------------------------------------------------

  predicate Starts(e: Event) { e.Restart? || e.Reboot? }

  // Somebody confirmed, or the radio did.
  predicate Confirms(c: Camera, e: Event) {
    c.ram.deadline != 0 && (e.Confirm? || (e.Tick? && e.settled && Asks(c, e.now)))
  }

  // A pass of this event leaves nothing to try again: it lands, or it was the last.
  predicate LastPass(t: seq<Key>, c: Camera, e: Event, l: Luck)
    requires |c.stores| == |c.force| == |t|
  {
    Facing(t, c, e).Some? && (Lands(t, Facing(t, c, e).value, l) || Facing(t, c, e).value.ram.retries >= RETRIES)
  }

  predicate Ends(t: seq<Key>, c: Camera, e: Event, l: Luck)
    requires |c.stores| == |c.force| == |t|
  {
    Confirms(c, e) || LastPass(t, c, e, l)
  }

  // An apply starts the clock when some key it enacts has a window.
  predicate Arms(t: seq<Key>, c: Camera, e: Event) { e.Apply? && Window(t, Owed(t, c.ram.stale)) > 0 }

  // What the guard is after a pass: gone, or the same snapshot with a retry counted.
  lemma PassOutcome(t: seq<Key>, c: Camera, now: nat, l: Luck)
    requires Inv(t, c) && c.ram.guard != []
    ensures var d := Reverted(t, c, now, l);
      if Lands(t, c, l) then
        d.ram.guard == [] && d.ram.deadline == 0 && d.ram.retries == 0 && d.record.None? && d.marker.None?
      else if c.ram.retries >= RETRIES then
        d.ram.guard == [] && d.ram.deadline == 0 && d.ram.retries == 0 && d.record == c.record && d.marker.None?
      else
        && d.ram.guard != [] && Plain(d.ram.guard) == Plain(c.ram.guard) && d.record == c.record
        && d.ram.deadline == now + RETRY_MS && d.ram.retries == c.ram.retries + 1 && d.ram.windowSec == c.ram.windowSec
        && (l.tmpfs ==> d.marker == Some(Marker(d.ram.deadline, d.ram.windowSec)))
  {
    PassHonest(t, c, l);
    RevertOutcome(t, c, now, l);
  }

  lemma FacingHolds(t: seq<Key>, c: Camera, e: Event)
    requires Inv(t, c) && Sound(c) && Facing(t, c, e).Some?
    ensures var f := Facing(t, c, e).value;
      && Inv(t, f) && f.ram.guard != [] && f.record == c.record
      && (Starts(e) ==> c.record.Some? && Plain(f.ram.guard) == c.record.value.keys && f.ram.retries == 0 && f.stores == c.stores)
      && (!Starts(e) ==> f == c.(ram := c.ram.(wifiAsk := f.ram.wifiAsk)))
  {
    if Starts(e) {
      WakingInv(t, c, e);
      InHandIs(t, Waking(c, e));
    } else {
      AlikeInv(t, c, Facing(t, c, e).value);
    }
  }

  // ----- the first snapshot is durable ---------------------------------------------------

  // The record after an event other than a pass.
  lemma NoPassKeeps(t: seq<Key>, c: Camera, e: Event, l: Luck)
    requires Inv(t, c) && Sound(c) && c.ram.guard != [] && Facing(t, c, e).None? && !Confirms(c, e) && !Starts(e)
    ensures var d := Step(t, c, e, l);
      && d.ram.guard == c.ram.guard
      && (d.record == c.record ||
          (Arms(t, c, e) && l.flash && d.record == Some(Record(true, d.ram.windowSec, Plain(c.ram.guard)))))
      && (Arms(t, c, e) && l.flash ==> d.record == Some(Record(true, d.ram.windowSec, Plain(c.ram.guard))))
  {
  }

  // What a held and recorded guard has become in d: still held exactly when the event did not end it, and
  // then with the same snapshot in memory and on flash, armed if it was or if this event armed it.
  ghost predicate SnapshotKept(t: seq<Key>, c: Camera, e: Event, l: Luck, d: Camera)
    requires |c.stores| == |c.force| == |t| && c.record.Some?
  {
    && Recorded(d) && (d.ram.guard != [] <==> !Ends(t, c, e, l))
    && (d.ram.guard != [] ==>
          && Plain(d.ram.guard) == Plain(c.ram.guard)
          && (d.record.value.armed <==> c.record.value.armed || (Arms(t, c, e) && l.flash)))
  }

  lemma {:induction false} PassKeepsSnapshot(t: seq<Key>, c: Camera, e: Event, l: Luck, f: Camera, d: Camera)
    requires Inv(t, c) && Sound(c) && c.ram.guard != [] && Recorded(c) && Facing(t, c, e) == Some(f) && d == Step(t, c, e, l)
    ensures SnapshotKept(t, c, e, l, d)
  {
    FacingHolds(t, c, e);
    PassIs(t, c, e, l);
    PassOutcome(t, f, e.now, l);
  }

  lemma {:induction false} StartKeepsSnapshot(t: seq<Key>, c: Camera, e: Event, l: Luck, d: Camera)
    requires Inv(t, c) && Sound(c) && c.ram.guard != [] && Recorded(c) && Starts(e) && Facing(t, c, e).None? && d == Step(t, c, e, l)
    ensures SnapshotKept(t, c, e, l, d)
  {
    StartIs(t, c, e, l);
    WakingInv(t, c, e);
    InHandIs(t, Waking(c, e));
  }

  /** One event. A held and recorded guard is still held after it exactly when the event does not
      end it, and then memory and flash have the same snapshot as before. Its record is armed when
      it was, or when this event armed it and the flash took the write. */
  lemma {:induction false} StepKeepsSnapshot(t: seq<Key>, c: Camera, e: Event, l: Luck, d: Camera)
    requires Inv(t, c) && Sound(c) && c.ram.guard != [] && Recorded(c) && d == Step(t, c, e, l)
    ensures SnapshotKept(t, c, e, l, d)
  {
    if Facing(t, c, e).Some? {
      PassKeepsSnapshot(t, c, e, l, Facing(t, c, e).value, d);
    } else if Starts(e) {
      StartKeepsSnapshot(t, c, e, l, d);
    } else if !Confirms(c, e) {
      NoPassKeeps(t, c, e, l);
    }
  }

  /** Why it has to be recorded: through a start that does not end it, a guard is held on exactly when
      flash has a record, and with the snapshot of that record, whatever memory had. */
  lemma {:induction false} StartKeepsWhatFlashHas(t: seq<Key>, c: Camera, e: Event, l: Luck)
    requires Inv(t, c) && Sound(c) && Starts(e) && !Ends(t, c, e, l)
    ensures var d := Step(t, c, e, l);
      (d.ram.guard != [] <==> c.record.Some?) && (d.ram.guard != [] ==> Plain(d.ram.guard) == c.record.value.keys)
  {
    StartIs(t, c, e, l);
    if c.record.Some? {
      WakingInv(t, c, e);
      InHandIs(t, Waking(c, e));
      if Facing(t, c, e).Some? {
        FacingHolds(t, c, e);
        PassOutcome(t, Facing(t, c, e).value, e.now, l);
      }
    }
  }

  // The guard was not ended by the event at n.
  ghost predicate GoesOn(t: seq<Key>, cs: seq<Camera>, es: seq<Event>, ls: seq<Luck>, n: nat) {
    n < |es| && n < |cs| && n < |ls| && |cs[n].stores| == |cs[n].force| == |t| ==> !Ends(t, cs[n], es[n], ls[n])
  }

  ghost predicate Lasting(t: seq<Key>, cs: seq<Camera>, es: seq<Event>, ls: seq<Luck>, a: nat, b: nat) {
    forall n | a <= n < b :: GoesOn(t, cs, es, ls, n)
  }

  ghost predicate ArmedAt(t: seq<Key>, cs: seq<Camera>, es: seq<Event>, ls: seq<Luck>, n: nat) {
    n < |es| && n < |cs| && n < |ls| && Arms(t, cs[n], es[n]) && ls[n].flash
  }

  // Since a, some apply has armed the guard and the flash took the record.
  ghost predicate ArmedSince(t: seq<Key>, cs: seq<Camera>, es: seq<Event>, ls: seq<Luck>, a: nat, b: nat) {
    exists n :: a <= n < b && ArmedAt(t, cs, es, ls, n)
  }

  lemma {:induction false} KeptOnce(t: seq<Key>, cs: seq<Camera>, es: seq<Event>, ls: seq<Luck>, n: nat, c: Camera, d: Camera)
    requires n < |es| && n < |cs| && n < |ls| && c == cs[n] && Inv(t, c) && Sound(c) && d == Step(t, c, es[n], ls[n])
    requires c.ram.guard != [] && Recorded(c) && GoesOn(t, cs, es, ls, n)
    ensures d.ram.guard != [] && Recorded(d) && Plain(d.ram.guard) == Plain(c.ram.guard)
    ensures d.record.value.armed <==> c.record.value.armed || ArmedAt(t, cs, es, ls, n)
  {
    StepKeepsSnapshot(t, c, es[n], ls[n], d);
  }

  /** The first snapshot is durable. From a recorded hold on, through any edits, applies, failed
      reverts, restarts and reboots, and whether or not the flash takes further writes, memory and
      flash both hold that snapshot until a confirm, a revert that lands or the last retry. The
      record is armed exactly when it was, or an apply has armed it since. */
  lemma {:induction false} FirstSnapshotIsDurable(t: seq<Key>, cs: seq<Camera>, es: seq<Event>, ls: seq<Luck>, a: nat, b: nat)
    requires Run(t, cs, es, ls) && a <= b <= |es| && cs[a].ram.guard != [] && Recorded(cs[a])
    requires Lasting(t, cs, es, ls, a, b)
    ensures cs[b].ram.guard != [] && Recorded(cs[b]) && Plain(cs[b].ram.guard) == Plain(cs[a].ram.guard)
    ensures cs[b].record.value.armed <==> cs[a].record.value.armed || ArmedSince(t, cs, es, ls, a, b)
  {
    if a < b {
      FirstSnapshotIsDurable(t, cs, es, ls, a, b - 1);
      StepOf(t, cs, es, ls, b - 1, cs[b - 1], es[b - 1], ls[b - 1], cs[b]);
      KeptOnce(t, cs, es, ls, b - 1, cs[b - 1], cs[b]);
    }
  }

  // The event at a takes a snapshot, and the flash takes the record.
  ghost predicate Holds(cs: seq<Camera>, es: seq<Event>, ls: seq<Luck>, a: nat)
    requires |cs| == |es| + 1 && |ls| == |es| && a < |es|
  {
    (es[a].Edit? || es[a].Apply?) && cs[a].ram.guard == [] && cs[a + 1].ram.guard != [] && ls[a].flash
  }

  lemma HeldIs(t: seq<Key>, c: Camera, l: Luck)
    requires |c.stores| == |t| && c.ram.deadline == 0 && c.ram.guard == [] && l.flash
    ensures var h := Held(t, c, l);
      h.ram.guard == Snapshot(t, c.stores, |t|) && h.record == Some(Record(false, c.ram.windowSec, Plain(h.ram.guard)))
  {
  }

  // An edit does to the guard what the hold before it does.
  lemma EditsHold(t: seq<Key>, c: Camera, k: nat, v: Store, l: Luck)
    requires |c.stores| == |c.force| == |t| && k < |t|
    ensures var d, h := Edited(t, c, k, v, l), if t[k].guardSec > 0 then Held(t, c, l) else c;
      d.ram.guard == h.ram.guard && d.record == h.record && d.marker == h.marker
        && d.ram.deadline == h.ram.deadline && d.ram.retries == h.ram.retries && d.ram.windowSec == h.ram.windowSec
  {
  }

  lemma ApplyHolds(t: seq<Key>, c: Camera, now: nat, l: Luck)
    requires |c.stores| == |c.force| == |t| && c.ram.guard == [] && l.flash && Applied(t, c, now, l).ram.guard != []
    ensures var d := Applied(t, c, now, l);
      d.ram.guard == Snapshot(t, c.stores, |t|) && Recorded(d) && d.record.value.armed && Arms(t, c, Apply(now))
  {
    var w := Window(t, Owed(t, c.ram.stale));
    assert w > 0;
    var h, d := Armed(t, c, w, now, l), Applied(t, c, now, l);
    assert h.ram.guard == Snapshot(t, c.stores, |t|) && h.record == Some(Record(true, w, Plain(h.ram.guard)));
    assert d.ram.guard == h.ram.guard && d.record == h.record;
  }

  lemma HoldIs(t: seq<Key>, c: Camera, e: Event, l: Luck, d: Camera)
    requires Inv(t, c) && Sound(c) && (e.Edit? || e.Apply?) && c.ram.guard == [] && l.flash
    requires d == Step(t, c, e, l) && d.ram.guard != []
    ensures d.ram.guard == Snapshot(t, c.stores, |t|) && Recorded(d) && (d.record.value.armed <==> Arms(t, c, e))
  {
    if e.Apply? {
      ApplyHolds(t, c, e.now, l);
    } else if e.key < |t| {
      EditsHold(t, c, e.key, e.value, l);
      HeldIs(t, c, l);
    }
  }

  lemma {:induction false} HoldAt(t: seq<Key>, cs: seq<Camera>, es: seq<Event>, ls: seq<Luck>, a: nat)
    requires Run(t, cs, es, ls) && a < |es| && Holds(cs, es, ls, a)
    ensures |cs[a].stores| == |t| && cs[a + 1].ram.guard == Snapshot(t, cs[a].stores, |t|) && Recorded(cs[a + 1])
    ensures cs[a + 1].record.value.armed <==> Arms(t, cs[a], es[a])
  {
    RunKeepsInv(t, cs, es, ls, a);
    RunIsSound(t, cs, es, ls, a);
    assert Happened(t, cs, es, ls, a);
    HoldIs(t, cs[a], es[a], ls[a], cs[a + 1]);
  }

  /** And so over a whole hold: the snapshot is what the stores held before it, and the record is
      armed exactly when an apply of a key with a window has been made since. */
  lemma {:induction false} HeldSinceThen(t: seq<Key>, cs: seq<Camera>, es: seq<Event>, ls: seq<Luck>, a: nat, b: nat)
    requires Run(t, cs, es, ls) && a < b <= |es| && Holds(cs, es, ls, a) && Lasting(t, cs, es, ls, a + 1, b)
    ensures |cs[a].stores| == |t|
    ensures Plain(cs[b].ram.guard) == Plain(Snapshot(t, cs[a].stores, |t|)) && cs[b].ram.guard != [] && Recorded(cs[b])
    ensures cs[b].record.value.armed <==> ArmedSince(t, cs, es, ls, a, b)
  {
    HoldAt(t, cs, es, ls, a);
    FirstSnapshotIsDurable(t, cs, es, ls, a + 1, b);
    ArmedSinceOneEarlier(t, cs, es, ls, a, b);
  }

  lemma ArmedSinceOneEarlier(t: seq<Key>, cs: seq<Camera>, es: seq<Event>, ls: seq<Luck>, a: nat, b: nat)
    requires a < b
    ensures ArmedSince(t, cs, es, ls, a, b) <==> ArmedAt(t, cs, es, ls, a) || ArmedSince(t, cs, es, ls, a + 1, b)
  {
  }

  // ----- a revert that lands -------------------------------------------------------------

  // A pass over f that lands, seen from the i-th key.
  lemma {:induction false} RevertLands(t: seq<Key>, f: Camera, now: nat, l: Luck, d: Camera, i: nat)
    requires Inv(t, f) && f.ram.guard != [] && i < |f.ram.guard| && Lands(t, f, l) && d == Reverted(t, f, now, l)
    ensures d.ram.guard == [] && d.ram.deadline == 0 && d.record.None? && d.marker.None?
    ensures var (k, prev) := Plain(f.ram.guard)[i];
      k < |t| == |d.stores| == |d.force| && d.stores[k] == prev && k !in d.ram.stale
        && (f.ram.deadline != 0 && k in d.undone ==> d.force[k] == prev)
  {
    assert f.ram.guard[i].key < |t| by { assert Plain(f.ram.guard)[i].0 < |t|; }
    PassOutcome(t, f, now, l);
    LandedKey(t, f, l, i);
  }

  lemma {:induction false} PassLands(t: seq<Key>, c: Camera, e: Event, l: Luck, d: Camera, i: nat)
    requires Inv(t, c) && Sound(c) && c.ram.guard != [] && Recorded(c) && i < |c.ram.guard|
    requires Facing(t, c, e).Some? && Lands(t, Facing(t, c, e).value, l) && d == Step(t, c, e, l)
    ensures d.ram.guard == [] && d.ram.deadline == 0 && d.record.None? && d.marker.None?
    ensures var (k, prev) := Plain(c.ram.guard)[i];
      k < |t| == |d.stores| == |d.force| && d.stores[k] == prev && k !in d.ram.stale
        && (Facing(t, c, e).value.ram.deadline != 0 && k in d.undone ==> d.force[k] == prev)
  {
    var f := Facing(t, c, e).value;
    FacingHolds(t, c, e);
    assert Plain(f.ram.guard) == Plain(c.ram.guard);
    PassIs(t, c, e, l);
    RevertLands(t, f, e.now, l, d, i);
  }

  /** Reverts are right, across retries, restarts and reboots. Whatever event makes the pass, once
      it lands the guard is gone from memory, flash and tmpfs; every snapshotted store reads as it
      did before the hold; none of those keys is left in the drift list; and, where the pass found
      the clock running, each of them that it or an earlier pass wrote back is in force again. */
  lemma {:induction false} StoresAreAsBeforeTheHold(t: seq<Key>, cs: seq<Camera>, es: seq<Event>, ls: seq<Luck>, a: nat, b: nat, i: nat)
    requires Run(t, cs, es, ls) && a < b < |es| && Holds(cs, es, ls, a) && Lasting(t, cs, es, ls, a + 1, b)
    requires i < |cs[a + 1].ram.guard| && |cs[b].stores| == |cs[b].force| == |t|
    requires Facing(t, cs[b], es[b]).Some? && Lands(t, Facing(t, cs[b], es[b]).value, ls[b])
    ensures var d, k := cs[b + 1], cs[a + 1].ram.guard[i].key;
      && d.ram.guard == [] && d.ram.deadline == 0 && d.record.None? && d.marker.None?
      && k < |t| == |cs[a].stores| == |d.stores| == |d.force|
      && d.stores[k] == cs[a].stores[k] && k !in d.ram.stale
      && (Facing(t, cs[b], es[b]).value.ram.deadline != 0 && k in d.undone ==> d.force[k] == cs[a].stores[k])
  {
    HoldAt(t, cs, es, ls, a);
    HeldSinceThen(t, cs, es, ls, a, b);
    SnapshotOk(t, cs[a].stores, |t|);
    assert Plain(cs[b].ram.guard)[i] == (cs[a + 1].ram.guard[i].key, cs[a].stores[cs[a + 1].ram.guard[i].key]);
    RunKeepsInv(t, cs, es, ls, b);
    RunIsSound(t, cs, es, ls, b);
    assert Happened(t, cs, es, ls, b);
    PassLands(t, cs[b], es[b], ls[b], cs[b + 1], i);
  }

  // ----- a revert that never lands -------------------------------------------------------

  lemma {:induction false} StartAfterGivingUp(t: seq<Key>, d: Camera, e: Event, l: Luck)
    requires Inv(t, d) && Sound(d) && d.record.Some? && d.marker.None? && Starts(e)
    ensures Facing(t, d, e).Some? <==> d.record.value.armed
    ensures !d.record.value.armed ==>
      var f := Step(t, d, e, l);
      && f.stores == d.stores && f.force == (if e.Reboot? then d.stores else d.force)
      && f.ram.deadline == 0 && Plain(f.ram.guard) == d.record.value.keys
  {
    WakingInv(t, d, e);
    InHandIs(t, Waking(d, e));
    StartIs(t, d, e, l);
  }

  lemma {:induction false} GivenUp(t: seq<Key>, c: Camera, e: Event, l: Luck, d: Camera)
    requires Inv(t, c) && Sound(c) && c.ram.guard != [] && Recorded(c)
    requires LastPass(t, c, e, l) && !Lands(t, Facing(t, c, e).value, l) && d == Step(t, c, e, l)
    ensures Inv(t, d) && Sound(d) && d.ram.guard == [] && d.ram.deadline == 0 && d.marker.None? && d.record == c.record
  {
    StepKeepsInv(t, c, e, l);
    StepKeepsSound(t, c, e, l);
    FacingHolds(t, c, e);
    PassIs(t, c, e, l);
    PassOutcome(t, Facing(t, c, e).value, e.now, l);
  }

  /** Once the retries are used up nothing is armed or held, but flash keeps the record. The next
      start of the daemon, after a reboot or not, tries once more exactly when an apply armed the
      guard since it was taken. Otherwise it merely remembers the snapshot: the stores stay, and a
      reboot has brought them into force. */
  lemma {:induction false} NextStartReverts(t: seq<Key>, cs: seq<Camera>, es: seq<Event>, ls: seq<Luck>, a: nat, b: nat, e: Event, l: Luck)
    requires Run(t, cs, es, ls) && a < b < |es| && Holds(cs, es, ls, a) && Lasting(t, cs, es, ls, a + 1, b) && Starts(e)
    requires |cs[b].stores| == |cs[b].force| == |t| && LastPass(t, cs[b], es[b], ls[b])
    requires !Lands(t, Facing(t, cs[b], es[b]).value, ls[b])
    ensures var d := cs[b + 1];
      && |cs[a].stores| == |d.stores| == |d.force| == |t| && d.ram.guard == [] && d.ram.deadline == 0 && d.marker.None?
      && d.record.Some? && d.record.value.keys == Plain(Snapshot(t, cs[a].stores, |t|))
      && (Facing(t, d, e).Some? <==> ArmedSince(t, cs, es, ls, a, b))
      && (!ArmedSince(t, cs, es, ls, a, b) ==>
            var f := Step(t, d, e, l);
            && f.stores == d.stores && f.force == (if e.Reboot? then d.stores else d.force)
            && f.ram.deadline == 0 && Plain(f.ram.guard) == d.record.value.keys)
  {
    HeldSinceThen(t, cs, es, ls, a, b);
    RunKeepsInv(t, cs, es, ls, b);
    RunIsSound(t, cs, es, ls, b);
    assert Happened(t, cs, es, ls, b);
    GivenUp(t, cs[b], es[b], ls[b], cs[b + 1]);
    StartAfterGivingUp(t, cs[b + 1], e, l);
  }

  /** A record that was kept is overwritten by the next guarded set: the snapshot is then what the
      stores hold by that time, and what they held before the change that was given up is lost. */
  lemma {:induction false} KeptRecordIsOverwritten(t: seq<Key>, c: Camera, k: nat, v: Store, l: Luck)
    requires Inv(t, c) && Sound(c) && c.ram.guard == [] && k < |t| && t[k].guardSec > 0 && l.flash
    ensures Step(t, c, Edit(k, v), l).record == Some(Record(false, c.ram.windowSec, Plain(Snapshot(t, c.stores, |t|))))
  {
    EditsHold(t, c, k, v, l);
    HeldIs(t, c, l);
  }

  // ----- the guard comes to rest ---------------------------------------------------------

  function PassCount(t: seq<Key>, cs: seq<Camera>, es: seq<Event>, a: nat, b: nat): nat
    requires a <= b <= |es| && |cs| == |es| + 1
  {
    if a == b then 0 else PassCount(t, cs, es, a, b - 1) + if Facing(t, cs[b - 1], es[b - 1]).Some? then 1 else 0
  }

  // Nothing but a pass can end the guard or start the count anew, and nothing is held anew.
  ghost predicate Unattended(t: seq<Key>, cs: seq<Camera>, es: seq<Event>, n: nat) {
    n < |es| && n + 1 < |cs| ==>
      && !Confirms(cs[n], es[n]) && !Starts(es[n]) && !Arms(t, cs[n], es[n])
      && (cs[n].ram.guard == [] ==> cs[n + 1].ram.guard == [])
  }

  lemma {:induction false} QuietStep(t: seq<Key>, c: Camera, e: Event, l: Luck)
    requires |c.stores| == |c.force| == |t| && Facing(t, c, e).None? && !Confirms(c, e) && !Starts(e) && !Arms(t, c, e)
    ensures Step(t, c, e, l).ram.retries == c.ram.retries && Step(t, c, e, l).ram.deadline == c.ram.deadline
  {
    if e.Edit? && e.key < |t| { EditsHold(t, c, e.key, e.value, l); }
  }

  lemma {:induction false} RetriesStayBounded(t: seq<Key>, c: Camera, e: Event, l: Luck, d: Camera)
    requires Inv(t, c) && Sound(c) && c.ram.retries <= RETRIES && d == Step(t, c, e, l)
    ensures d.ram.retries <= RETRIES
  {
    if Facing(t, c, e).Some? {
      FacingHolds(t, c, e);
      PassIs(t, c, e, l);
      PassOutcome(t, Facing(t, c, e).value, e.now, l);
    } else if Starts(e) {
      StartIs(t, c, e, l);
    } else if !Confirms(c, e) && !Arms(t, c, e) {
      QuietStep(t, c, e, l);
    }
  }

  lemma {:induction false} RetriesAreBounded(t: seq<Key>, cs: seq<Camera>, es: seq<Event>, ls: seq<Luck>, n: nat)
    requires Run(t, cs, es, ls) && n <= |es|
    ensures cs[n].ram.retries <= RETRIES
  {
    if n > 0 {
      RetriesAreBounded(t, cs, es, ls, n - 1);
      StepOf(t, cs, es, ls, n - 1, cs[n - 1], es[n - 1], ls[n - 1], cs[n]);
      RetriesStayBounded(t, cs[n - 1], es[n - 1], ls[n - 1], cs[n]);
    }
  }

  lemma {:induction false} StepCounts(t: seq<Key>, c: Camera, e: Event, l: Luck, d: Camera)
    requires Inv(t, c) && Sound(c) && !Confirms(c, e) && !Starts(e) && !Arms(t, c, e) && d == Step(t, c, e, l)
    requires c.ram.retries <= RETRIES
    ensures Facing(t, c, e).None? ==> d.ram.retries == c.ram.retries && (c.ram.guard != [] ==> d.ram.guard == c.ram.guard)
    ensures Facing(t, c, e).Some? ==> c.ram.guard != []
    ensures Facing(t, c, e).Some? && d.ram.guard != [] ==> c.ram.retries < RETRIES && d.ram.retries == c.ram.retries + 1
  {
    if Facing(t, c, e).Some? {
      FacingHolds(t, c, e);
      PassIs(t, c, e, l);
      PassOutcome(t, Facing(t, c, e).value, e.now, l);
    } else {
      QuietStep(t, c, e, l);
      if c.ram.guard != [] { NoPassKeeps(t, c, e, l); }
    }
  }

  /** A guard nobody confirms comes to rest. Through any edits, applies that arm nothing, cancels and
      ticks, at most five passes are made over one hold, after the fifth nothing is held or armed,
      and as long as something is held the passes made are counted. */
  lemma {:induction false} GuardComesToRest(t: seq<Key>, cs: seq<Camera>, es: seq<Event>, ls: seq<Luck>, a: nat, b: nat)
    requires Run(t, cs, es, ls) && a <= b <= |es|
    requires forall n | a <= n < b :: Unattended(t, cs, es, n)
    ensures cs[a].ram.retries + PassCount(t, cs, es, a, b) <= RETRIES + 1
    ensures cs[a].ram.retries + PassCount(t, cs, es, a, b) == RETRIES + 1 ==> cs[b].ram.guard == [] && cs[b].ram.deadline == 0
    ensures cs[b].ram.guard != [] ==> cs[b].ram.retries == cs[a].ram.retries + PassCount(t, cs, es, a, b)
  {
    RetriesAreBounded(t, cs, es, ls, b);
    RunIsSound(t, cs, es, ls, b);
    if a < b {
      var n := b - 1;
      GuardComesToRest(t, cs, es, ls, a, n);
      RunKeepsInv(t, cs, es, ls, n);
      RetriesAreBounded(t, cs, es, ls, n);
      RunIsSound(t, cs, es, ls, n);
      assert Happened(t, cs, es, ls, n) && Unattended(t, cs, es, n);
      StepCounts(t, cs[n], es[n], ls[n], cs[b]);
    }
  }
}
