/**
 * The day/night controller (ric/ric_daynight.c): exposure polls vote, a debounce moves the
 * filter, a cooldown waits for the picture to settle, and a probe lifts the IR light to see
 * whether it is day behind it.
 */
module DayNight {

  const SETTLE_PCT: nat := 2
  const EXTEND_POLLS: nat := 17
  const PROBE_SETTLE: nat := 3
  const LOCKOUT_FIRST: nat := 30
  const LOCKOUT_MAX: nat := 300


  datatype Mode = Day | Night

  datatype Trigger = Luma | Adc | Gain

  // An exposure reading: the fields count only where the platform reports them.
  datatype Reading = Reading(gain: nat, luma: nat, ev: nat, haveGain: bool, haveLuma: bool, haveEv: bool)

  datatype Settings = Settings(
    trigger: Trigger, hysteresis: nat, nightLuma: nat, nightGain: nat, dayGainPct: nat,
    probeGainPct: nat, recheckSec: nat, holdoffSec: nat, pollMs: nat, nightLevel: nat, dayLevel: nat)

  // ----- votes -------------------------------------------------------------------------

  // How many of the last votes were for the other mode.
  function Trailing(votes: seq<bool>): nat {
    if votes == [] || !votes[|votes| - 1] then 0 else 1 + Trailing(votes[..|votes| - 1])
  }

  ghost predicate LastAgree(votes: seq<bool>, n: nat) {
    |votes| >= n && forall i | |votes| - n <= i < |votes| :: votes[i]
  }

  /** The counter has reached n exactly when the last n votes agree. */
  lemma {:induction false} TrailingIsLastAgree(votes: seq<bool>, n: nat)
    ensures Trailing(votes) >= n <==> LastAgree(votes, n)
    decreases |votes|
  {
    if votes != [] && n > 0 {
      var short := votes[..|votes| - 1];
      if votes[|votes| - 1] {
        TrailingIsLastAgree(short, n - 1);
        assert LastAgree(votes, n) <==> LastAgree(short, n - 1);
      }
    }
  }

  lemma OneMoreVote(votes: seq<bool>, v: bool)
    ensures Trailing(votes + [v]) == if v then Trailing(votes) + 1 else 0
  {
    assert (votes + [v])[..|votes|] == votes;
  }

  // ----- settling ----------------------------------------------------------------------

  /** ric_baseline_value_within: two readings no more than two percent apart. */
  predicate Within(previous: nat, current: nat) {
    previous != 0 && current != 0
    && (if previous > current then previous - current else current - previous)
       <= (if previous * SETTLE_PCT / 100 == 0 then 1 else previous * SETTLE_PCT / 100)
  }

  predicate HasData(r: Reading) { r.haveGain || r.haveEv }

  // The reading agrees with the one before it in everything it reports.
  predicate Agrees(p: Reading, r: Reading) {
    HasData(r) && (!r.haveGain || Within(p.gain, r.gain)) && (!r.haveEv || Within(p.ev, r.ev))
  }

  // How many of the last readings agreed each with the one before it, from the third on.
  function AgreeRun(seen: seq<Reading>): nat {
    if |seen| < 3 || !Agrees(seen[|seen| - 2], seen[|seen| - 1]) then 0 else 1 + AgreeRun(seen[..|seen| - 1])
  }

  // Three readings in a row within tolerance.
  ghost predicate Settled(seen: seq<Reading>) {
    |seen| >= 3 && Agrees(seen[|seen| - 3], seen[|seen| - 2]) && Agrees(seen[|seen| - 2], seen[|seen| - 1])
  }

  lemma OneMoreReading(seen: seq<Reading>, r: Reading)
    requires |seen| >= 2
    ensures AgreeRun(seen + [r]) == if Agrees(seen[|seen| - 1], r) then AgreeRun(seen) + 1 else 0
    ensures AgreeRun(seen + [r]) >= 2 ==> Settled(seen + [r])
  {
    assert (seen + [r])[..|seen|] == seen;
  }

  lemma OneSeen(seen: seq<Reading>, r: Reading)
    requires |seen| <= 1
    ensures AgreeRun(seen + [r]) == AgreeRun(seen) == 0
  {
  }

  // ----- the state ---------------------------------------------------------------------

  datatype Bank = Bank(pin: bool, enabled: bool, lit: bool)

  datatype State = State(
    ir850: Bank, ir940: Bank, mode: Mode, dayCount: nat, nightCount: nat,
    cooldown: nat, prevGain: nat, prevEv: nat, agreeRun: nat, extendLeft: nat, gainBase: nat, evBase: nat,
    dayVerify: bool, lockoutPolls: nat, lockoutNext: nat,
    probeActive: bool, probeLeft: nat, holdoff: nat, dipRun: nat, recheck: nat)

  // The lights follow the mode: off by day, on by night unless a probe has lifted them.
  predicate Follows(b: Bank, mode: Mode, probing: bool) {
    b.pin ==> (!b.enabled || mode == Day ==> !b.lit) && (mode == Night && !probing ==> b.lit == b.enabled)
  }

  predicate Lights(st: State) {
    Follows(st.ir850, st.mode, st.probeActive) && Follows(st.ir940, st.mode, st.probeActive)
  }

  // The counter that matters is the run of votes.
  predicate Counted(st: State, votes: seq<bool>) {
    (if st.mode == Day then st.nightCount else st.dayCount) == Trailing(votes)
  }

  // Where a night's cooldown is after the given readings.
  predicate Settling(st: State, seen: seq<Reading>) {
    st.mode == Night && st.cooldown > 0 ==>
      && st.cooldown == (if |seen| <= 2 then 3 - |seen| else 1)
      && st.extendLeft == (if |seen| <= 2 then EXTEND_POLLS else EXTEND_POLLS + 2 - |seen|)
      && st.agreeRun == AgreeRun(seen)
      && (seen != [] ==> st.prevGain == seen[|seen| - 1].gain && st.prevEv == seen[|seen| - 1].ev)
  }

  predicate Probing(st: State, hysteresis: nat) {
    (st.probeActive ==> 1 <= st.probeLeft <= PROBE_SETTLE + hysteresis + 3)
    && st.lockoutPolls <= LOCKOUT_MAX && st.lockoutNext <= LOCKOUT_MAX
  }

  // ----- lights and modes --------------------------------------------------------------

  function Driven(b: Bank, on: bool): Bank { if b.pin then b.(lit := on) else b }

  function EnabledDriven(b: Bank, on: bool): Bank { if b.enabled then Driven(b, on) else b }

  // Start-up: everything at rest, the lights driven to the mode, a cooldown ahead.
  function Booted(ir850: Bank, ir940: Bank, m: Mode): State {
    State(EnabledDriven(ir850, m == Night), EnabledDriven(ir940, m == Night), m, 0, 0, 3, 0, 0, 0, EXTEND_POLLS,
          0, 0, false, 0, 0, false, 0, 0, 0, 0)
  }

  // The state after a change of mode: new lights, fresh counters, a cooldown ahead.
  function Switched(st: State, m: Mode): State {
    st.(ir850 := EnabledDriven(st.ir850, m == Night), ir940 := EnabledDriven(st.ir940, m == Night), mode := m,
        dayCount := 0, nightCount := 0, cooldown := 3, prevGain := 0, prevEv := 0, agreeRun := 0,
        extendLeft := EXTEND_POLLS, recheck := 0, gainBase := if m == Day then 0 else st.gainBase)
  }

  // The lights follow a forced mode even when it is the mode already.
  function Forced(st: State, m: Mode): State {
    if m == st.mode then st.(ir850 := EnabledDriven(st.ir850, m == Night), ir940 := EnabledDriven(st.ir940, m == Night))
    else Switched(st, m)
  }

  // A bank enabled or disabled; by night its light follows.
  function Allowed(st: State, bank940: bool, on: bool): State {
    var b := if bank940 then st.ir940 else st.ir850;
    var now := if st.mode == Night then Driven(b.(enabled := on), on) else b.(enabled := on);
    if bank940 then st.(ir940 := now) else st.(ir850 := now)
  }

  predicate IrBanks(st: State) { (st.ir850.pin && st.ir850.enabled) || (st.ir940.pin && st.ir940.enabled) }

  // No IR light is in the picture, as far as the state says.
  predicate LumaTrusted(st: State) { !(IrBanks(st) && st.mode == Night && !st.probeActive) }

  predicate Shining(b: Bank) { b.pin && b.enabled && b.lit }

  // ----- the cooldown ------------------------------------------------------------------

  // One more poll of the cooldown, and its end.
  predicate Waited(st: State, now: State, r: Reading) {
    now == st.(cooldown := now.cooldown, agreeRun := now.agreeRun, extendLeft := now.extendLeft,
               prevGain := r.gain, prevEv := r.ev)
  }

  predicate Adopted(cfg: Settings, st: State, now: State, r: Reading)
    requires cfg.pollMs >= 1
  {
    now == st.(cooldown := 0, agreeRun := now.agreeRun, prevGain := r.gain, prevEv := r.ev,
               gainBase := r.gain, evBase := r.ev, recheck := cfg.recheckSec * 1000 / cfg.pollMs)
  }

  // One poll of a night's cooldown: it waits, for twenty polls at most, or adopts its reading, which is
  // settled unless the polls ran out or report nothing.
  ghost predicate Cooled(cfg: Settings, st: State, now: State, r: Reading, seen: seq<Reading>)
    requires cfg.pollMs >= 1
  {
    && now.mode == Night && |seen| <= 3 + EXTEND_POLLS
    && (now.cooldown > 0 ==> Waited(st, now, r) && |seen| < 3 + EXTEND_POLLS)
    && (now.cooldown == 0 ==> Adopted(cfg, st, now, r) && (!HasData(r) || Settled(seen) || |seen| == 3 + EXTEND_POLLS))
  }

  // The wait before the next day attempt.
  function Hold(st: State): nat { if st.lockoutNext != 0 then st.lockoutNext else LOCKOUT_FIRST }

  // The failed verification, and twice the wait for the next one.
  function LockedOut(st: State): State {
    st.(dayVerify := false, lockoutPolls := Hold(st), lockoutNext := if 2 * Hold(st) > LOCKOUT_MAX then LOCKOUT_MAX else 2 * Hold(st))
  }

  predicate FailsVerification(cfg: Settings, st: State, r: Reading) {
    st.mode == Day && st.cooldown == 1 && st.dayVerify && r.haveLuma && r.luma < cfg.nightLuma
  }

  // A day that stands: only the cooldown has moved, and at its end the verification is done with.
  predicate Verified(st: State, now: State) {
    now == (if st.cooldown == 1 && st.dayVerify then st.(dayVerify := false, lockoutNext := 0) else st)
           .(cooldown := now.cooldown, prevGain := now.prevGain, prevEv := now.prevEv)
  }

  // One poll of a day's cooldown.
  predicate CooledByDay(cfg: Settings, st: State, now: State, r: Reading)
    requires st.cooldown > 0
  {
    if FailsVerification(cfg, st, r) then now == Switched(LockedOut(st), Night).(prevGain := r.gain, prevEv := r.ev)
    else now.mode == Day && now.cooldown == st.cooldown - 1 && Verified(st, now) && now.prevGain == r.gain && now.prevEv == r.ev
  }

  // ----- the probe ---------------------------------------------------------------------

  predicate MayProbe(cfg: Settings, st: State) {
    st.mode == Night && IrBanks(st) && cfg.probeGainPct > 0 && st.gainBase > 0 && st.lockoutPolls == 0
  }

  // The interval recheck runs out with this poll.
  predicate Rechecked(cfg: Settings, st: State) { cfg.recheckSec > 0 && st.recheck == 1 }

  // The reading lies below the given share of the night's baseline, of EV where there is one.
  predicate Dips(cfg: Settings, st: State, r: Reading) {
    if r.haveEv && st.evBase > 0 then r.ev < st.evBase * cfg.probeGainPct / 100
    else r.haveGain && r.gain < st.gainBase * cfg.probeGainPct / 100
  }

  predicate Due(cfg: Settings, st: State, r: Reading) {
    Rechecked(cfg, st) || (st.holdoff == 0 && Dips(cfg, st, r) && st.dipRun >= 2)
  }

  // A probe is due with this reading, given the dips of the polls watched before it.
  ghost predicate ProbeDueBy(cfg: Settings, st: State, r: Reading, dips: seq<bool>) {
    MayProbe(cfg, st) && (Rechecked(cfg, st) || (st.holdoff == 0 && LastAgree(dips + [Dips(cfg, st, r)], 3)))
  }

  // The clocks of a quiet night after one more reading.
  function Watched(cfg: Settings, st: State, r: Reading): State {
    st.(recheck := if cfg.recheckSec > 0 && st.recheck > 0 then st.recheck - 1 else st.recheck,
        holdoff := if st.holdoff > 0 && !Rechecked(cfg, st) then st.holdoff - 1 else st.holdoff,
        dipRun := if Due(cfg, st, r) || (st.holdoff == 0 && !Dips(cfg, st, r)) then 0
                  else if st.holdoff == 0 then st.dipRun + 1 else st.dipRun)
  }

  // A probe begins: lights off. And it ends in darkness: lights on, and everything settles anew.
  function Lifted(cfg: Settings, st: State): State {
    st.(ir850 := EnabledDriven(st.ir850, false), ir940 := EnabledDriven(st.ir940, false),
        probeActive := true, probeLeft := PROBE_SETTLE + cfg.hysteresis + 3)
  }

  function HoldoffPolls(cfg: Settings): nat
    requires cfg.pollMs >= 1
  {
    cfg.holdoffSec * 1000 / cfg.pollMs
  }

  function Relit(cfg: Settings, st: State): State
    requires cfg.pollMs >= 1
  {
    st.(ir850 := EnabledDriven(st.ir850, true), ir940 := EnabledDriven(st.ir940, true),
        probeActive := false, probeLeft := 0, holdoff := HoldoffPolls(cfg),
        cooldown := 3, prevGain := 0, prevEv := 0, agreeRun := 0, extendLeft := EXTEND_POLLS)
  }

  // The state after the probe has been looked after.
  function Probed(cfg: Settings, st: State, r: Reading): State
    requires cfg.pollMs >= 1 && (st.probeActive ==> st.probeLeft >= 1)
  {
    if !MayProbe(cfg, st) then
      if st.mode == Day && st.probeActive then st.(probeActive := false, holdoff := HoldoffPolls(cfg)) else st
    else if st.probeActive then
      if st.probeLeft > 1 then st.(probeLeft := st.probeLeft - 1) else Relit(cfg, st)
    else if Due(cfg, st, r) then Lifted(cfg, Watched(cfg, st, r)) else Watched(cfg, st, r)
  }

  lemma ProbedKeeps(cfg: Settings, st: State, r: Reading)
    requires cfg.pollMs >= 1 && (st.probeActive ==> st.probeLeft >= 1)
    ensures Probed(cfg, st, r).mode == st.mode && Probed(cfg, st, r).lockoutPolls == st.lockoutPolls
  {
  }

  /** The dips need not be of one night: two of one and the first of another, with a day between and a
      new baseline, begin a probe, and would not if the count had started anew. */
  lemma DipsOfTwoNights(cfg: Settings, st: State, gainBase: nat, evBase: nat, r: Reading)
    requires MayProbe(cfg, st) && !st.probeActive && st.dipRun == 2 && st.holdoff == 0 && cfg.pollMs >= 1 && gainBase > 0
    requires Dips(cfg, st.(gainBase := gainBase, evBase := evBase), r)
    ensures var s := Switched(Switched(st, Day), Night).(cooldown := 0, gainBase := gainBase, evBase := evBase);
      Probed(cfg, s, r).probeActive && !Probed(cfg, s.(dipRun := 0), r).probeActive
  {
    assert !Rechecked(cfg, Switched(Switched(st, Day), Night));
  }

  // ----- a poll ------------------------------------------------------------------------

  // A probe must not teach the baseline.
  function Raised(st: State, r: Reading): State {
    if r.haveGain && 0 < st.gainBase < r.gain && st.mode == Night && !st.probeActive
    then st.(gainBase := r.gain, evBase := r.ev) else st
  }

  predicate WantsNight(cfg: Settings, r: Reading) {
    (r.haveLuma && r.luma < cfg.nightLuma) || (r.haveGain && r.gain > cfg.nightGain)
  }

  predicate WantsDay(cfg: Settings, st: State, r: Reading) {
    (r.haveGain && st.gainBase > 0 && r.gain < st.gainBase * cfg.dayGainPct / 100)
    || (LumaTrusted(st) && r.haveLuma && r.luma >= cfg.nightLuma)
  }

  // A probe has just begun, and the picture is still changing.
  predicate Suppressed(cfg: Settings, st: State) {
    MayProbe(cfg, st) && st.probeActive && st.probeLeft > cfg.hysteresis + 3
  }

  // What a night's poll makes of the readings, unless a probe has just begun.
  predicate Leans(cfg: Settings, st: State, r: Reading) {
    WantsDay(cfg, Raised(st, r), r) && !Suppressed(cfg, Raised(st, r))
  }

  // How an evaluated poll of the luma trigger votes on leaving the mode.
  predicate LumaVote(cfg: Settings, st: State, r: Reading) {
    if st.mode == Day then WantsNight(cfg, r) else Leans(cfg, st, r) && st.lockoutPolls == 0
  }

  // And with the lockout.
  function Judged(cfg: Settings, st: State, r: Reading): State
    requires cfg.pollMs >= 1 && (st.probeActive ==> st.probeLeft >= 1)
  {
    var p := Probed(cfg, Raised(st, r), r);
    p.(lockoutPolls := if p.lockoutPolls > 0 then p.lockoutPolls - 1 else 0)
  }

  // What an evaluated poll makes of the state before the vote counts: only luma has more to look after.
  function Considered(cfg: Settings, st: State, r: Reading): State
    requires cfg.pollMs >= 1 && (st.probeActive ==> st.probeLeft >= 1)
  {
    if cfg.trigger == Luma then Judged(cfg, st, r) else st
  }

  // The vote of an evaluated poll, whatever the trigger.
  predicate Vote(cfg: Settings, st: State, r: Reading, adc: int) {
    match cfg.trigger
    case Luma => LumaVote(cfg, st, r)
    case Adc => if st.mode == Day then adc < cfg.nightLevel else adc > cfg.dayLevel
    case Gain => r.haveGain && if st.mode == Day then r.gain > cfg.nightLevel else r.gain < cfg.dayLevel
  }

  datatype Query = Failed | Answered(reading: Reading)

  // The poll brings something to act on.
  predicate Heeded(cfg: Settings, auto: bool, query: Query) {
    auto && query.Answered? && (cfg.trigger == Adc || query.reading.haveGain || query.reading.haveLuma || query.reading.haveEv)
  }

  // The state after the votes have carried, and a day found by luma has to be verified.
  function Turned(cfg: Settings, st: State): State {
    if st.mode == Day then Switched(st, Night) else Switched(st.(dayVerify := st.dayVerify || cfg.trigger == Luma), Day)
  }

  // Nothing but the counters has changed.
  predicate Recounted(st: State, now: State) { now == st.(dayCount := now.dayCount, nightCount := now.nightCount) }

  // The vote counts: the mode changes exactly when the last polls since it was entered all agreed.
  ghost predicate Evaluated(cfg: Settings, st: State, votes: seq<bool>, v: bool, now: State, votes': seq<bool>) {
    if LastAgree(votes + [v], cfg.hysteresis) then now == Turned(cfg, st) && votes' == []
    else Recounted(st, now) && votes' == votes + [v]
  }

  /** An evaluated poll changes the mode exactly on an agreed run of votes for it, its own the last. */
  lemma TurnsOnAgreement(cfg: Settings, st: State, votes: seq<bool>, v: bool, now: State, votes': seq<bool>)
    requires cfg.hysteresis >= 1 && Evaluated(cfg, st, votes, v, now, votes')
    ensures now.mode != st.mode <==> v && LastAgree(votes + [true], cfg.hysteresis)
  {
    assert (votes + [v])[|votes|] == v;
  }

  // ----- the controller ----------------------------------------------------------------

  class Ric {
    const cfg: Settings
    var st: State

    // The votes since the mode was entered, and the readings since the cooldown began.
    ghost var votes: seq<bool>
    ghost var seen: seq<Reading>

    // Of the polls watched for a dip since the last probe or re-arming, which ones dipped.
    ghost var watched: seq<bool>

    ghost predicate Valid()
      reads this
    {
      cfg.hysteresis >= 1 && cfg.pollMs >= 1
      && Lights(st) && Counted(st, votes) && Settling(st, seen) && Probing(st, cfg.hysteresis)
      && st.dipRun == Trailing(watched) && (cfg.trigger != Luma ==> !st.probeActive)
    }

    /** Start-up: the filter and the lights are driven to the mode whatever they were. */
    constructor (cfg: Settings, pin850: bool, pin940: bool, enabled850: bool, enabled940: bool, m: Mode)
      requires cfg.hysteresis >= 1 && cfg.pollMs >= 1
      ensures Valid() && this.cfg == cfg && votes == [] && seen == [] && watched == []
      ensures st == Booted(Bank(pin850, enabled850, false), Bank(pin940, enabled940, false), m)
    {
      this.cfg := cfg;
      var ir850 := EnabledDriven(Bank(pin850, enabled850, false), m == Night);
      var ir940 := EnabledDriven(Bank(pin940, enabled940, false), m == Night);
      st := State(ir850, ir940, m, 0, 0, 3, 0, 0, 0, EXTEND_POLLS, 0, 0, false, 0, 0, false, 0, 0, 0, 0);
      votes, seen, watched := [], [], [];
    }

    /** ric_irled_drive for one bank. */
    method Drive(bank940: bool, on: bool)
      modifies this`st
      ensures st == if bank940 then old(st).(ir940 := Driven(old(st).ir940, on)) else old(st).(ir850 := Driven(old(st).ir850, on))
    {
      if bank940 {
        if st.ir940.pin { st := st.(ir940 := st.ir940.(lit := on)); }
      } else {
        if st.ir850.pin { st := st.(ir850 := st.ir850.(lit := on)); }
      }
    }

    /** The banks the settings enable, on or off. */
    method DriveEnabled(on: bool)
      modifies this`st
      ensures st == old(st).(ir850 := EnabledDriven(old(st).ir850, on), ir940 := EnabledDriven(old(st).ir940, on))
    {
      if st.ir850.enabled { Drive(false, on); }
      if st.ir940.enabled { Drive(true, on); }
    }

    method SettleBegin()
      modifies this`st, this`seen
      ensures st == old(st).(cooldown := 3, prevGain := 0, prevEv := 0, agreeRun := 0, extendLeft := EXTEND_POLLS) && seen == []
    {
      st := st.(cooldown := 3, prevGain := 0, prevEv := 0, agreeRun := 0, extendLeft := EXTEND_POLLS);
      seen := [];
    }

    /** ric_set_mode. */
    method SetMode(m: Mode)
      requires Valid()
      modifies this`st, this`votes, this`seen
      ensures Valid() && st == if m == old(st).mode then old(st) else Switched(old(st), m)
      ensures m == old(st).mode ==> votes == old(votes) && seen == old(seen)
      ensures m != old(st).mode ==> votes == [] && seen == []
    {
      if m == st.mode {
        return;
      }
      DriveEnabled(m == Night);
      st := st.(mode := m, dayCount := 0, nightCount := 0, recheck := 0);
      votes := [];
      SettleBegin();
      if m == Day { st := st.(gainBase := 0); }
    }

    /** ric_force_mode: drives the lights even when the mode stays. */
    method ForceMode(m: Mode)
      requires Valid()
      modifies this`st, this`votes, this`seen
      ensures Valid() && st == Forced(old(st), m)
      ensures m == old(st).mode ==> votes == old(votes) && seen == old(seen)
      ensures m != old(st).mode ==> votes == [] && seen == []
    {
      if m == st.mode {
        DriveEnabled(m == Night);
        return;
      }
      SetMode(m);
    }

    /** A bank enabled or disabled while running: at night at once. */
    method Enable(bank940: bool, on: bool)
      requires Valid()
      modifies this`st
      ensures Valid() && st == Allowed(old(st), bank940, on)
    {
      if bank940 { st := st.(ir940 := st.ir940.(enabled := on)); } else { st := st.(ir850 := st.ir850.(enabled := on)); }
      if st.mode == Night { Drive(bank940, on); }
    }

    /** ric_trigger_rearm: everything in flight is forgotten, and by night the lights come back. */
    method Rearm()
      requires Valid()
      modifies this`st, this`votes, this`seen, this`watched
      ensures Valid() && st.mode == old(st).mode && votes == [] && seen == [] && !st.probeActive && st.cooldown == 3
      ensures st.gainBase == st.evBase == st.lockoutPolls == st.lockoutNext == st.holdoff == st.dipRun == st.recheck == 0
      ensures !st.dayVerify && (st.mode == Day ==> st.ir850 == old(st).ir850 && st.ir940 == old(st).ir940)
    {
      st := st.(dayCount := 0, nightCount := 0, gainBase := 0, evBase := 0, dayVerify := false, lockoutPolls := 0,
                lockoutNext := 0, probeActive := false, probeLeft := 0, holdoff := 0, dipRun := 0, recheck := 0);
      votes, watched := [], [];
      SettleBegin();
      if st.mode == Night {
        Drive(false, st.ir850.enabled);
        Drive(true, st.ir940.enabled);
      }
    }

    /** One vote on leaving the mode, counted: the counter starts anew at a vote against. */
    method CountVote(v: bool)
      requires Valid()
      modifies this`st, this`votes
      ensures Valid() && votes == old(votes) + [v] && Recounted(old(st), st)
      ensures (if st.mode == Day then st.nightCount else st.dayCount) == Trailing(votes)
    {
      OneMoreVote(votes, v);
      votes := votes + [v];
      if st.mode == Day {
        st := if v then st.(nightCount := st.nightCount + 1, dayCount := 0) else st.(nightCount := 0);
      } else {
        st := if v then st.(dayCount := st.dayCount + 1, nightCount := 0) else st.(dayCount := 0);
      }
    }

    /** The debounce by day. */
    method VoteByDay(wantNight: bool)
      requires Valid() && st.mode == Day
      modifies this`st, this`votes, this`seen
      ensures Valid()
      ensures if Trailing(old(votes) + [wantNight]) >= cfg.hysteresis then st == Turned(cfg, old(st)) && votes == [] && seen == []
              else Recounted(old(st), st) && votes == old(votes) + [wantNight] && seen == old(seen)
    {
      CountVote(wantNight);
      if st.nightCount >= cfg.hysteresis { SetMode(Night); }
    }

    /** The debounce by night; a day that luma found will have to be verified. */
    method VoteByNight(wantDay: bool)
      requires Valid() && st.mode == Night
      modifies this`st, this`votes, this`seen
      ensures Valid()
      ensures if Trailing(old(votes) + [wantDay]) >= cfg.hysteresis then st == Turned(cfg, old(st)) && votes == [] && seen == []
              else Recounted(old(st), st) && votes == old(votes) + [wantDay] && seen == old(seen)
    {
      CountVote(wantDay);
      if st.dayCount >= cfg.hysteresis {
        if cfg.trigger == Luma { st := st.(dayVerify := true); }
        SetMode(Day);
      }
    }

    /** ric_debounce: the mode changes exactly when the last polls since it was entered all agreed. */
    method Debounce(wantNight: bool, wantDay: bool)
      requires Valid()
      modifies this`st, this`votes, this`seen
      ensures Valid()
      ensures var v := if old(st).mode == Day then wantNight else wantDay;
              if LastAgree(old(votes) + [v], cfg.hysteresis) then st == Turned(cfg, old(st)) && votes == [] && seen == []
              else Recounted(old(st), st) && votes == old(votes) + [v] && seen == old(seen)
      ensures st.mode != old(st).mode ==> LastAgree(old(votes) + [true], cfg.hysteresis)
    {
      ghost var v := if st.mode == Day then wantNight else wantDay;
      TrailingIsLastAgree(votes + [v], cfg.hysteresis);
      OneMoreVote(votes, v);
      if st.mode == Day { VoteByDay(wantNight); } else { VoteByNight(wantDay); }
    }

    /** The settling check of a night's cooldown that has run out: wait on, or adopt the reading. */
    method Settle(r: Reading) returns (adopted: bool)
      requires Valid() && st.mode == Night && st.cooldown == 1
      modifies this`st, this`seen
      ensures Valid() && seen == old(seen) + [r] && st.mode == Night && votes == old(votes)
      ensures adopted ==> st.cooldown == 0 && Adopted(cfg, old(st), st, r)
                          && (!HasData(r) || Settled(seen) || |seen| == 3 + EXTEND_POLLS)
      ensures !adopted ==> st.cooldown == 1 && Waited(old(st), st, r)
                           && |seen| < 3 + EXTEND_POLLS && AgreeRun(seen) < 2 && HasData(r)
    {
      OneMoreReading(seen, r);
      var gainWithin := !r.haveGain || Within(st.prevGain, r.gain);
      var evWithin := !r.haveEv || Within(st.prevEv, r.ev);
      var within := (r.haveGain || r.haveEv) && gainWithin && evWithin;
      seen := seen + [r];
      st := st.(cooldown := 0, agreeRun := if within then st.agreeRun + 1 else 0);
      if (r.haveGain || r.haveEv) && st.agreeRun < 2 && st.extendLeft > 0 {
        st := st.(extendLeft := st.extendLeft - 1, prevGain := r.gain, prevEv := r.ev, cooldown := 1);
        return false;
      }
      st := st.(gainBase := r.gain, evBase := r.ev, recheck := cfg.recheckSec * 1000 / cfg.pollMs,
                prevGain := r.gain, prevEv := r.ev);
      return true;
    }

    /** A day that luma found, looked at again without the IR light. */
    method VerifyDay(r: Reading)
      requires Valid() && st.mode == Day
      modifies this`st, this`votes, this`seen
      ensures Valid() && !st.dayVerify
      ensures if r.haveLuma && r.luma < cfg.nightLuma
              then st == Switched(LockedOut(old(st)), Night) && votes == [] && seen == []
              else st == old(st).(dayVerify := false, lockoutNext := 0) && votes == old(votes)
    {
      st := st.(dayVerify := false);
      if r.haveLuma && r.luma < cfg.nightLuma {
        var hold := if st.lockoutNext != 0 then st.lockoutNext else LOCKOUT_FIRST;
        st := st.(lockoutPolls := hold, lockoutNext := if hold * 2 > LOCKOUT_MAX then LOCKOUT_MAX else hold * 2);
        SetMode(Night);
      } else {
        st := st.(lockoutNext := 0);
      }
    }

    /** A poll during a night's cooldown, which lasts at most 3 + 17 of them. */
    method CoolByNight(r: Reading)
      requires Valid() && st.cooldown > 0 && st.mode == Night
      modifies this`st, this`seen
      ensures Valid() && Cooled(cfg, old(st), st, r, seen) && seen == old(seen) + [r]
    {
      if st.cooldown == 1 {
        var _ := Settle(r);
      } else {
        OneSeen(seen, r);
        seen := seen + [r];
        st := st.(cooldown := st.cooldown - 1, prevGain := r.gain, prevEv := r.ev);
      }
    }

    /** A poll during a day's cooldown, the last of which verifies a day that luma found. */
    method CoolByDay(r: Reading)
      requires Valid() && st.cooldown > 0 && st.mode == Day
      modifies this`st, this`votes, this`seen
      ensures Valid() && CooledByDay(cfg, old(st), st, r) && (st.mode == Day ==> votes == old(votes))
    {
      st := st.(cooldown := st.cooldown - 1);
      if st.cooldown == 0 && st.dayVerify { VerifyDay(r); }
      st := st.(prevGain := r.gain, prevEv := r.ev);
    }

    method CooldownPoll(r: Reading)
      requires Valid() && st.cooldown > 0
      modifies this`st, this`votes, this`seen
      ensures Valid()
      ensures old(st).mode == Night ==>
                Cooled(cfg, old(st), st, r, seen) && votes == old(votes) && seen == old(seen) + [r]
      ensures old(st).mode == Day ==> CooledByDay(cfg, old(st), st, r) && (st.mode == Day ==> votes == old(votes))
    {
      if st.mode == Night { CoolByNight(r); } else { CoolByDay(r); }
    }

    /** What luma and gain say, and the baseline the darkest reading raises. */
    method LumaWants(r: Reading) returns (wantNight: bool, wantDay: bool)
      requires Valid()
      modifies this`st
      ensures Valid() && st == Raised(old(st), r)
      ensures wantNight == WantsNight(cfg, r) && wantDay == WantsDay(cfg, st, r)
    {
      wantNight := (r.haveLuma && r.luma < cfg.nightLuma) || (r.haveGain && r.gain > cfg.nightGain);
      wantDay := false;
      var irLit := IrBanks(st) && st.mode == Night && !st.probeActive;
      if r.haveGain && st.gainBase > 0 {
        if st.mode == Night && !st.probeActive && r.gain > st.gainBase {
          st := st.(gainBase := r.gain, evBase := r.ev);
        }
        wantDay := r.gain < st.gainBase * cfg.dayGainPct / 100;
      }
      if !irLit && r.haveLuma && r.luma >= cfg.nightLuma { wantDay := true; }
    }

    method DipsNow(r: Reading) returns (dips: bool)
      ensures dips == Dips(cfg, st, r)
    {
      var useEv := r.haveEv && st.evBase > 0;
      var dip := if useEv then r.ev else r.gain;
      var dipHave := useEv || r.haveGain;
      var limit := (if useEv then st.evBase else st.gainBase) * cfg.probeGainPct / 100;
      return dipHave && dip < limit;
    }

    /** One watched poll: whether it is the third dip running. */
    method Dip(dips: bool) returns (third: bool)
      requires st.dipRun == Trailing(watched)
      modifies this`st, this`watched
      ensures st.dipRun == Trailing(watched)
      ensures third == LastAgree(old(watched) + [dips], 3) == (dips && old(st).dipRun >= 2)
      ensures st == old(st).(dipRun := if third || !dips then 0 else old(st).dipRun + 1)
      ensures watched == if third then [] else old(watched) + [dips]
    {
      TrailingIsLastAgree(watched + [dips], 3);
      OneMoreVote(watched, dips);
      watched := watched + [dips];
      st := st.(dipRun := if dips then st.dipRun + 1 else 0);
      if st.dipRun < 3 {
        return false;
      }
      st, watched := st.(dipRun := 0), [];
      return true;
    }

    /** Whether a quiet night's reading calls for a probe: the third dip running among the polls that
        were watched for one, or the interval recheck. */
    method ProbeDue(r: Reading) returns (due: bool)
      requires Valid()
      modifies this`st, this`watched
      ensures Valid() && due == Due(cfg, old(st), r) && st == Watched(cfg, old(st), r)
      ensures due <==> Rechecked(cfg, old(st)) || (old(st).holdoff == 0 && LastAgree(old(watched) + [Dips(cfg, old(st), r)], 3))
      ensures watched == if due then [] else if old(st).holdoff > 0 then old(watched)
                         else old(watched) + [Dips(cfg, old(st), r)]
    {
      var dips := DipsNow(r);
      due := Recheck();
      if due {
        st, watched := st.(dipRun := 0), [];
      } else if st.holdoff > 0 {
        st := st.(holdoff := st.holdoff - 1);
      } else {
        due := Dip(dips);
      }
    }

    /** The clock of the interval recheck. */
    method Recheck() returns (due: bool)
      modifies this`st
      ensures due == Rechecked(cfg, old(st))
      ensures st == old(st).(recheck := if cfg.recheckSec > 0 && old(st).recheck > 0 then old(st).recheck - 1 else old(st).recheck)
    {
      due := false;
      if cfg.recheckSec > 0 && st.recheck > 0 {
        st := st.(recheck := st.recheck - 1);
        due := st.recheck == 0;
      }
    }

    /** A poll of a quiet night, which may begin a probe: lights off. */
    method WatchForProbe(r: Reading)
      requires Valid() && cfg.trigger == Luma && !st.probeActive
      modifies this`st, this`watched
      ensures Valid() && st == (if Due(cfg, old(st), r) then Lifted(cfg, Watched(cfg, old(st), r)) else Watched(cfg, old(st), r))
      ensures st.probeActive <==> Rechecked(cfg, old(st)) || (old(st).holdoff == 0 && LastAgree(old(watched) + [Dips(cfg, old(st), r)], 3))
    {
      var due := ProbeDue(r);
      if due {
        DriveEnabled(false);
        st := st.(probeActive := true, probeLeft := PROBE_SETTLE + cfg.hysteresis + 3);
      }
    }

    /** A poll of a probe: after the last of them the lights come on again and everything settles anew. */
    method OnWithProbe()
      requires Valid() && st.probeActive && st.mode == Night
      modifies this`st, this`seen
      ensures Valid() && st == if old(st).probeLeft > 1 then old(st).(probeLeft := old(st).probeLeft - 1) else Relit(cfg, old(st))
      ensures seen == if old(st).probeLeft > 1 then old(seen) else []
    {
      st := st.(probeLeft := st.probeLeft - 1);
      if st.probeLeft == 0 {
        DriveEnabled(true);
        st := st.(probeActive := false, holdoff := cfg.holdoffSec * 1000 / cfg.pollMs);
        SettleBegin();
      }
    }

    /** The probe: lights off, three polls to settle, hysteresis + 2 polls to judge, lights on again. */
    method Probe(r: Reading, wantNight: bool, wantDay: bool) returns (night: bool, day: bool)
      requires Valid() && cfg.trigger == Luma
      modifies this`st, this`seen, this`watched
      ensures Valid() && votes == old(votes) && st == Probed(cfg, old(st), r)
      ensures (night, day) == (if Suppressed(cfg, old(st)) then (false, false) else (wantNight, wantDay))
      ensures seen == if MayProbe(cfg, old(st)) && old(st).probeActive && !st.probeActive then [] else old(seen)
      ensures st.probeActive && !old(st).probeActive ==> ProbeDueBy(cfg, old(st), r, old(watched))
    {
      night, day := wantNight, wantDay;
      if st.probeActive && st.mode != Night {
        st := st.(probeActive := false, holdoff := cfg.holdoffSec * 1000 / cfg.pollMs);
      }
      if st.mode == Night && IrBanks(st) && cfg.probeGainPct > 0 && st.gainBase > 0 && st.lockoutPolls == 0 {
        if !st.probeActive {
          WatchForProbe(r);
        } else if st.probeLeft > 0 {
          OnWithProbe();
          if st.probeLeft > cfg.hysteresis + 2 {
            night, day := false, false;
          }
        }
      }
    }

    /** What the readings and the probe come to. */
    method Look(r: Reading) returns (night: bool, day: bool)
      requires Valid() && cfg.trigger == Luma
      modifies this`st, this`seen, this`watched
      ensures Valid() && votes == old(votes) && st == Probed(cfg, Raised(old(st), r), r)
      ensures st.mode == old(st).mode && st.lockoutPolls == old(st).lockoutPolls
      ensures if st.mode == Day then night == WantsNight(cfg, r) else day == Leans(cfg, old(st), r)
      ensures st.probeActive && !old(st).probeActive ==> ProbeDueBy(cfg, Raised(old(st), r), r, old(watched))
    {
      night, day := LumaWants(r);
      ProbedKeeps(cfg, st, r);
      night, day := Probe(r, night, day);
    }

    /** And with the lockout. */
    method LumaJudges(r: Reading) returns (night: bool, day: bool)
      requires Valid() && cfg.trigger == Luma
      modifies this`st, this`seen, this`watched
      ensures Valid() && votes == old(votes) && st == Judged(cfg, old(st), r)
      ensures (if st.mode == Day then night else day) == LumaVote(cfg, old(st), r)
      ensures st.probeActive && !old(st).probeActive ==> ProbeDueBy(cfg, Raised(old(st), r), r, old(watched))
    {
      night, day := Look(r);
      day := Lockout(day);
    }

    /** A day that was taken back is not tried again for a while. */
    method Lockout(wantDay: bool) returns (day: bool)
      requires Valid()
      modifies this`st
      ensures Valid() && st == old(st).(lockoutPolls := if old(st).lockoutPolls > 0 then old(st).lockoutPolls - 1 else 0)
      ensures day == (wantDay && old(st).lockoutPolls == 0)
    {
      day := wantDay;
      if st.lockoutPolls > 0 {
        st := st.(lockoutPolls := st.lockoutPolls - 1);
        day := false;
      }
    }

    /** An evaluated poll of the luma trigger. */
    method LumaPoll(r: Reading)
      requires Valid() && st.cooldown == 0 && cfg.trigger == Luma
      modifies this`st, this`votes, this`seen, this`watched
      ensures Valid() && Evaluated(cfg, Judged(cfg, old(st), r), old(votes), LumaVote(cfg, old(st), r), st, votes)
      ensures st.probeActive && !old(st).probeActive ==> ProbeDueBy(cfg, Raised(old(st), r), r, old(watched))
    {
      var night, day := LumaJudges(r);
      Debounce(night, day);
    }

    /** A poll that brings something to act on. */
    method Attend(r: Reading, adc: int)
      requires Valid() && (cfg.trigger == Adc || r.haveGain || r.haveLuma || r.haveEv)
      modifies this`st, this`votes, this`seen, this`watched
      ensures Valid()
      ensures old(st).cooldown == 0 && (cfg.trigger == Adc ==> adc >= 0) ==>
                Evaluated(cfg, Considered(cfg, old(st), r), old(votes), Vote(cfg, old(st), r, adc), st, votes)
      ensures old(st).cooldown == 0 && cfg.trigger == Adc && adc < 0 ==> st == old(st) && votes == old(votes)
      ensures old(st).cooldown > 0 ==>
                if old(st).mode == Night then Cooled(cfg, old(st), st, r, seen) && votes == old(votes) && seen == old(seen) + [r]
                else CooledByDay(cfg, old(st), st, r) && (st.mode == Day ==> votes == old(votes))
      ensures st.probeActive && !old(st).probeActive ==> ProbeDueBy(cfg, Raised(old(st), r), r, old(watched))
    {
      if st.cooldown > 0 {
        CooldownPoll(r);
        return;
      }
      match cfg.trigger
      case Luma =>
        LumaPoll(r);
      case Adc =>
        if adc >= 0 { Debounce(adc < cfg.nightLevel, adc > cfg.dayLevel); }
      case Gain =>
        Debounce(r.haveGain && r.gain > cfg.nightLevel, r.haveGain && r.gain < cfg.dayLevel);
    }

    /** ric_poll_exposure: one poll, whatever it brings. */
    method Poll(auto: bool, query: Query, adc: int)
      requires Valid()
      modifies this`st, this`votes, this`seen, this`watched
      ensures Valid()
      ensures !Heeded(cfg, auto, query) ==> st == old(st) && votes == old(votes) && seen == old(seen) && watched == old(watched)
      ensures Heeded(cfg, auto, query) && old(st).cooldown == 0 && (cfg.trigger == Adc ==> adc >= 0) ==>
                Evaluated(cfg, Considered(cfg, old(st), query.reading), old(votes), Vote(cfg, old(st), query.reading, adc), st, votes)
      ensures Heeded(cfg, auto, query) && old(st).cooldown == 0 && cfg.trigger == Adc && adc < 0 ==> st == old(st) && votes == old(votes)
      ensures Heeded(cfg, auto, query) && old(st).cooldown > 0 ==>
                if old(st).mode == Night then Cooled(cfg, old(st), st, query.reading, seen)
                                              && votes == old(votes) && seen == old(seen) + [query.reading]
                else CooledByDay(cfg, old(st), st, query.reading) && (st.mode == Day ==> votes == old(votes))
      ensures st.probeActive && !old(st).probeActive ==>
                query.Answered? && ProbeDueBy(cfg, Raised(old(st), query.reading), query.reading, old(watched))
    {
      if query.Failed? || !auto {
        return;
      }
      var r := query.reading;
      if cfg.trigger != Adc && !r.haveGain && !r.haveLuma && !r.haveEv {
        return;
      }
      Attend(r, adc);
    }
  }
}
