/**
 * Whole runs of the day/night controller (ric/ric_daynight.c, ric/ric_main.c): when luma is trusted
 * although a light shines, and how long a cooldown and a probe can last.
 */
module DayNightRuns {
  import opened DayNight

  // ----- one call ------------------------------------------------------------------------------

  datatype Call = Forcing(mode: Mode) | Enabling(bank940: bool, on: bool) | Rearming | Polled(auto: bool, query: Query, adc: int)

  // Luma is trusted although an enabled light shines: a probe is marked active in a lit night.
  predicate Stale(st: State) { st.mode == Night && st.probeActive && (Shining(st.ir850) || Shining(st.ir940)) }

  // The calls that bring this about: the night is forced while a probe is marked, a bank is enabled
  // during one, or a day found by a probe fails its verification.
  predicate Breaks(cfg: Settings, st: State, call: Call) {
    st.probeActive &&
    match call
    case Forcing(m) => m == Night && IrBanks(st)
    case Enabling(bank940, on) => st.mode == Night && on && (if bank940 then st.ir940 else st.ir850).pin
    case Rearming => false
    case Polled(auto, query, _) => Heeded(cfg, auto, query) && FailsVerification(cfg, st, query.reading) && IrBanks(st)
  }

  predicate BreaksOrKeeps(cfg: Settings, st: State, call: Call, now: State) {
    !Stale(st) ==> (Stale(now) <==> Breaks(cfg, st, call))
  }

  lemma ForcingBreaks(cfg: Settings, st: State, m: Mode)
    ensures BreaksOrKeeps(cfg, st, Forcing(m), Forced(st, m))
  {
    assert Forced(st, m).ir850 == EnabledDriven(st.ir850, m == Night) && Forced(st, m).ir940 == EnabledDriven(st.ir940, m == Night);
  }

  lemma EnablingBreaks(cfg: Settings, st: State, bank940: bool, on: bool)
    ensures BreaksOrKeeps(cfg, st, Enabling(bank940, on), Allowed(st, bank940, on))
  {
  }

  // A poll of the same mode leaves luma as trustworthy as it was, and by day no probe marked.
  predicate KeepsTrust(st: State, now: State) {
    now.mode == st.mode && (!Stale(st) ==> !Stale(now)) && (st.mode == Day ==> !now.probeActive)
  }

  lemma ProbingKeepsTrust(cfg: Settings, st: State, r: Reading)
    requires cfg.pollMs >= 1 && (st.probeActive ==> st.probeLeft >= 1)
    ensures KeepsTrust(st, Probed(cfg, st, r))
  {
  }

  lemma ConsideringKeepsTrust(cfg: Settings, st: State, r: Reading)
    requires cfg.pollMs >= 1 && (st.probeActive ==> st.probeLeft >= 1) && (cfg.trigger != Luma ==> !st.probeActive)
    ensures KeepsTrust(st, Considered(cfg, st, r))
  {
    ProbingKeepsTrust(cfg, Raised(st, r), r);
  }

  lemma TurningKeepsTrust(cfg: Settings, st: State)
    requires !Stale(st) && (st.mode == Day ==> !st.probeActive)
    ensures !Stale(Turned(cfg, st))
  {
  }

  lemma EvaluatingKeepsTrust(cfg: Settings, st: State, r: Reading, votes: seq<bool>, v: bool, now: State, votes': seq<bool>)
    requires cfg.pollMs >= 1 && (st.probeActive ==> st.probeLeft >= 1) && (cfg.trigger != Luma ==> !st.probeActive)
    requires !Stale(st) && Evaluated(cfg, Considered(cfg, st, r), votes, v, now, votes')
    ensures !Stale(now)
  {
    ConsideringKeepsTrust(cfg, st, r);
    TurningKeepsTrust(cfg, Considered(cfg, st, r));
  }

  lemma CoolingByDayBreaks(cfg: Settings, st: State, now: State, r: Reading)
    requires st.cooldown > 0 && st.mode == Day && CooledByDay(cfg, st, now, r)
    ensures Stale(now) <==> FailsVerification(cfg, st, r) && st.probeActive && IrBanks(st)
  {
  }

  // By day no enabled light shines.
  predicate LitByNight(st: State) { st.mode == Day ==> !Shining(st.ir850) && !Shining(st.ir940) }

  lemma LightsAreLitByNight(st: State)
    requires Lights(st)
    ensures LitByNight(st)
  {
  }

  method ActPoll(ric: Ric, auto: bool, query: Query, adc: int)
    requires ric.Valid()
    modifies ric
    ensures ric.Valid() && BreaksOrKeeps(ric.cfg, old(ric.st), Polled(auto, query, adc), ric.st)
  {
    ghost var st, votes := ric.st, ric.votes;
    ric.Poll(auto, query, adc);
    if Heeded(ric.cfg, auto, query) && !Stale(st) {
      var r := query.reading;
      if st.cooldown == 0 {
        if ric.cfg.trigger != Adc || adc >= 0 {
          EvaluatingKeepsTrust(ric.cfg, st, r, votes, Vote(ric.cfg, st, r, adc), ric.st, ric.votes);
        }
      } else if st.mode == Day {
        CoolingByDayBreaks(ric.cfg, st, ric.st, r);
      }
    }
  }

  method Act(ric: Ric, call: Call)
    requires ric.Valid()
    modifies ric
    ensures ric.Valid() && LitByNight(ric.st) && BreaksOrKeeps(ric.cfg, old(ric.st), call, ric.st)
  {
    match call {
      case Forcing(m) =>
        ForcingBreaks(ric.cfg, ric.st, m);
        ric.ForceMode(m);
      case Enabling(bank940, on) =>
        EnablingBreaks(ric.cfg, ric.st, bank940, on);
        ric.Enable(bank940, on);
      case Rearming => ric.Rearm();
      case Polled(auto, query, adc) => ActPoll(ric, auto, query, adc);
    }
    LightsAreLitByNight(ric.st);
  }

  // ----- every run -----------------------------------------------------------------------------

  lemma {:induction false} NeverBroken(cfg: Settings, states: seq<State>, calls: seq<Call>, n: nat)
    requires |states| == |calls| + 1 && n <= |calls| && !Stale(states[0])
    requires forall i | 0 <= i < |calls| :: BreaksOrKeeps(cfg, states[i], calls[i], states[i + 1]) && !Breaks(cfg, states[i], calls[i])
    ensures !Stale(states[n])
  {
    if n > 0 {
      NeverBroken(cfg, states, calls, n - 1);
      assert BreaksOrKeeps(cfg, states[n - 1], calls[n - 1], states[n - 1 + 1]);
    }
  }

  predicate Trustworthy(st: State) { LumaTrusted(st) ==> !Shining(st.ir850) && !Shining(st.ir940) }

  lemma {:induction false} UntilBroken(cfg: Settings, states: seq<State>, calls: seq<Call>)
    requires |states| == |calls| + 1 && !Stale(states[0]) && forall n | 0 <= n <= |calls| :: LitByNight(states[n])
    requires forall i | 0 <= i < |calls| :: BreaksOrKeeps(cfg, states[i], calls[i], states[i + 1])
    ensures (forall n | 0 <= n <= |calls| :: Trustworthy(states[n])) <==> (forall n | 0 <= n < |calls| :: !Breaks(cfg, states[n], calls[n]))
  {
    forall n | 0 <= n <= |calls| ensures Trustworthy(states[n]) <==> !Stale(states[n]) {
      assert LitByNight(states[n]);
    }
    if forall n | 0 <= n < |calls| :: !Breaks(cfg, states[n], calls[n]) {
      forall n | 0 <= n <= |calls| ensures Trustworthy(states[n]) { NeverBroken(cfg, states, calls, n); }
    }
    if forall n | 0 <= n <= |calls| :: Trustworthy(states[n]) {
      forall n | 0 <= n < |calls| ensures !Breaks(cfg, states[n], calls[n]) {
        assert BreaksOrKeeps(cfg, states[n], calls[n], states[n + 1]);
        assert Trustworthy(states[n]) && Trustworthy(states[n + 1]);
      }
    }
  }

  /** Luma should be trusted only while no enabled light shines. Over any run of calls it is, at every
      moment, if and only if no call of the run breaks it. */
  method Operate(ric: Ric, calls: seq<Call>) returns (ghost states: seq<State>)
    requires ric.Valid() && !Stale(ric.st)
    modifies ric
    ensures ric.Valid() && |states| == |calls| + 1 && states[0] == old(ric.st) && states[|calls|] == ric.st
    ensures (forall n | 0 <= n <= |calls| :: Trustworthy(states[n])) <==> (forall n | 0 <= n < |calls| :: !Breaks(ric.cfg, states[n], calls[n]))
  {
    states := [ric.st];
    var i := 0;
    while i < |calls|
      invariant 0 <= i <= |calls| && ric.Valid() && |states| == i + 1 && states[0] == old(ric.st) && states[i] == ric.st
      invariant forall n | 0 <= n <= i :: LitByNight(states[n])
      invariant forall n | 0 <= n < i :: BreaksOrKeeps(ric.cfg, states[n], calls[n], states[n + 1])
    {
      Act(ric, calls[i]);
      states := states + [ric.st];
      i := i + 1;
    }
    UntilBroken(ric.cfg, states, calls);
  }

  // ----- how long a cooldown and a probe last ---------------------------------------------------

  // A night's cooldown has moved on, or ended with the reading r, and nothing else has changed.
  predicate Rested(cfg: Settings, st: State, now: State, r: Reading)
    requires cfg.pollMs >= 1
  {
    && now == st.(cooldown := now.cooldown, agreeRun := now.agreeRun, extendLeft := now.extendLeft, prevGain := now.prevGain,
                  prevEv := now.prevEv, gainBase := now.gainBase, evBase := now.evBase, recheck := now.recheck)
    && (now.cooldown == 0 ==> now.gainBase == r.gain && now.evBase == r.ev && now.recheck == cfg.recheckSec * 1000 / cfg.pollMs)
  }

  lemma RestGoesOn(cfg: Settings, st: State, mid: State, now: State, q: Reading, r: Reading, seen: seq<Reading>)
    requires cfg.pollMs >= 1 && Rested(cfg, st, mid, q) && Cooled(cfg, mid, now, r, seen)
    ensures Rested(cfg, st, now, r)
  {
  }

  /** A night's cooldown ends within 3 + 17 polls that bring something, whatever they bring, and its last
      reading is the baseline. */
  method CoolDown(ric: Ric, readings: seq<Reading>, adc: int) returns (n: nat)
    requires ric.Valid() && ric.st.mode == Night && ric.st.cooldown > 0 && readings != []
    requires forall i | 0 <= i < |readings| :: Heeded(ric.cfg, true, Answered(readings[i]))
    modifies ric
    ensures ric.Valid() && ric.st.mode == Night && 0 < n <= |readings| && (ric.st.cooldown == 0 || n == |readings|)
    ensures ric.seen == old(ric.seen) + readings[..n] && |ric.seen| <= 3 + EXTEND_POLLS && ric.votes == old(ric.votes)
    ensures ric.st.cooldown > 0 ==> |ric.seen| < 3 + EXTEND_POLLS
    ensures Rested(ric.cfg, old(ric.st), ric.st, readings[n - 1])
  {
    n := 0;
    while n == 0 || (n < |readings| && ric.st.cooldown > 0)
      invariant n <= |readings| && ric.Valid() && ric.st.mode == Night && (n == 0 ==> ric.st == old(ric.st))
      invariant ric.seen == old(ric.seen) + readings[..n] && ric.votes == old(ric.votes)
      invariant n > 0 ==> |ric.seen| <= 3 + EXTEND_POLLS && (ric.st.cooldown > 0 ==> |ric.seen| < 3 + EXTEND_POLLS)
      invariant n > 0 ==> Rested(ric.cfg, old(ric.st), ric.st, readings[n - 1])
      decreases |readings| - n
    {
      ghost var mid := ric.st;
      ric.Poll(true, Answered(readings[n]), adc);
      RestGoesOn(ric.cfg, old(ric.st), mid, ric.st, readings[if n == 0 then 0 else n - 1], readings[n], ric.seen);
      n := n + 1;
    }
  }

  // One poll of a probe: it counts down, and ends at one, unless the vote makes it day.
  lemma ProbePoll(cfg: Settings, st: State, r: Reading, votes: seq<bool>, v: bool, now: State, votes': seq<bool>)
    requires cfg.pollMs >= 1 && cfg.trigger == Luma && MayProbe(cfg, st) && st.probeActive && st.probeLeft >= 1 && st.cooldown == 0
    requires Evaluated(cfg, Considered(cfg, st, r), votes, v, now, votes')
    ensures now.mode == Night ==> now.probeActive == (st.probeLeft > 1)
    ensures now.mode == Night && now.probeActive ==> now.probeLeft == st.probeLeft - 1 && now.cooldown == 0 && MayProbe(cfg, now)
  {
    assert Raised(st, r) == st;
  }

  /** A probe ends, by a day or by the lights coming on again, within as many polls that bring something
      as it has left: PROBE_SETTLE + hysteresis + 3 from its beginning. */
  method ProbeOut(ric: Ric, readings: seq<Reading>, adc: int) returns (n: nat)
    requires ric.Valid() && ric.cfg.trigger == Luma && MayProbe(ric.cfg, ric.st) && ric.st.probeActive && ric.st.cooldown == 0
    requires forall i | 0 <= i < |readings| :: Heeded(ric.cfg, true, Answered(readings[i]))
    modifies ric
    ensures ric.Valid() && n <= |readings| && n <= old(ric.st).probeLeft <= PROBE_SETTLE + ric.cfg.hysteresis + 3
    ensures (ric.st.mode == Night && ric.st.probeActive) ==> n == |readings| && ric.st.probeLeft == old(ric.st).probeLeft - n
    ensures |readings| >= old(ric.st).probeLeft ==> ric.st.mode == Day || !ric.st.probeActive
  {
    n := 0;
    while n < |readings| && ric.st.mode == Night && ric.st.probeActive
      invariant n <= |readings| && n <= old(ric.st).probeLeft && ric.Valid()
      invariant ric.st.mode == Night && ric.st.probeActive ==>
        ric.st.probeLeft == old(ric.st).probeLeft - n && MayProbe(ric.cfg, ric.st) && ric.st.cooldown == 0
      decreases |readings| - n
    {
      ghost var st, votes := ric.st, ric.votes;
      ric.Poll(true, Answered(readings[n]), adc);
      ProbePoll(ric.cfg, st, readings[n], votes, Vote(ric.cfg, st, readings[n], adc), ric.st, ric.votes);
      n := n + 1;
    }
  }

  /** And it begins, in a quiet night, with exactly the evaluated poll at which it may and is due. */
  lemma ProbeBeginsIff(cfg: Settings, st: State, r: Reading, watched: seq<bool>, votes: seq<bool>, v: bool, now: State, votes': seq<bool>)
    requires cfg.pollMs >= 1 && cfg.trigger == Luma && st.mode == Night && !st.probeActive && st.dipRun == Trailing(watched)
    requires Evaluated(cfg, Considered(cfg, st, r), votes, v, now, votes')
    ensures now.probeActive <==> ProbeDueBy(cfg, Raised(st, r), r, watched)
  {
    var s := Raised(st, r);
    OneMoreVote(watched, Dips(cfg, s, r));
    TrailingIsLastAgree(watched + [Dips(cfg, s, r)], 3);
  }

  // ----- three runs that break the trust --------------------------------------------------------

  // One poll of agreement, an interval recheck after one quiet poll, and no holdoff.
  const CFG := Settings(Luma, 1, 100, 100000, 30, 90, 1, 0, 1000, 0, 0)
  const DARK := Reading(1000, 50, 0, true, true, false)
  const BRIGHT := Reading(1000, 150, 0, true, true, false)

  // One bank in use and one with a pin but not enabled, by night, with the probe at the given count.
  predicate Scene(st: State, probing: bool, left: nat) {
    && st.mode == Night && st.cooldown == 0 && st.gainBase == 1000 && st.evBase == 0 && st.lockoutPolls == 0
    && st.ir850 == Bank(true, true, !probing) && st.ir940 == Bank(true, false, false)
    && st.probeActive == probing && (probing ==> st.probeLeft == left)
  }

  method QuietNight() returns (ric: Ric)
    ensures fresh(ric) && ric.Valid() && ric.cfg == CFG && Scene(ric.st, false, 0) && ric.st.recheck == 1
  {
    ric := new Ric(CFG, true, true, true, false, Night);
    var readings := seq(3 + EXTEND_POLLS, _ => DARK);
    var n := CoolDown(ric, readings, 0);
  }

  lemma RecheckLifts(st: State)
    requires Scene(st, false, 0) && st.recheck == 1
    ensures Scene(Considered(CFG, st, DARK), true, 7) && !Vote(CFG, st, DARK, 0)
  {
    assert Raised(st, DARK) == st;
  }

  method ProbingNight() returns (ric: Ric)
    ensures fresh(ric) && ric.Valid() && ric.cfg == CFG && Scene(ric.st, true, 7)
  {
    ric := QuietNight();
    RecheckLifts(ric.st);
    ghost var votes := ric.votes;
    ric.Poll(true, Answered(DARK), 0);
    assert (votes + [false])[|votes|] == false;
  }

  /** The night is forced during a probe: the lights are on and luma is trusted. */
  method ForcedNightRun() returns (ric: Ric)
    ensures fresh(ric) && ric.Valid() && Stale(ric.st) && LumaTrusted(ric.st)
  {
    ric := ProbingNight();
    ric.ForceMode(Night);
  }

  /** A bank is enabled during a probe: it shines and luma is trusted. */
  method BankEnabledRun() returns (ric: Ric)
    ensures fresh(ric) && ric.Valid() && Stale(ric.st) && LumaTrusted(ric.st)
  {
    ric := ProbingNight();
    ric.Enable(true, true);
  }

  lemma BrightIsSuppressed(st: State, left: nat)
    requires Scene(st, true, left) && 5 <= left <= 7
    ensures Scene(Considered(CFG, st, BRIGHT), true, left - 1) && !Vote(CFG, st, BRIGHT, 0)
  {
    assert Raised(st, BRIGHT) == st;
  }

  method BrightPoll(ric: Ric, left: nat)
    requires ric.Valid() && ric.cfg == CFG && Scene(ric.st, true, left) && 5 <= left <= 7
    modifies ric
    ensures ric.Valid() && Scene(ric.st, true, left - 1)
  {
    BrightIsSuppressed(ric.st, left);
    ghost var votes := ric.votes;
    ric.Poll(true, Answered(BRIGHT), 0);
    assert (votes + [false])[|votes|] == false;
  }

  lemma BrightIsDay(st: State)
    requires Scene(st, true, 4)
    ensures Scene(Considered(CFG, st, BRIGHT), true, 3) && Vote(CFG, st, BRIGHT, 0)
  {
    assert Raised(st, BRIGHT) == st;
  }

  // The day a probe found, with its verification ahead and the probe still marked.
  predicate FoundDay(st: State, cooldown: nat) {
    && st.mode == Day && st.dayVerify && st.probeActive && st.cooldown == cooldown
    && st.ir850 == Bank(true, true, false) && st.ir940 == Bank(true, false, false)
  }

  method DayByProbe() returns (ric: Ric)
    ensures fresh(ric) && ric.Valid() && ric.cfg == CFG && FoundDay(ric.st, 3)
  {
    ric := ProbingNight();
    BrightPoll(ric, 7);
    BrightPoll(ric, 6);
    BrightPoll(ric, 5);
    BrightIsDay(ric.st);
    ghost var votes := ric.votes;
    ric.Poll(true, Answered(BRIGHT), 0);
    assert LastAgree(votes + [true], 1);
  }

  method DarkPoll(ric: Ric, cooldown: nat)
    requires ric.Valid() && ric.cfg == CFG && FoundDay(ric.st, cooldown) && cooldown > 1
    modifies ric
    ensures ric.Valid() && FoundDay(ric.st, cooldown - 1)
  {
    ric.Poll(true, Answered(DARK), 0);
  }

  lemma TakenBackIsStale(st: State, now: State)
    requires FoundDay(st, 1) && CooledByDay(CFG, st, now, DARK)
    ensures Stale(now) && LumaTrusted(now)
  {
    assert now.ir850 == EnabledDriven(st.ir850, true);
  }

  /** A probe finds a day that then reads dark without the light: the lights are on again, and luma is
      trusted. */
  method TakenBackRun() returns (ric: Ric)
    ensures fresh(ric) && ric.Valid() && Stale(ric.st) && LumaTrusted(ric.st)
  {
    ric := DayByProbe();
    DarkPoll(ric, 3);
    DarkPoll(ric, 2);
    ghost var st := ric.st;
    ric.Poll(true, Answered(DARK), 0);
    TakenBackIsStale(st, ric.st);
  }
}
