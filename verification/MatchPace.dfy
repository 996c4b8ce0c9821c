/** How late the periods of a match can begin when the ticks come at most a given gap apart. */
module MatchPace {
  import opened Timing
  import opened MatchState
  import opened MatchSafety
  import opened MatchClock

  /** While a match is running, this tick comes within the gap of the one before it. */
  predicate PacedAt(s: State, now: int, gap: int) {
    Running(s.phase) ==> s.lastMatchTime <= MatchTime(s, now) <= s.lastMatchTime + gap
  }

  predicate Paced(cfg: Config, s: State, run: Run, gap: int) {
    match run
    case Begin => true
    case Then(before, now, e) => Paced(cfg, s, before, gap) && (e.Tick? ==> PacedAt(Ran(cfg, s, before), now, gap))
  }

  function Later(t: int, u: int): int { if t < u then u else t }

  /** The latest that a tick can still leave a match in a period before teleop: just before the period is
      over, or where a late tick entered it. */
  function LastTick(tm: MatchTiming, gap: int, phase: Phase): int {
    match phase
    case WarmupPeriod => Seconds(tm.warmupSec) - 1
    case AutoPeriod => LastAutoTick(tm, gap)
    case _ => Later(LastAutoTick(tm, gap) + gap, tm.TeleopStart() - 1)
  }

  function LastAutoTick(tm: MatchTiming, gap: int): int {
    Later(if tm.warmupSec > 0 then Seconds(tm.warmupSec) - 1 + gap else 0, tm.AutoEnd() - 1)
  }

  /** The latest that a tick can enter teleop. */
  function LatestEntry(tm: MatchTiming, gap: int): int {
    LastTick(tm, gap, if tm.pauseSec > 0 then PausePeriod else AutoPeriod) + gap
  }

  predicate BeforeTeleop(phase: Phase) { phase in {WarmupPeriod, AutoPeriod, PausePeriod} }

  lemma NextTickIsSoon(tm: MatchTiming, gap: int, phase: Phase)
    requires tm.Valid() && 0 <= gap && BeforeTeleop(phase) && (phase == PausePeriod ==> 0 < tm.pauseSec)
    ensures LastTick(tm, gap, phase) + gap <= LatestEntry(tm, gap)
  {
  }

  /** No later than that. */
  predicate Punctual(cfg: Config, s: State, gap: int) {
    BeforeTeleop(s.phase) ==>
      && s.lastMatchTime <= LastTick(cfg.tm, gap, s.phase)
      && (s.phase == WarmupPeriod ==> 0 < cfg.tm.warmupSec) && (s.phase == PausePeriod ==> 0 < cfg.tm.pauseSec)
  }

  lemma AdvanceArrives(cfg: Config, s: State, now: int, coin: bool)
    requires BeforeTeleop(Advanced(cfg, s, now, coin).s.phase)
    ensures var to := Advanced(cfg, s, now, coin).s.phase;
            || (to == s.phase && MatchTime(s, now) < Closes(cfg.tm, to))
            || (s.phase == StartMatch && to == if cfg.tm.warmupSec > 0 then WarmupPeriod else AutoPeriod)
            || (s.phase == WarmupPeriod && to == AutoPeriod)
            || (s.phase == AutoPeriod && to == PausePeriod && 0 < cfg.tm.pauseSec)
  {
    if s.phase == PostMatch { ClearedIsPreMatch(cfg, s); }
  }

  lemma SentClock(cfg: Config, s: State, now: int, coin: bool)
    ensures Sent(cfg, s, now, coin).lastMatchTime == MatchTime(s, now)
  {
  }

  lemma StopsKeepClock(a: State, now: int, tick: TickInput)
    ensures StopsPolled(a, now, tick).lastMatchTime == a.lastMatchTime
  {
    PanelsOnlyStop(FieldStopPolled(a, tick.fieldStop, now), tick.inputs, now + tick.lag);
  }

  lemma OutputsKeepClock(cfg: Config, p: State, now: int, tick: TickInput)
    ensures OutputsSet(cfg, p, now, tick).lastMatchTime == p.lastMatchTime
  {
    LampsContinue(cfg, CueSounded(cfg, p), now);
  }

  /** A tick notes the match time at which it came. */
  lemma TickClock(cfg: Config, s: State, now: int, tick: TickInput)
    ensures Ticked(cfg, s, now, tick).lastMatchTime == MatchTime(s, now)
  {
    var a := Sent(cfg, s, now, tick.coin);
    SentClock(cfg, s, now, tick.coin);
    StopsKeepClock(a, now, tick);
    OutputsKeepClock(cfg, StopsPolled(a, now, tick), now, tick);
  }

  lemma ArrivedIsPunctual(tm: MatchTiming, gap: int, from: Phase, last: int, to: Phase, time: int)
    requires tm.Valid() && 0 <= gap && BeforeTeleop(to)
    requires BeforeTeleop(from) ==> last <= LastTick(tm, gap, from) && time <= last + gap
    requires from == StartMatch ==> time == 0
    requires from == WarmupPeriod ==> 0 < tm.warmupSec
    requires from == to == PausePeriod ==> 0 < tm.pauseSec
    requires || (to == from && time < Closes(tm, to))
             || (from == StartMatch && to == if tm.warmupSec > 0 then WarmupPeriod else AutoPeriod)
             || (from == WarmupPeriod && to == AutoPeriod)
             || (from == AutoPeriod && to == PausePeriod && 0 < tm.pauseSec)
    ensures time <= LastTick(tm, gap, to)
  {
  }

  lemma PunctualTick(cfg: Config, s: State, now: int, tick: TickInput, gap: int)
    requires cfg.tm.Valid() && 0 <= gap && Punctual(cfg, s, gap) && PacedAt(s, now, gap)
    ensures Punctual(cfg, Ticked(cfg, s, now, tick), gap)
  {
    var c := HubsCounted(cfg, s, now);
    var t := Ticked(cfg, s, now, tick);
    SentKeeps(cfg, s, now, tick.coin);
    TickAfterSent(cfg, Sent(cfg, s, now, tick.coin), now, tick);
    TickClock(cfg, s, now, tick);
    if BeforeTeleop(t.phase) {
      AdvanceArrives(cfg, c, now, tick.coin);
      ArrivedIsPunctual(cfg.tm, gap, s.phase, s.lastMatchTime, t.phase, MatchTime(s, now));
    }
  }

  lemma PunctualCommand(cfg: Config, s: State, now: int, e: Event, gap: int)
    requires Punctual(cfg, s, gap) && !e.Tick?
    ensures Punctual(cfg, Step(cfg, s, now, e), gap)
  {
    if e.Clear? && s.phase == PostMatch { ClearedIsPreMatch(cfg, s); }
  }

  lemma {:induction false} AlwaysPunctual(cfg: Config, s: State, run: Run, gap: int)
    requires cfg.tm.Valid() && 0 <= gap && Punctual(cfg, s, gap) && Paced(cfg, s, run, gap)
    ensures Punctual(cfg, Ran(cfg, s, run), gap)
  {
    match run
    case Begin =>
    case Then(before, now, e) =>
      AlwaysPunctual(cfg, s, before, gap);
      if e.Tick? {
        PunctualTick(cfg, Ran(cfg, s, before), now, e.tick, gap);
      } else {
        PunctualCommand(cfg, Ran(cfg, s, before), now, e, gap);
      }
  }

  /** So a tick that finds the match before teleop comes no later than the latest entry. */
  lemma BeforeTeleopIsSoon(cfg: Config, s: State, now: int, gap: int)
    requires cfg.tm.Valid() && 0 <= gap && Punctual(cfg, s, gap) && PacedAt(s, now, gap) && BeforeTeleop(s.phase)
    ensures MatchTime(s, now) <= LatestEntry(cfg.tm, gap)
  {
    NextTickIsSoon(cfg.tm, gap, s.phase);
  }
}
