/** The runs that show how close ticks must be for the shift-change cue: with any wider gap, some match that
    is played to its end leaves a handover unsounded. */
module MatchCueLaw {
  import opened Common
  import opened Timing
  import opened Hub
  import opened ShiftCue
  import opened MatchState
  import opened MatchSafety
  import opened MatchClock
  import opened MatchPace
  import opened MatchCues
  import opened MatchExact
  import opened MatchStops

  // ----------------------------------------------------------------------------- one quiet tick

  /** Nothing is stopped, and so the shift that the match has reached is sounded. */
  lemma QuietCues(cfg: Config, s: State, now: int)
    requires InProgress(s.phase)
    ensures var t := Ticked(cfg, s, now, QUIET);
            && t.phase == NextPhase(cfg.tm, s.phase, now - s.matchStartTime)
            && t.matchStartTime == (if s.phase == StartMatch then now else s.matchStartTime)
            && t.lastMatchTime == MatchTime(s, now) && t.matchAborted == s.matchAborted
            && t.cues == Sounded(if s.phase == StartMatch then s.cues.(heard := []) else s.cues,
                                 CurrentShift(cfg, t.phase, t.lastMatchTime))
  {
    var c, a := HubsCounted(cfg, s, now), Sent(cfg, s, now, false);
    CountingKeepsPhase(cfg, s, now);
    AdvancePhase(cfg, c, now);
    SentKeeps(cfg, s, now, false);
    QuietTick(cfg, s, now);
    SentCues(cfg, s, now, false);
    QuietAborts(cfg, a, now);
    TickCues(cfg, a, now, QUIET);
    QuietOutputsCue(cfg, a, now);
  }

  lemma CountingKeepsPhase(cfg: Config, s: State, now: int)
    ensures var c := HubsCounted(cfg, s, now); c == s.(redHub := c.redHub, blueHub := c.blueHub)
  {
  }

  lemma QuietAborts(cfg: Config, a: State, now: int)
    ensures OutputsSet(cfg, StopsPolled(a, now, QUIET), now, QUIET).matchAborted == a.matchAborted
  {
    var p := StopsPolled(a, now, QUIET);
    QuietStops(a, now);
    DisplayContinues(cfg, p, now);
    QuietPlc(cfg, Displayed(cfg, p, now), now);
  }

  lemma QuietOutputsCue(cfg: Config, a: State, now: int)
    ensures OutputsSet(cfg, StopsPolled(a, now, QUIET), now, QUIET).cues ==
            Sounded(a.cues, CurrentShift(cfg, a.phase, a.lastMatchTime))
  {
    QuietStops(a, now);
    OutputsCue(cfg, StopsPolled(a, now, QUIET), now, QUIET);
  }

  // ------------------------------------------------------------------------------ runs, tick by tick

  /** Where a run has brought a match that started at 1: its period and its clock, with one handover not yet
      sounded. */
  predicate At(s: State, phase: Phase, time: int, missed: Shift) {
    && s.phase == phase && s.matchStartTime == 1 && s.lastMatchTime == time && !s.matchAborted
    && missed !in s.cues.heard
  }

  /** And with every tick of it within the gap. */
  predicate Reaches(cfg: Config, start: State, run: Run, gap: int, phase: Phase, time: int, missed: Shift) {
    && At(Ran(cfg, start, run), phase, time, missed)
    && Paced(cfg, start, run, gap) && Timely(run, 0, 1 + time)
  }

  /** The handover is not sounded by a tick that finds the match in this period, at this time. */
  predicate Misses(tm: MatchTiming, phase: Phase, time: int, missed: Shift) {
    phase == TeleopPeriod ==> CoarseShift(tm, time) != missed
  }

  lemma TickMoves(cfg: Config, s: State, phase: Phase, last: int, time: int, missed: Shift)
    requires At(s, phase, last, missed) && Running(phase) && missed in {Shift1, Shift2}
    requires Misses(cfg.tm, NextPhase(cfg.tm, phase, time), time, missed)
    ensures At(Ticked(cfg, s, 1 + time, QUIET), NextPhase(cfg.tm, phase, time), time, missed)
  {
    QuietCues(cfg, s, 1 + time);
  }

  lemma OneTick(cfg: Config, start: State, before: Run, gap: int, phase: Phase, last: int, time: int, missed: Shift)
    returns (run: Run)
    requires Reaches(cfg, start, before, gap, phase, last, missed) && Running(phase) && missed in {Shift1, Shift2}
    requires last <= time <= last + gap
    requires Misses(cfg.tm, NextPhase(cfg.tm, phase, time), time, missed)
    ensures Reaches(cfg, start, run, gap, NextPhase(cfg.tm, phase, time), time, missed)
  {
    run := Then(before, 1 + time, Tick(QUIET));
    RanOne(cfg, start, before, 1 + time, Tick(QUIET));
    TickMoves(cfg, Ran(cfg, start, before), phase, last, time, missed);
  }

  /** Within teleop the coarse clock does not turn back. */
  lemma CoarseGoesOn(tm: MatchTiming, t: int, u: int)
    requires tm.Valid() && t <= u
    ensures Handovers(CoarseShift(tm, t)) <= Handovers(CoarseShift(tm, u))
  {
  }

  /** The handover is passed over between these times, or lies before or after both. */
  predicate Between(tm: MatchTiming, phase: Phase, last: int, time: int, missed: Shift) {
    phase == TeleopPeriod ==>
      Handovers(missed) < Handovers(CoarseShift(tm, last)) || Handovers(CoarseShift(tm, time)) < Handovers(missed)
  }

  lemma BetweenMisses(tm: MatchTiming, phase: Phase, last: int, mid: int, time: int, missed: Shift)
    requires tm.Valid() && Between(tm, phase, last, time, missed) && last <= mid <= time
    ensures Misses(tm, phase, mid, missed) && Between(tm, phase, mid, time, missed)
  {
    CoarseGoesOn(tm, last, mid);
    CoarseGoesOn(tm, mid, time);
  }

  /** Ticks a gap apart bring the match to any later time of the same period. */
  lemma {:induction false} TicksTo(cfg: Config, start: State, before: Run, gap: int, phase: Phase, last: int, time: int,
                                   missed: Shift)
    returns (run: Run)
    requires cfg.tm.Valid() && 1 <= gap && Running(phase) && missed in {Shift1, Shift2}
    requires Reaches(cfg, start, before, gap, phase, last, missed)
    requires last <= time && (last < time ==> time < Closes(cfg.tm, phase))
    requires Between(cfg.tm, phase, last, time, missed)
    ensures Reaches(cfg, start, run, gap, phase, time, missed)
    decreases time - last
  {
    run := before;
    if last < time {
      var mid := if last + gap < time then last + gap else time;
      BetweenMisses(cfg.tm, phase, last, mid, time, missed);
      run := OneTick(cfg, start, before, gap, phase, last, mid, missed);
      run := TicksTo(cfg, start, run, gap, phase, mid, time, missed);
    }
  }

  // -------------------------------------------------------------------------- from a start to teleop

  lemma PacedOn(cfg: Config, start: State, before: Run, now: int, e: Event, gap: int)
    requires Paced(cfg, start, before, gap) && (e.Tick? ==> !Running(Ran(cfg, start, before).phase))
    ensures Paced(cfg, start, Then(before, now, e), gap)
  {
  }

  lemma StartedIsPaced(cfg: Config, start: State, gap: int)
    requires Ran(cfg, start, Prepared().before).phase == PreMatch
    ensures Paced(cfg, start, Started(), gap)
  {
    var loaded, prepared := Prepared().before, Prepared();
    PacedOn(cfg, start, Begin, 0, DisableAll, gap);
    PacedOn(cfg, start, loaded.before, 0, Load(NO_TEAMS), gap);
    PacedOn(cfg, start, loaded, 0, Tick(QUIET), gap);
    PacedOn(cfg, start, prepared, 0, Start(FINE), gap);
  }

  lemma SomePacedStart(cfg: Config, gap: int) returns (mode: AutoWinnerMode, started: Run)
    ensures Starts(cfg, Initial(mode), started) && Paced(cfg, Initial(mode), started, gap)
  {
    mode, started := FromCounts, Started();
    MatchStarts(cfg);
    LoadedStations(cfg, 0);
    StartedIsPaced(cfg, Initial(mode), gap);
  }

  lemma TickStarts(cfg: Config, s: State, missed: Shift)
    requires s.phase == StartMatch && !s.matchAborted
    ensures At(Ticked(cfg, s, 1, QUIET), NextPhase(cfg.tm, StartMatch, 0), 0, missed)
  {
    QuietCues(cfg, s, 1);
  }

  lemma SomeMatchBegins(cfg: Config, gap: int, missed: Shift) returns (mode: AutoWinnerMode, run: Run)
    ensures Reaches(cfg, Initial(mode), run, gap, NextPhase(cfg.tm, StartMatch, 0), 0, missed)
  {
    var started;
    mode, started := SomePacedStart(cfg, gap);
    AlwaysAbortedOnlyAfter(cfg, Initial(mode), started);
    run := Then(started, 1, Tick(QUIET));
    RanOne(cfg, Initial(mode), started, 1, Tick(QUIET));
    TickStarts(cfg, Ran(cfg, Initial(mode), started), missed);
  }

  /** The match can be brought into AUTO, and into teleop, as late as the gap allows. */
  lemma LateAuto(cfg: Config, start: State, begun: Run, gap: int, missed: Shift) returns (run: Run)
    requires cfg.tm.Valid() && 1 <= gap && missed in {Shift1, Shift2}
    requires Reaches(cfg, start, begun, gap, NextPhase(cfg.tm, StartMatch, 0), 0, missed)
    ensures Reaches(cfg, start, run, gap, AutoPeriod, LastTick(cfg.tm, gap, AutoPeriod), missed)
  {
    run := begun;
    var entered := 0;
    if 0 < cfg.tm.warmupSec {
      var last := LastTick(cfg.tm, gap, WarmupPeriod);
      run := TicksTo(cfg, start, run, gap, WarmupPeriod, 0, last, missed);
      entered := last + gap;
      run := OneTick(cfg, start, run, gap, WarmupPeriod, last, entered, missed);
    }
    run := TicksTo(cfg, start, run, gap, AutoPeriod, entered, LastTick(cfg.tm, gap, AutoPeriod), missed);
  }

  lemma LatePause(cfg: Config, start: State, auto: Run, gap: int, missed: Shift) returns (run: Run)
    requires cfg.tm.Valid() && 1 <= gap && missed in {Shift1, Shift2} && 0 < cfg.tm.pauseSec
    requires Reaches(cfg, start, auto, gap, AutoPeriod, LastTick(cfg.tm, gap, AutoPeriod), missed)
    ensures Reaches(cfg, start, run, gap, PausePeriod, LastTick(cfg.tm, gap, PausePeriod), missed)
  {
    var last := LastTick(cfg.tm, gap, AutoPeriod);
    run := OneTick(cfg, start, auto, gap, AutoPeriod, last, last + gap, missed);
    run := TicksTo(cfg, start, run, gap, PausePeriod, last + gap, LastTick(cfg.tm, gap, PausePeriod), missed);
  }

  lemma LateTeleop(cfg: Config, gap: int, missed: Shift) returns (mode: AutoWinnerMode, run: Run)
    requires cfg.tm.Valid() && 1 <= gap && missed in {Shift1, Shift2}
    requires CoarseShift(cfg.tm, LatestEntry(cfg.tm, gap)) != missed
    ensures Reaches(cfg, Initial(mode), run, gap, TeleopPeriod, LatestEntry(cfg.tm, gap), missed)
  {
    mode, run := SomeMatchBegins(cfg, gap, missed);
    run := LateAuto(cfg, Initial(mode), run, gap, missed);
    var phase := AutoPeriod;
    if 0 < cfg.tm.pauseSec {
      run := LatePause(cfg, Initial(mode), run, gap, missed);
      phase := PausePeriod;
    }
    var last := LastTick(cfg.tm, gap, phase);
    run := OneTick(cfg, Initial(mode), run, gap, phase, last, last + gap, missed);
  }

  // ------------------------------------------------------------------------------- and to its end

  /** Once a handover has been passed over, the match can be played to its end without it. */
  lemma PlayOut(cfg: Config, start: State, teleop: Run, gap: int, last: int, missed: Shift)
    returns (run: Run, time: int)
    requires cfg.tm.Valid() && 1 <= gap && missed in {Shift1, Shift2}
    requires Reaches(cfg, start, teleop, gap, TeleopPeriod, last, missed)
    requires Handovers(missed) < Handovers(CoarseShift(cfg.tm, last))
    ensures Reaches(cfg, start, run, gap, PostMatch, time, missed)
  {
    var late := Later(last, cfg.tm.TeleopEnd() - 1);
    run := TicksTo(cfg, start, teleop, gap, TeleopPeriod, last, late, missed);
    time := late + gap;
    run := OneTick(cfg, start, run, gap, TeleopPeriod, late, time, missed);
  }

  /** Entering teleop late: the first handover is missed. */
  lemma LateEntryMisses(cfg: Config, gap: int) returns (mode: AutoWinnerMode, run: Run, time: int)
    requires cfg.tm.Valid() && 1 <= gap
    requires LatestEntry(cfg.tm, gap) > cfg.tm.TeleopEnd() - Seconds(cfg.tm.endgameSec + 3 * cfg.tm.shiftSec + 1)
    ensures Reaches(cfg, Initial(mode), run, gap, PostMatch, time, Shift1)
  {
    FirstHandoverExactly(cfg.tm, LatestEntry(cfg.tm, gap));
    mode, run := LateTeleop(cfg, gap, Shift1);
    run, time := PlayOut(cfg, Initial(mode), run, gap, LatestEntry(cfg.tm, gap), Shift1);
  }

  /** From the last instant of Shift 1 on the coarse clock, more than a shift leads past Shift 2. */
  lemma WideGapPasses(tm: MatchTiming, gap: int)
    requires tm.Valid() && Seconds(tm.shiftSec) < gap
    ensures var end := tm.TeleopEnd() - Seconds(tm.endgameSec + 3 * tm.shiftSec + 1);
            && end < tm.TeleopEnd() && CoarseShift(tm, end) == Shift1
            && (Handovers(CoarseShift(tm, end + gap)) > 2)
  {
  }

  /** Ticks more than a shift apart: the second handover is missed. */
  lemma WideGapMisses(cfg: Config, gap: int) returns (mode: AutoWinnerMode, run: Run, time: int)
    requires cfg.tm.Valid() && 1 <= gap && Seconds(cfg.tm.shiftSec) < gap
    requires LatestEntry(cfg.tm, gap) <= cfg.tm.TeleopEnd() - Seconds(cfg.tm.endgameSec + 3 * cfg.tm.shiftSec + 1)
    ensures Reaches(cfg, Initial(mode), run, gap, PostMatch, time, Shift2)
  {
    var entry, end := LatestEntry(cfg.tm, gap),
                      cfg.tm.TeleopEnd() - Seconds(cfg.tm.endgameSec + 3 * cfg.tm.shiftSec + 1);
    WideGapPasses(cfg.tm, gap);
    FirstHandoverExactly(cfg.tm, entry);
    mode, run := LateTeleop(cfg, gap, Shift2);
    run := TicksTo(cfg, Initial(mode), run, gap, TeleopPeriod, entry, end, Shift2);
    time := end + gap;
    run := OneTick(cfg, Initial(mode), run, gap, TeleopPeriod, end, time, Shift2);
    if time < cfg.tm.TeleopEnd() {
      run, time := PlayOut(cfg, Initial(mode), run, gap, time, Shift2);
    }
  }

  // ------------------------------------------------------------------------------------- the law

  /** In this run, if its ticks are within the gap, a match played to its end has sounded every handover. */
  predicate SoundsAll(cfg: Config, gap: int, mode: AutoWinnerMode, run: Run, t: int) {
    Paced(cfg, Initial(mode), run, gap) && Timely(run, 0, t) && PlayedToEnd(Ran(cfg, Initial(mode), run)) ==>
      Ran(cfg, Initial(mode), run).cues.heard == [Shift1, Shift2, Shift3, Shift4]
  }

  /** The law of the cue: over all runs with ticks at most a gap apart, every match played to its end sounds
      all four handovers in order, exactly when the gap fits the settings. */
  lemma CueSoundsExactly(cfg: Config, gap: int)
    requires cfg.tm.Valid() && 1 <= gap
    ensures (forall mode, run, t :: SoundsAll(cfg, gap, mode, run, t)) <==> CuesFit(cfg.tm, gap)
  {
    if CuesFit(cfg.tm, gap) {
      forall mode, run, t ensures SoundsAll(cfg, gap, mode, run, t) {
        if Paced(cfg, Initial(mode), run, gap) { CueSoundsFourTimes(cfg, mode, run, gap); }
      }
    } else {
      var mode, run, time;
      if Seconds(cfg.tm.shiftSec) < gap
         && LatestEntry(cfg.tm, gap) <= cfg.tm.TeleopEnd() - Seconds(cfg.tm.endgameSec + 3 * cfg.tm.shiftSec + 1)
      {
        mode, run, time := WideGapMisses(cfg, gap);
      } else {
        mode, run, time := LateEntryMisses(cfg, gap);
      }
      assert !SoundsAll(cfg, gap, mode, run, 1 + time);
    }
  }

  /** With the settings the controller starts with, that is a gap of at most eighteen and a half seconds. */
  lemma DefaultsFitExactly(gap: int)
    requires 0 <= gap
    ensures CuesFit(DEFAULT_TIMING, gap) <==> 2 * gap <= Seconds(37)
  {
  }
}
