/** The lamps over whole runs of the arena. */
module MatchLamps {
  import opened Common
  import opened Timing
  import opened HubLights
  import opened MatchState
  import opened MatchSafety
  import opened MatchClock

  lemma PlcKeepsLamps(cfg: Config, a: State, plc: PlcReading, now: int)
    ensures PlcHandled(cfg, a, plc, now).lamps == a.lamps
  {
  }

  function Elapsed(t: State, now: int): int { now - t.matchStartTime }

  /** The lamps show the modes chosen for this instant. */
  predicate ShowsModes(cfg: Config, t: State, now: int) {
    ShownAt(cfg.tm, t.phase, t.autoWinner, Elapsed(t, now), t.lamps)
  }

  predicate ShownAt(tm: MatchTiming, phase: Phase, winner: Alliance, elapsed: int, lamps: Modes) {
    phase == TeleopPeriod ==> Shows(tm, winner, elapsed, lamps)
  }

  lemma TeleopLamps(cfg: Config, a: State, now: int)
    requires a.phase == TeleopPeriod
    ensures LampsUpdated(cfg, a, now) ==
            a.(lamps := LampsAt(cfg.tm, a.autoWinner, now - a.matchStartTime, a.lamps))
  {
  }

  lemma LampsShowModes(cfg: Config, a: State, now: int)
    ensures ShowsModes(cfg, LampsUpdated(cfg, a, now), now)
  {
    LampsContinue(cfg, a, now);
    if a.phase == TeleopPeriod {
      TeleopLamps(cfg, a, now);
      LampsAtShows(cfg.tm, a.autoWinner, now - a.matchStartTime, a.lamps);
    }
  }

  lemma PlcShowsModes(cfg: Config, l: State, plc: PlcReading, later: int, now: int)
    requires ShowsModes(cfg, l, now)
    ensures ShowsModes(cfg, PlcHandled(cfg, l, plc, later), now)
  {
    PlcContinues(cfg, l, plc, later);
    PlcKeepsLamps(cfg, l, plc, later);
  }

  lemma NotingPhaseShowsModes(cfg: Config, p: State, t: State, now: int)
    requires ShowsModes(cfg, p, now) && t == p.(lastPhase := Some(p.phase))
    ensures ShowsModes(cfg, t, now)
  {
  }

  lemma TickShowsModes(cfg: Config, a: State, now: int, tick: TickInput)
    ensures ShowsModes(cfg, OutputsSet(cfg, a, now, tick), now)
  {
    var l, t := Displayed(cfg, a, now), OutputsSet(cfg, a, now, tick);
    LampsShowModes(cfg, CueSounded(cfg, a), now);
    PlcShowsModes(cfg, l, tick.plc, now + tick.lag, now);
    NotingPhaseShowsModes(cfg, PlcHandled(cfg, l, tick.plc, now + tick.lag), t, now);
  }

  ghost predicate LampsTruthful(cfg: Config, t: State, now: int) {
    TellTruthAt(cfg.tm, t.phase, t.autoWinner, Elapsed(t, now), t.lamps)
  }

  /** During teleop, that is. */
  ghost predicate TellTruthAt(tm: MatchTiming, phase: Phase, winner: Alliance, elapsed: int, lamps: Modes) {
    phase == TeleopPeriod && elapsed < tm.TeleopEnd() ==> BothTellTruth(tm, winner, elapsed, lamps)
  }

  ghost predicate BothTellTruth(tm: MatchTiming, winner: Alliance, elapsed: int, lamps: Modes) {
    TellsTruth(tm, winner == Red, elapsed, lamps.red) && TellsTruth(tm, winner == Blue, elapsed, lamps.blue)
  }

  /** In every run, the lamps a teleop tick leaves behind tell the truth: dark means inactive, a pulse
      means active and dark within three seconds, the sweep means this HUB goes dark first. */
  lemma LampsAlwaysTellTruth(cfg: Config, s: State, run: Run, t0: int, now: int, tick: TickInput)
    requires cfg.tm.Valid() && (cfg.tm.teleopSec == 0 || WarningsFit(cfg.tm))
    requires Controlled(s) && NotEarly(cfg, s, t0) && Timely(run, t0, now)
    ensures LampsTruthful(cfg, Ticked(cfg, Ran(cfg, s, run), now, tick), now)
  {
    var before := Ran(cfg, s, run);
    AlwaysControlled(cfg, s, run);
    NeverEarly(cfg, s, run, t0, now);
    ControlledTick(cfg, before, now, tick);
    TickIsOnTime(cfg, before, now, tick);
    TickShowsModes(cfg, StopsPolled(Sent(cfg, before, now, tick.coin), now, tick), now, tick);
    ModesShownTellTruth(cfg, Ticked(cfg, before, now, tick), now);
  }

  lemma ShownModesTellTruth(tm: MatchTiming, winner: Alliance, elapsed: int, lamps: Modes)
    requires tm.Valid() && (tm.teleopSec == 0 || WarningsFit(tm))
    requires winner != NoAlliance && InTeleop(tm, elapsed)
    requires Shows(tm, winner, elapsed, lamps)
    ensures BothTellTruth(tm, winner, elapsed, lamps)
  {
    LampsTellTruthExactly(tm, winner);
    assert LampsTellTruth(tm, winner, elapsed);
  }

  lemma TellTruthInTeleop(tm: MatchTiming, phase: Phase, winner: Alliance, elapsed: int, lamps: Modes)
    requires tm.Valid() && (tm.teleopSec == 0 || WarningsFit(tm))
    requires ShownAt(tm, phase, winner, elapsed, lamps)
    requires phase == TeleopPeriod ==> winner != NoAlliance && tm.TeleopStart() <= elapsed
    ensures TellTruthAt(tm, phase, winner, elapsed, lamps)
  {
    if phase == TeleopPeriod && elapsed < tm.TeleopEnd() {
      ShownModesTellTruth(tm, winner, elapsed, lamps);
    }
  }

  lemma ModesShownTellTruth(cfg: Config, t: State, now: int)
    requires cfg.tm.Valid() && (cfg.tm.teleopSec == 0 || WarningsFit(cfg.tm))
    requires t.phase == TeleopPeriod ==> t.autoWinner != NoAlliance
    requires NotEarly(cfg, t, now) && ShowsModes(cfg, t, now)
    ensures LampsTruthful(cfg, t, now)
  {
    TellTruthInTeleop(cfg.tm, t.phase, t.autoWinner, Elapsed(t, now), t.lamps);
  }

  // ------------------------------------------------------------------------------------- colours

  /** Each HUB shows only its own colour, or white. */
  predicate OwnColours(lamps: Modes) {
    && lamps.red in {OffMode, RedMode, RedPulseMode, RedStartupMode, RedAdvantageMode, WhiteMode}
    && lamps.blue in {OffMode, BlueMode, BluePulseMode, BlueStartupMode, BlueAdvantageMode, WhiteMode}
  }

  lemma TeleopOwnColours(tm: MatchTiming, winner: Alliance, elapsed: int, lamps: Modes)
    requires OwnColours(lamps)
    ensures OwnColours(LampsAt(tm, winner, elapsed, lamps))
  {
  }

  /** What a tick does to the lamps, by the period it shows: the pause is steady and AUTO has its own pattern, the
      end of a match is white on the first tick that finds it over, and otherwise nothing changes. */
  lemma LampsByPeriod(cfg: Config, a: State, now: int)
    ensures var lamps := LampsUpdated(cfg, a, now).lamps;
            && (a.phase == AutoPeriod ==> lamps == Modes(RedStartupMode, BlueStartupMode))
            && (a.phase == PausePeriod ==> lamps == Modes(RedMode, BlueMode))
            && (a.phase == PostMatch ==>
                  lamps == if a.lastPhase == Some(PostMatch) then a.lamps else Modes(WhiteMode, WhiteMode))
            && (a.phase in {PreMatch, StartMatch, WarmupPeriod} ==> lamps == a.lamps)
            && (OwnColours(a.lamps) ==> OwnColours(lamps))
  {
    if a.phase == TeleopPeriod && OwnColours(a.lamps) {
      TeleopOwnColours(cfg.tm, a.autoWinner, now - a.matchStartTime, a.lamps);
    }
  }

  /** Nothing before them in a tick touches the lamps. */
  lemma BeforeLamps(cfg: Config, s: State, now: int, tick: TickInput)
    ensures var p := StopsPolled(Sent(cfg, s, now, tick.coin), now, tick);
            p.lamps == s.lamps && p.lastPhase == s.lastPhase
  {
    SentKeeps(cfg, s, now, tick.coin);
    AdvanceKeepsLamps(cfg, HubsCounted(cfg, s, now), now, tick.coin);
    StopsKeepLamps(Sent(cfg, s, now, tick.coin), now, tick);
  }

  lemma StopsKeepLamps(a: State, now: int, tick: TickInput)
    ensures var p := StopsPolled(a, now, tick); p.lamps == a.lamps && p.lastPhase == a.lastPhase
  {
    PanelsOnlyStop(FieldStopPolled(a, tick.fieldStop, now), tick.inputs, now + tick.lag);
  }

  lemma AdvanceKeepsLamps(cfg: Config, c: State, now: int, coin: bool)
    ensures var a := Advanced(cfg, c, now, coin).s; a.lamps == c.lamps && a.lastPhase == c.lastPhase
  {
  }

  /** And nothing after them. */
  lemma AfterLamps(cfg: Config, p: State, now: int, tick: TickInput)
    ensures var t := OutputsSet(cfg, p, now, tick);
            t.lamps == LampsUpdated(cfg, CueSounded(cfg, p), now).lamps && t.lastPhase == Some(t.phase)
  {
    PlcKeepsLamps(cfg, Displayed(cfg, p, now), tick.plc, now + tick.lag);
  }

  lemma TickLamps(cfg: Config, s: State, now: int, tick: TickInput)
    ensures var p := StopsPolled(Sent(cfg, s, now, tick.coin), now, tick);
            var t := Ticked(cfg, s, now, tick);
            && t.lastPhase == Some(t.phase)
            && (p.phase == PostMatch ==>
                  t.lamps == if s.lastPhase == Some(PostMatch) then s.lamps else Modes(WhiteMode, WhiteMode))
            && (p.phase == AutoPeriod ==> t.lamps == Modes(RedStartupMode, BlueStartupMode))
            && (p.phase == PausePeriod ==> t.lamps == Modes(RedMode, BlueMode))
            && (p.phase in {PreMatch, StartMatch, WarmupPeriod} ==> t.lamps == s.lamps)
            && (OwnColours(s.lamps) ==> OwnColours(t.lamps))
  {
    var p := StopsPolled(Sent(cfg, s, now, tick.coin), now, tick);
    BeforeLamps(cfg, s, now, tick);
    LampsByPeriod(cfg, CueSounded(cfg, p), now);
    AfterLamps(cfg, p, now, tick);
  }

  lemma CommandsKeepLamps(cfg: Config, s: State, now: int, e: Event)
    requires !e.Tick?
    ensures var t := Step(cfg, s, now, e);
            && t.lamps == (if e.LampsOut? then Modes(OffMode, OffMode) else s.lamps)
            && t.lastPhase == s.lastPhase
  {
  }

  lemma {:induction false} AlwaysOwnColours(cfg: Config, mode: AutoWinnerMode, run: Run)
    ensures OwnColours(Ran(cfg, Initial(mode), run).lamps)
  {
    match run
    case Begin =>
    case Then(before, now, e) =>
      AlwaysOwnColours(cfg, mode, before);
      if e.Tick? {
        TickLamps(cfg, Ran(cfg, Initial(mode), before), now, e.tick);
      } else {
        CommandsKeepLamps(cfg, Ran(cfg, Initial(mode), before), now, e);
      }
  }

  // ----------------------------------------------------------------------------- after a match

  /** No other match starts, and nobody puts the lamps out. */
  predicate LeavesLamps(run: Run) {
    match run
    case Begin => true
    case Then(before, _, e) => LeavesLamps(before) && !e.Start? && !e.LampsOut?
  }

  /** No match is in progress, and if one is just over, a tick has noted it. */
  predicate Noted(s: State) { !InProgress(s.phase) && (s.phase == PostMatch ==> s.lastPhase == Some(PostMatch)) }

  lemma NotedTick(cfg: Config, s: State, now: int, tick: TickInput)
    requires Noted(s)
    ensures Noted(Ticked(cfg, s, now, tick)) && Ticked(cfg, s, now, tick).lamps == s.lamps
  {
    var a := Sent(cfg, s, now, tick.coin);
    TickLamps(cfg, s, now, tick);
    StopsContinue(a, now, tick);
    TickAfterSent(cfg, a, now, tick);
    AfterLamps(cfg, StopsPolled(a, now, tick), now, tick);
    NotedPhase(cfg, s, now, tick.coin);
  }

  lemma NotedPhase(cfg: Config, s: State, now: int, coin: bool)
    requires Noted(s)
    ensures Sent(cfg, s, now, coin).phase in {PreMatch, s.phase}
  {
    SentKeeps(cfg, s, now, coin);
    AdvanceFromNoted(cfg, HubsCounted(cfg, s, now), now, coin);
  }

  lemma AdvanceFromNoted(cfg: Config, c: State, now: int, coin: bool)
    requires !InProgress(c.phase)
    ensures Advanced(cfg, c, now, coin).s.phase in {PreMatch, c.phase}
  {
    if c.phase == PostMatch { ClearedIsPreMatch(cfg, c); }
  }

  lemma NotedCommand(cfg: Config, s: State, now: int, e: Event)
    requires Noted(s) && !e.Tick? && !e.Start? && !e.LampsOut?
    ensures Noted(Step(cfg, s, now, e)) && Step(cfg, s, now, e).lamps == s.lamps
  {
    CommandsKeepLamps(cfg, s, now, e);
    if e.Clear? && s.phase == PostMatch { ClearedIsPreMatch(cfg, s); }
  }

  /** From then on the lamps stay as they are, until they are put out or another match starts: once dark they
      stay dark. */
  lemma {:induction false} LampsHold(cfg: Config, s: State, run: Run)
    requires Noted(s) && LeavesLamps(run)
    ensures Noted(Ran(cfg, s, run)) && Ran(cfg, s, run).lamps == s.lamps
  {
    match run
    case Begin =>
    case Then(before, now, e) =>
      LampsHold(cfg, s, before);
      if e.Tick? {
        NotedTick(cfg, Ran(cfg, s, before), now, e.tick);
      } else {
        NotedCommand(cfg, Ran(cfg, s, before), now, e);
      }
  }

  /** The PLC has ended the match in this tick, after the lamps were shown. */
  predicate EndedByPlc(cfg: Config, s: State, now: int, tick: TickInput) {
    && InProgress(StopsPolled(Sent(cfg, s, now, tick.coin), now, tick).phase)
    && Ticked(cfg, s, now, tick).phase == PostMatch
  }

  /** The end of a match in the lamps. A tick that finds the match over when it comes to the lamps turns both HUBs
      white. One in which the PLC's field e-stop then ends the match does not, and neither does any tick after it:
      the HUBs go on showing the match, and are never turned white, until another one starts. */
  lemma EndTurnsWhiteExactly(cfg: Config, s: State, now: int, tick: TickInput, run: Run)
    requires InProgress(s.phase) && s.lastPhase != Some(PostMatch)
    requires Ticked(cfg, s, now, tick).phase == PostMatch && LeavesLamps(run) && OwnColours(s.lamps)
    ensures var t := Ticked(cfg, s, now, tick);
            && Ran(cfg, t, run).lamps == t.lamps
            && (!EndedByPlc(cfg, s, now, tick) ==> t.lamps == Modes(WhiteMode, WhiteMode))
            && (EndedByPlc(cfg, s, now, tick) && s.lamps != Modes(WhiteMode, WhiteMode) ==>
                  t.lamps != Modes(WhiteMode, WhiteMode))
  {
    TickLamps(cfg, s, now, tick);
    PolledOrPlc(cfg, s, now, tick);
    LampsHold(cfg, Ticked(cfg, s, now, tick), run);
    if EndedByPlc(cfg, s, now, tick) && s.lamps != Modes(WhiteMode, WhiteMode) { ShowingIsNotWhite(cfg, s, now, tick); }
  }

  lemma PolledOrPlc(cfg: Config, s: State, now: int, tick: TickInput)
    requires InProgress(s.phase) && Ticked(cfg, s, now, tick).phase == PostMatch
    ensures EndedByPlc(cfg, s, now, tick) || StopsPolled(Sent(cfg, s, now, tick.coin), now, tick).phase == PostMatch
  {
    OutputsContinue(cfg, StopsPolled(Sent(cfg, s, now, tick.coin), now, tick), now, tick);
  }

  lemma ShowingIsNotWhite(cfg: Config, s: State, now: int, tick: TickInput)
    requires EndedByPlc(cfg, s, now, tick) && s.lamps != Modes(WhiteMode, WhiteMode)
    ensures Ticked(cfg, s, now, tick).lamps != Modes(WhiteMode, WhiteMode)
  {
    var p := StopsPolled(Sent(cfg, s, now, tick.coin), now, tick);
    BeforeLamps(cfg, s, now, tick);
    AfterLamps(cfg, p, now, tick);
    MatchIsNotWhite(cfg, CueSounded(cfg, p), now);
  }

  lemma MatchIsNotWhite(cfg: Config, a: State, now: int)
    requires InProgress(a.phase) && a.lamps != Modes(WhiteMode, WhiteMode)
    ensures LampsUpdated(cfg, a, now).lamps != Modes(WhiteMode, WhiteMode)
  {
  }
}
