/** The shift-change cue over whole runs of the arena. */
module MatchCues {
  import opened Common
  import opened Timing
  import opened Hub
  import opened ShiftCue
  import opened MatchState
  import opened MatchSafety
  import opened MatchClock
  import opened MatchPace

  /** What has been sounded by each stage of a match: nothing before teleop, in teleop one cue for each
      handover up to the latest tick, and all four after a match that was not cut short. */
  predicate Cued(cfg: Config, s: State) {
    match s.phase
    case WarmupPeriod | AutoPeriod | PausePeriod => s.cues.heard == [] && s.cues.last in {None, Some(ShiftAuto)}
    case TeleopPeriod =>
      && s.lastMatchTime < cfg.tm.TeleopEnd()
      && s.cues == UpTo(CoarseShift(cfg.tm, s.lastMatchTime))
    case PostMatch => !s.matchAborted ==> s.cues.heard == FirstHandovers(4)
    case _ => true
  }

  function UpTo(shift: Shift): Cues { Cues(Some(shift), FirstHandovers(Handovers(shift))) }

  // ------------------------------------------------------------------------------- a tick's phases

  /** The match is where it was, or has been cut short; its clock and cues are untouched. */
  predicate CutAtMost(a: State, t: State) {
    && t.cues == a.cues && t.lastMatchTime == a.lastMatchTime
    && ((t.phase == a.phase && t.matchAborted == a.matchAborted)
        || (InProgress(a.phase) && t.phase == PostMatch && t.matchAborted))
  }

  lemma FieldStopCuts(a: State, reading: FieldEStop.Reading, now: int)
    ensures CutAtMost(a, FieldStopPolled(a, reading, now))
  {
  }

  lemma PanelsCut(a: State, inputs: seq<Input>, now: int)
    ensures CutAtMost(a, PanelsPolled(a, inputs, now))
  {
    PanelsOnlyStop(a, inputs, now);
  }

  lemma StopsCut(a: State, now: int, tick: TickInput)
    ensures CutAtMost(a, StopsPolled(a, now, tick))
  {
    FieldStopCuts(a, tick.fieldStop, now);
    PanelsCut(FieldStopPolled(a, tick.fieldStop, now), tick.inputs, now + tick.lag);
  }

  lemma PlcCuts(cfg: Config, a: State, plc: PlcReading, now: int)
    ensures CutAtMost(a, PlcHandled(cfg, a, plc, now))
  {
  }

  lemma OutputsCue(cfg: Config, p: State, now: int, tick: TickInput)
    ensures CutAtMost(CueSounded(cfg, p), OutputsSet(cfg, p, now, tick))
  {
    LampsContinue(cfg, CueSounded(cfg, p), now);
    PlcCuts(cfg, Displayed(cfg, p, now), tick.plc, now + tick.lag);
  }

  /** A tick that does not cut the match short sounds the shift the match has reached. */
  lemma TickCues(cfg: Config, a: State, now: int, tick: TickInput)
    ensures var t := OutputsSet(cfg, StopsPolled(a, now, tick), now, tick);
            || (t.phase == PostMatch && t.matchAborted)
            || (&& t.phase == a.phase && t.matchAborted == a.matchAborted && t.lastMatchTime == a.lastMatchTime
                && t.cues == Sounded(a.cues, CurrentShift(cfg, a.phase, a.lastMatchTime)))
  {
    StopsCut(a, now, tick);
    OutputsCue(cfg, StopsPolled(a, now, tick), now, tick);
  }

  lemma AdvanceCues(cfg: Config, s: State, now: int, coin: bool)
    ensures var a := Advanced(cfg, s, now, coin).s;
            && a.cues == (if s.phase == StartMatch then s.cues.(heard := []) else s.cues)
            && (a.phase != PreMatch ==> a.matchAborted == s.matchAborted)
  {
    if s.phase == PostMatch { ClearedIsPreMatch(cfg, s); }
  }

  /** The half of a tick up to its packets: the cues start again with a match. */
  lemma SentCues(cfg: Config, s: State, now: int, coin: bool)
    ensures var a := Sent(cfg, s, now, coin);
            && a.cues == (if s.phase == StartMatch then s.cues.(heard := []) else s.cues)
            && a.lastMatchTime == MatchTime(s, now)
            && (a.phase != PreMatch ==> a.matchAborted == s.matchAborted)
  {
    SentKeeps(cfg, s, now, coin);
    AdvanceCues(cfg, HubsCounted(cfg, s, now), now, coin);
  }

  /** Where a tick takes the match before its stops are polled. */
  lemma SentGoes(cfg: Config, s: State, now: int, coin: bool)
    ensures var a := Sent(cfg, s, now, coin);
            && (a.phase in {WarmupPeriod, AutoPeriod, PausePeriod} ==>
                  s.phase in {StartMatch, WarmupPeriod, AutoPeriod, PausePeriod})
            && (a.phase == TeleopPeriod ==> s.phase in {AutoPeriod, PausePeriod, TeleopPeriod})
            && (a.phase == TeleopPeriod && s.phase == TeleopPeriod ==> MatchTime(s, now) < cfg.tm.TeleopEnd())
            && (a.phase == PostMatch ==> s.phase in {TeleopPeriod, PostMatch})
            && (a.phase == PostMatch && s.phase == TeleopPeriod ==> cfg.tm.TeleopEnd() <= MatchTime(s, now))
  {
    SentKeeps(cfg, s, now, coin);
    AdvanceGoes(cfg, HubsCounted(cfg, s, now), now, coin);
  }

  lemma AdvanceGoes(cfg: Config, s: State, now: int, coin: bool)
    ensures var a := Advanced(cfg, s, now, coin).s;
            && (a.phase in {WarmupPeriod, AutoPeriod, PausePeriod} ==>
                  s.phase in {StartMatch, WarmupPeriod, AutoPeriod, PausePeriod})
            && (a.phase == TeleopPeriod ==> s.phase in {AutoPeriod, PausePeriod, TeleopPeriod})
            && (a.phase == TeleopPeriod && s.phase == TeleopPeriod ==> MatchTime(s, now) < cfg.tm.TeleopEnd())
            && (a.phase == PostMatch ==> s.phase in {TeleopPeriod, PostMatch})
            && (a.phase == PostMatch && s.phase == TeleopPeriod ==> cfg.tm.TeleopEnd() <= MatchTime(s, now))
  {
    if s.phase == PostMatch { ClearedIsPreMatch(cfg, s); }
  }

  /** The shift that the arena has last seen, unless the PLC ended the match in that tick, is the one it is in: AUTO,
      what the coarse clock says in teleop, the time after a match, or none. */
  lemma SeesItsShift(cfg: Config, s: State, now: int, tick: TickInput)
    requires Ticked(cfg, s, now, tick).phase == StopsPolled(Sent(cfg, s, now, tick.coin), now, tick).phase
    ensures var t := Ticked(cfg, s, now, tick);
            && (t.phase == AutoPeriod ==> t.cues.last == Some(ShiftAuto))
            && (t.phase == TeleopPeriod ==> t.cues.last == Some(CoarseShift(cfg.tm, t.lastMatchTime)))
            && (t.phase == PostMatch ==> t.cues.last == Some(ShiftPostMatch))
            && (t.phase in {PreMatch, StartMatch, WarmupPeriod, PausePeriod} ==> t.cues.last == None)
  {
    OutputsCue(cfg, StopsPolled(Sent(cfg, s, now, tick.coin), now, tick), now, tick);
  }

  // ---------------------------------------------------------------------------------- the cues

  /** The tick is soon enough: one that enters teleop comes before Shift 2, and in teleop each comes within
      one shift of the one before. */
  predicate TickFits(cfg: Config, s: State, now: int, tick: TickInput) {
    && (s.phase in {AutoPeriod, PausePeriod} && Ticked(cfg, s, now, tick).phase == TeleopPeriod ==>
          Handovers(CoarseShift(cfg.tm, now - s.matchStartTime)) <= 1)
    && (s.phase == TeleopPeriod ==>
          s.lastMatchTime <= now - s.matchStartTime <= s.lastMatchTime + Seconds(cfg.tm.shiftSec))
  }

  /** The settings under which ticks this far apart are soon enough. */
  predicate CuesFit(tm: MatchTiming, gap: int) {
    && gap <= Seconds(tm.shiftSec)
    && LatestEntry(tm, gap) <= tm.TeleopEnd() - Seconds(tm.endgameSec + 3 * tm.shiftSec + 1)
  }

  /** The coarse clock is in the transition or in Shift 1 exactly up to this instant. */
  lemma FirstHandoverExactly(tm: MatchTiming, time: int)
    requires tm.Valid()
    ensures Handovers(CoarseShift(tm, time)) <= 1 <==>
            time <= tm.TeleopEnd() - Seconds(tm.endgameSec + 3 * tm.shiftSec + 1)
  {
  }

  lemma PacedTickFits(cfg: Config, s: State, now: int, tick: TickInput, gap: int)
    requires cfg.tm.Valid() && 0 <= gap && CuesFit(cfg.tm, gap)
    requires Punctual(cfg, s, gap) && PacedAt(s, now, gap)
    ensures TickFits(cfg, s, now, tick)
  {
    if s.phase in {AutoPeriod, PausePeriod} {
      BeforeTeleopIsSoon(cfg, s, now, gap);
      FirstHandoverExactly(cfg.tm, now - s.matchStartTime);
    }
  }

  lemma CoarseIsTeleop(tm: MatchTiming, time: int)
    requires tm.Valid()
    ensures CoarseShift(tm, time) in {ShiftTransition, Shift1, Shift2, Shift3, Shift4, ShiftEndgame}
    ensures Handovers(CoarseShift(tm, time)) <= 1 ==> time < tm.TeleopEnd()
  {
  }

  /** The tick that enters teleop. */
  lemma EnteringCues(tm: MatchTiming, cues: Cues, time: int)
    requires tm.Valid() && Handovers(CoarseShift(tm, time)) <= 1
    requires cues.heard == [] && cues.last in {None, Some(ShiftAuto)}
    ensures Sounded(cues, Some(CoarseShift(tm, time))) == UpTo(CoarseShift(tm, time)) && time < tm.TeleopEnd()
  {
    CoarseIsTeleop(tm, time);
    NextHandover(cues, CoarseShift(tm, time), 0);
  }

  /** A tick within teleop. */
  lemma NextCues(tm: MatchTiming, last: int, time: int)
    requires tm.Valid() && last <= time <= last + Seconds(tm.shiftSec) && time < tm.TeleopEnd()
    ensures Sounded(UpTo(CoarseShift(tm, last)), Some(CoarseShift(tm, time))) == UpTo(CoarseShift(tm, time))
  {
    OneHandoverAtMost(tm, last, time);
    CoarseIsTeleop(tm, time);
    CoarseIsTeleop(tm, last);
    NextHandover(UpTo(CoarseShift(tm, last)), CoarseShift(tm, time), Handovers(CoarseShift(tm, last)));
  }

  /** The tick that ends teleop. */
  lemma LastCues(tm: MatchTiming, last: int, time: int)
    requires tm.Valid() && last < tm.TeleopEnd() <= time <= last + Seconds(tm.shiftSec)
    ensures Sounded(UpTo(CoarseShift(tm, last)), Some(ShiftPostMatch)).heard == FirstHandovers(4)
  {
    assert WholeSeconds(tm.TeleopEnd() - last) <= tm.shiftSec;
    assert Handovers(CoarseShift(tm, last)) == 4;
  }

  /** The three stages together, for a tick that does not cut the match short. */
  lemma CuedOn(cfg: Config, s: State, now: int, a: State, t: State)
    requires cfg.tm.Valid() && Cued(cfg, s)
    requires a.cues == (if s.phase == StartMatch then s.cues.(heard := []) else s.cues)
    requires a.lastMatchTime == MatchTime(s, now) && (a.phase != PreMatch ==> a.matchAborted == s.matchAborted)
    requires a.phase in {WarmupPeriod, AutoPeriod, PausePeriod} ==>
               s.phase in {StartMatch, WarmupPeriod, AutoPeriod, PausePeriod}
    requires a.phase == TeleopPeriod ==> s.phase in {AutoPeriod, PausePeriod, TeleopPeriod}
    requires a.phase == TeleopPeriod && s.phase == TeleopPeriod ==> MatchTime(s, now) < cfg.tm.TeleopEnd()
    requires a.phase == PostMatch ==> s.phase in {TeleopPeriod, PostMatch}
    requires a.phase == PostMatch && s.phase == TeleopPeriod ==> cfg.tm.TeleopEnd() <= MatchTime(s, now)
    requires s.phase in {AutoPeriod, PausePeriod} && a.phase == TeleopPeriod ==>
               Handovers(CoarseShift(cfg.tm, MatchTime(s, now))) <= 1
    requires s.phase == TeleopPeriod ==>
               s.lastMatchTime <= MatchTime(s, now) <= s.lastMatchTime + Seconds(cfg.tm.shiftSec)
    requires t.phase == a.phase && t.matchAborted == a.matchAborted && t.lastMatchTime == a.lastMatchTime
    requires t.cues == Sounded(a.cues, CurrentShift(cfg, a.phase, a.lastMatchTime))
    ensures Cued(cfg, t)
  {
    if a.phase == TeleopPeriod && s.phase == TeleopPeriod {
      NextCues(cfg.tm, s.lastMatchTime, MatchTime(s, now));
    } else if a.phase == TeleopPeriod {
      EnteringCues(cfg.tm, a.cues, MatchTime(s, now));
    } else if a.phase == PostMatch && s.phase == TeleopPeriod {
      LastCues(cfg.tm, s.lastMatchTime, MatchTime(s, now));
    }
  }

  lemma CuedTick(cfg: Config, s: State, now: int, tick: TickInput)
    requires cfg.tm.Valid() && Cued(cfg, s) && TickFits(cfg, s, now, tick)
    ensures Cued(cfg, Ticked(cfg, s, now, tick))
  {
    var a := Sent(cfg, s, now, tick.coin);
    var t := Ticked(cfg, s, now, tick);
    SentCues(cfg, s, now, tick.coin);
    SentGoes(cfg, s, now, tick.coin);
    TickCues(cfg, a, now, tick);
    if !(t.phase == PostMatch && t.matchAborted) {
      CuedOn(cfg, s, now, a, t);
    }
  }

  lemma CuedCommand(cfg: Config, s: State, now: int, e: Event)
    requires Cued(cfg, s) && !e.Tick?
    ensures Cued(cfg, Step(cfg, s, now, e))
  {
    CommandKeepsCues(cfg, s, now, e);
  }

  lemma CommandKeepsCues(cfg: Config, s: State, now: int, e: Event)
    requires !e.Tick?
    ensures var t := Step(cfg, s, now, e);
            && t.cues == s.cues && t.lastMatchTime == s.lastMatchTime
            && ((t.phase == s.phase && t.matchAborted == s.matchAborted) || t.phase in {PreMatch, StartMatch}
                || (t.phase == PostMatch && t.matchAborted))
  {
    if e.Clear? && s.phase == PostMatch { ClearedIsPreMatch(cfg, s); }
  }

  lemma {:induction false} AlwaysCued(cfg: Config, s: State, run: Run, gap: int)
    requires cfg.tm.Valid() && 0 <= gap && CuesFit(cfg.tm, gap)
    requires Cued(cfg, s) && Punctual(cfg, s, gap) && Paced(cfg, s, run, gap)
    ensures Cued(cfg, Ran(cfg, s, run))
  {
    match run
    case Begin =>
    case Then(before, now, e) =>
      AlwaysCued(cfg, s, before, gap);
      if e.Tick? {
        AlwaysPunctual(cfg, s, before, gap);
        PacedTickFits(cfg, Ran(cfg, s, before), now, e.tick, gap);
        CuedTick(cfg, Ran(cfg, s, before), now, e.tick);
      } else {
        CuedCommand(cfg, Ran(cfg, s, before), now, e);
      }
  }

  predicate PlayedToEnd(t: State) { t.phase == PostMatch && !t.matchAborted }

  /** In every run of any number of matches, with ticks a gap apart that fits the settings, a match that has
      been played to its end has sounded the cue exactly four times, once at each handover and in order. */
  lemma CueSoundsFourTimes(cfg: Config, mode: AutoWinnerMode, run: Run, gap: int)
    requires cfg.tm.Valid() && 0 <= gap && CuesFit(cfg.tm, gap) && Paced(cfg, Initial(mode), run, gap)
    ensures var t := Ran(cfg, Initial(mode), run);
            PlayedToEnd(t) ==> t.cues.heard == [Shift1, Shift2, Shift3, Shift4]
  {
    AlwaysCued(cfg, Initial(mode), run, gap);
  }

  // ------------------------------------------------------------------------- a teleop that is too short

  /** The first handover has not been sounded. */
  predicate FirstUnheard(s: State) { Shift1 !in s.cues.heard }

  lemma ShortTeleopStartsLate(tm: MatchTiming, time: int)
    requires tm.Valid() && tm.teleopSec <= tm.endgameSec + 3 * tm.shiftSec && tm.TeleopStart() <= time
    ensures CoarseShift(tm, time) !in {ShiftTransition, Shift1}
  {
    FirstHandoverExactly(tm, time);
  }

  /** Where a tick leaves the match in teleop, it has come on time. */
  lemma SentInTeleop(cfg: Config, s: State, now: int, coin: bool)
    requires cfg.tm.Valid() && NotEarly(cfg, s, now) && Sent(cfg, s, now, coin).phase == TeleopPeriod
    ensures cfg.tm.TeleopStart() <= MatchTime(s, now)
  {
    SentKeeps(cfg, s, now, coin);
    AdvanceIsNotEarly(cfg, HubsCounted(cfg, s, now), now, coin);
    SentGoes(cfg, s, now, coin);
    AdvanceKeepsStart(cfg, HubsCounted(cfg, s, now), now, coin);
  }

  lemma AdvanceKeepsStart(cfg: Config, s: State, now: int, coin: bool)
    requires s.phase != StartMatch
    ensures Advanced(cfg, s, now, coin).s.matchStartTime == s.matchStartTime
  {
  }

  lemma UnheardTick(cfg: Config, s: State, now: int, tick: TickInput)
    requires cfg.tm.Valid() && cfg.tm.teleopSec <= cfg.tm.endgameSec + 3 * cfg.tm.shiftSec
    requires NotEarly(cfg, s, now) && FirstUnheard(s)
    ensures FirstUnheard(Ticked(cfg, s, now, tick))
  {
    var a := Sent(cfg, s, now, tick.coin);
    var p := StopsPolled(a, now, tick);
    SentCues(cfg, s, now, tick.coin);
    StopsCut(a, now, tick);
    OutputsCue(cfg, p, now, tick);
    if p.phase == TeleopPeriod {
      SentInTeleop(cfg, s, now, tick.coin);
      ShortTeleopStartsLate(cfg.tm, p.lastMatchTime);
    }
  }

  lemma UnheardCommand(cfg: Config, s: State, now: int, e: Event)
    requires FirstUnheard(s) && !e.Tick?
    ensures FirstUnheard(Step(cfg, s, now, e))
  {
  }

  lemma {:induction false} AlwaysUnheard(cfg: Config, s: State, run: Run, t0: int, t: int)
    requires cfg.tm.Valid() && cfg.tm.teleopSec <= cfg.tm.endgameSec + 3 * cfg.tm.shiftSec
    requires NotEarly(cfg, s, t0) && Timely(run, t0, t) && FirstUnheard(s)
    ensures FirstUnheard(Ran(cfg, s, run))
  {
    match run
    case Begin =>
    case Then(before, now, e) =>
      AlwaysUnheard(cfg, s, before, t0, now);
      NeverEarly(cfg, s, before, t0, now);
      if e.Tick? {
        UnheardTick(cfg, Ran(cfg, s, before), now, e.tick);
      } else {
        UnheardCommand(cfg, Ran(cfg, s, before), now, e);
      }
  }

  /** With a teleop no longer than the endgame and three shifts, the first handover is sounded in no run,
      however close its ticks. */
  lemma ShortTeleopNeverSounds(cfg: Config, mode: AutoWinnerMode, run: Run, t: int)
    requires cfg.tm.Valid() && cfg.tm.teleopSec <= cfg.tm.endgameSec + 3 * cfg.tm.shiftSec
    requires Timely(run, 0, t)
    ensures Shift1 !in Ran(cfg, Initial(mode), run).cues.heard
  {
    AlwaysUnheard(cfg, Initial(mode), run, 0, t);
  }

  /** With any longer one, and an AUTO or a pause, ticks that are close enough do fit. */
  lemma SomePaceFits(tm: MatchTiming)
    requires tm.Valid() && 0 < tm.autoSec + tm.pauseSec
    ensures (exists gap :: 1 <= gap && CuesFit(tm, gap)) <==> tm.endgameSec + 3 * tm.shiftSec < tm.teleopSec
  {
    if tm.endgameSec + 3 * tm.shiftSec < tm.teleopSec {
      assert CuesFit(tm, 1);
    }
  }
}
