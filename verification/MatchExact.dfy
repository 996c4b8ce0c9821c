/** Runs that show two conditions on the settings to be needed: the result of AUTO can be overtaken by
    late FUEL, and a lamp can warn too late. Both follow one run of a match up to its teleop. */
module MatchExact {
  import opened Common
  import opened Timing
  import opened Hub
  import opened HubCounter
  import opened HubLights
  import opened FieldEStop
  import opened MatchState
  import opened MatchSafety
  import opened MatchClock
  import opened MatchLamps
  import opened MatchScoring

  // ----------------------------------------------------------------------------- a quiet tick

  const NOTHING: PlcReading := PlcInputs(
    false, [false, false, false, false, false, false], [false, false, false, false, false, false])

  /** A tick that finds every button released, and flips no coin for red. */
  const QUIET := TickInput(false, RELEASED, [], NOTHING, 0)

  lemma QuietStops(a: State, now: int)
    ensures var t := StopsPolled(a, now, QUIET);
            t == a.(fieldEStopFault := FaultNone)
  {
  }

  lemma QuietPlc(cfg: Config, a: State, now: int)
    ensures var t := PlcHandled(cfg, a, NOTHING, now);
            && t == a.(stations := t.stations)
            && forall i: StationId ::
                 t.stations[i] == if cfg.plcEnabled
                                  then TeamAStop(a, TeamEStop(a, a.stations[i], false, now), false) else a.stations[i]
  {
  }

  /** Nothing cuts the match short. */
  lemma QuietTick(cfg: Config, s: State, now: int)
    ensures var a := Sent(cfg, s, now, false);
            var t := Ticked(cfg, s, now, QUIET);
            && t.phase == a.phase && Continues(a, t)
            && t.fieldEStopFault == FaultNone && t.fieldEStopActive == a.fieldEStopActive
  {
    var a := Sent(cfg, s, now, false);
    QuietStops(a, now);
    DisplayContinues(cfg, StopsPolled(a, now, QUIET), now);
    QuietPlc(cfg, Displayed(cfg, StopsPolled(a, now, QUIET), now), now);
    TickAfterSent(cfg, a, now, QUIET);
  }

  /** Where a quiet tick takes a match under way. */
  function NextPhase(tm: MatchTiming, phase: Phase, elapsed: int): Phase {
    match phase
    case StartMatch => if tm.warmupSec > 0 then WarmupPeriod else AutoPeriod
    case WarmupPeriod => if elapsed < Seconds(tm.warmupSec) then WarmupPeriod else AutoPeriod
    case AutoPeriod =>
      if elapsed < tm.AutoEnd() then AutoPeriod else if tm.pauseSec > 0 then PausePeriod else TeleopPeriod
    case PausePeriod => if elapsed < tm.TeleopStart() then PausePeriod else TeleopPeriod
    case TeleopPeriod => if elapsed < tm.TeleopEnd() then TeleopPeriod else PostMatch
    case _ => phase
  }

  lemma AdvancePhase(cfg: Config, c: State, now: int)
    requires InProgress(c.phase)
    ensures var a := Advanced(cfg, c, now, false).s;
            && a.phase == NextPhase(cfg.tm, c.phase, now - c.matchStartTime)
            && a.matchStartTime == (if c.phase == StartMatch then now else c.matchStartTime)
            && a.mode == c.mode
            && (c.phase == TeleopPeriod ==> a.autoWinner == c.autoWinner)
            && (c.phase != TeleopPeriod && a.phase == TeleopPeriod ==> a.autoWinner == Winner(c, false))
  {
  }

  /** The result is taken from the counts, and nothing has been counted. */
  predicate Level(s: State) {
    && s.mode == FromCounts
    && s.redHub.Total() == 0 && s.blueHub.Total() == 0 && AutoTallies(s) == (0, 0)
    && s.feed.Valid() && s.feed.last == None && s.feed.Total().red == 0 && s.feed.Total().blue == 0
  }

  lemma LevelCounted(cfg: Config, s: State, now: int)
    requires Level(s)
    ensures var c := HubsCounted(cfg, s, now);
            && c == s.(redHub := c.redHub, blueHub := c.blueHub)
            && c.redHub.counts == s.redHub.counts && c.blueHub.counts == s.blueHub.counts
  {
    CountingKeepsMatch(cfg, s, now);
  }

  lemma LevelTick(cfg: Config, s: State, now: int)
    requires Level(s) && InProgress(s.phase)
    ensures var t := Ticked(cfg, s, now, QUIET);
            && t.phase == NextPhase(cfg.tm, s.phase, now - s.matchStartTime)
            && t.matchStartTime == (if s.phase == StartMatch then now else s.matchStartTime)
            && (s.phase == TeleopPeriod ==> t.autoWinner == s.autoWinner)
            && (s.phase != TeleopPeriod && t.phase == TeleopPeriod ==> t.autoWinner == Blue)
  {
    var c := HubsCounted(cfg, s, now);
    LevelCounted(cfg, s, now);
    AdvancePhase(cfg, c, now);
    SentKeeps(cfg, s, now, false);
    QuietTick(cfg, s, now);
  }

  lemma TickStaysLevel(cfg: Config, s: State, now: int)
    requires Level(s)
    ensures Level(Ticked(cfg, s, now, QUIET))
  {
    var c := HubsCounted(cfg, s, now);
    var t := Ticked(cfg, s, now, QUIET);
    LevelCounted(cfg, s, now);
    TickScores(cfg, s, now, QUIET);
    assert t.mode == s.mode by {
      QuietTick(cfg, s, now);
      SentKeeps(cfg, s, now, false);
      AdvanceKeepsMode(cfg, c, now);
    }
    if Resets(s, now, Tick(QUIET)) {
      ZeroedIsFunded(s, t);
      ZeroedIsLevel(s, t);
    }
  }

  lemma AdvanceKeepsMode(cfg: Config, c: State, now: int)
    ensures Advanced(cfg, c, now, false).s.mode == c.mode
  {
  }

  lemma ZeroedIsLevel(s: State, t: State)
    requires Zeroed(s, t)
    ensures AutoTallies(t) == (0, 0)
  {
  }

  // ------------------------------------------------------------------------- a match up to teleop

  const FINE := StartChecks(Online, true, false, [])

  /** Every station bypassed, an empty match loaded, and a tick to acknowledge the a-stops. */
  function Prepared(): Run { Then(Then(Then(Begin, 0, DisableAll), 0, Load(NO_TEAMS)), 0, Tick(QUIET)) }

  function Started(): Run { Then(Prepared(), 0, Start(FINE)) }

  lemma RanOne(cfg: Config, s: State, before: Run, now: int, e: Event)
    ensures Ran(cfg, s, Then(before, now, e)) == Step(cfg, Ran(cfg, s, before), now, e)
  {
  }

  lemma DisabledAndLoaded(cfg: Config, s: State, i: StationId)
    requires s.phase == PreMatch && s.stations[i] == EMPTY_STATION
    ensures var t := Loaded(cfg, Step(cfg, s, 0, DisableAll), NO_TEAMS);
            && t.stations[i] == EMPTY_STATION.(bypass := true, aStopReset := !cfg.plcEnabled)
            && t.phase == PreMatch && t.fieldEStopActive == s.fieldEStopActive && t.mode == s.mode
            && Zeroed(s, t)
  {
    assert Step(cfg, s, 0, DisableAll).stations[i] == Bypassed(EMPTY_STATION);
  }

  lemma LoadedStations(cfg: Config, i: StationId)
    ensures var s := Ran(cfg, Initial(FromCounts), Prepared().before);
            && s.stations[i] == EMPTY_STATION.(bypass := true, aStopReset := !cfg.plcEnabled)
            && s.phase == PreMatch && !s.fieldEStopActive && s.mode == FromCounts
            && Zeroed(Initial(FromCounts), s)
  {
    RanOne(cfg, Initial(FromCounts), Begin, 0, DisableAll);
    RanOne(cfg, Initial(FromCounts), Then(Begin, 0, DisableAll), 0, Load(NO_TEAMS));
    DisabledAndLoaded(cfg, Initial(FromCounts), i);
  }

  lemma QuietPreMatch(cfg: Config, s: State, now: int, i: StationId)
    requires s.phase == PreMatch && s.stations[i] == EMPTY_STATION.(bypass := true, aStopReset := !cfg.plcEnabled)
    ensures StationReady(Ticked(cfg, s, now, QUIET).stations[i])
  {
    var a := Sent(cfg, s, now, false);
    var p := StopsPolled(a, now, QUIET);
    QuietStops(a, now);
    DisplayContinues(cfg, p, now);
    QuietPlc(cfg, Displayed(cfg, p, now), now);
    assert a.stations[i] == s.stations[i] && a.phase == PreMatch;
  }

  lemma LoadedIsLevel(cfg: Config)
    ensures Level(Ran(cfg, Initial(FromCounts), Prepared().before))
  {
    var s, t := Initial(FromCounts), Ran(cfg, Initial(FromCounts), Prepared().before);
    LoadedStations(cfg, 0);
    ZeroedIsFunded(s, t);
    ZeroedIsLevel(s, t);
  }

  /** The quiet tick of a level match that has not started changes nothing a start asks about. */
  lemma QuietTickStaysReady(cfg: Config, s: State, now: int)
    requires s.phase == PreMatch && !s.fieldEStopActive && Level(s)
    ensures var t := Ticked(cfg, s, now, QUIET);
            t.phase == PreMatch && !t.fieldEStopActive && t.fieldEStopFault == FaultNone && Level(t)
  {
    TickStaysLevel(cfg, s, now);
    QuietTick(cfg, s, now);
    SentKeeps(cfg, s, now, false);
    LevelCounted(cfg, s, now);
  }

  lemma ReadyStarts(cfg: Config, s: State, now: int)
    requires s.phase == PreMatch && !s.fieldEStopActive && s.fieldEStopFault == FaultNone && Level(s)
    requires forall i: StationId :: StationReady(s.stations[i])
    ensures Step(cfg, s, now, Start(FINE)) == s.(phase := StartMatch)
  {
    assert CanStart(cfg, s, FINE);
  }

  lemma MatchStarts(cfg: Config)
    ensures var s := Ran(cfg, Initial(FromCounts), Started());
            s.phase == StartMatch && Level(s)
  {
    var before := Ran(cfg, Initial(FromCounts), Prepared().before);
    var s := Ran(cfg, Initial(FromCounts), Prepared());
    forall i: StationId ensures StationReady(s.stations[i]) {
      LoadedStations(cfg, i);
      QuietPreMatch(cfg, before, 0, i);
    }
    LoadedStations(cfg, 0);
    LoadedIsLevel(cfg);
    QuietTickStaysReady(cfg, before, 0);
    ReadyStarts(cfg, s, 0);
  }

  /** What a quiet tick of a level match does. */
  predicate Ticks(tm: MatchTiming, s: State, now: int, t: State) {
    && Level(t)
    && t.phase == NextPhase(tm, s.phase, now - s.matchStartTime)
    && t.matchStartTime == (if s.phase == StartMatch then now else s.matchStartTime)
    && (t.phase == TeleopPeriod ==> t.autoWinner == if s.phase == TeleopPeriod then s.autoWinner else Blue)
  }

  lemma RunTicks(cfg: Config, start: State, before: Run, now: int)
    requires Level(Ran(cfg, start, before)) && InProgress(Ran(cfg, start, before).phase)
    ensures Ticks(cfg.tm, Ran(cfg, start, before), now,
                  Ran(cfg, start, Then(before, now, Tick(QUIET))))
  {
    var s := Ran(cfg, start, before);
    RanOne(cfg, start, before, now, Tick(QUIET));
    LevelTick(cfg, s, now);
    TickStaysLevel(cfg, s, now);
  }

  predicate Starts(cfg: Config, start: State, started: Run) {
    && Ran(cfg, start, started).phase == StartMatch
    && Level(Ran(cfg, start, started))
    && Timely(started, 0, 1)
  }

  lemma SomeRunStarts(cfg: Config) returns (mode: AutoWinnerMode, started: Run)
    ensures Starts(cfg, Initial(mode), started)
  {
    mode, started := FromCounts, Started();
    MatchStarts(cfg);
  }

  /** The match has begun: the warmup, or AUTO already when there is none. */
  predicate Begun(tm: MatchTiming, s: State) {
    Level(s) && s.matchStartTime == 1 && s.phase == if tm.warmupSec > 0 then WarmupPeriod else AutoPeriod
  }

  lemma TickBeginsMatch(tm: MatchTiming, s: State, t: State)
    requires s.phase == StartMatch && Ticks(tm, s, 1, t)
    ensures Begun(tm, t)
  {
  }

  predicate LevelInAuto(s: State) { s.phase == AutoPeriod && s.matchStartTime == 1 && Level(s) }

  lemma TickBeginsAuto(tm: MatchTiming, s: State, t: State)
    requires tm.Valid() && Begun(tm, s) && Ticks(tm, s, 2 + Seconds(tm.warmupSec), t)
    ensures LevelInAuto(t)
  {
  }

  // The match begins at 1, and then a tick follows shortly after the end of each period.

  lemma MatchBegins(cfg: Config, start: State, started: Run) returns (begun: Run)
    requires cfg.tm.Valid() && Starts(cfg, start, started)
    ensures Begun(cfg.tm, Ran(cfg, start, begun)) && Timely(begun, 0, 2 + Seconds(cfg.tm.warmupSec))
  {
    begun := Then(started, 1, Tick(QUIET));
    RunTicks(cfg, start, started, 1);
    TickBeginsMatch(cfg.tm, Ran(cfg, start, started), Ran(cfg, start, begun));
  }

  lemma AutoBegins(cfg: Config, start: State, begun: Run) returns (auto: Run)
    requires cfg.tm.Valid()
    requires Begun(cfg.tm, Ran(cfg, start, begun)) && Timely(begun, 0, 2 + Seconds(cfg.tm.warmupSec))
    ensures LevelInAuto(Ran(cfg, start, auto)) && Timely(auto, 0, 3 + cfg.tm.AutoEnd())
  {
    auto := Then(begun, 2 + Seconds(cfg.tm.warmupSec), Tick(QUIET));
    RunTicks(cfg, start, begun, 2 + Seconds(cfg.tm.warmupSec));
    TickBeginsAuto(cfg.tm, Ran(cfg, start, begun), Ran(cfg, start, auto));
  }

  /** AUTO is over: the pause, or teleop already when there is none. */
  predicate AfterAuto(tm: MatchTiming, s: State) {
    && Level(s) && s.matchStartTime == 1
    && s.phase == (if tm.pauseSec > 0 then PausePeriod else TeleopPeriod)
    && (s.phase == TeleopPeriod ==> s.autoWinner == Blue)
  }

  lemma TickEndsAuto(tm: MatchTiming, s: State, t: State)
    requires tm.Valid() && LevelInAuto(s) && Ticks(tm, s, 3 + tm.AutoEnd(), t)
    ensures AfterAuto(tm, t)
  {
  }

  predicate LevelInTeleop(s: State) {
    s.phase == TeleopPeriod && s.matchStartTime == 1 && s.autoWinner == Blue && Level(s)
  }

  lemma TickBeginsTeleop(tm: MatchTiming, s: State, t: State)
    requires tm.Valid() && 0 < tm.teleopSec && AfterAuto(tm, s)
    requires Ticks(tm, s, 4 + tm.TeleopStart(), t)
    ensures LevelInTeleop(t)
  {
  }

  lemma AutoEnds(cfg: Config, start: State, auto: Run) returns (over: Run)
    requires cfg.tm.Valid() && LevelInAuto(Ran(cfg, start, auto)) && Timely(auto, 0, 3 + cfg.tm.AutoEnd())
    ensures AfterAuto(cfg.tm, Ran(cfg, start, over)) && Timely(over, 0, 4 + cfg.tm.TeleopStart())
  {
    over := Then(auto, 3 + cfg.tm.AutoEnd(), Tick(QUIET));
    RunTicks(cfg, start, auto, 3 + cfg.tm.AutoEnd());
    TickEndsAuto(cfg.tm, Ran(cfg, start, auto), Ran(cfg, start, over));
  }

  lemma TeleopBegins(cfg: Config, start: State, over: Run) returns (teleop: Run)
    requires cfg.tm.Valid() && 0 < cfg.tm.teleopSec
    requires AfterAuto(cfg.tm, Ran(cfg, start, over)) && Timely(over, 0, 4 + cfg.tm.TeleopStart())
    ensures LevelInTeleop(Ran(cfg, start, teleop)) && Timely(teleop, 0, 4 + cfg.tm.TeleopStart())
  {
    teleop := Then(over, 4 + cfg.tm.TeleopStart(), Tick(QUIET));
    RunTicks(cfg, start, over, 4 + cfg.tm.TeleopStart());
    TickBeginsTeleop(cfg.tm, Ran(cfg, start, over), Ran(cfg, start, teleop));
  }

  /** Any settings that have a teleop bring such a match to it, with blue the winner of a level AUTO. */
  lemma TeleopIsReached(cfg: Config) returns (mode: AutoWinnerMode, run: Run)
    requires cfg.tm.Valid() && 0 < cfg.tm.teleopSec
    ensures LevelInTeleop(Ran(cfg, Initial(mode), run)) && Timely(run, 0, 4 + cfg.tm.TeleopStart())
  {
    mode, run := SomeRunStarts(cfg);
    run := MatchBegins(cfg, Initial(mode), run);
    run := AutoBegins(cfg, Initial(mode), run);
    run := AutoEnds(cfg, Initial(mode), run);
    run := TeleopBegins(cfg, Initial(mode), run);
  }

  // ---------------------------------------------------------------------------------- the result

  function Counter(seqNum: nat, red: int): Event
    requires 0 <= red
  {
    Receive(Message(true, 100, Some(OnTheWire(Datagram("a", seqNum, Counts(red, 0), 0)))))
  }

  lemma CounterIsAdmitted(seqNum: nat, red: nat)
    ensures Admitted(Counter(seqNum, red).message) == Some(Datagram("a", seqNum, Counts(red, 0), 0))
  {
    var d := Datagram("a", seqNum, Counts(red, 0), 0);
    assert IsSessionChar("a"[0]);
    ValidateUndoesSending(OnTheWire(d), d);
  }

  lemma FirstArrives(cfg: Config, s: State, now: int)
    requires s.feed.last == None && s.feed.Valid()
    ensures var t := Step(cfg, s, now, Counter(0, 0));
            t == s.(feed := s.feed.Recorded(Datagram("a", 0, Counts(0, 0), 0)))
  {
    CounterIsAdmitted(0, 0);
  }

  lemma SecondArrives(cfg: Config, s: State, now: int)
    ensures var t := Step(cfg, s, now, Counter(1, 1));
            t == s.(feed := s.feed.Recorded(Datagram("a", 1, Counts(1, 0), 0)))
  {
    CounterIsAdmitted(1, 1);
  }

  lemma FeedGainsOne(feed: Feed)
    requires feed.last == None && feed.Valid()
    ensures var t := feed.Recorded(Datagram("a", 0, Counts(0, 0), 0)).Recorded(Datagram("a", 1, Counts(1, 0), 0));
            t.Total().red == 1 && t.Total().blue == 0
  {
  }

  /** Two datagrams, the second with one FUEL for red. */
  lemma OneForRedArrives(cfg: Config, s: State, now: int)
    requires s.feed.last == None && s.feed.Valid()
    ensures var t := Step(cfg, Step(cfg, s, now, Counter(0, 0)), now, Counter(1, 1));
            t == s.(feed := t.feed) && t.feed.Total().red == 1 && t.feed.Total().blue == 0
  {
    FirstArrives(cfg, s, now);
    SecondArrives(cfg, Step(cfg, s, now, Counter(0, 0)), now);
    FeedGainsOne(s.feed);
  }

  /** A tick of teleop within the grace of AUTO, with that FUEL still to be counted. */
  lemma LateTick(cfg: Config, s: State, now: int)
    requires cfg.tm.Valid() && s.phase == TeleopPeriod && s.mode == FromCounts && s.autoWinner == Blue
    requires s.redHub.Total() == 0 && s.blueHub.Total() == 0 && AutoTallies(s) == (0, 0)
    requires s.feed.Total().red == 1 && s.feed.Total().blue == 0
    requires cfg.tm.TeleopStart() <= now - s.matchStartTime < cfg.tm.AutoEnd() + SCORING_GRACE
    requires now - s.matchStartTime < cfg.tm.TeleopEnd()
    ensures !Fair(Ticked(cfg, s, now, QUIET))
  {
    var c := HubsCounted(cfg, s, now);
    ShortPauseMovesAuto(cfg, s, now, QUIET);
    TickScores(cfg, s, now, QUIET);
    CountingKeepsMatch(cfg, s, now);
    AdvancePhase(cfg, c, now);
    SentKeeps(cfg, s, now, false);
    QuietTick(cfg, s, now);
  }

  predicate FairAfter(cfg: Config, mode: AutoWinnerMode, run: Run) { Fair(Ran(cfg, Initial(mode), run)) }

  lemma LateFuelIsUnfair(cfg: Config) returns (mode: AutoWinnerMode, run: Run)
    requires cfg.tm.Valid() && !ResultStands(cfg.tm)
    ensures Timely(run, 0, 5 + cfg.tm.TeleopStart()) && !FairAfter(cfg, mode, run)
  {
    var teleop;
    mode, teleop := TeleopIsReached(cfg);
    var start, at := Initial(mode), 4 + cfg.tm.TeleopStart();
    var once := Then(teleop, at, Counter(0, 0));
    var twice := Then(once, at, Counter(1, 1));
    RanOne(cfg, start, teleop, at, Counter(0, 0));
    RanOne(cfg, start, once, at, Counter(1, 1));
    OneForRedArrives(cfg, Ran(cfg, start, teleop), at);
    LateTick(cfg, Ran(cfg, start, twice), at + 1);
    run := Then(twice, at + 1, Tick(QUIET));
    RanOne(cfg, start, twice, at + 1, Tick(QUIET));
  }

  /** Over a run in which time does not run backwards, from 0 to t. */
  predicate FairUntil(cfg: Config, mode: AutoWinnerMode, run: Run, t: int) {
    Timely(run, 0, t) ==> FairAfter(cfg, mode, run)
  }

  lemma FairFromStart(cfg: Config, mode: AutoWinnerMode, run: Run, t: int)
    requires cfg.tm.Valid() && ResultStands(cfg.tm) && Timely(run, 0, t)
    ensures FairAfter(cfg, mode, run)
  {
    WinnerIsAlwaysFair(cfg, Initial(mode), run, 0, t);
  }

  /** In every run, from any mode, the published winner agrees with the AUTO tallies throughout teleop --
      exactly when the pause is at least as long as the grace, or there is no teleop. */
  lemma WinnersAreFairExactly(cfg: Config)
    requires cfg.tm.Valid()
    ensures (forall mode, run, t :: FairUntil(cfg, mode, run, t)) <==> ResultStands(cfg.tm)
  {
    if ResultStands(cfg.tm) {
      forall mode, run, t ensures FairUntil(cfg, mode, run, t) {
        if Timely(run, 0, t) { FairFromStart(cfg, mode, run, t); }
      }
    } else {
      var mode, run := LateFuelIsUnfair(cfg);
      assert !FairUntil(cfg, mode, run, 5 + cfg.tm.TeleopStart());
    }
  }

  // ----------------------------------------------------------------------------------- the lamps

  ghost predicate TruthfulAfter(cfg: Config, mode: AutoWinnerMode, run: Run, now: int, tick: TickInput) {
    LampsTruthful(cfg, Ticked(cfg, Ran(cfg, Initial(mode), run), now, tick), now)
  }

  lemma MisleadingInstant(tm: MatchTiming) returns (now: int)
    requires tm.Valid() && 0 < tm.teleopSec && !WarningsFit(tm)
    ensures 4 + tm.TeleopStart() <= now && now - 1 < tm.TeleopEnd()
    ensures !LampsTellTruth(tm, Blue, now - 1) && InTeleop(tm, now - 1)
  {
    now := 1 + Misleading(tm);
    MisleadingIsLater(tm);
    LateWarningMisleads(tm, Blue);
  }

  lemma LateWarning(cfg: Config) returns (mode: AutoWinnerMode, run: Run, now: int, tick: TickInput)
    requires cfg.tm.Valid() && 0 < cfg.tm.teleopSec && !WarningsFit(cfg.tm)
    ensures Timely(run, 0, now) && !TruthfulAfter(cfg, mode, run, now, tick)
  {
    mode, run := TeleopIsReached(cfg);
    tick := QUIET;
    now := MisleadingInstant(cfg.tm);
    TimelyLater(run, 0, 4 + cfg.tm.TeleopStart(), now);
    MisleadingTick(cfg, Ran(cfg, Initial(mode), run), now);
  }

  lemma MisleadingTick(cfg: Config, s: State, now: int)
    requires cfg.tm.Valid() && LevelInTeleop(s)
    requires now - 1 < cfg.tm.TeleopEnd()
    requires !LampsTellTruth(cfg.tm, Blue, now - 1) && InTeleop(cfg.tm, now - 1)
    ensures !LampsTruthful(cfg, Ticked(cfg, s, now, QUIET), now)
  {
    LevelTick(cfg, s, now);
    TickStartsLamps(cfg, s, now);
  }

  lemma MisleadingIsLater(tm: MatchTiming)
    requires tm.Valid() && 0 < tm.teleopSec && !WarningsFit(tm)
    ensures 3 + tm.TeleopStart() <= Misleading(tm) < tm.TeleopEnd()
  {
  }

  lemma TimelyLater(run: Run, t0: int, t: int, u: int)
    requires Timely(run, t0, t) && t <= u
    ensures Timely(run, t0, u)
  {
  }

  /** The lamps after a quiet tick of teleop are those chosen for its instant, and so mislead. */
  lemma TickStartsLamps(cfg: Config, s: State, now: int)
    requires cfg.tm.Valid() && s.phase == TeleopPeriod && s.autoWinner == Blue && s.matchStartTime == 1
    requires now - 1 < cfg.tm.TeleopEnd()
    requires Ticked(cfg, s, now, QUIET).phase == TeleopPeriod
    requires Ticked(cfg, s, now, QUIET).autoWinner == Blue && Ticked(cfg, s, now, QUIET).matchStartTime == 1
    requires !LampsTellTruth(cfg.tm, Blue, now - 1) && InTeleop(cfg.tm, now - 1)
    ensures !LampsTruthful(cfg, Ticked(cfg, s, now, QUIET), now)
  {
    TickShowsModes(cfg, StopsPolled(Sent(cfg, s, now, false), now, QUIET), now, QUIET);
    TeleopHasShift(cfg.tm, Blue, now - 1);
    ShownMislead(cfg.tm, Blue, now - 1, Ticked(cfg, s, now, QUIET).lamps);
  }

  lemma ShownMislead(tm: MatchTiming, winner: Alliance, elapsed: int, lamps: Modes)
    requires TeleopModes(tm, winner, elapsed).Some? && Shows(tm, winner, elapsed, lamps)
    requires !LampsTellTruth(tm, winner, elapsed)
    ensures !BothTellTruth(tm, winner, elapsed, lamps)
  {
  }

  lemma TruthfulFromStart(cfg: Config, mode: AutoWinnerMode, run: Run, now: int, tick: TickInput)
    requires cfg.tm.Valid() && (cfg.tm.teleopSec == 0 || WarningsFit(cfg.tm)) && Timely(run, 0, now)
    ensures TruthfulAfter(cfg, mode, run, now, tick)
  {
    LampsAlwaysTellTruth(cfg, Initial(mode), run, 0, now, tick);
  }

  /** In every run the lamps that a tick of teleop leaves behind tell the truth, exactly when the warnings
      fit the settings or there is no teleop. */
  lemma LampsAreTruthfulExactly(cfg: Config)
    requires cfg.tm.Valid()
    ensures (forall mode, run, now, tick :: Timely(run, 0, now) ==> TruthfulAfter(cfg, mode, run, now, tick)) <==>
            cfg.tm.teleopSec == 0 || WarningsFit(cfg.tm)
  {
    if cfg.tm.teleopSec == 0 || WarningsFit(cfg.tm) {
      forall mode, run, now, tick | Timely(run, 0, now) ensures TruthfulAfter(cfg, mode, run, now, tick) {
        TruthfulFromStart(cfg, mode, run, now, tick);
      }
    } else {
      var mode, run, now, tick := LateWarning(cfg);
      assert Timely(run, 0, now) && !TruthfulAfter(cfg, mode, run, now, tick);
    }
  }
}
