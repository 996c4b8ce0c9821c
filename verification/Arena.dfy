/** field/arena.go, arena_hub_counter.go and arena_leds.go: the arena object. Each method performs in
    place the step that MatchState states on values. The operations at the end are the events of a run: the
    tick, the commands, and what driver stations and the counter do between them. The object remembers that
    run, and so every theorem about runs is one about the object. */
module Arena {
  import opened Common
  import opened Timing
  import opened Hub
  import opened HubCounter
  import opened HubLights
  import opened FieldEStop
  import opened MatchState
  import MatchLineup
  import MatchSafety
  import MatchScoring
  import MatchStart
  import MatchStops
  import ShiftCue

  /** The match is under control and the FUEL funded; and the lineup is consistent, if no match that was
      loaded named a team twice. */
  ghost predicate Safe(s: State, run: MatchSafety.Run) {
    && MatchSafety.Controlled(s)
    && MatchScoring.Funded(s)
    && (MatchLineup.LoadsDistinct(run) ==> MatchLineup.Consistent(s))
  }

  lemma InitialIsFunded(mode: AutoWinnerMode)
    ensures MatchScoring.Funded(Initial(mode))
  {
    EmptyTallyIsZero();
  }

  lemma InitialIsSafe(mode: AutoWinnerMode)
    ensures Safe(Initial(mode), MatchSafety.Begin)
  {
    InitialIsFunded(mode);
  }

  lemma SafeStep(cfg: Config, s: State, run: MatchSafety.Run, now: int, e: Event)
    requires Safe(s, run)
    ensures Safe(Step(cfg, s, now, e), MatchSafety.Then(run, now, e))
  {
    MatchSafety.ControlledStep(cfg, s, now, e);
    MatchScoring.FundedStep(cfg, s, now, e);
    if MatchLineup.LoadsDistinct(MatchSafety.Then(run, now, e)) { MatchLineup.ConsistentStep(cfg, s, now, e); }
  }

  /** From the state a new arena starts in, every run keeps the three invariants together. */
  lemma {:induction false} EveryRunIsSafe(cfg: Config, mode: AutoWinnerMode, run: MatchSafety.Run)
    ensures Safe(MatchSafety.Ran(cfg, Initial(mode), run), run)
  {
    match run
    case Begin => InitialIsSafe(mode);
    case Then(before, now, e) =>
      EveryRunIsSafe(cfg, mode, before);
      SafeStep(cfg, MatchSafety.Ran(cfg, Initial(mode), before), before, now, e);
  }

  /** The empty stations among the first n that were not bypassed yet. */
  function NewlyBypassed(stations: Stations, n: nat): set<int> {
    set i | 0 <= i < n && i < STATIONS && stations[i].team == 0 && !stations[i].bypass
  }

  lemma NewlyBypassedGrows(stations: Stations, i: StationId)
    ensures |NewlyBypassed(stations, i + 1)| ==
            |NewlyBypassed(stations, i)| + if stations[i].team == 0 && !stations[i].bypass then 1 else 0
  {
    assert NewlyBypassed(stations, i + 1) ==
           NewlyBypassed(stations, i) + if stations[i].team == 0 && !stations[i].bypass then {i} else {};
  }

  lemma AcceptedAt(cfg: Config, s: State, id: nat, teamId: int, i: StationId, now: int)
    requires IsTeamOf(s.stations[i], teamId)
    ensures Step(cfg, s, now, Accept(id, teamId, i)) ==
            StationChanged(s, i, s.stations[i].(conn := Some(NewConnection(id, teamId))))
  {
  }

  lemma HeardFrom(cfg: Config, s: State, teamId: int, i: StationId, linked: bool, now: int)
    requires IsTeamOf(s.stations[i], teamId)
    ensures var st := s.stations[i];
            Step(cfg, s, now, Telemetry(teamId, i, linked)) ==
            if st.conn.None? then s
            else StationChanged(s, i, st.(conn := Some(st.conn.value.(robotLinked := linked))))
  {
  }

  lemma FitIsChecked(cfg: Config, mode: AutoWinnerMode, run: MatchSafety.Run, checks: StartChecks, now: int)
    ensures CanStart(cfg, MatchSafety.Ran(cfg, Initial(mode), run), checks) <==>
            MatchStart.FieldFit(cfg, Initial(mode), run, checks)
  {
    var s := MatchSafety.Ran(cfg, Initial(mode), run);
    if s.phase != Phase.StartMatch { MatchStart.MatchStartsExactly(cfg, mode, run, now, Start(checks)); }
  }

  lemma LoadsAs(cfg: Config, s: State, teams: Lineup, now: int)
    ensures Step(cfg, s, now, Load(teams)) == Loaded(cfg, s, teams)
  {
  }

  lemma OutputsCompose(cfg: Config, a: State, d: State, p: State, t: State, now: int, tick: TickInput)
    requires d == Displayed(cfg, a, now)
    requires p == PlcHandled(cfg, d, tick.plc, now + tick.lag) && t == PhaseNoted(p)
    ensures t == OutputsSet(cfg, a, now, tick)
  {
  }

  lemma TickComposes(cfg: Config, s: State, a: State, t: State, now: int, tick: TickInput)
    requires a == Sent(cfg, s, now, tick.coin)
    requires t == OutputsSet(cfg, StopsPolled(a, now, tick), now, tick)
    ensures t == Ticked(cfg, s, now, tick)
  {
  }

  class Arena {
    const cfg: Config
    const redHub: Hub
    const blueHub: Hub
    const hubCounter: HubCounterReceiver
    const fieldEStop: GpioFieldEStopPanel
    var matchState: Phase
    var lastMatchState: Option<Phase>
    var matchStartTime: int
    var postMatchStartTime: int
    var lastDsPacketTime: int
    var autoWinner: Alliance
    var autoWinnerMode: AutoWinnerMode
    var gameData: string
    var stations: Stations
    var currentMatch: Lineup
    var fieldEStopActive: bool
    var fieldEStopFault: FaultKind
    var matchAborted: bool
    var leds: Modes
    var lastMatchTime: int
    var lastShift: Option<Shift>
    /** The shift changes sounded since the match began. */
    var shiftCues: seq<Shift>
    ghost const initialMode: AutoWinnerMode
    /** Everything that has been done to this arena. */
    ghost var run: MatchSafety.Run

    ghost function Parts(): set<object>
    {
      {redHub, redHub.shiftCounts, blueHub, blueHub.shiftCounts, hubCounter}
    }

    ghost predicate Separate()
      reads Parts()
    {
      && redHub != blueHub && redHub.shiftCounts != blueHub.shiftCounts
      && redHub.Valid() && blueHub.Valid()
    }

    ghost function View(): State
      requires Separate()
      reads this, Parts()
    {
      State(matchState, lastMatchState, matchStartTime, postMatchStartTime, lastDsPacketTime,
            autoWinner, autoWinnerMode, gameData, stations, currentMatch,
            redHub.View(), blueHub.View(), hubCounter.View(),
            fieldEStopActive, fieldEStopFault, matchAborted, leds, lastMatchTime, ShiftCue.Cues(lastShift, shiftCues))
    }

    /** Between operations the arena is where its run has brought it. */
    ghost predicate Valid()
      reads this, Parts()
    {
      Separate() && View() == MatchSafety.Ran(cfg, Initial(initialMode), run)
    }

    /** And so, whatever operations there have been, it is safe. */
    lemma IsSafe()
      requires Valid()
      ensures MatchSafety.Controlled(View()) && MatchScoring.Funded(View())
      ensures MatchLineup.LoadsDistinct(run) ==> MatchLineup.Consistent(View())
    {
      EveryRunIsSafe(cfg, initialMode, run);
    }

    constructor (cfg: Config, hubCounter: HubCounterReceiver, fieldEStop: GpioFieldEStopPanel, mode: AutoWinnerMode)
      requires hubCounter.View() == SILENT
      ensures Valid() && run == MatchSafety.Begin && View() == Initial(mode)
      ensures this.cfg == cfg && this.hubCounter == hubCounter && this.fieldEStop == fieldEStop
      ensures fresh(redHub) && fresh(redHub.shiftCounts) && fresh(blueHub) && fresh(blueHub.shiftCounts)
    {
      this.cfg, this.hubCounter, this.fieldEStop := cfg, hubCounter, fieldEStop;
      redHub := new Hub();
      blueHub := new Hub();
      matchState, lastMatchState := PreMatch, None;
      matchStartTime, postMatchStartTime, lastDsPacketTime := ZERO_TIME, ZERO_TIME, ZERO_TIME;
      autoWinner, autoWinnerMode, gameData := NoAlliance, mode, "";
      stations := [EMPTY_STATION, EMPTY_STATION, EMPTY_STATION, EMPTY_STATION, EMPTY_STATION, EMPTY_STATION];
      currentMatch := NO_TEAMS;
      fieldEStopActive, fieldEStopFault, matchAborted := false, FaultNone, false;
      leds := Modes(OffMode, OffMode);
      lastMatchTime, lastShift, shiftCues := 0, None, [];
      initialMode, run := mode, MatchSafety.Begin;
    }

    /** An operation has taken the arena one step from where its run had brought it. */
    ghost method Record(before: State, now: int, e: Event)
      requires Separate() && View() == Step(cfg, before, now, e)
      requires before == MatchSafety.Ran(cfg, Initial(initialMode), run)
      modifies `run
      ensures Valid() && run == MatchSafety.Then(old(run), now, e)
    {
      run := MatchSafety.Then(run, now, e);
    }

    // ---------------------------------------------------------------------------- scoring

    method SyncHubWonAuto()
      requires Separate()
      modifies redHub`wonAuto, blueHub`wonAuto
      ensures Separate() && View() == HubsSynced(old(View()))
    {
      redHub.wonAuto := autoWinner == Red;
      blueHub.wonAuto := autoWinner == Blue;
    }

    method UpdateHubCounts(now: int)
      requires Separate()
      modifies redHub, redHub.shiftCounts, blueHub, blueHub.shiftCounts
      ensures Separate() && View() == HubsCounted(cfg, old(View()), now)
    {
      SyncHubWonAuto();
      var redCount, blueCount := hubCounter.GetHubCounts();
      redHub.UpdateState(cfg.tm, redCount, matchStartTime, now);
      blueHub.UpdateState(cfg.tm, blueCount, matchStartTime, now);
    }

    method ResetHubs()
      requires Separate()
      modifies redHub, redHub.shiftCounts, blueHub, blueHub.shiftCounts
      ensures Separate()
      ensures View() == old(View()).(redHub := EMPTY_TALLY, blueHub := EMPTY_TALLY)
    {
      redHub.Reset();
      blueHub.Reset();
    }

    /** Takes the counter's baseline here, and drops what the HUBs hold. */
    method ResetCounts()
      requires Separate()
      modifies Parts()
      ensures Separate() && View() == HubsReset(old(View()))
    {
      hubCounter.ResetMatch();
      ResetHubs();
    }

    method CountedAutoWinner(coin: bool) returns (winner: Alliance)
      requires Separate() && autoWinnerMode == FromCounts
      ensures winner == Winner(View(), coin)
    {
      var redAutoFuel := redHub.shiftCounts[Index(ShiftAuto)];
      var blueAutoFuel := blueHub.shiftCounts[Index(ShiftAuto)];
      if redAutoFuel == blueAutoFuel {
        return if coin then Red else Blue;
      }
      if redAutoFuel > blueAutoFuel {
        return Red;
      }
      return Blue;
    }

    method AssignAutoWinner(coin: bool)
      requires Separate()
      modifies `autoWinner
      ensures Separate() && View() == old(View()).(autoWinner := Winner(old(View()), coin))
    {
      match autoWinnerMode
      case ForceRed => autoWinner := Red;
      case ForceBlue => autoWinner := Blue;
      case FromCounts => autoWinner := CountedAutoWinner(coin);
      case Random => autoWinner := if coin then Red else Blue;
    }

    method HandleAutoWinner(coin: bool)
      requires Separate()
      modifies `autoWinner, `gameData, redHub`wonAuto, blueHub`wonAuto
      ensures Separate() && View() == AutoDecided(old(View()), coin)
    {
      AssignAutoWinner(coin);
      SyncHubWonAuto();
      gameData := GameDataFor(autoWinner);
    }

    // -------------------------------------------------------- loading, clearing and aborting

    method AbortMatchLocked(now: int) returns (ok: bool)
      requires Separate()
      modifies `matchState, `postMatchStartTime, `gameData, `matchAborted
      ensures Separate() && View() == Aborted(old(View()), now)
      ensures ok <==> InProgress(old(matchState))
    {
      if matchState == PreMatch || matchState == PostMatch {
        return false;
      }
      EndMatch(now);
      matchAborted := true;
      return true;
    }

    method ResetMatchLocked() returns (ok: bool)
      requires Separate()
      modifies `matchState, `matchAborted, `gameData, `stations
      ensures Separate() && View() == MatchReset(old(View()))
      ensures ok <==> !InProgress(old(matchState))
      ensures ok ==> matchState == PreMatch && !matchAborted && gameData == ""
      ensures ok ==> forall i :: 0 <= i < STATIONS ==> stations[i] == old(stations)[i].(bypass := false)
    {
      if matchState != PostMatch && matchState != PreMatch {
        return false;
      }
      ClearBypasses();
      ReturnToPreMatch();
      return true;
    }

    method ReturnToPreMatch()
      requires Separate()
      modifies `matchState, `matchAborted, `gameData
      ensures Separate() && View() == old(View()).(phase := PreMatch, matchAborted := false, gameData := "")
    {
      matchState := PreMatch;
      matchAborted := false;
      gameData := "";
    }

    method ClearBypasses()
      requires Separate()
      modifies `stations
      ensures Separate() && stations == Each(old(stations), Unbypassed)
    {
      ghost var was := stations;
      for i := 0 to STATIONS
        invariant forall j :: 0 <= j < i ==> stations[j] == Unbypassed(was[j])
        invariant forall j :: i <= j < STATIONS ==> stations[j] == was[j]
      {
        stations := stations[i := stations[i].(bypass := false)];
      }
      assert stations == Each(was, Unbypassed);
    }

    method AssignTeam(teamId: int, i: StationId)
      requires Separate()
      modifies `stations
      ensures Separate() && stations == old(stations)[i := Assigned(cfg, old(stations[i]), teamId)]
    {
      stations := stations[i := stations[i].(aStopReset := !cfg.plcEnabled)];
      var dsConn := stations[i].conn;
      if dsConn.Some? && dsConn.value.teamId == teamId {
        return;
      }
      if dsConn.Some? {
        stations := stations[i := stations[i].(team := 0, conn := None)];
      }
      if teamId == 0 {
        stations := stations[i := stations[i].(team := 0)];
        return;
      }
      stations := stations[i := stations[i].(team := teamId)];
    }

    method AssignTeams(teams: Lineup)
      requires Separate()
      modifies `stations
      ensures Separate() && stations == AllAssigned(cfg, old(stations), teams)
    {
      AssignTeam(teams[0], 0);
      AssignTeam(teams[1], 1);
      AssignTeam(teams[2], 2);
      AssignTeam(teams[3], 3);
      AssignTeam(teams[4], 4);
      AssignTeam(teams[5], 5);
      assert stations == AllAssigned(cfg, old(stations), teams);
    }

    method LoadMatchLocked(teams: Lineup) returns (ok: bool)
      requires Separate()
      modifies `currentMatch, `stations, `autoWinner, Parts()
      ensures Separate() && View() == Loaded(cfg, old(View()), teams)
      ensures ok <==> old(matchState) == PreMatch
    {
      if matchState != PreMatch {
        return false;
      }
      TakeLineup(teams);
      ResetCounts();
      DropResult();
      return true;
    }

    method TakeLineup(teams: Lineup)
      requires Separate()
      modifies `currentMatch, `stations
      ensures Separate()
      ensures View() == old(View()).(lineup := teams, stations := AllAssigned(cfg, old(stations), teams))
    {
      AssignTeams(teams);
      currentMatch := teams;
    }

    method DropResult()
      requires Separate()
      modifies `autoWinner
      ensures Separate() && View() == old(View()).(autoWinner := NoAlliance)
    {
      autoWinner := NoAlliance;
    }

    method RestoreBypasses(saved: Stations)
      requires Separate()
      modifies `stations
      ensures Separate() && stations == BypassRestored(old(stations), saved)
    {
      ghost var was := stations;
      for i := 0 to STATIONS
        invariant forall j :: 0 <= j < i ==> stations[j] == was[j].(bypass := saved[j].bypass)
        invariant forall j :: i <= j < STATIONS ==> stations[j] == was[j]
      {
        stations := stations[i := stations[i].(bypass := saved[i].bypass)];
      }
      assert stations == BypassRestored(was, saved);
    }

    method ClearMatchLocked() returns (ok: bool)
      requires Separate()
      modifies this, Parts()
      ensures Separate() && run == old(run) && View() == MatchCleared(cfg, old(View()))
      ensures ok <==> old(matchState) == PostMatch
    {
      if matchState != PostMatch {
        return false;
      }
      var teams, saved := currentMatch, stations;
      var reset := ResetMatchLocked();
      ok := LoadMatchLocked(teams);
      RestoreBypasses(saved);
    }

    method ResetFieldLocked() returns (ok: bool)
      requires Separate()
      modifies this, Parts()
      ensures Separate() && run == old(run) && View() == FieldReset(cfg, old(View()))
      ensures ok <==> !InProgress(old(matchState))
    {
      if matchState != PreMatch && matchState != PostMatch {
        return false;
      }
      EmptyStations();
      var reset := ResetMatchLocked();
      ok := LoadMatchLocked(NO_TEAMS);
    }

    method EmptyStations()
      requires Separate()
      modifies `stations
      ensures Separate() && stations == Each(old(stations), StationEmptied)
    {
      ghost var was := stations;
      for i := 0 to STATIONS
        invariant forall j :: 0 <= j < i ==> stations[j] == StationEmptied(was[j])
        invariant forall j :: i <= j < STATIONS ==> stations[j] == was[j]
      {
        var st := stations[i];
        stations := stations[i := Station(0, None, false, false, false, st.aStopReset, FaultNone)];
      }
      assert stations == Each(was, StationEmptied);
    }

    // ------------------------------------------------------------------- one tick's phases

    method StartClock(now: int)
      requires Separate()
      modifies `matchStartTime, `shiftCues
      ensures Separate() && View() == old(View()).(matchStartTime := now, cues := old(View()).cues.(heard := []))
    {
      matchStartTime := now;
      shiftCues := [];
    }

    method ClearGameData()
      requires Separate()
      modifies `gameData
      ensures Separate() && View() == old(View()).(gameData := "")
    {
      gameData := "";
    }

    /** The first tick of a match. */
    method BeginPeriods(now: int) returns (enabled: bool)
      requires Separate()
      modifies `matchStartTime, `autoWinner, `gameData, `shiftCues, `matchState, Parts()
      ensures Separate() && Advance(View(), true, enabled, enabled) == MatchBegun(cfg, old(View()), now)
    {
      StartClock(now);
      DropResult();
      ClearGameData();
      ResetCounts();
      enabled := cfg.tm.warmupSec <= 0;
      matchState := if cfg.tm.warmupSec > 0 then WarmupPeriod else AutoPeriod;
    }

    method BeginTeleop(coin: bool)
      requires Separate()
      modifies `autoWinner, `gameData, `matchState, redHub`wonAuto, blueHub`wonAuto
      ensures Separate() && View() == AutoDecided(old(View()), coin).(phase := TeleopPeriod)
    {
      HandleAutoWinner(coin);
      matchState := TeleopPeriod;
    }

    method EndMatch(now: int)
      requires Separate()
      modifies `matchState, `postMatchStartTime, `gameData
      ensures Separate() && View() == old(View()).(phase := PostMatch, postMatchStartTime := now, gameData := "")
    {
      matchState := PostMatch;
      postMatchStartTime := now;
      gameData := "";
    }

    /** The match state machine: where the match goes, and what the robots are to be told. */
    method AdvanceMatch(now: int, coin: bool) returns (auto: bool, enabled: bool, sendDsPacket: bool)
      requires Separate()
      modifies this, Parts()
      ensures Separate() && run == old(run)
      ensures Advance(View(), auto, enabled, sendDsPacket) == Advanced(cfg, old(View()), now, coin)
    {
      auto, enabled, sendDsPacket := false, false, false;
      var matchTime := if matchState in {PreMatch, Phase.StartMatch, PostMatch} then 0 else now - matchStartTime;
      match matchState
      case PreMatch => auto := true;
      case StartMatch =>
        auto := true;
        enabled := BeginPeriods(now);
        sendDsPacket := enabled;
      case WarmupPeriod =>
        auto := true;
        if matchTime >= Seconds(cfg.tm.warmupSec) {
          matchState := AutoPeriod;
          enabled, sendDsPacket := true, true;
        }
      case AutoPeriod =>
        auto, enabled := true, true;
        if matchTime >= cfg.tm.AutoEnd() {
          auto, sendDsPacket := false, true;
          if cfg.tm.pauseSec > 0 {
            matchState := PausePeriod;
            enabled := false;
          } else {
            BeginTeleop(coin);
          }
        }
      case PausePeriod =>
        if matchTime >= cfg.tm.TeleopStart() {
          BeginTeleop(coin);
          enabled, sendDsPacket := true, true;
        }
      case TeleopPeriod =>
        enabled := true;
        if matchTime >= cfg.tm.TeleopEnd() {
          EndMatch(now);
          enabled, sendDsPacket := false, true;
        }
      case PostMatch =>
        if now - postMatchStartTime >= POST_MATCH_DWELL {
          var cleared := ClearMatchLocked();
        }
    }

    method SendDsPacket(auto: bool, enabled: bool, now: int)
      requires Separate()
      modifies `stations, `lastDsPacketTime
      ensures Separate() && View() == PacketsSent(old(View()), auto, enabled, now)
    {
      ghost var was := stations;
      for i := 0 to STATIONS
        invariant forall j :: 0 <= j < i ==> stations[j] == Told(was[j], auto, enabled)
        invariant forall j :: i <= j < STATIONS ==> stations[j] == was[j]
      {
        var st := stations[i];
        if st.conn.Some? {
          var enable := enabled && !st.eStop && !(auto && st.aStop) && !st.bypass;
          var dsConn := st.conn.value.(auto := auto, enabled := enable, eStop := st.eStop, aStop := auto && st.aStop);
          stations := stations[i := st.(conn := Some(dsConn))];
        }
      }
      lastDsPacketTime := now;
      assert stations == Each(was, (st: Station) => Told(st, auto, enabled));
    }

    /** Polls the controller's own field e-stop. Any stop that is not already latched ends the match. */
    method PollFieldEStop(pins: Pins, now: int) returns (ghost reading: Reading)
      requires Separate()
      modifies `fieldEStopFault, `fieldEStopActive, `matchState, `postMatchStartTime, `gameData, `matchAborted,
               `stations, fieldEStop, fieldEStop.filter
      ensures Separate() && fieldEStop.View() == old(fieldEStop.View()).Polled(pins, now)
      ensures reading == fieldEStop.latched && View() == FieldStopPolled(old(View()), reading, now)
    {
      var live := fieldEStop.State(pins, now);
      LatchFieldEStop(live, now);
      reading := live;
    }

    method LatchFieldEStop(reading: Reading, now: int)
      requires Separate()
      modifies `fieldEStopFault, `fieldEStopActive, `matchState, `postMatchStartTime, `gameData, `matchAborted,
               `stations
      ensures Separate() && View() == FieldStopPolled(old(View()), reading, now)
    {
      fieldEStopFault := reading.fault;
      if reading.state != StopOK && !fieldEStopActive {
        StopAll();
        var aborted := AbortMatchLocked(now);
      }
    }

    method StopAll()
      requires Separate()
      modifies `fieldEStopActive, `stations
      ensures Separate()
      ensures View() == old(View()).(fieldEStopActive := true, stations := Each(old(stations), EStopped))
    {
      SetAllEStops(true);
      assert stations == Each(old(stations), EStopped);
      fieldEStopActive := true;
    }

    method SetAllEStops(active: bool)
      requires Separate()
      modifies `stations
      ensures Separate()
      ensures forall i :: 0 <= i < STATIONS ==> stations[i] == old(stations[i]).(eStop := active)
    {
      ghost var was := stations;
      for i := 0 to STATIONS
        invariant forall j :: 0 <= j < i ==> stations[j] == was[j].(eStop := active)
        invariant forall j :: i <= j < STATIONS ==> stations[j] == was[j]
      {
        stations := stations[i := stations[i].(eStop := active)];
      }
    }

    method HandleTeamEStop(i: StationId, active: bool, now: int)
      requires Separate()
      modifies `stations
      ensures Separate() && stations == old(stations)[i := TeamEStop(old(View()), old(stations[i]), active, now)]
    {
      if active {
        stations := stations[i := stations[i].(eStop := true)];
      } else if matchState in {PreMatch, Phase.StartMatch, PostMatch} || now - matchStartTime == 0 {
        stations := stations[i := stations[i].(eStop := false)];
      }
    }

    method HandleTeamAStop(i: StationId, active: bool)
      requires Separate()
      modifies `stations
      ensures Separate() && stations == old(stations)[i := TeamAStop(old(View()), old(stations[i]), active)]
    {
      if active {
        stations := stations[i := stations[i].(aStop := true)];
      } else if matchState != AutoPeriod {
        stations := stations[i := stations[i].(aStop := false, aStopReset := true)];
      }
    }

    method HandlePanelInput(i: StationId, input: Input, now: int)
      requires Separate()
      modifies `stations
      ensures Separate() && stations == old(stations)[i := StationInput(old(View()), old(stations[i]), input, now)]
    {
      if input.isAStop {
        HandleTeamAStop(i, input.reading.state == StopActive);
        return;
      }
      stations := stations[i := stations[i].(eStopFault := input.reading.fault)];
      HandleTeamEStop(i, input.reading.state != StopOK, now);
    }

    method PollPanelInput(input: Input, now: int)
      requires Separate()
      modifies `matchState, `postMatchStartTime, `gameData, `matchAborted, `stations
      ensures Separate() && View() == InputHandled(old(View()), input, now)
    {
      ghost var was := View();
      if input.station.Some? {
        HandlePanelInput(input.station.value, input, now);
      } else {
        for i := 0 to STATIONS
          invariant Separate() && View() == was.(stations := stations)
          invariant forall j :: 0 <= j < i ==> stations[j] == StationInput(was, was.stations[j], input, now)
          invariant forall j :: i <= j < STATIONS ==> stations[j] == was.stations[j]
        {
          HandlePanelInput(i, input, now);
        }
      }
      assert stations == seq(STATIONS, i requires 0 <= i < STATIONS =>
        if Concerns(input, i) then StationInput(was, was.stations[i], input, now) else was.stations[i]);
      if input.station.None? && !input.isAStop && input.reading.state != StopOK {
        var aborted := AbortMatchLocked(now);
      }
    }

    method PollPanels(inputs: seq<Input>, now: int)
      requires Separate()
      modifies `matchState, `postMatchStartTime, `gameData, `matchAborted, `stations
      ensures Separate() && View() == PanelsPolled(old(View()), inputs, now)
    {
      ghost var was := View();
      for i := 0 to |inputs|
        invariant Separate() && View() == PanelsPolled(was, inputs[..i], now)
      {
        PollPanelInput(inputs[i], now);
        assert inputs[..i + 1][..i] == inputs[..i];
      }
      assert inputs[..|inputs|] == inputs;
    }

    /** The branches of updateTeleopHubLeds. */
    method SelectModes(shift: Shift, warning: bool, redLit: bool, blueLit: bool) returns (modes: Modes)
      ensures modes == ShiftModes(autoWinner, shift, warning, redLit, blueLit)
    {
      var redMode, blueMode := OffMode, OffMode;
      if redLit {
        redMode := RedMode;
      }
      if blueLit {
        blueMode := BlueMode;
      }
      if warning {
        match shift {
          case ShiftTransition | Shift2 =>
            if autoWinner == Red {
              redMode := RedPulseMode;
            } else {
              blueMode := BluePulseMode;
            }
          case Shift1 | Shift3 =>
            if autoWinner == Red {
              blueMode := BluePulseMode;
            } else {
              redMode := RedPulseMode;
            }
          case ShiftEndgame =>
            redMode := RedPulseMode;
            blueMode := BluePulseMode;
          case _ =>
        }
      } else if shift == ShiftTransition {
        if autoWinner == Red {
          redMode := RedAdvantageMode;
        } else {
          blueMode := BlueAdvantageMode;
        }
      }
      return Modes(redMode, blueMode);
    }

    /** A HUB for the lamps alone, which have nothing to do with the FUEL the arena's HUBs carry. */
    method LampHub(wonAuto: bool) returns (hub: Hub)
      ensures fresh(hub) && hub.wonAuto == wonAuto
    {
      hub := new Hub();
      hub.wonAuto := wonAuto;
    }

    method UpdateTeleopHubLeds(now: int)
      requires Separate()
      modifies `leds
      ensures Separate() && leds == LampsAt(cfg.tm, autoWinner, now - matchStartTime, old(leds))
    {
      var red := LampHub(autoWinner == Red);
      var blue := LampHub(autoWinner == Blue);
      var shift, remaining, _ := red.GetCurrentShiftTiming(cfg.tm, matchStartTime, now);
      if shift == None {
        return;
      }
      var redRemaining, _ := red.GetActiveShiftTiming(cfg.tm, matchStartTime, now);
      var blueRemaining, _ := blue.GetActiveShiftTiming(cfg.tm, matchStartTime, now);
      ShowShift(now, shift.value, remaining, redRemaining > 0, blueRemaining > 0);
    }

    method ShowShift(ghost now: int, shift: Shift, remaining: int, redLit: bool, blueLit: bool)
      requires LightingShift(cfg.tm, now - matchStartTime) == Some(shift)
      requires remaining == End(cfg.tm, shift) - (now - matchStartTime)
      requires redLit == Lit(cfg.tm, autoWinner == Red, now - matchStartTime)
      requires blueLit == Lit(cfg.tm, autoWinner == Blue, now - matchStartTime)
      modifies `leds
      ensures leds == LampsAt(cfg.tm, autoWinner, now - matchStartTime, old(leds))
    {
      LampsFollow(cfg.tm, autoWinner, now - matchStartTime, shift, remaining, leds);
      leds := SelectModes(shift, remaining <= LIGHT_WARNING, redLit, blueLit);
    }

    method UpdateHubLeds(now: int)
      requires Separate()
      modifies `leds
      ensures Separate() && View() == LampsUpdated(cfg, old(View()), now)
    {
      match matchState
      case AutoPeriod => leds := Modes(RedStartupMode, BlueStartupMode);
      case PausePeriod => leds := Modes(RedMode, BlueMode);
      case TeleopPeriod => UpdateTeleopHubLeds(now);
      case PostMatch =>
        if lastMatchState != Some(PostMatch) {
          leds := Modes(WhiteMode, WhiteMode);
        }
      case _ =>
    }

    method HandlePlcInputOutput(plc: PlcReading, now: int)
      requires Separate()
      modifies `matchState, `postMatchStartTime, `gameData, `matchAborted, `stations
      ensures Separate() && View() == PlcHandled(cfg, old(View()), plc, now)
    {
      if !cfg.plcEnabled {
        return;
      }
      if plc.fieldEStop && !matchAborted {
        var aborted := AbortMatchLocked(now);
      }
      HandleTeamStops(plc, now);
      assert stations == PlcHandled(cfg, old(View()), plc, now).stations;
    }

    method HandleTeamStops(plc: PlcReading, now: int)
      requires Separate()
      modifies `stations
      ensures Separate()
      ensures forall i :: 0 <= i < STATIONS ==>
                stations[i] == TeamAStop(old(View()), TeamEStop(old(View()), old(stations[i]), plc.eStops[i], now),
                                         plc.aStops[i])
    {
      ghost var was := View();
      for i := 0 to STATIONS
        invariant Separate() && View() == was.(stations := stations)
        invariant forall j :: 0 <= j < i ==>
                    stations[j] == TeamAStop(was, TeamEStop(was, was.stations[j], plc.eStops[j], now), plc.aStops[j])
        invariant forall j :: i <= j < STATIONS ==> stations[j] == was.stations[j]
      {
        HandleTeamEStop(i, plc.eStops[i], now);
        HandleTeamAStop(i, plc.aStops[i]);
      }
    }

    method SendIfDue(auto: bool, enabled: bool, send: bool, now: int)
      requires Separate()
      modifies `stations, `lastDsPacketTime
      ensures Separate() && View() == SentIfDue(Advance(old(View()), auto, enabled, send), now)
    {
      if send || (now - lastDsPacketTime) / MILLISECOND >= DS_PACKET_PERIOD_MS {
        SendDsPacket(auto, enabled, now);
      }
    }

    /** Everything up to and including the packets. */
    method AdvanceAndSend(now: int, coin: bool)
      requires Separate()
      modifies this, Parts()
      ensures Separate() && run == old(run) && View() == Sent(cfg, old(View()), now, coin)
    {
      var matchTime := if matchState in {PreMatch, Phase.StartMatch, PostMatch} then 0 else now - matchStartTime;
      UpdateHubCounts(now);
      var auto, enabled, send := AdvanceMatch(now, coin);
      SendIfDue(auto, enabled, send, now);
      lastMatchTime := matchTime;
    }

    method PollStops(now: int, pins: Pins, ghost coin: bool, inputs: seq<Input>, ghost plc: PlcReading, lag: nat)
      requires Separate()
      modifies `fieldEStopFault, `fieldEStopActive, `matchState, `postMatchStartTime, `gameData, `matchAborted,
               `stations, fieldEStop, fieldEStop.filter
      ensures Separate() && fieldEStop.View() == old(fieldEStop.View()).Polled(pins, now)
      ensures View() == StopsPolled(old(View()), now, TickInput(coin, fieldEStop.latched, inputs, plc, lag))
    {
      ghost var reading := PollFieldEStop(pins, now);
      PollPanels(inputs, now + lag);
    }

    /** Sounds the change cue on the tick the shift changes. */
    method SoundShiftChange()
      requires Separate()
      modifies `lastShift, `shiftCues
      ensures Separate() && View() == CueSounded(cfg, old(View()))
    {
      var shift := CurrentShift(cfg, matchState, lastMatchTime);
      if shift != lastShift {
        if ShiftCue.ShiftChangeSounds(shift) {
          shiftCues := shiftCues + [shift.value];
        }
        lastShift := shift;
      }
    }

    method Display(now: int)
      requires Separate()
      modifies `lastShift, `shiftCues, `leds
      ensures Separate() && View() == Displayed(cfg, old(View()), now)
    {
      SoundShiftChange();
      UpdateHubLeds(now);
    }

    method SetOutputs(now: int, ghost tick: TickInput, plc: PlcReading, lag: nat)
      requires Separate() && tick.plc == plc && tick.lag == lag
      modifies `lastShift, `shiftCues, `leds, `lastMatchState, `matchState, `postMatchStartTime, `gameData,
               `matchAborted, `stations
      ensures Separate() && View() == OutputsSet(cfg, old(View()), now, tick)
    {
      ghost var a := View();
      Display(now);
      ghost var d := View();
      HandlePlcInputOutput(plc, now + lag);
      ghost var p := View();
      NotePhase();
      OutputsCompose(cfg, a, d, p, View(), now, tick);
    }

    method NotePhase()
      requires Separate()
      modifies `lastMatchState
      ensures Separate() && View() == PhaseNoted(old(View()))
    {
      lastMatchState := Some(matchState);
    }

    /** One iteration of the arena loop. The field e-stop answers with its latch. */
    method UpdateLocked(now: int, coin: bool, pins: Pins, inputs: seq<Input>, plc: PlcReading, lag: nat)
      requires Separate()
      modifies this, Parts(), fieldEStop, fieldEStop.filter
      ensures Separate() && run == old(run) && fieldEStop.View() == old(fieldEStop.View()).Polled(pins, now)
      ensures View() == Ticked(cfg, old(View()), now, TickInput(coin, fieldEStop.latched, inputs, plc, lag))
    {
      ghost var s := View();
      AdvanceAndSend(now, coin);
      assert fieldEStop.View() == old(fieldEStop.View());
      ghost var a := View();
      PollAndShow(now, coin, pins, inputs, plc, lag);
      TickComposes(cfg, s, a, View(), now, TickInput(coin, fieldEStop.latched, inputs, plc, lag));
    }

    method PollAndShow(now: int, ghost coin: bool, pins: Pins, inputs: seq<Input>, plc: PlcReading, lag: nat)
      requires Separate()
      modifies `fieldEStopFault, `fieldEStopActive, `lastShift, `shiftCues, `leds, `lastMatchState, `matchState,
               `postMatchStartTime, `gameData, `matchAborted, `stations, fieldEStop, fieldEStop.filter
      ensures Separate() && fieldEStop.View() == old(fieldEStop.View()).Polled(pins, now)
      ensures var tick := TickInput(coin, fieldEStop.latched, inputs, plc, lag);
              View() == OutputsSet(cfg, StopsPolled(old(View()), now, tick), now, tick)
    {
      PollStops(now, pins, coin, inputs, plc, lag);
      SetOutputs(now, TickInput(coin, fieldEStop.latched, inputs, plc, lag), plc, lag);
    }

    // ---------------------------------------------------------------------- operator commands

    method CheckAllianceStationsReady() returns (ok: bool)
      requires Separate()
      ensures ok <==> forall i :: 0 <= i < STATIONS ==> StationReady(stations[i])
    {
      for i := 0 to STATIONS
        invariant forall j :: 0 <= j < i ==> StationReady(stations[j])
      {
        var st := stations[i];
        if st.eStopFault != FaultNone || st.eStop || !st.aStopReset {
          return false;
        }
        if !st.bypass {
          if st.conn.None? || !st.conn.value.robotLinked {
            return false;
          }
        }
      }
      return true;
    }

    method CheckCanStartMatch(checks: StartChecks) returns (ok: bool)
      requires Separate()
      ensures ok <==> CanStart(cfg, View(), checks)
    {
      if matchState != PreMatch || fieldEStopFault != FaultNone || fieldEStopActive {
        return false;
      }
      var ready := CheckAllianceStationsReady();
      if !ready {
        return false;
      }
      if autoWinnerMode == FromCounts {
        if checks.counter == NotConfigured {
          return false;
        }
        if checks.counter != Online {
          return false;
        }
      }
      if cfg.plcEnabled {
        if !checks.plcHealthy || checks.plcFieldEStop {
          return false;
        }
        for i := 0 to |checks.armorBlocks|
          invariant false !in checks.armorBlocks[..i]
        {
          if !checks.armorBlocks[i] {
            return false;
          }
        }
        assert checks.armorBlocks[..|checks.armorBlocks|] == checks.armorBlocks;
      }
      return true;
    }

    method StartMatchLocked(checks: StartChecks) returns (ok: bool)
      requires Separate()
      modifies `matchState
      ensures Separate() && ok == CanStart(cfg, old(View()), checks)
      ensures View() == if ok then old(View()).(phase := Phase.StartMatch) else old(View())
    {
      ok := CheckCanStartMatch(checks);
      if ok {
        matchState := Phase.StartMatch;
      }
    }

    /** Asks the panel to clear its latch, and releases the stations only if it then reads OK. */
    method ClearFieldEStopLocked(pins: Pins, again: Pins, now: int)
      requires Separate()
      modifies `fieldEStopFault, `fieldEStopActive, `stations, fieldEStop, fieldEStop.filter
      ensures Separate()
      ensures fieldEStop.View() == old(fieldEStop.View()).Cleared(pins, now).Polled(again, now)
      ensures View() == EStopCleared(old(View()), fieldEStop.latched)
    {
      fieldEStop.Clear(pins, now);
      var reading := fieldEStop.State(again, now);
      ReleaseStations(reading);
    }

    method ReleaseStations(reading: Reading)
      requires Separate()
      modifies `fieldEStopFault, `fieldEStopActive, `stations
      ensures Separate() && View() == EStopCleared(old(View()), reading)
    {
      fieldEStopFault := reading.fault;
      if reading.state == StopOK {
        fieldEStopActive := false;
        SetAllEStops(false);
        assert stations == Each(old(stations), EStopReleased);
      }
    }

    method ValidateTeams(teams: Lineup, known: set<int>) returns (ok: bool)
      ensures ok <==> NoDuplicates(teams) && AllKnown(teams, known)
      ensures ok ==> forall i :: 0 <= i < STATIONS && teams[i] != 0 ==> teams[i] in known
      ensures ok ==> forall i, j :: 0 <= i < j < STATIONS && teams[i] == teams[j] ==> teams[i] == 0
    {
      var seen: set<int> := {};
      for i := 0 to STATIONS
        invariant forall j :: 0 <= j < i && teams[j] != 0 ==> teams[j] in seen
        invariant forall t :: t in seen ==> exists j :: 0 <= j < i && teams[j] == t && t != 0
        invariant forall j, k :: 0 <= j < k < i && teams[j] != 0 ==> teams[j] != teams[k]
        invariant forall j :: 0 <= j < i ==> teams[j] == 0 || teams[j] in known
      {
        if teams[i] != 0 {
          if teams[i] in seen {
            return false;
          }
          seen := seen + {teams[i]};
          if teams[i] !in known {
            return false;
          }
        }
      }
      return true;
    }

    method SubstituteTeamsLocked(teams: Lineup, allowed: bool, known: set<int>) returns (ok: bool)
      requires Separate()
      modifies `stations, `currentMatch
      ensures Separate() && View() == Substituted(cfg, old(View()), teams, allowed, known)
      ensures ok <==> allowed && NoDuplicates(teams) && AllKnown(teams, known)
    {
      if !allowed {
        return false;
      }
      ok := ValidateTeams(teams, known);
      if ok {
        TakeLineup(teams);
      }
    }

    method SetAutoWinnerModeLocked(mode: AutoWinnerMode) returns (ok: bool)
      requires Separate()
      modifies `autoWinnerMode
      ensures Separate() && ok == !InProgress(matchState)
      ensures View() == if ok then old(View()).(mode := mode) else old(View())
    {
      ok := matchState == PreMatch || matchState == PostMatch;
      if ok {
        autoWinnerMode := mode;
      }
    }

    /** Bypasses every station with no team, and says how many were not bypassed before. */
    method BypassEmptyStationsLocked() returns (count: nat)
      requires Separate()
      modifies `stations
      ensures Separate() && stations == Each(old(stations), BypassedIfEmpty)
      ensures count == |NewlyBypassed(old(stations), STATIONS)|
    {
      ghost var was := stations;
      count := 0;
      for i := 0 to STATIONS
        invariant forall j :: 0 <= j < i ==> stations[j] == BypassedIfEmpty(was[j])
        invariant forall j :: i <= j < STATIONS ==> stations[j] == was[j]
        invariant count == |NewlyBypassed(was, i)|
      {
        NewlyBypassedGrows(was, i);
        if stations[i].team == 0 && !stations[i].bypass {
          stations := stations[i := stations[i].(bypass := true)];
          count := count + 1;
        }
      }
      assert stations == Each(was, BypassedIfEmpty);
    }

    method BypassAll()
      requires Separate()
      modifies `stations
      ensures Separate() && stations == Each(old(stations), Bypassed)
    {
      ghost var was := stations;
      for i := 0 to STATIONS
        invariant forall j :: 0 <= j < i ==> stations[j] == Bypassed(was[j])
        invariant forall j :: i <= j < STATIONS ==> stations[j] == was[j]
      {
        stations := stations[i := stations[i].(bypass := true)];
      }
      assert stations == Each(was, Bypassed);
    }

    method SetStation(i: StationId, st: Station)
      requires Separate()
      modifies `stations
      ensures Separate() && View() == StationChanged(old(View()), i, st)
    {
      stations := stations[i := st];
    }

    // ------------------------------------------------------------------- what the run says of them

    /** The last tick of the run read a stop of the whole field. */
    lemma StopsEnd(was: MatchSafety.Run, now: int, tick: TickInput)
      requires Valid() && run == MatchSafety.Then(was, now, Tick(tick))
      ensures MatchStops.StopsField(cfg, tick) ==> !InProgress(matchState)
    {
      MatchSafety.AlwaysControlled(cfg, Initial(initialMode), was);
      MatchStops.AlwaysAbortedOnlyAfter(cfg, Initial(initialMode), was);
      if MatchStops.StopsField(cfg, tick) {
        MatchStops.StopEndsMatch(cfg, MatchSafety.Ran(cfg, Initial(initialMode), was), now, tick);
      }
    }

    lemma StartIsFit(checks: StartChecks, now: int)
      requires Valid()
      ensures CanStart(cfg, View(), checks) <==> MatchStart.FieldFit(cfg, Initial(initialMode), run, checks)
    {
      FitIsChecked(cfg, initialMode, run, checks, now);
    }

    /** The stations hold the teams of the match record. */
    lemma TeamsAgree()
      requires Valid()
      ensures MatchLineup.LoadsDistinct(run) ==>
                forall i :: 0 <= i < STATIONS ==> stations[i].team == currentMatch[i]
    {
      IsSafe();
      if MatchLineup.LoadsDistinct(run) {
        forall i | 0 <= i < STATIONS ensures stations[i].team == currentMatch[i] {
          assert MatchLineup.StationAgrees(View().stations[i], View().lineup[i]);
        }
      }
    }

    // ------------------------------------------------------------------- the events of a run
    // The tick and the commands hold the arena's lock; the others change one station at once.

    method Update(now: int, coin: bool, pins: Pins, inputs: seq<Input>, plc: PlcReading, lag: nat)
      requires Valid()
      modifies this, Parts(), fieldEStop, fieldEStop.filter
      ensures Valid() && fieldEStop.View() == old(fieldEStop.View()).Polled(pins, now)
      ensures var tick := TickInput(coin, fieldEStop.latched, inputs, plc, lag);
              && run == MatchSafety.Then(old(run), now, Tick(tick))
              && (MatchStops.StopsField(cfg, tick) ==> !InProgress(matchState))
    {
      ghost var before, was := View(), run;
      UpdateLocked(now, coin, pins, inputs, plc, lag);
      Record(before, now, Tick(TickInput(coin, fieldEStop.latched, inputs, plc, lag)));
      StopsEnd(was, now, TickInput(coin, fieldEStop.latched, inputs, plc, lag));
    }

    method StartMatch(checks: StartChecks, ghost now: int) returns (ok: bool)
      requires Valid()
      modifies this
      ensures Valid() && run == MatchSafety.Then(old(run), now, Start(checks))
      ensures ok <==> MatchStart.FieldFit(cfg, Initial(initialMode), old(run), checks)
      ensures matchState == if ok then Phase.StartMatch else old(matchState)
    {
      ghost var before := View();
      StartIsFit(checks, now);
      ok := StartMatchLocked(checks);
      Record(before, now, Start(checks));
    }

    method AbortMatch(now: int) returns (ok: bool)
      requires Valid()
      modifies this
      ensures Valid() && run == MatchSafety.Then(old(run), now, Abort)
      ensures ok == InProgress(old(matchState)) && !InProgress(matchState)
      ensures ok ==> matchState == PostMatch && postMatchStartTime == now && gameData == "" && matchAborted
      ensures !ok ==> View() == old(View())
    {
      ghost var before := View();
      ok := AbortMatchLocked(now);
      Record(before, now, Abort);
    }

    method ClearMatch(ghost now: int) returns (ok: bool)
      requires Valid()
      modifies this, Parts()
      ensures Valid() && run == MatchSafety.Then(old(run), now, Event.Clear)
      ensures ok == (old(matchState) == PostMatch)
      ensures ok ==> matchState == PreMatch && !matchAborted && gameData == "" && autoWinner == NoAlliance
      ensures ok ==> forall i :: 0 <= i < STATIONS ==>
                stations[i].bypass == old(stations)[i].bypass && stations[i].eStop == old(stations)[i].eStop
      ensures !ok ==> View() == old(View())
    {
      ghost var before := View();
      ok := ClearMatchLocked();
      Record(before, now, Event.Clear);
    }

    method ResetField(ghost now: int) returns (ok: bool)
      requires Valid()
      modifies this, Parts()
      ensures Valid() && run == MatchSafety.Then(old(run), now, Event.ResetField)
      ensures ok == !InProgress(old(matchState))
      ensures ok ==> matchState == PreMatch && !matchAborted && gameData == "" && currentMatch == NO_TEAMS
      ensures ok ==> forall i :: 0 <= i < STATIONS ==> stations[i] == EMPTY_STATION.(aStopReset := !cfg.plcEnabled)
      ensures !ok ==> View() == old(View())
    {
      ghost var before := View();
      ok := ResetFieldLocked();
      Record(before, now, Event.ResetField);
    }

    method LoadMatch(teams: Lineup, ghost now: int) returns (ok: bool)
      requires Valid()
      modifies this, Parts()
      ensures Valid() && run == MatchSafety.Then(old(run), now, Load(teams))
      ensures ok == (old(matchState) == PreMatch)
      ensures ok ==> currentMatch == teams && autoWinner == NoAlliance
      ensures ok && MatchLineup.LoadsDistinct(run) ==> forall i :: 0 <= i < STATIONS ==> stations[i].team == teams[i]
      ensures !ok ==> View() == old(View())
    {
      ghost var before := View();
      ok := LoadMatchLocked(teams);
      LoadsAs(cfg, before, teams, now);
      Record(before, now, Load(teams));
      TeamsAgree();
    }

    method ClearFieldEStop(pins: Pins, again: Pins, now: int)
      requires Valid()
      modifies this, fieldEStop, fieldEStop.filter
      ensures Valid() && fieldEStop.View() == old(fieldEStop.View()).Cleared(pins, now).Polled(again, now)
      ensures run == MatchSafety.Then(old(run), now, Event.ClearFieldEStop(fieldEStop.latched))
      ensures fieldEStopFault == fieldEStop.latched.fault
      ensures fieldEStop.latched.state == StopOK ==>
                !fieldEStopActive && forall i :: 0 <= i < STATIONS ==> !stations[i].eStop
      ensures fieldEStop.latched.state != StopOK ==>
                fieldEStopActive == old(fieldEStopActive) && stations == old(stations)
    {
      ghost var before := View();
      ClearFieldEStopLocked(pins, again, now);
      Record(before, now, Event.ClearFieldEStop(fieldEStop.latched));
    }

    method SubstituteTeams(teams: Lineup, allowed: bool, known: set<int>, ghost now: int) returns (ok: bool)
      requires Valid()
      modifies this
      ensures Valid() && run == MatchSafety.Then(old(run), now, Substitute(teams, allowed, known))
      ensures ok <==> allowed && NoDuplicates(teams) && AllKnown(teams, known)
      ensures ok ==> currentMatch == teams
      ensures ok ==> allowed && forall i :: 0 <= i < STATIONS && teams[i] != 0 ==> teams[i] in known
      ensures ok && MatchLineup.LoadsDistinct(run) ==> forall i :: 0 <= i < STATIONS ==> stations[i].team == teams[i]
      ensures !ok ==> View() == old(View())
    {
      ghost var before := View();
      ok := SubstituteTeamsLocked(teams, allowed, known);
      Record(before, now, Substitute(teams, allowed, known));
      TeamsAgree();
    }

    method SetAutoWinnerMode(mode: AutoWinnerMode, ghost now: int) returns (ok: bool)
      requires Valid()
      modifies this
      ensures Valid() && run == MatchSafety.Then(old(run), now, SetMode(mode))
      ensures ok == !InProgress(old(matchState)) && autoWinnerMode == if ok then mode else old(autoWinnerMode)
    {
      ghost var before := View();
      ok := SetAutoWinnerModeLocked(mode);
      Record(before, now, SetMode(mode));
    }

    method BypassEmptyStations(ghost now: int) returns (count: nat)
      requires Valid()
      modifies this
      ensures Valid() && run == MatchSafety.Then(old(run), now, BypassEmpty)
      ensures forall i :: 0 <= i < STATIONS ==>
                stations[i] == old(stations)[i].(bypass := old(stations)[i].bypass || old(stations)[i].team == 0)
      ensures count == |NewlyBypassed(old(stations), STATIONS)|
    {
      ghost var before := View();
      count := BypassEmptyStationsLocked();
      Record(before, now, BypassEmpty);
    }

    method DisableAll(ghost now: int)
      requires Valid()
      modifies this
      ensures Valid() && run == MatchSafety.Then(old(run), now, Event.DisableAll)
      ensures forall i :: 0 <= i < STATIONS ==> stations[i] == old(stations)[i].(bypass := true)
    {
      ghost var before := View();
      BypassAll();
      Record(before, now, Event.DisableAll);
    }

    method ToggleBypass(i: StationId, ghost now: int)
      requires Valid()
      modifies this
      ensures Valid() && run == MatchSafety.Then(old(run), now, Event.ToggleBypass(i))
      ensures stations == old(stations)[i := old(stations)[i].(bypass := !old(stations)[i].bypass)]
    {
      ghost var before := View();
      SetStation(i, stations[i].(bypass := !stations[i].bypass));
      Record(before, now, Event.ToggleBypass(i));
    }

    method ToggleEStop(i: StationId, ghost now: int)
      requires Valid()
      modifies this
      ensures Valid() && run == MatchSafety.Then(old(run), now, Event.ToggleEStop(i))
      ensures stations == old(stations)[i := old(stations)[i].(eStop := !old(stations)[i].eStop)]
    {
      ghost var before := View();
      SetStation(i, stations[i].(eStop := !stations[i].eStop));
      Record(before, now, Event.ToggleEStop(i));
    }

    /** A driver station has connected and named its team: it is taken in at the station registered for that
        team, if there is one. */
    method AcceptDriverStation(id: nat, teamId: int, ghost now: int) returns (station: Option<StationId>)
      requires Valid()
      modifies this
      ensures Valid()
      ensures station.None? ==> run == old(run)
      ensures station.None? <==> forall i :: 0 <= i < STATIONS ==> !IsTeamOf(old(stations)[i], teamId)
      ensures station.Some? ==> IsTeamOf(old(stations)[station.value], teamId)
      ensures station.Some? ==> run == MatchSafety.Then(old(run), now, Accept(id, teamId, station.value))
      ensures station.Some? ==>
                stations[station.value].conn == Some(Connection(id, teamId, false, false, false, false, false))
    {
      station := GetAssignedAllianceStation(teamId);
      if station.Some? {
        Connect(id, teamId, station.value, now);
      }
    }

    method Connect(id: nat, teamId: int, i: StationId, ghost now: int)
      requires Valid() && IsTeamOf(stations[i], teamId)
      modifies this
      ensures Valid() && run == MatchSafety.Then(old(run), now, Accept(id, teamId, i))
      ensures stations[i].conn == Some(Connection(id, teamId, false, false, false, false, false))
    {
      ghost var before := View();
      AcceptedAt(cfg, before, id, teamId, i, now);
      SetStation(i, stations[i].(conn := Some(NewConnection(id, teamId))));
      Record(before, now, Accept(id, teamId, i));
    }

    method GetAssignedAllianceStation(teamId: int) returns (station: Option<StationId>)
      requires Separate()
      ensures station.Some? ==> IsTeamOf(stations[station.value], teamId)
      ensures station.None? <==> forall i :: 0 <= i < STATIONS ==> !IsTeamOf(stations[i], teamId)
    {
      for i := 0 to STATIONS
        invariant forall j :: 0 <= j < i ==> !IsTeamOf(stations[j], teamId)
      {
        if stations[i].team != 0 && stations[i].team == teamId {
          return Some(i);
        }
      }
      return None;
    }

    /** A connection has been lost. By then its station may have been given another. */
    method DropDriverStation(id: nat, i: StationId, ghost now: int)
      requires Valid()
      modifies this
      ensures Valid() && run == MatchSafety.Then(old(run), now, Disconnect(id, i))
      ensures var lost := old(stations)[i].conn.Some? && old(stations)[i].conn.value.id == id;
              stations == if lost then old(stations)[i := old(stations)[i].(conn := None)] else old(stations)
    {
      ghost var before := View();
      var st := stations[i];
      if st.conn.Some? && st.conn.value.id == id {
        SetStation(i, st.(conn := None));
      }
      Record(before, now, Disconnect(id, i));
    }

    /** A status packet names its team, and reaches the connection of the station registered for it. */
    method ReceiveTelemetry(teamId: int, robotLinked: bool, ghost now: int) returns (station: Option<StationId>)
      requires Valid()
      modifies this
      ensures Valid()
      ensures station.None? ==> run == old(run)
      ensures station.None? <==> forall i :: 0 <= i < STATIONS ==> !IsTeamOf(old(stations)[i], teamId)
      ensures station.Some? ==> IsTeamOf(old(stations)[station.value], teamId)
      ensures station.Some? ==> run == MatchSafety.Then(old(run), now, Telemetry(teamId, station.value, robotLinked))
      ensures station.Some? && old(stations)[station.value].conn.Some? ==>
                && stations[station.value].conn.Some?
                && stations[station.value].conn.value.robotLinked == robotLinked
    {
      station := GetAssignedAllianceStation(teamId);
      if station.Some? {
        Hear(teamId, station.value, robotLinked, now);
      }
    }

    method Hear(teamId: int, i: StationId, robotLinked: bool, ghost now: int)
      requires Valid() && IsTeamOf(stations[i], teamId)
      modifies this
      ensures Valid() && run == MatchSafety.Then(old(run), now, Telemetry(teamId, i, robotLinked))
      ensures old(stations)[i].conn.Some? ==>
                stations[i].conn.Some? && stations[i].conn.value.robotLinked == robotLinked
    {
      ghost var before := View();
      HeardFrom(cfg, before, teamId, i, robotLinked, now);
      var st := stations[i];
      if st.conn.Some? {
        SetStation(i, st.(conn := Some(st.conn.value.(robotLinked := robotLinked))));
      }
      Record(before, now, Telemetry(teamId, i, robotLinked));
    }

    /** One datagram from the counter, between ticks. */
    method ReceiveCounts(message: Message, ghost now: int) returns (accepted: bool)
      requires Valid()
      modifies this, hubCounter
      ensures Valid() && run == MatchSafety.Then(old(run), now, Receive(message))
      ensures var d := Admitted(message); accepted == (d.Some? && old(hubCounter.View()).Accepts(d.value))
    {
      ghost var before := View();
      accepted := hubCounter.HandleDatagram(message);
      Record(before, now, Receive(message));
    }

    /** The end of the post-match lighting, three seconds on. */
    method DarkenHubLeds(ghost now: int)
      requires Valid()
      modifies this
      ensures Valid() && run == MatchSafety.Then(old(run), now, LampsOut)
      ensures leds == Modes(OffMode, OffMode)
    {
      ghost var before := View();
      leds := Modes(OffMode, OffMode);
      Record(before, now, LampsOut);
    }
  }
}
