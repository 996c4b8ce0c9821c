/** Who is in which station, over whole runs of the arena. */
module MatchLineup {
  import opened Common
  import opened Hub
  import opened HubCounter
  import opened HubLights
  import opened MatchState
  import opened MatchSafety
  import opened MatchScoring

  /** A connection belongs to the team registered in its station, and the match record agrees. */
  predicate StationAgrees(st: Station, team: int) {
    st.team == team && (st.conn.Some? ==> st.conn.value.teamId == team && team != 0)
  }

  /** The stations, the connections and the match record agree, and no team is in two stations. */
  ghost predicate Consistent(s: State) {
    && (forall i :: 0 <= i < STATIONS ==> StationAgrees(s.stations[i], s.lineup[i]))
    && NoDuplicates(s.lineup)
  }

  /** What is kept of a station by everything but a change of lineup. */
  predicate SameTeam(before: Station, after: Station) {
    && after.team == before.team
    && (after.conn.Some? ==> before.conn.Some? && after.conn.value.teamId == before.conn.value.teamId)
  }

  ghost predicate SameTeams(s: State, t: State) {
    && t.lineup == s.lineup
    && forall i :: 0 <= i < STATIONS ==> SameTeam(s.stations[i], t.stations[i])
  }

  lemma SameTeamsIsConsistent(s: State, t: State)
    requires Consistent(s) && SameTeams(s, t)
    ensures Consistent(t)
  {
    forall i | 0 <= i < STATIONS ensures StationAgrees(t.stations[i], t.lineup[i]) {
      assert StationAgrees(s.stations[i], s.lineup[i]) && SameTeam(s.stations[i], t.stations[i]);
    }
  }

  /** Assigning a lineup without duplicates to any stations brings everything into agreement. */
  lemma AssignedIsConsistent(cfg: Config, s: State, lineup: Lineup, t: State)
    requires NoDuplicates(lineup)
    requires forall i :: 0 <= i < STATIONS ==> s.stations[i].conn.Some? ==> StationAgrees(s.stations[i], s.lineup[i])
    requires t.lineup == lineup && t.stations == AllAssigned(cfg, s.stations, lineup)
    ensures Consistent(t)
  {
    forall i | 0 <= i < STATIONS ensures StationAgrees(t.stations[i], t.lineup[i]) {
      assert t.stations[i] == Assigned(cfg, s.stations[i], lineup[i]);
    }
  }

  // --------------------------------------------------------------------------------- clearing

  /** A station that agrees with the match record is left as it is by being assigned its own team. */
  lemma ReassignedIsSame(cfg: Config, st: Station, team: int)
    requires StationAgrees(st, team)
    ensures Assigned(cfg, st, team) == st.(aStopReset := !cfg.plcEnabled)
  {
  }

  /** Clear Match: every station keeps its team, its connection, its stops and its bypass; only the
      a-stop acknowledgement is asked for again; and the FUEL is gone. */
  lemma ClearKeepsStations(cfg: Config, s: State, i: StationId)
    requires Consistent(s) && s.phase == PostMatch
    ensures var t := MatchCleared(cfg, s);
            && t.stations[i] == s.stations[i].(aStopReset := !cfg.plcEnabled)
            && t.lineup == s.lineup && t.phase == PreMatch
            && Zeroed(s, t)
  {
    ClearedStation(cfg, s, i);
    assert StationAgrees(s.stations[i], s.lineup[i]);
    ReassignedIsSame(cfg, s.stations[i].(bypass := false), s.lineup[i]);
    ClearedIsZeroed(cfg, s);
    ClearedIsPreMatch(cfg, s);
  }

  lemma ClearKeepsTeams(cfg: Config, s: State)
    requires Consistent(s)
    ensures SameTeams(s, MatchCleared(cfg, s))
  {
    if s.phase == PostMatch {
      forall i | 0 <= i < STATIONS ensures SameTeam(s.stations[i], MatchCleared(cfg, s).stations[i]) {
        ClearKeepsStations(cfg, s, i);
      }
      ClearKeepsStations(cfg, s, 0);
    }
  }

  // ------------------------------------------------------------------------------------ a tick

  lemma AdvanceKeepsTeams(cfg: Config, s: State, now: int, coin: bool)
    requires Consistent(s)
    ensures SameTeams(s, Advanced(cfg, s, now, coin).s)
  {
    if s.phase == PostMatch { ClearKeepsTeams(cfg, s); }
  }

  lemma {:induction false} PanelsKeepTeams(s: State, inputs: seq<Input>, now: int)
    ensures SameTeams(s, PanelsPolled(s, inputs, now))
    decreases |inputs|
  {
    if inputs != [] {
      var before := PanelsPolled(s, inputs[..|inputs| - 1], now);
      PanelsKeepTeams(s, inputs[..|inputs| - 1], now);
      InputKeepsTeams(before, inputs[|inputs| - 1], now);
      SameTeamsTwice(s, before, PanelsPolled(s, inputs, now));
    }
  }

  lemma InputKeepsTeams(s: State, input: Input, now: int)
    ensures SameTeams(s, InputHandled(s, input, now))
  {
    var t := InputHandled(s, input, now);
    forall i | 0 <= i < STATIONS ensures SameTeam(s.stations[i], t.stations[i]) {
      InputReachesStation(s, input, now, i);
    }
  }

  lemma SameTeamsTwice(s: State, t: State, u: State)
    requires SameTeams(s, t) && SameTeams(t, u)
    ensures SameTeams(s, u)
  {
    forall i | 0 <= i < STATIONS ensures SameTeam(s.stations[i], u.stations[i]) {
      assert SameTeam(s.stations[i], t.stations[i]) && SameTeam(t.stations[i], u.stations[i]);
    }
  }

  lemma PacketsKeepTeams(s: State, auto: bool, enabled: bool, now: int)
    ensures SameTeams(s, PacketsSent(s, auto, enabled, now))
  {
  }

  lemma SentKeepsTeams(cfg: Config, s: State, now: int, coin: bool)
    requires Consistent(s)
    ensures SameTeams(s, Sent(cfg, s, now, coin))
  {
    var c := HubsCounted(cfg, s, now);
    assert SameTeams(s, c) && Consistent(c) by { CountingKeepsMatch(cfg, s, now); }
    AdvanceKeepsTeams(cfg, c, now, coin);
    var a := Advanced(cfg, c, now, coin);
    PacketsKeepTeams(a.s, a.auto, a.enabled, now);
    SameTeamsTwice(s, c, a.s);
    SameTeamsTwice(s, a.s, Sent(cfg, s, now, coin));
  }

  lemma FieldStopKeepsTeams(s: State, reading: FieldEStop.Reading, now: int)
    ensures SameTeams(s, FieldStopPolled(s, reading, now))
  {
  }

  lemma PlcKeepsTeams(cfg: Config, s: State, plc: PlcReading, now: int)
    ensures SameTeams(s, PlcHandled(cfg, s, plc, now))
  {
  }

  lemma PolledKeepsTeams(a: State, now: int, tick: TickInput)
    ensures SameTeams(a, StopsPolled(a, now, tick))
  {
    var f := FieldStopPolled(a, tick.fieldStop, now);
    FieldStopKeepsTeams(a, tick.fieldStop, now);
    PanelsKeepTeams(f, tick.inputs, now + tick.lag);
    SameTeamsTwice(a, f, StopsPolled(a, now, tick));
  }

  lemma OutputsKeepTeams(cfg: Config, p: State, now: int, tick: TickInput)
    ensures SameTeams(p, OutputsSet(cfg, p, now, tick))
  {
    DisplayContinues(cfg, p, now);
    PlcKeepsTeams(cfg, Displayed(cfg, p, now), tick.plc, now + tick.lag);
  }

  lemma StopsKeepTeams(cfg: Config, a: State, now: int, tick: TickInput)
    ensures SameTeams(a, OutputsSet(cfg, StopsPolled(a, now, tick), now, tick))
  {
    var p := StopsPolled(a, now, tick);
    PolledKeepsTeams(a, now, tick);
    OutputsKeepTeams(cfg, p, now, tick);
    SameTeamsTwice(a, p, OutputsSet(cfg, p, now, tick));
  }

  lemma ConsistentTick(cfg: Config, s: State, now: int, tick: TickInput)
    requires Consistent(s)
    ensures Consistent(Ticked(cfg, s, now, tick)) && SameTeams(s, Ticked(cfg, s, now, tick))
  {
    var a := Sent(cfg, s, now, tick.coin);
    SentKeepsTeams(cfg, s, now, tick.coin);
    StopsKeepTeams(cfg, a, now, tick);
    SameTeamsTwice(s, a, Ticked(cfg, s, now, tick));
    SameTeamsIsConsistent(s, Ticked(cfg, s, now, tick));
  }

  // ------------------------------------------------------------------------------------ a run

  /** A loaded match names no team twice. Lineups registered by hand are checked by the arena. */
  predicate LoadsDistinct(run: Run) {
    match run
    case Begin => true
    case Then(before, _, e) => LoadsDistinct(before) && (e.Load? ==> NoDuplicates(e.teams))
  }

  /** Resetting the field leaves nothing of the session: no team, connection, stop, bypass or FUEL. */
  lemma ResetEmptiesField(cfg: Config, s: State, i: StationId)
    requires !InProgress(s.phase)
    ensures var t := FieldReset(cfg, s);
            && t.stations[i] == EMPTY_STATION.(aStopReset := !cfg.plcEnabled)
            && t.lineup == NO_TEAMS && t.phase == PreMatch && t.gameData == "" && t.autoWinner == NoAlliance
            && Zeroed(s, t)
  {
    var r := MatchReset(s.(stations := Each(s.stations, StationEmptied)));
    assert r.stations[i] == Unbypassed(StationEmptied(s.stations[i]));
    assert FieldReset(cfg, s).stations[i] == Assigned(cfg, r.stations[i], NO_TEAMS[i]);
  }

  lemma ResetIsConsistent(cfg: Config, s: State)
    requires Consistent(s)
    ensures Consistent(FieldReset(cfg, s))
  {
    if !InProgress(s.phase) {
      var emptied := s.(stations := Each(s.stations, StationEmptied));
      var r := MatchReset(emptied);
      assert r == emptied.(phase := PreMatch, matchAborted := false, gameData := "",
                           stations := Each(emptied.stations, Unbypassed));
      assert forall i :: 0 <= i < STATIONS ==> r.stations[i].conn == None;
      AssignedIsConsistent(cfg, r, NO_TEAMS, FieldReset(cfg, s));
    }
  }

  lemma LineupCommand(cfg: Config, s: State, now: int, e: Event)
    requires Consistent(s) && (e.Load? ==> NoDuplicates(e.teams))
    requires e.Load? || e.Substitute?
    ensures Consistent(Step(cfg, s, now, e))
  {
    var t := Step(cfg, s, now, e);
    if t.stations != s.stations || t.lineup != s.lineup {
      forall i | 0 <= i < STATIONS ensures StationAgrees(s.stations[i], s.lineup[i]) {}
      AssignedIsConsistent(cfg, s, e.teams, t);
    }
  }

  lemma StationCommand(cfg: Config, s: State, now: int, e: Event)
    requires Consistent(s)
    requires e.ToggleBypass? || e.ToggleEStop? || e.Accept? || e.Disconnect? || e.Telemetry?
    ensures Consistent(Step(cfg, s, now, e))
  {
    var t := Step(cfg, s, now, e);
    forall j | 0 <= j < STATIONS ensures StationAgrees(t.stations[j], t.lineup[j]) {
      assert StationAgrees(s.stations[j], s.lineup[j]);
    }
  }

  lemma OtherCommand(cfg: Config, s: State, now: int, e: Event)
    requires e.Start? || e.Abort? || e.ClearFieldEStop? || e.SetMode? || e.BypassEmpty? || e.DisableAll?
             || e.Receive? || e.LampsOut?
    ensures SameTeams(s, Step(cfg, s, now, e))
  {
  }

  lemma ConsistentStep(cfg: Config, s: State, now: int, e: Event)
    requires Consistent(s) && (e.Load? ==> NoDuplicates(e.teams))
    ensures Consistent(Step(cfg, s, now, e))
  {
    match e
    case Tick(tick) => ConsistentTick(cfg, s, now, tick);
    case Clear =>
      ClearKeepsTeams(cfg, s);
      SameTeamsIsConsistent(s, MatchCleared(cfg, s));
    case ResetField => ResetIsConsistent(cfg, s);
    case Load(_) => LineupCommand(cfg, s, now, e);
    case Substitute(_, _, _) => LineupCommand(cfg, s, now, e);
    case ToggleBypass(_) => StationCommand(cfg, s, now, e);
    case ToggleEStop(_) => StationCommand(cfg, s, now, e);
    case Accept(_, _, _) => StationCommand(cfg, s, now, e);
    case Disconnect(_, _) => StationCommand(cfg, s, now, e);
    case Telemetry(_, _, _) => StationCommand(cfg, s, now, e);
    case _ =>
      OtherCommand(cfg, s, now, e);
      SameTeamsIsConsistent(s, Step(cfg, s, now, e));
  }

  /** In every run whose loaded matches name no team twice: no team is in two stations, a connection
      belongs to the team of its station, and the match record agrees with the stations. */
  lemma {:induction false} AlwaysConsistent(cfg: Config, s: State, run: Run)
    requires Consistent(s) && LoadsDistinct(run)
    ensures Consistent(Ran(cfg, s, run))
  {
    match run
    case Begin =>
    case Then(before, now, e) =>
      AlwaysConsistent(cfg, s, before);
      ConsistentStep(cfg, Ran(cfg, s, before), now, e);
  }

  /** Looking a team up by scanning the stations therefore finds the same one in any order. */
  lemma LookupIsUnique(cfg: Config, s: State, run: Run, teamId: int, i: StationId, j: StationId)
    requires Consistent(s) && LoadsDistinct(run) && teamId != 0
    requires Ran(cfg, s, run).stations[i].team == teamId == Ran(cfg, s, run).stations[j].team
    ensures i == j
  {
    AlwaysConsistent(cfg, s, run);
    var t := Ran(cfg, s, run);
    assert StationAgrees(t.stations[i], t.lineup[i]) && StationAgrees(t.stations[j], t.lineup[j]);
  }
}
