/** When a match may start, told from everything that has happened to the arena and without its own check. */
module MatchStart {
  import opened Common
  import opened Timing
  import opened MatchState
  import opened MatchSafety
  import opened StopButton
  import FieldEStop

  // -------------------------------------------------------------------- the a-stop acknowledgement

  /** This input is the station's a-stop, and it does not read pressed. */
  predicate ReadsAStopReleased(input: Input, i: StationId) {
    Concerns(input, i) && input.isAStop && input.reading.state != FieldEStop.StopActive
  }

  /** One of these inputs reads the station's a-stop released when it is not AUTO. */
  ghost predicate PanelsAcknowledge(s: State, inputs: seq<Input>, now: int, i: StationId) {
    exists k :: AcknowledgesAt(s, inputs, now, i, k)
  }

  ghost predicate AcknowledgesAt(s: State, inputs: seq<Input>, now: int, i: StationId, k: int) {
    && 0 <= k < |inputs|
    && ReadsAStopReleased(inputs[k], i)
    && PanelsPolled(s, inputs[..k], now).phase != AutoPeriod
  }

  lemma AcknowledgedSoFar(s: State, inputs: seq<Input>, now: int, i: StationId)
    requires inputs != []
    ensures PanelsAcknowledge(s, inputs, now, i) <==>
            || PanelsAcknowledge(s, inputs[..|inputs| - 1], now, i)
            || AcknowledgesAt(s, inputs, now, i, |inputs| - 1)
  {
    var earlier := inputs[..|inputs| - 1];
    if PanelsAcknowledge(s, earlier, now, i) {
      var k :| AcknowledgesAt(s, earlier, now, i, k);
      assert earlier[..k] == inputs[..k];
      assert AcknowledgesAt(s, inputs, now, i, k);
    }
    if PanelsAcknowledge(s, inputs, now, i) && !AcknowledgesAt(s, inputs, now, i, |inputs| - 1) {
      var k :| AcknowledgesAt(s, inputs, now, i, k);
      assert earlier[..k] == inputs[..k];
      assert AcknowledgesAt(s, earlier, now, i, k);
    }
  }

  lemma InputAcknowledges(s: State, input: Input, now: int, i: StationId)
    ensures InputHandled(s, input, now).stations[i].aStopReset <==>
            s.stations[i].aStopReset || (ReadsAStopReleased(input, i) && s.phase != AutoPeriod)
  {
    InputReachesStation(s, input, now, i);
  }

  lemma {:induction false} PanelsAcknowledgeExactly(s: State, inputs: seq<Input>, now: int, i: StationId)
    ensures PanelsPolled(s, inputs, now).stations[i].aStopReset <==>
            s.stations[i].aStopReset || PanelsAcknowledge(s, inputs, now, i)
    decreases |inputs|
  {
    if inputs != [] {
      var earlier := inputs[..|inputs| - 1];
      PanelsAcknowledgeExactly(s, earlier, now, i);
      InputAcknowledges(PanelsPolled(s, earlier, now), inputs[|inputs| - 1], now, i);
      AcknowledgedSoFar(s, inputs, now, i);
    }
  }

  lemma PlcAcknowledges(cfg: Config, s: State, plc: PlcReading, now: int, i: StationId)
    ensures var t := PlcHandled(cfg, s, plc, now);
            t.stations[i].aStopReset <==>
            s.stations[i].aStopReset || (cfg.plcEnabled && !plc.aStops[i] && t.phase != AutoPeriod)
  {
  }

  /** One tick: after its packets a panel, or the PLC, reads the station's a-stop released outside AUTO. */
  ghost predicate TickAcknowledges(cfg: Config, s: State, now: int, tick: TickInput, i: StationId) {
    InputsAcknowledge(cfg, Sent(cfg, s, now, tick.coin), now, tick, i)
  }

  ghost predicate InputsAcknowledge(cfg: Config, a: State, now: int, tick: TickInput, i: StationId) {
    || PanelsAcknowledge(FieldStopPolled(a, tick.fieldStop, now), tick.inputs, now + tick.lag, i)
    || (&& cfg.plcEnabled && !tick.plc.aStops[i]
        && OutputsSet(cfg, StopsPolled(a, now, tick), now, tick).phase != AutoPeriod)
  }

  /** The tick clears the match that is over, which assigns its lineup again. */
  predicate TickAssigns(s: State, now: int) {
    s.phase == PostMatch && now - s.postMatchStartTime >= Seconds(5)
  }

  /** The command assigns a lineup. */
  predicate Assigns(s: State, e: Event) {
    match e
    case Clear => s.phase == PostMatch
    case ResetField => !InProgress(s.phase)
    case Load(_) => s.phase == PreMatch
    case Substitute(teams, allowed, known) => allowed && NoDuplicates(teams) && AllKnown(teams, known)
    case _ => false
  }

  /** Since a lineup was last assigned, the station's a-stop has been seen released outside AUTO. Without a PLC
      an assignment does away with the need. */
  ghost predicate Acknowledged(cfg: Config, s: State, run: Run, i: StationId) {
    match run
    case Begin => false
    case Then(before, now, e) =>
      var b := Ran(cfg, s, before);
      if e.Tick? then
        || (if TickAssigns(b, now) then !cfg.plcEnabled else Acknowledged(cfg, s, before, i))
        || TickAcknowledges(cfg, b, now, e.tick, i)
      else if Assigns(b, e) then !cfg.plcEnabled
      else Acknowledged(cfg, s, before, i)
  }

  lemma AdvanceAssigns(cfg: Config, s: State, now: int, coin: bool, i: StationId)
    ensures Advanced(cfg, s, now, coin).s.stations[i].aStopReset ==
            if TickAssigns(s, now) then !cfg.plcEnabled else s.stations[i].aStopReset
  {
    if s.phase == PostMatch { ClearAssigns(cfg, s, i); }
  }

  lemma SentAssigns(cfg: Config, s: State, now: int, coin: bool, i: StationId)
    ensures Sent(cfg, s, now, coin).stations[i].aStopReset ==
            if TickAssigns(s, now) then !cfg.plcEnabled else s.stations[i].aStopReset
  {
    var c := HubsCounted(cfg, s, now);
    AdvanceAssigns(cfg, c, now, coin, i);
    PacketsKeepAcknowledged(Advanced(cfg, c, now, coin), now, i);
  }

  lemma PacketsKeepAcknowledged(a: Advance, now: int, i: StationId)
    ensures SentIfDue(a, now).stations[i].aStopReset == a.s.stations[i].aStopReset
  {
  }

  lemma StopsAcknowledge(a: State, now: int, tick: TickInput, i: StationId)
    ensures StopsPolled(a, now, tick).stations[i].aStopReset <==>
            || a.stations[i].aStopReset
            || PanelsAcknowledge(FieldStopPolled(a, tick.fieldStop, now), tick.inputs, now + tick.lag, i)
  {
    FieldStopKeepsAcknowledged(a, tick.fieldStop, now, i);
    PanelsAcknowledgeExactly(FieldStopPolled(a, tick.fieldStop, now), tick.inputs, now + tick.lag, i);
  }

  lemma OutputsAcknowledge(cfg: Config, p: State, now: int, tick: TickInput, i: StationId)
    ensures var t := OutputsSet(cfg, p, now, tick);
            t.stations[i].aStopReset <==>
            p.stations[i].aStopReset || (cfg.plcEnabled && !tick.plc.aStops[i] && t.phase != AutoPeriod)
  {
    DisplayContinues(cfg, p, now);
    PlcAcknowledges(cfg, Displayed(cfg, p, now), tick.plc, now + tick.lag, i);
  }

  lemma AfterSentAcknowledges(cfg: Config, a: State, now: int, tick: TickInput, i: StationId)
    ensures var t := OutputsSet(cfg, StopsPolled(a, now, tick), now, tick);
            t.stations[i].aStopReset <==>
            a.stations[i].aStopReset || InputsAcknowledge(cfg, a, now, tick, i)
  {
    StopsAcknowledge(a, now, tick, i);
    OutputsAcknowledge(cfg, StopsPolled(a, now, tick), now, tick, i);
  }

  lemma TickAcknowledgesExactly(cfg: Config, s: State, now: int, tick: TickInput, i: StationId)
    ensures Ticked(cfg, s, now, tick).stations[i].aStopReset <==>
            || (if TickAssigns(s, now) then !cfg.plcEnabled else s.stations[i].aStopReset)
            || TickAcknowledges(cfg, s, now, tick, i)
  {
    var a := Sent(cfg, s, now, tick.coin);
    SentAssigns(cfg, s, now, tick.coin, i);
    AfterSentAcknowledges(cfg, a, now, tick, i);
  }

  lemma FieldStopKeepsAcknowledged(a: State, reading: FieldEStop.Reading, now: int, i: StationId)
    ensures FieldStopPolled(a, reading, now).stations[i].aStopReset == a.stations[i].aStopReset
  {
  }

  lemma LoadAssigns(cfg: Config, s: State, teams: Lineup, i: StationId)
    ensures Loaded(cfg, s, teams).stations[i].aStopReset ==
            if s.phase == PreMatch then !cfg.plcEnabled else s.stations[i].aStopReset
  {
  }

  lemma ClearAssigns(cfg: Config, s: State, i: StationId)
    ensures MatchCleared(cfg, s).stations[i].aStopReset ==
            if s.phase == PostMatch then !cfg.plcEnabled else s.stations[i].aStopReset
  {
    LoadAssigns(cfg, MatchReset(s), s.lineup, i);
  }

  lemma ResetAssigns(cfg: Config, s: State, i: StationId)
    ensures FieldReset(cfg, s).stations[i].aStopReset ==
            if !InProgress(s.phase) then !cfg.plcEnabled else s.stations[i].aStopReset
  {
    LoadAssigns(cfg, MatchReset(s.(stations := Each(s.stations, StationEmptied))), NO_TEAMS, i);
  }

  lemma SubstituteAssigns(cfg: Config, s: State, teams: Lineup, allowed: bool, known: set<int>, i: StationId)
    ensures Substituted(cfg, s, teams, allowed, known).stations[i].aStopReset ==
            if allowed && NoDuplicates(teams) && AllKnown(teams, known) then !cfg.plcEnabled else s.stations[i].aStopReset
  {
  }

  predicate HandlesLineup(e: Event) { e.Clear? || e.ResetField? || e.Load? || e.Substitute? }

  lemma OthersAssignNothing(cfg: Config, s: State, now: int, e: Event, i: StationId)
    requires !e.Tick? && !HandlesLineup(e)
    ensures Step(cfg, s, now, e).stations[i].aStopReset == s.stations[i].aStopReset
  {
    match e
    case ClearFieldEStop(_) => assert Each(s.stations, EStopReleased)[i] == EStopReleased(s.stations[i]);
    case BypassEmpty => assert Each(s.stations, BypassedIfEmpty)[i] == BypassedIfEmpty(s.stations[i]);
    case DisableAll => assert Each(s.stations, Bypassed)[i] == Bypassed(s.stations[i]);
    case ToggleBypass(_) =>
    case ToggleEStop(_) =>
    case Accept(_, _, _) =>
    case Disconnect(_, _) =>
    case Telemetry(_, _, _) =>
    case _ =>
  }

  lemma CommandAssignsExactly(cfg: Config, s: State, now: int, e: Event, i: StationId)
    requires !e.Tick?
    ensures Step(cfg, s, now, e).stations[i].aStopReset ==
            if Assigns(s, e) then !cfg.plcEnabled else s.stations[i].aStopReset
  {
    match e
    case Load(teams) => LoadAssigns(cfg, s, teams, i);
    case Substitute(teams, allowed, known) => SubstituteAssigns(cfg, s, teams, allowed, known, i);
    case Clear => ClearAssigns(cfg, s, i);
    case ResetField => ResetAssigns(cfg, s, i);
    case _ => OthersAssignNothing(cfg, s, now, e, i);
  }

  lemma {:induction false} AcknowledgedExactly(cfg: Config, s: State, run: Run, i: StationId)
    requires !s.stations[i].aStopReset
    ensures Ran(cfg, s, run).stations[i].aStopReset <==> Acknowledged(cfg, s, run, i)
  {
    match run
    case Begin =>
    case Then(before, now, e) =>
      AcknowledgedExactly(cfg, s, before, i);
      if e.Tick? {
        TickAcknowledgesExactly(cfg, Ran(cfg, s, before), now, e.tick, i);
      } else {
        CommandAssignsExactly(cfg, Ran(cfg, s, before), now, e, i);
      }
  }

  // ------------------------------------------------------------------------------------ the start

  /** A station that is fit to start: no e-stop and no fault in its wiring, and its robot linked, unless it is
      bypassed. */
  predicate StationFit(st: Station) {
    && !st.eStop && st.eStopFault == FieldEStop.FaultNone
    && (st.bypass || (st.conn.Some? && st.conn.value.robotLinked))
  }

  /** And the field: its own e-stop neither latched nor faulted; every a-stop acknowledged since its lineup was
      assigned; the counter online if it is to decide AUTO; and a PLC in use healthy and connected, with its
      field e-stop released. */
  ghost predicate FieldFit(cfg: Config, start: State, run: Run, checks: StartChecks) {
    var s := Ran(cfg, start, run);
    && s.phase == PreMatch
    && !s.fieldEStopActive && s.fieldEStopFault == FieldEStop.FaultNone
    && (forall i: StationId :: StationFit(s.stations[i]) && Acknowledged(cfg, start, run, i))
    && (s.mode == FromCounts ==> checks.counter == Online)
    && (cfg.plcEnabled ==>
          && checks.plcHealthy && !checks.plcFieldEStop
          && forall k :: 0 <= k < |checks.armorBlocks| ==> checks.armorBlocks[k])
  }

  lemma OnlyStartStarts(cfg: Config, s: State, now: int, e: Event)
    requires s.phase != StartMatch && Step(cfg, s, now, e).phase == StartMatch
    ensures e.Start?
  {
    if e.Tick? {
      SentHoldsStops(cfg, s, now, e.tick.coin, 0);
      TickAfterSent(cfg, Sent(cfg, s, now, e.tick.coin), now, e.tick);
    } else if e.Clear? && s.phase == PostMatch {
      ClearedIsPreMatch(cfg, s);
    }
  }

  lemma StartsExactly(cfg: Config, s: State, now: int, checks: StartChecks)
    requires s.phase != StartMatch
    ensures Step(cfg, s, now, Start(checks)).phase == StartMatch <==>
            && s.phase == PreMatch
            && !s.fieldEStopActive && s.fieldEStopFault == FieldEStop.FaultNone
            && (forall i: StationId :: StationFit(s.stations[i]) && s.stations[i].aStopReset)
            && (s.mode == FromCounts ==> checks.counter == Online)
            && (cfg.plcEnabled ==>
                  && checks.plcHealthy && !checks.plcFieldEStop
                  && forall k :: 0 <= k < |checks.armorBlocks| ==> checks.armorBlocks[k])
  {
    assert (false !in checks.armorBlocks) <==> forall k :: 0 <= k < |checks.armorBlocks| ==> checks.armorBlocks[k];
    if forall i: StationId :: StationFit(s.stations[i]) && s.stations[i].aStopReset {
      forall i | 0 <= i < STATIONS ensures StationReady(s.stations[i]) {
        var station: StationId := i;
        assert StationFit(s.stations[station]);
      }
    } else {
      var i: StationId :| !(StationFit(s.stations[i]) && s.stations[i].aStopReset);
      assert !StationReady(s.stations[i]);
    }
  }

  /** The start. In any run of a new arena, a step begins a match exactly when it is a start and the field, with
      all that has happened to it, is fit. */
  lemma MatchStartsExactly(cfg: Config, mode: AutoWinnerMode, run: Run, now: int, e: Event)
    requires Ran(cfg, Initial(mode), run).phase != StartMatch
    ensures Step(cfg, Ran(cfg, Initial(mode), run), now, e).phase == StartMatch <==>
            e.Start? && FieldFit(cfg, Initial(mode), run, e.checks)
  {
    var s := Ran(cfg, Initial(mode), run);
    forall i: StationId ensures s.stations[i].aStopReset <==> Acknowledged(cfg, Initial(mode), run, i) {
      AcknowledgedExactly(cfg, Initial(mode), run, i);
    }
    if e.Start? {
      StartsExactly(cfg, s, now, e.checks);
    } else if Step(cfg, s, now, e).phase == StartMatch {
      OnlyStartStarts(cfg, s, now, e);
    }
  }

  // ---------------------------------------------------------------- a button held before a match

  /** This input is the station's e-stop, and it reads released. */
  predicate ReadsEStopReleased(input: Input, i: StationId) {
    Concerns(input, i) && !input.isAStop && input.reading.state == FieldEStop.StopOK
  }

  /** Nothing that the tick reads shows the station's e-stop released. */
  predicate TickHoldsButton(cfg: Config, tick: TickInput, i: StationId) {
    && (forall k :: 0 <= k < |tick.inputs| ==> !ReadsEStopReleased(tick.inputs[k], i))
    && (cfg.plcEnabled ==> tick.plc.eStops[i])
  }

  /** Nor does anything in the run release it. */
  predicate Unreleased(cfg: Config, run: Run, i: StationId) {
    match run
    case Begin => true
    case Then(before, _, e) =>
      && Unreleased(cfg, before, i)
      && match e
         case Tick(tick) => TickHoldsButton(cfg, tick, i)
         case ToggleEStop(j) => j != i
         case ClearFieldEStop(reading) => reading.state != FieldEStop.StopOK
         case ResetField => false
         case _ => true
  }

  lemma {:induction false} PanelsHoldButton(s: State, inputs: seq<Input>, now: int, i: StationId)
    requires forall k :: 0 <= k < |inputs| ==> !ReadsEStopReleased(inputs[k], i)
    ensures PanelsPolled(s, inputs, now).stations[i].eStop <==> s.stations[i].eStop || AnyPressed(inputs, i)
    decreases |inputs|
  {
    if inputs != [] {
      var earlier := inputs[..|inputs| - 1];
      assert forall k :: 0 <= k < |earlier| ==> earlier[k] == inputs[k];
      PanelsHoldButton(s, earlier, now, i);
      InputReachesStation(PanelsPolled(s, earlier, now), inputs[|inputs| - 1], now, i);
      PressedSoFar(inputs, i);
    }
  }

  lemma PlcHoldsButton(cfg: Config, s: State, plc: PlcReading, now: int, i: StationId)
    requires cfg.plcEnabled ==> plc.eStops[i]
    ensures PlcHandled(cfg, s, plc, now).stations[i].eStop <==> s.stations[i].eStop || cfg.plcEnabled
  {
  }

  lemma FieldStopKeepsEStop(a: State, reading: FieldEStop.Reading, now: int, i: StationId)
    ensures a.stations[i].eStop ==> FieldStopPolled(a, reading, now).stations[i].eStop
  {
  }

  lemma StopsHoldButton(cfg: Config, a: State, now: int, tick: TickInput, i: StationId)
    requires TickHoldsButton(cfg, tick, i)
    ensures a.stations[i].eStop || AnyPressed(tick.inputs, i) ==> StopsPolled(a, now, tick).stations[i].eStop
  {
    FieldStopKeepsEStop(a, tick.fieldStop, now, i);
    PanelsHoldButton(FieldStopPolled(a, tick.fieldStop, now), tick.inputs, now + tick.lag, i);
  }

  lemma OutputsHoldButton(cfg: Config, p: State, now: int, tick: TickInput, i: StationId)
    requires TickHoldsButton(cfg, tick, i) && (p.stations[i].eStop || cfg.plcEnabled)
    ensures OutputsSet(cfg, p, now, tick).stations[i].eStop
  {
    DisplayContinues(cfg, p, now);
    PlcHoldsButton(cfg, Displayed(cfg, p, now), tick.plc, now + tick.lag, i);
  }

  /** A tick that shows the button held, or does not show it released, leaves the station stopped. */
  lemma TickStopsStation(cfg: Config, s: State, now: int, tick: TickInput, i: StationId)
    requires TickHoldsButton(cfg, tick, i)
    requires s.stations[i].eStop || AnyPressed(tick.inputs, i) || cfg.plcEnabled
    ensures Ticked(cfg, s, now, tick).stations[i].eStop
  {
    var a := Sent(cfg, s, now, tick.coin);
    SentHoldsStops(cfg, s, now, tick.coin, i);
    StopsHoldButton(cfg, a, now, tick, i);
    OutputsHoldButton(cfg, StopsPolled(a, now, tick), now, tick, i);
  }

  lemma LineupsKeepEStop(cfg: Config, s: State, now: int, e: Event, i: StationId)
    requires s.stations[i].eStop && (e.Load? || e.Substitute? || e.Clear?)
    ensures Step(cfg, s, now, e).stations[i].eStop
  {
    match e
    case Load(_) =>
    case Substitute(_, _, _) =>
    case Clear =>
  }

  lemma CommandKeepsEStop(cfg: Config, s: State, now: int, e: Event, i: StationId)
    requires s.stations[i].eStop && !e.Tick? && Unreleased(cfg, Then(Begin, now, e), i)
    ensures Step(cfg, s, now, e).stations[i].eStop
  {
    if e.Load? || e.Substitute? || e.Clear? { LineupsKeepEStop(cfg, s, now, e, i); }
  }

  lemma StoppedDoesNotStart(cfg: Config, s: State, now: int, e: Event, i: StationId)
    requires s.stations[i].eStop && !InProgress(s.phase)
    ensures !InProgress(Step(cfg, s, now, e).phase)
  {
    if e.Start? {
      StartsExactly(cfg, s, now, e.checks);
      assert !StationFit(s.stations[i]);
    } else if e.Tick? {
      AdvanceEnables(cfg, HubsCounted(cfg, s, now), now, e.tick.coin);
      SentKeeps(cfg, s, now, e.tick.coin);
      TickAfterSent(cfg, Sent(cfg, s, now, e.tick.coin), now, e.tick);
    }
  }

  lemma {:induction false} StoppedStationStartsNothing(cfg: Config, s: State, run: Run, i: StationId)
    requires s.stations[i].eStop && !InProgress(s.phase) && Unreleased(cfg, run, i)
    ensures Ran(cfg, s, run).stations[i].eStop && !InProgress(Ran(cfg, s, run).phase)
  {
    match run
    case Begin =>
    case Then(before, now, e) =>
      StoppedStationStartsNothing(cfg, s, before, i);
      StoppedDoesNotStart(cfg, Ran(cfg, s, before), now, e, i);
      if e.Tick? {
        TickStopsStation(cfg, Ran(cfg, s, before), now, e.tick, i);
      } else {
        CommandKeepsEStop(cfg, Ran(cfg, s, before), now, e, i);
      }
  }

  /** The held button. Before a match, from a tick that finds a station's e-stop button pressed, by its panel or
      by the PLC, until something releases it, no match starts, whatever is asked and whatever lineups come. */
  lemma HeldButtonStartsNothing(cfg: Config, s: State, now: int, tick: TickInput, run: Run, i: StationId)
    requires !InProgress(s.phase) && TickHoldsButton(cfg, tick, i)
    requires AnyPressed(tick.inputs, i) || cfg.plcEnabled
    requires Unreleased(cfg, run, i)
    ensures !InProgress(Ran(cfg, Ticked(cfg, s, now, tick), run).phase)
  {
    AdvanceEnables(cfg, HubsCounted(cfg, s, now), now, tick.coin);
    SentKeeps(cfg, s, now, tick.coin);
    TickAfterSent(cfg, Sent(cfg, s, now, tick.coin), now, tick);
    TickStopsStation(cfg, s, now, tick, i);
    StoppedStationStartsNothing(cfg, Ticked(cfg, s, now, tick), run, i);
  }
}
