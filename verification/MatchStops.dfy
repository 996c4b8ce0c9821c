/** What stops the whole field -- an abort, the field e-stop, a panel's or the PLC's -- and how fast that reaches
    every robot. */
module MatchStops {
  import opened Common
  import opened MatchState
  import opened MatchSafety
  import opened MatchCues
  import opened StopButton
  import FieldEStop

  /** A match that was cut short stays so only until the field is cleared. */
  predicate AbortedOnlyAfter(s: State) { s.matchAborted ==> s.phase == PostMatch }

  lemma AbortedTick(cfg: Config, s: State, now: int, tick: TickInput)
    requires AbortedOnlyAfter(s)
    ensures AbortedOnlyAfter(Ticked(cfg, s, now, tick))
  {
    var a := Sent(cfg, s, now, tick.coin);
    SentCues(cfg, s, now, tick.coin);
    SentAborts(cfg, s, now, tick.coin);
    TickCues(cfg, a, now, tick);
  }

  lemma SentAborts(cfg: Config, s: State, now: int, coin: bool)
    requires AbortedOnlyAfter(s)
    ensures AbortedOnlyAfter(Sent(cfg, s, now, coin))
  {
    SentKeeps(cfg, s, now, coin);
    AdvanceAborts(cfg, HubsCounted(cfg, s, now), now, coin);
  }

  lemma AdvanceAborts(cfg: Config, s: State, now: int, coin: bool)
    requires AbortedOnlyAfter(s)
    ensures AbortedOnlyAfter(Advanced(cfg, s, now, coin).s)
  {
  }

  lemma AbortedCommand(cfg: Config, s: State, now: int, e: Event)
    requires AbortedOnlyAfter(s) && !e.Tick?
    ensures AbortedOnlyAfter(Step(cfg, s, now, e))
  {
  }

  lemma {:induction false} AlwaysAbortedOnlyAfter(cfg: Config, s: State, run: Run)
    requires AbortedOnlyAfter(s)
    ensures AbortedOnlyAfter(Ran(cfg, s, run))
  {
    match run
    case Begin =>
    case Then(before, now, e) =>
      AlwaysAbortedOnlyAfter(cfg, s, before);
      if e.Tick? {
        AbortedTick(cfg, Ran(cfg, s, before), now, e.tick);
      } else {
        AbortedCommand(cfg, Ran(cfg, s, before), now, e);
      }
  }

  // ------------------------------------------------------------------------------ ending a match

  /** An abort ends a match that is in progress and withdraws its game data, touching nothing else; at any other
      time it does nothing. */
  lemma AbortEndsMatch(cfg: Config, s: State, now: int)
    ensures var t := Step(cfg, s, now, Abort);
            && !InProgress(t.phase)
            && (InProgress(s.phase) ==>
                  t == s.(phase := PostMatch, postMatchStartTime := now, gameData := "", matchAborted := true))
            && (!InProgress(s.phase) ==> t == s)
  {
  }

  /** This input is a panel's field e-stop, and it does not read released. */
  predicate StopsEveryone(input: Input) {
    input.station.None? && !input.isAStop && input.reading.state != FieldEStop.StopOK
  }

  /** Something that this tick reads stops the whole field. */
  predicate StopsField(cfg: Config, tick: TickInput) {
    || tick.fieldStop.state != FieldEStop.StopOK
    || (exists k :: 0 <= k < |tick.inputs| && StopsEveryone(tick.inputs[k]))
    || (cfg.plcEnabled && tick.plc.fieldEStop)
  }

  lemma InputEndsMatch(s: State, input: Input, now: int)
    requires StopsEveryone(input)
    ensures !InProgress(InputHandled(s, input, now).phase)
  {
  }

  lemma {:induction false} PanelsEndMatch(s: State, inputs: seq<Input>, now: int, k: nat)
    requires k < |inputs| && StopsEveryone(inputs[k])
    ensures !InProgress(PanelsPolled(s, inputs, now).phase)
    decreases |inputs|
  {
    var earlier := inputs[..|inputs| - 1];
    if k < |earlier| {
      PanelsEndMatch(s, earlier, now, k);
      InputEndsNothingElse(PanelsPolled(s, earlier, now), inputs[|inputs| - 1], now);
    } else {
      InputEndsMatch(PanelsPolled(s, earlier, now), inputs[k], now);
    }
  }

  lemma InputEndsNothingElse(s: State, input: Input, now: int)
    requires !InProgress(s.phase)
    ensures InputHandled(s, input, now).phase == s.phase
  {
  }

  /** The PLC's field e-stop, whatever it finds. */
  lemma PlcEndsMatch(cfg: Config, s: State, plc: PlcReading, now: int)
    requires AbortedOnlyAfter(s)
    ensures cfg.plcEnabled && plc.fieldEStop ==> !InProgress(PlcHandled(cfg, s, plc, now).phase)
    ensures !cfg.plcEnabled ==> PlcHandled(cfg, s, plc, now) == s
  {
  }

  lemma PolledEnds(cfg: Config, a: State, now: int, tick: TickInput)
    requires StopsField(cfg, tick) && !(cfg.plcEnabled && tick.plc.fieldEStop)
    requires a.fieldEStopActive ==> !InProgress(a.phase)
    ensures !InProgress(StopsPolled(a, now, tick).phase)
  {
    var f := FieldStopPolled(a, tick.fieldStop, now);
    FieldStopContinues(a, tick.fieldStop, now);
    PanelsContinue(f, tick.inputs, now + tick.lag);
    if tick.fieldStop.state == FieldEStop.StopOK {
      var k :| 0 <= k < |tick.inputs| && StopsEveryone(tick.inputs[k]);
      PanelsEndMatch(f, tick.inputs, now + tick.lag, k);
    }
  }

  lemma OutputsEnd(cfg: Config, p: State, now: int, tick: TickInput)
    requires AbortedOnlyAfter(p) && (!InProgress(p.phase) || (cfg.plcEnabled && tick.plc.fieldEStop))
    ensures !InProgress(OutputsSet(cfg, p, now, tick).phase)
  {
    var l := Displayed(cfg, p, now);
    DisplayContinues(cfg, p, now);
    PlcEndsMatch(cfg, l, tick.plc, now + tick.lag);
    PlcContinues(cfg, l, tick.plc, now + tick.lag);
  }

  /** A tick that reads a stop of the whole field, from wherever it comes, leaves no match in progress. */
  lemma StopEndsMatch(cfg: Config, s: State, now: int, tick: TickInput)
    requires Controlled(s) && AbortedOnlyAfter(s) && StopsField(cfg, tick)
    ensures !InProgress(Ticked(cfg, s, now, tick).phase)
  {
    var a := Sent(cfg, s, now, tick.coin);
    var p := StopsPolled(a, now, tick);
    ControlledAdvance(cfg, s, now, tick.coin);
    SentKeeps(cfg, s, now, tick.coin);
    SentAborts(cfg, s, now, tick.coin);
    StopsCut(a, now, tick);
    if !(cfg.plcEnabled && tick.plc.fieldEStop) { PolledEnds(cfg, a, now, tick); }
    OutputsEnd(cfg, p, now, tick);
  }

  // --------------------------------------------------------------------------- from there to the robots

  lemma NoMatchStep(cfg: Config, s: State, now: int, e: Event)
    requires !InProgress(s.phase) && !e.Start?
    ensures !InProgress(Step(cfg, s, now, e).phase)
  {
    if e.Tick? {
      AdvanceEnables(cfg, HubsCounted(cfg, s, now), now, e.tick.coin);
      SentKeeps(cfg, s, now, e.tick.coin);
      TickAfterSent(cfg, Sent(cfg, s, now, e.tick.coin), now, e.tick);
    }
  }

  lemma {:induction false} NoMatchFollows(cfg: Config, s: State, run: Run, i: StationId)
    requires !InProgress(s.phase) && SameMatch(run)
    ensures !InProgress(Ran(cfg, s, run).phase) && StaysBlocked(cfg, s, run, i)
  {
    match run
    case Begin =>
    case Then(before, now, e) =>
      NoMatchFollows(cfg, s, before, i);
      NoMatchStep(cfg, Ran(cfg, s, before), now, e);
  }

  lemma {:induction false} PacketsAreInThePast(cfg: Config, s: State, run: Run, t0: int, t: int)
    requires s.lastDsPacketTime <= t0 && Timely(run, t0, t)
    ensures Ran(cfg, s, run).lastDsPacketTime <= t
  {
    match run
    case Begin =>
    case Then(before, now, e) =>
      PacketsAreInThePast(cfg, s, before, t0, now);
      if e.Tick? {
        TickNotesTime(cfg, Ran(cfg, s, before), now, e.tick);
      } else {
        CommandsEnableNothing(cfg, Ran(cfg, s, before), now, e, 0);
      }
  }

  /** With no match in progress, and none started. */
  lemma EveryRobotStops(cfg: Config, s: State, now: int, run: Run, d: int, i: StationId)
    requires !InProgress(s.phase) && s.lastDsPacketTime <= now
    requires SameMatch(run) && TicksWithin(run, now, d)
    requires run.Then? && now + PACKET_PERIOD + d <= run.now
    ensures Disabled(Ran(cfg, s, run), i)
  {
    NoMatchFollows(cfg, s, run, i);
    StopLatency(cfg, s, run, i, now, d);
  }

  /** The abort. At any moment of any run, whatever follows it but another start: once 500 ms and the longest gap
      between ticks have gone by, every connection of every station has been told to disable its robot, and
      stays told. */
  lemma AbortStopsRobots(cfg: Config, mode: AutoWinnerMode, before: Run, now: int, run: Run, d: int, i: StationId)
    requires Timely(before, 0, now) && SameMatch(run) && TicksWithin(run, now, d)
    requires run.Then? && now + PACKET_PERIOD + d <= run.now
    ensures var aborted := Ran(cfg, Initial(mode), Then(before, now, Abort));
            && !InProgress(aborted.phase) && aborted.gameData == ""
            && Disabled(Ran(cfg, aborted, run), i)
  {
    var s := Ran(cfg, Initial(mode), before);
    AbortEndsMatch(cfg, s, now);
    AlwaysControlled(cfg, Initial(mode), before);
    PacketsAreInThePast(cfg, Initial(mode), before, 0, now);
    EveryRobotStops(cfg, Step(cfg, s, now, Abort), now, run, d, i);
  }

  /** A stop of the whole field, read by one tick of any run: the controller's own field e-stop, a panel's or the
      PLC's. It ends the match at once, and reaches every robot as fast. */
  lemma FieldStopStopsRobots(cfg: Config, mode: AutoWinnerMode, before: Run, now: int, tick: TickInput, run: Run,
                             d: int, i: StationId)
    requires Timely(before, 0, now) && StopsField(cfg, tick) && SameMatch(run) && TicksWithin(run, now, d)
    requires run.Then? && now + PACKET_PERIOD + d <= run.now
    ensures var stopped := Ran(cfg, Initial(mode), Then(before, now, Tick(tick)));
            && !InProgress(stopped.phase) && stopped.gameData == ""
            && Disabled(Ran(cfg, stopped, run), i)
  {
    var s := Ran(cfg, Initial(mode), before);
    AlwaysControlled(cfg, Initial(mode), before);
    AlwaysAbortedOnlyAfter(cfg, Initial(mode), before);
    StopEndsMatch(cfg, s, now, tick);
    ControlledTick(cfg, s, now, tick);
    PacketsAreInThePast(cfg, Initial(mode), before, 0, now);
    TickNotesTime(cfg, s, now, tick);
    EveryRobotStops(cfg, Ticked(cfg, s, now, tick), now, run, d, i);
  }
}
