/** From a station's e-stop button to its robot, over whole runs of the arena. */
module StopButton {
  import opened Common
  import opened MatchState
  import opened MatchSafety
  import FieldEStop

  /** This input is the station's e-stop, and it does not read released. */
  predicate Pressed(input: Input, i: StationId) {
    Concerns(input, i) && !input.isAStop && input.reading.state != FieldEStop.StopOK
  }

  ghost predicate AnyPressed(inputs: seq<Input>, i: StationId) {
    exists k :: 0 <= k < |inputs| && Pressed(inputs[k], i)
  }

  lemma PressedSoFar(inputs: seq<Input>, i: StationId)
    requires inputs != []
    ensures AnyPressed(inputs, i) <==>
            AnyPressed(inputs[..|inputs| - 1], i) || Pressed(inputs[|inputs| - 1], i)
  {
    var earlier := inputs[..|inputs| - 1];
    if AnyPressed(earlier, i) {
      var k :| 0 <= k < |earlier| && Pressed(earlier[k], i);
      assert Pressed(inputs[k], i);
    }
    if AnyPressed(inputs, i) && !Pressed(inputs[|inputs| - 1], i) {
      var k :| 0 <= k < |inputs| && Pressed(inputs[k], i);
      assert Pressed(earlier[k], i);
    }
  }

  lemma InputStopsExactly(s: State, input: Input, now: int, i: StationId)
    requires InProgress(s.phase) && MatchTime(s, now) != 0
    ensures InputHandled(s, input, now).stations[i].eStop <==> s.stations[i].eStop || Pressed(input, i)
  {
    InputReachesStation(s, input, now, i);
  }

  /** While the match goes on a tick's panel inputs stop a station exactly if one of them, anywhere
      among the others, is its button pressed or faulted; and they release none. */
  lemma {:induction false} PanelsStopExactly(s: State, inputs: seq<Input>, now: int, i: StationId)
    requires InProgress(PanelsPolled(s, inputs, now).phase) && MatchTime(s, now) != 0
    ensures PanelsPolled(s, inputs, now).stations[i].eStop <==> s.stations[i].eStop || AnyPressed(inputs, i)
    decreases |inputs|
  {
    if inputs != [] {
      var earlier := inputs[..|inputs| - 1];
      PanelsOnlyStop(s, inputs, now);
      PanelsOnlyStop(s, earlier, now);
      PanelsStopExactly(s, earlier, now, i);
      InputStopsExactly(PanelsPolled(s, earlier, now), inputs[|inputs| - 1], now, i);
      PressedSoFar(inputs, i);
    }
  }

  /** A match in progress holds a station's e-stop through any inputs that do not end it, exactly when its
      clock reads other than zero: on the very instant it starts, and before, a release is taken as one
      made outside a match. */
  lemma HeldThroughInputsExactly(s: State, now: int, i: StationId)
    requires InProgress(s.phase) && s.stations[i].eStop
    ensures (forall inputs :: InProgress(PanelsPolled(s, inputs, now).phase) ==>
               PanelsPolled(s, inputs, now).stations[i].eStop) <==>
            MatchTime(s, now) != 0
  {
    if MatchTime(s, now) != 0 {
      forall inputs | InProgress(PanelsPolled(s, inputs, now).phase)
        ensures PanelsPolled(s, inputs, now).stations[i].eStop
      {
        PanelsStopExactly(s, inputs, now, i);
      }
    } else {
      ReleaseAtZero(s, now, i);
    }
  }

  lemma ReleaseAtZero(s: State, now: int, i: StationId)
    requires InProgress(s.phase) && MatchTime(s, now) == 0
    ensures var t := PanelsPolled(s, [Input(Some(i), false, FieldEStop.RELEASED)], now);
            InProgress(t.phase) && !t.stations[i].eStop
  {
    var inputs := [Input(Some(i), false, FieldEStop.RELEASED)];
    assert inputs[..0] == [];
  }

  /** The PLC's inputs likewise, each on its own station; an a-stop outside AUTO follows its button. */
  lemma PlcStopsExactly(cfg: Config, s: State, plc: PlcReading, now: int, i: StationId)
    requires cfg.plcEnabled && InProgress(s.phase) && MatchTime(s, now) != 0
    requires !plc.fieldEStop || s.matchAborted
    ensures var t := PlcHandled(cfg, s, plc, now);
            && (t.stations[i].eStop <==> s.stations[i].eStop || plc.eStops[i])
            && (t.stations[i].aStop <==> plc.aStops[i] || (s.stations[i].aStop && s.phase == AutoPeriod))
            && t.phase == s.phase
  {
  }

  /** And no input reaches a station it does not concern. */
  lemma {:induction false} OthersUntouched(s: State, inputs: seq<Input>, now: int, i: StationId)
    requires forall k :: 0 <= k < |inputs| ==> !Concerns(inputs[k], i)
    ensures PanelsPolled(s, inputs, now).stations[i] == s.stations[i]
    decreases |inputs|
  {
    if inputs != [] {
      var earlier := inputs[..|inputs| - 1];
      assert forall k :: 0 <= k < |earlier| ==> earlier[k] == inputs[k];
      OthersUntouched(s, earlier, now, i);
    }
  }

  /** Stopped for the rest of this match: e-stopped, or there is no match; its clock reads from m. */
  predicate Held(s: State, i: StationId, m: int) {
    && (s.stations[i].eStop || !InProgress(s.phase))
    && s.phase != StartMatch
    && s.matchStartTime == m
  }

  lemma PolledIsHeld(a: State, now: int, tick: TickInput, i: StationId, k: nat)
    requires k < |tick.inputs| && Pressed(tick.inputs[k], i)
    requires a.matchStartTime != now + tick.lag && a.phase != StartMatch
    ensures var p := StopsPolled(a, now, tick);
            p.stations[i].eStop || !InProgress(p.phase)
  {
    var f := FieldStopPolled(a, tick.fieldStop, now);
    FieldStopContinues(a, tick.fieldStop, now);
    PanelsContinue(f, tick.inputs, now + tick.lag);
    if InProgress(StopsPolled(a, now, tick).phase) {
      PanelsStopExactly(f, tick.inputs, now + tick.lag, i);
      assert AnyPressed(tick.inputs, i);
    }
  }

  /** What follows the panels in a tick keeps a station held. */
  lemma OutputsHold(cfg: Config, p: State, now: int, tick: TickInput, i: StationId)
    requires p.stations[i].eStop || !InProgress(p.phase)
    requires p.matchStartTime != now + tick.lag && p.phase != StartMatch
    ensures var t := OutputsSet(cfg, p, now, tick);
            (t.stations[i].eStop || !InProgress(t.phase)) && t.phase != StartMatch
  {
    OutputsHoldStops(cfg, p, now, tick, i);
  }

  /** A tick that sees the button pressed leaves the station held. */
  lemma PressHolds(cfg: Config, s: State, now: int, tick: TickInput, i: StationId, k: nat)
    requires k < |tick.inputs| && Pressed(tick.inputs[k], i)
    requires Ticked(cfg, s, now, tick).matchStartTime < now
    ensures Held(Ticked(cfg, s, now, tick), i, Ticked(cfg, s, now, tick).matchStartTime)
  {
    var a := Sent(cfg, s, now, tick.coin);
    SentHoldsStops(cfg, s, now, tick.coin, i);
    StopsContinue(a, now, tick);
    OutputsContinue(cfg, StopsPolled(a, now, tick), now, tick);
    PolledIsHeld(a, now, tick, i, k);
    OutputsHold(cfg, StopsPolled(a, now, tick), now, tick, i);
  }

  /** A match that is under way keeps its clock. */
  lemma SentKeepsStart(cfg: Config, s: State, now: int, coin: bool)
    requires s.phase != StartMatch
    ensures Sent(cfg, s, now, coin).matchStartTime == s.matchStartTime
    ensures InProgress(Sent(cfg, s, now, coin).phase) ==> InProgress(s.phase)
  {
    var c := HubsCounted(cfg, s, now);
    SentKeeps(cfg, s, now, coin);
    AdvanceEnables(cfg, c, now, coin);
    AdvanceKeepsStart(cfg, c, now, coin);
  }

  lemma AdvanceKeepsStart(cfg: Config, s: State, now: int, coin: bool)
    requires s.phase != StartMatch
    ensures Advanced(cfg, s, now, coin).s.matchStartTime == s.matchStartTime
  {
  }

  lemma HeldTick(cfg: Config, s: State, now: int, tick: TickInput, i: StationId, m: int)
    requires Held(s, i, m) && m < now
    ensures Held(Ticked(cfg, s, now, tick), i, m)
  {
    var a := Sent(cfg, s, now, tick.coin);
    SentKeepsStart(cfg, s, now, tick.coin);
    SentHoldsStops(cfg, s, now, tick.coin, i);
    TickAfterSent(cfg, a, now, tick);
    TickHoldsStops(cfg, s, now, tick, i);
  }

  lemma HeldCommand(cfg: Config, s: State, now: int, e: Event, i: StationId, m: int)
    requires Held(s, i, m) && !e.Tick? && !e.Start?
    requires e != ToggleEStop(i) && !(e.ClearFieldEStop? && e.reading.state == FieldEStop.StopOK)
    ensures Held(Step(cfg, s, now, e), i, m)
  {
    if InProgress(s.phase) {
      CommandsHoldEStop(cfg, s, now, e, i);
    } else if e.Clear? && s.phase == PostMatch {
      ClearedIsPreMatch(cfg, s);
    }
  }

  /** No other match is started. */
  predicate SameMatch(run: Run) {
    match run
    case Begin => true
    case Then(before, _, e) => SameMatch(before) && !e.Start?
  }

  lemma {:induction false} HeldThroughout(cfg: Config, s: State, run: Run, i: StationId, m: int, t0: int, t: int)
    requires Held(s, i, m) && m < t0 && Timely(run, t0, t)
    requires NotReleased(run, i) && SameMatch(run)
    ensures Held(Ran(cfg, s, run), i, m) && StaysBlocked(cfg, s, run, i) && t0 <= t
  {
    match run
    case Begin =>
    case Then(before, now, e) =>
      HeldThroughout(cfg, s, before, i, m, t0, now);
      if e.Tick? {
        HeldTick(cfg, Ran(cfg, s, before), now, e.tick, i, m);
      } else {
        HeldCommand(cfg, Ran(cfg, s, before), now, e, i, m);
      }
  }

  lemma TickNotesTime(cfg: Config, s: State, now: int, tick: TickInput)
    requires s.lastDsPacketTime <= now
    ensures Ticked(cfg, s, now, tick).lastDsPacketTime <= now
  {
    var a := Sent(cfg, s, now, tick.coin);
    AdvanceKeepsPacketTime(cfg, HubsCounted(cfg, s, now), now, tick.coin);
    TickAfterSent(cfg, a, now, tick);
  }

  /** The button. One tick of a match sees a station's e-stop pressed, or reading a fault, however
      briefly. Then whatever inputs, ticks and commands follow, until someone releases the station or
      another match is started: once 500 ms and the longest gap between ticks have gone by, every
      connection of that station has been told to disable its robot, and stays told. */
  lemma PressStopsRobot(cfg: Config, s: State, now: int, tick: TickInput, i: StationId, k: nat, run: Run, d: int)
    requires k < |tick.inputs| && Pressed(tick.inputs[k], i)
    requires Ticked(cfg, s, now, tick).matchStartTime < now && s.lastDsPacketTime <= now
    requires NotReleased(run, i) && SameMatch(run) && TicksWithin(run, now, d)
    requires run.Then? && Timely(run, now, run.now) && now + PACKET_PERIOD + d <= run.now
    ensures Disabled(Ran(cfg, Ticked(cfg, s, now, tick), run), i)
  {
    var t := Ticked(cfg, s, now, tick);
    PressHolds(cfg, s, now, tick, i, k);
    HeldThroughout(cfg, t, run, i, t.matchStartTime, now, run.now);
    TickNotesTime(cfg, s, now, tick);
    StopLatency(cfg, t, run, i, now, d);
  }

  // ----------------------------------------------------------------------- the last word of a tick

  /** The last of these inputs to say anything of the station's e-stop. */
  function LastEStop(inputs: seq<Input>, i: StationId): Option<FieldEStop.Reading> {
    if inputs == [] then None
    else
      var last := inputs[|inputs| - 1];
      if Concerns(last, i) && !last.isAStop then Some(last.reading) else LastEStop(inputs[..|inputs| - 1], i)
  }

  /** And of its a-stop. */
  function LastAStop(inputs: seq<Input>, i: StationId): Option<FieldEStop.Reading> {
    if inputs == [] then None
    else
      var last := inputs[|inputs| - 1];
      if Concerns(last, i) && last.isAStop then Some(last.reading) else LastAStop(inputs[..|inputs| - 1], i)
  }

  lemma StaysAtZero(s: State, inputs: seq<Input>, now: int)
    requires MatchTime(s, now) == 0
    ensures MatchTime(PanelsPolled(s, inputs, now), now) == 0
  {
    PanelsOnlyStop(s, inputs, now);
  }

  /** A station's wiring fault is the last one reported; when the match clock reads zero, and so outside a match,
      its e-stop is what was last read; and outside AUTO so is its a-stop. */
  lemma {:induction false} LastWordDecides(s: State, inputs: seq<Input>, now: int, i: StationId)
    ensures var st := PanelsPolled(s, inputs, now).stations[i];
            var eStop, aStop := LastEStop(inputs, i), LastAStop(inputs, i);
            && st.eStopFault == (if eStop.Some? then eStop.value.fault else s.stations[i].eStopFault)
            && (MatchTime(s, now) == 0 ==>
                  st.eStop == if eStop.Some? then eStop.value.state != FieldEStop.StopOK else s.stations[i].eStop)
            && (s.phase != AutoPeriod ==>
                  st.aStop == if aStop.Some? then aStop.value.state == FieldEStop.StopActive else s.stations[i].aStop)
    decreases |inputs|
  {
    if inputs != [] {
      var earlier := inputs[..|inputs| - 1];
      LastWordDecides(s, earlier, now, i);
      PanelsOnlyStop(s, earlier, now);
      if MatchTime(s, now) == 0 { StaysAtZero(s, earlier, now); }
      InputReachesStation(PanelsPolled(s, earlier, now), inputs[|inputs| - 1], now, i);
    }
  }

  /** In AUTO an a-stop latches. */
  predicate PressedAStop(input: Input, i: StationId) {
    Concerns(input, i) && input.isAStop && input.reading.state == FieldEStop.StopActive
  }

  lemma {:induction false} AStopsLatchExactly(s: State, inputs: seq<Input>, now: int, i: StationId)
    requires PanelsPolled(s, inputs, now).phase == AutoPeriod
    ensures PanelsPolled(s, inputs, now).stations[i].aStop <==>
            s.stations[i].aStop || exists k :: 0 <= k < |inputs| && PressedAStop(inputs[k], i)
    decreases |inputs|
  {
    if inputs != [] {
      var earlier, last := inputs[..|inputs| - 1], inputs[|inputs| - 1];
      PanelsOnlyStop(s, inputs, now);
      InputKeepsPhase(PanelsPolled(s, earlier, now), last, now);
      AStopsLatchExactly(s, earlier, now, i);
      InputReachesStation(PanelsPolled(s, earlier, now), last, now, i);
      if exists k :: 0 <= k < |earlier| && PressedAStop(earlier[k], i) {
        var k :| 0 <= k < |earlier| && PressedAStop(earlier[k], i);
        assert PressedAStop(inputs[k], i);
      }
      if exists k :: 0 <= k < |inputs| && PressedAStop(inputs[k], i) {
        var k :| 0 <= k < |inputs| && PressedAStop(inputs[k], i);
        assert k < |earlier| ==> PressedAStop(earlier[k], i);
      }
    }
  }

  lemma InputKeepsPhase(s: State, input: Input, now: int)
    ensures InputHandled(s, input, now).phase in {s.phase, PostMatch}
  {
  }

  lemma LatchingStopsAll(a: State, reading: FieldEStop.Reading, now: int, i: StationId)
    requires !a.fieldEStopActive && reading.state != FieldEStop.StopOK
    ensures var f := FieldStopPolled(a, reading, now);
            f.stations[i].eStop && f.fieldEStopFault == reading.fault && MatchTime(f, now) == 0 && !InProgress(f.phase)
  {
  }

  lemma OutputsAtZero(cfg: Config, p: State, now: int, tick: TickInput, i: StationId)
    requires !InProgress(p.phase)
    ensures OutputsSet(cfg, p, now, tick).stations[i].eStop ==
            if cfg.plcEnabled then tick.plc.eStops[i] else p.stations[i].eStop
  {
    DisplayContinues(cfg, p, now);
    PlcAtZero(cfg, Displayed(cfg, p, now), tick.plc, now + tick.lag, i);
  }

  lemma PlcAtZero(cfg: Config, s: State, plc: PlcReading, now: int, i: StationId)
    requires !InProgress(s.phase)
    ensures PlcHandled(cfg, s, plc, now).stations[i].eStop ==
            if cfg.plcEnabled then plc.eStops[i] else s.stations[i].eStop
  {
  }

  /** What the panels' last word leaves of a station that was e-stopped. */
  predicate PanelsLeaveStopped(inputs: seq<Input>, i: StationId) {
    LastEStop(inputs, i).Some? ==> LastEStop(inputs, i).value.state != FieldEStop.StopOK
  }

  lemma LatchedIsPolled(a: State, now: int, tick: TickInput, i: StationId)
    requires !a.fieldEStopActive && tick.fieldStop.state != FieldEStop.StopOK
    ensures var p := StopsPolled(a, now, tick);
            !InProgress(p.phase) && p.stations[i].eStop == PanelsLeaveStopped(tick.inputs, i)
  {
    var f := FieldStopPolled(a, tick.fieldStop, now);
    LatchingStopsAll(a, tick.fieldStop, now, i);
    LastWordDecides(f, tick.inputs, now + tick.lag, i);
    PanelsOnlyStop(f, tick.inputs, now + tick.lag);
  }

  /** The tick that latches the field e-stop sets every station's own. With the match over, what the same tick
      then reads of a station has the last word on that, the PLC's over a panel's. */
  lemma FieldStopSetsStations(cfg: Config, s: State, now: int, tick: TickInput, i: StationId)
    requires !s.fieldEStopActive && tick.fieldStop.state != FieldEStop.StopOK
    ensures var t := Ticked(cfg, s, now, tick);
            && t.fieldEStopActive
            && t.stations[i].eStop ==
               if cfg.plcEnabled then tick.plc.eStops[i] else PanelsLeaveStopped(tick.inputs, i)
  {
    var a := Sent(cfg, s, now, tick.coin);
    SentKeepsLatch(cfg, s, now, tick.coin);
    LatchedIsPolled(a, now, tick, i);
    OutputsAtZero(cfg, StopsPolled(a, now, tick), now, tick, i);
    TickAfterSent(cfg, a, now, tick);
  }
}
