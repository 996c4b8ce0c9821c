/** What every run of the arena keeps: the stop rules, the control packets and the game data. A run is any
    sequence of ticks, operator commands, driver stations coming and going, and counter datagrams. */
module MatchSafety {
  import opened Common
  import opened Timing
  import opened Hub
  import opened HubLights
  import opened FieldEStop
  import opened MatchState

  /** The latest event outermost, each with the time at which it happened. */
  datatype Run = Begin | Then(before: Run, now: int, e: Event)

  function Ran(cfg: Config, s: State, run: Run): State {
    match run
    case Begin => s
    case Then(before, now, e) => Step(cfg, Ran(cfg, s, before), now, e)
  }

  /** Time does not run backwards, from t0 to t. */
  predicate Timely(run: Run, t0: int, t: int) {
    match run
    case Begin => t0 <= t
    case Then(before, now, _) => Timely(before, t0, now) && now <= t
  }

  // ------------------------------------------------------------------- what the phases touch

  lemma InputReachesStation(s: State, input: Input, now: int, i: StationId)
    ensures InputHandled(s, input, now).stations[i] ==
            if Concerns(input, i) then StationInput(s, s.stations[i], input, now) else s.stations[i]
  {
  }

  /** Polling panels changes the stations, and may abort the match; nothing else. */
  lemma {:induction false} PanelsOnlyStop(s: State, inputs: seq<Input>, now: int)
    ensures var t := PanelsPolled(s, inputs, now);
            t == s.(stations := t.stations) || (InProgress(s.phase) && t == Aborted(s, now).(stations := t.stations))
    decreases |inputs|
  {
    if inputs != [] { PanelsOnlyStop(s, inputs[..|inputs| - 1], now); }
  }

  lemma SentKeeps(cfg: Config, s: State, now: int, coin: bool)
    ensures var a := Advanced(cfg, HubsCounted(cfg, s, now), now, coin);
            var t := Sent(cfg, s, now, coin);
            t == a.s.(stations := t.stations, lastDsPacketTime := t.lastDsPacketTime, lastMatchTime := MatchTime(s, now))
  {
  }

  /** The match goes on as it was, or has been ended; its scoring is untouched. */
  predicate Continues(a: State, t: State) {
    && ((t.phase == a.phase && t.gameData == a.gameData)
        || (InProgress(a.phase) && t.phase == PostMatch && t.gameData == ""))
    && t.autoWinner == a.autoWinner && t.matchStartTime == a.matchStartTime && t.mode == a.mode
    && t.lastDsPacketTime == a.lastDsPacketTime
    && t.redHub == a.redHub && t.blueHub == a.blueHub && t.feed == a.feed && t.lineup == a.lineup
  }

  lemma FieldStopContinues(a: State, reading: Reading, now: int)
    ensures var t := FieldStopPolled(a, reading, now);
            && Continues(a, t)
            && t.fieldEStopActive == (a.fieldEStopActive || reading.state != StopOK)
            && (t.fieldEStopActive && !a.fieldEStopActive ==> !InProgress(t.phase))
  {
  }

  lemma PanelsContinue(a: State, inputs: seq<Input>, now: int)
    ensures Continues(a, PanelsPolled(a, inputs, now))
    ensures PanelsPolled(a, inputs, now).fieldEStopActive == a.fieldEStopActive
  {
    PanelsOnlyStop(a, inputs, now);
  }

  lemma StopsContinue(a: State, now: int, tick: TickInput)
    ensures var t := StopsPolled(a, now, tick);
            && Continues(a, t)
            && t.fieldEStopActive == (a.fieldEStopActive || tick.fieldStop.state != StopOK)
            && (t.fieldEStopActive && !a.fieldEStopActive ==> !InProgress(t.phase))
  {
    FieldStopContinues(a, tick.fieldStop, now);
    PanelsContinue(FieldStopPolled(a, tick.fieldStop, now), tick.inputs, now + tick.lag);
  }

  lemma LampsContinue(cfg: Config, a: State, now: int)
    ensures var t := LampsUpdated(cfg, a, now);
            t == a.(lamps := t.lamps)
  {
  }

  lemma DisplayContinues(cfg: Config, a: State, now: int)
    ensures var t := Displayed(cfg, a, now);
            t == a.(lamps := t.lamps, cues := t.cues)
  {
    LampsContinue(cfg, CueSounded(cfg, a), now);
  }

  lemma PlcContinues(cfg: Config, a: State, plc: PlcReading, now: int)
    ensures var t := PlcHandled(cfg, a, plc, now);
            Continues(a, t) && t.fieldEStopActive == a.fieldEStopActive
  {
  }

  lemma OutputsContinue(cfg: Config, a: State, now: int, tick: TickInput)
    ensures var t := OutputsSet(cfg, a, now, tick);
            Continues(a, t) && t.fieldEStopActive == a.fieldEStopActive
  {
    DisplayContinues(cfg, a, now);
    PlcContinues(cfg, Displayed(cfg, a, now), tick.plc, now + tick.lag);
  }

  /** After the packets have gone out a tick either leaves the match where it is or ends it. */
  lemma TickAfterSent(cfg: Config, a: State, now: int, tick: TickInput)
    ensures var t := OutputsSet(cfg, StopsPolled(a, now, tick), now, tick);
            && Continues(a, t)
            && t.fieldEStopActive == (a.fieldEStopActive || tick.fieldStop.state != StopOK)
            && (t.fieldEStopActive && !a.fieldEStopActive ==> !InProgress(t.phase))
  {
    StopsContinue(a, now, tick);
    OutputsContinue(cfg, StopsPolled(a, now, tick), now, tick);
  }

  // ------------------------------------------------------------ game data and the field e-stop

  /** Game data exists exactly in teleop and names the AUTO winner, who is decided by then and not
      before; and a latched field e-stop means no match is in progress. */
  predicate Controlled(s: State) {
    && s.gameData == (if s.phase == TeleopPeriod then GameDataFor(s.autoWinner) else "")
    && (s.phase == TeleopPeriod ==> s.autoWinner != NoAlliance)
    && (s.phase in {WarmupPeriod, AutoPeriod, PausePeriod} ==> s.autoWinner == NoAlliance)
    && (s.fieldEStopActive ==> !InProgress(s.phase))
  }

  lemma AdvanceStaysControlled(cfg: Config, c: State, now: int, coin: bool)
    requires Controlled(c)
    ensures var t := Advanced(cfg, c, now, coin).s; Controlled(t) && t.fieldEStopActive == c.fieldEStopActive
  {
  }

  lemma ControlledAdvance(cfg: Config, s: State, now: int, coin: bool)
    requires Controlled(s)
    ensures Controlled(Advanced(cfg, HubsCounted(cfg, s, now), now, coin).s)
    ensures Advanced(cfg, HubsCounted(cfg, s, now), now, coin).s.fieldEStopActive == s.fieldEStopActive
  {
    var c := HubsCounted(cfg, s, now);
    assert c == s.(redHub := c.redHub, blueHub := c.blueHub);
    AdvanceStaysControlled(cfg, c, now, coin);
  }

  lemma ControlledTick(cfg: Config, s: State, now: int, tick: TickInput)
    requires Controlled(s)
    ensures Controlled(Ticked(cfg, s, now, tick))
  {
    ControlledAdvance(cfg, s, now, tick.coin);
    SentKeeps(cfg, s, now, tick.coin);
    TickAfterSent(cfg, Sent(cfg, s, now, tick.coin), now, tick);
  }

  lemma ControlledClear(cfg: Config, s: State)
    requires Controlled(s)
    ensures Controlled(MatchCleared(cfg, s))
  {
  }

  lemma ControlledReset(cfg: Config, s: State)
    requires Controlled(s)
    ensures Controlled(FieldReset(cfg, s))
  {
  }

  lemma ControlledStep(cfg: Config, s: State, now: int, e: Event)
    requires Controlled(s)
    ensures Controlled(Step(cfg, s, now, e))
  {
    match e
    case Tick(tick) => ControlledTick(cfg, s, now, tick);
    case Clear => ControlledClear(cfg, s);
    case ResetField => ControlledReset(cfg, s);
    case _ =>
  }

  /** In every reachable state. */
  lemma {:induction false} AlwaysControlled(cfg: Config, s: State, run: Run)
    requires Controlled(s)
    ensures Controlled(Ran(cfg, s, run))
  {
    match run
    case Begin =>
    case Then(before, now, e) =>
      AlwaysControlled(cfg, s, before);
      ControlledStep(cfg, Ran(cfg, s, before), now, e);
  }

  /** The game data a driver station may see: the winner's letter exactly throughout teleop. */
  lemma GameDataIsExactlyTeleop(cfg: Config, s: State, run: Run)
    requires Controlled(s)
    ensures var t := Ran(cfg, s, run);
            && (t.gameData == "R" <==> t.phase == TeleopPeriod && t.autoWinner == Red)
            && (t.gameData == "B" <==> t.phase == TeleopPeriod && t.autoWinner == Blue)
            && (t.gameData == "" <==> t.phase != TeleopPeriod)
  {
    AlwaysControlled(cfg, s, run);
    LettersDiffer(Ran(cfg, s, run));
  }

  lemma LettersDiffer(t: State)
    requires Controlled(t)
    ensures t.gameData == "R" <==> t.phase == TeleopPeriod && t.autoWinner == Red
    ensures t.gameData == "B" <==> t.phase == TeleopPeriod && t.autoWinner == Blue
    ensures t.gameData == "" <==> t.phase != TeleopPeriod
  {
    assert "R"[0] == 'R' && "B"[0] == 'B';
  }

  // ------------------------------------------------------------------------- control packets

  /** Where a tick has taken the match by the time its packets go out. */
  function PhaseSent(cfg: Config, s: State, now: int, coin: bool): Phase { Sent(cfg, s, now, coin).phase }

  /** The control packet a tick sends to a station, if it sends one. */
  function Packet(cfg: Config, s: State, now: int, coin: bool, i: StationId): Option<Connection> {
    var a := Advanced(cfg, HubsCounted(cfg, s, now), now, coin);
    if PacketDue(a.s, now, a.send) then Sent(cfg, s, now, coin).stations[i].conn else None
  }

  lemma ClearedIsPreMatch(cfg: Config, s: State)
    requires s.phase == PostMatch
    ensures MatchCleared(cfg, s).phase == PreMatch
  {
  }

  /** What the state machine asks of the robots depends only on where it has arrived. */
  lemma AdvanceEnables(cfg: Config, s: State, now: int, coin: bool)
    ensures var a := Advanced(cfg, s, now, coin);
            && (a.enabled <==> a.s.phase in {AutoPeriod, TeleopPeriod})
            && (a.auto <==> a.s.phase in {WarmupPeriod, AutoPeriod} || (a.s.phase == s.phase == PreMatch))
            && (!InProgress(s.phase) ==> !InProgress(a.s.phase))
  {
    if s.phase == PostMatch { ClearedIsPreMatch(cfg, s); }
  }

  /** A robot is enabled exactly in AUTO and teleop, with no e-stop and no bypass, and in AUTO no
      a-stop. The packet reports an e-stop always. It is an AUTO packet exactly before a match, in the warmup
      and in AUTO, except at the tick that clears the match before; and it reports an a-stop exactly then. */
  lemma PacketsEnableExactly(cfg: Config, s: State, now: int, coin: bool, i: StationId)
    requires Packet(cfg, s, now, coin, i).Some?
    ensures var packet := Packet(cfg, s, now, coin, i).value;
            var st := Sent(cfg, s, now, coin).stations[i];
            var phase := PhaseSent(cfg, s, now, coin);
            && (packet.enabled <==>
                  && phase in {AutoPeriod, TeleopPeriod}
                  && !st.eStop && !st.bypass
                  && !(phase == AutoPeriod && st.aStop))
            && packet.eStop == st.eStop
            && (packet.auto <==> phase in {WarmupPeriod, AutoPeriod} || (phase == PreMatch && s.phase == PreMatch))
            && (packet.aStop <==> packet.auto && st.aStop)
  {
    AdvanceEnables(cfg, HubsCounted(cfg, s, now), now, coin);
    SentKeeps(cfg, s, now, coin);
  }

  /** No packet of a run that starts in state s enables a robot. */
  ghost predicate NothingEnabled(cfg: Config, s: State, run: Run) {
    match run
    case Begin => true
    case Then(before, now, e) =>
      && NothingEnabled(cfg, s, before)
      && (e.Tick? ==> forall i: StationId ::
            var packet := Packet(cfg, Ran(cfg, s, before), now, e.tick.coin, i);
            packet.Some? ==> !packet.value.enabled)
  }

  /** No operator clears the field e-stop while it reads healthy and released. */
  predicate NeverCleared(run: Run) {
    match run
    case Begin => true
    case Then(before, _, e) => NeverCleared(before) && (e.ClearFieldEStop? ==> e.reading.state != StopOK)
  }

  lemma SentKeepsLatch(cfg: Config, s: State, now: int, coin: bool)
    ensures Sent(cfg, s, now, coin).fieldEStopActive == s.fieldEStopActive
  {
    SentKeeps(cfg, s, now, coin);
    AdvanceKeepsLatch(cfg, HubsCounted(cfg, s, now), now, coin);
  }

  lemma AdvanceKeepsLatch(cfg: Config, s: State, now: int, coin: bool)
    ensures Advanced(cfg, s, now, coin).s.fieldEStopActive == s.fieldEStopActive
  {
  }

  lemma FieldEStopStep(cfg: Config, s: State, now: int, e: Event)
    requires s.fieldEStopActive
    requires e.ClearFieldEStop? ==> e.reading.state != StopOK
    ensures Step(cfg, s, now, e).fieldEStopActive
  {
    if e.Tick? {
      SentKeepsLatch(cfg, s, now, e.tick.coin);
      TickAfterSent(cfg, Sent(cfg, s, now, e.tick.coin), now, e.tick);
    }
  }

  lemma {:induction false} LatchedRunEnablesNothing(cfg: Config, s: State, run: Run)
    requires Controlled(s) && s.fieldEStopActive && NeverCleared(run)
    ensures Ran(cfg, s, run).fieldEStopActive && NothingEnabled(cfg, s, run)
  {
    match run
    case Begin =>
    case Then(before, now, e) =>
      LatchedRunEnablesNothing(cfg, s, before);
      AlwaysControlled(cfg, s, before);
      FieldEStopStep(cfg, Ran(cfg, s, before), now, e);
      if e.Tick? {
        forall i: StationId
          ensures var packet := Packet(cfg, Ran(cfg, s, before), now, e.tick.coin, i);
                  packet.Some? ==> !packet.value.enabled
        {
          DisabledOutsideMatch(cfg, Ran(cfg, s, before), now, e.tick.coin, i);
        }
      }
  }

  /** The field e-stop. A tick that reads it stopped latches it; and from then, until an operator
      clears it while it reads healthy and released, no packet enables any robot, whatever ticks and
      commands come. */
  lemma FieldEStopHolds(cfg: Config, s: State, now: int, tick: TickInput, run: Run)
    requires Controlled(s)
    requires s.fieldEStopActive || tick.fieldStop.state != StopOK
    requires NeverCleared(run)
    ensures var latched := Ticked(cfg, s, now, tick);
            && latched.fieldEStopActive && !InProgress(latched.phase)
            && NothingEnabled(cfg, latched, run)
  {
    SentKeepsLatch(cfg, s, now, tick.coin);
    TickAfterSent(cfg, Sent(cfg, s, now, tick.coin), now, tick);
    ControlledTick(cfg, s, now, tick);
    LatchedRunEnablesNothing(cfg, Ticked(cfg, s, now, tick), run);
  }

  lemma DisabledOutsideMatch(cfg: Config, s: State, now: int, coin: bool, i: StationId)
    requires !InProgress(s.phase)
    ensures var packet := Packet(cfg, s, now, coin, i);
            packet.Some? ==> !packet.value.enabled
  {
    AdvanceEnables(cfg, HubsCounted(cfg, s, now), now, coin);
  }

  // ------------------------------------------------------------------------- how fast a stop is

  const PACKET_PERIOD: int := DS_PACKET_PERIOD_MS * MILLISECOND

  /** This robot must not move: it is e-stopped or bypassed, or there is no match. */
  predicate Blocked(s: State, i: StationId) {
    s.stations[i].eStop || s.stations[i].bypass || !InProgress(s.phase)
  }

  /** The last packet this robot was sent, if it has been sent one, disabled it. */
  predicate Disabled(s: State, i: StationId) {
    s.stations[i].conn.Some? ==> !s.stations[i].conn.value.enabled
  }

  /** What clearing a match does to one station. */
  lemma ClearedStation(cfg: Config, s: State, i: StationId)
    requires s.phase == PostMatch
    ensures MatchCleared(cfg, s).stations[i] ==
            Assigned(cfg, s.stations[i].(bypass := false), s.lineup[i]).(bypass := s.stations[i].bypass)
  {
    var r := MatchReset(s);
    assert r.stations[i] == s.stations[i].(bypass := false);
  }

  /** Clearing a match clears no stop and no bypass, and enables no one. */
  lemma ClearedKeepsBlocks(cfg: Config, s: State, i: StationId)
    ensures var a := MatchCleared(cfg, s);
            && a.stations[i].eStop == s.stations[i].eStop
            && a.stations[i].aStop == s.stations[i].aStop
            && a.stations[i].bypass == s.stations[i].bypass
            && (Disabled(s, i) ==> Disabled(a, i))
  {
    if s.phase == PostMatch { ClearedStation(cfg, s, i); }
  }

  /** Nor does the tick that carries the match forward, before its packets go out. */
  lemma AdvanceKeepsBlocks(cfg: Config, s: State, now: int, coin: bool, i: StationId)
    ensures var a := Advanced(cfg, s, now, coin).s;
            && a.stations[i].eStop == s.stations[i].eStop
            && a.stations[i].aStop == s.stations[i].aStop
            && a.stations[i].bypass == s.stations[i].bypass
            && (Disabled(s, i) ==> Disabled(a, i))
  {
    if s.phase == PostMatch { ClearedKeepsBlocks(cfg, s, i); }
  }

  /** A packet that goes out to a blocked robot disables it. */
  lemma BlockedIsDisabled(cfg: Config, s: State, now: int, coin: bool, i: StationId)
    requires Blocked(s, i)
    ensures var a := Sent(cfg, s, now, coin);
            && (Disabled(s, i) || now - s.lastDsPacketTime >= PACKET_PERIOD ==> Disabled(a, i))
            && (a.lastDsPacketTime == now || a.lastDsPacketTime == s.lastDsPacketTime)
            && (a.lastDsPacketTime != s.lastDsPacketTime ==> Disabled(a, i))
  {
    var c := HubsCounted(cfg, s, now);
    AdvanceKeepsBlocks(cfg, c, now, coin, i);
    AdvanceEnables(cfg, c, now, coin);
    AdvanceKeepsPacketTime(cfg, c, now, coin);
  }

  lemma AdvanceKeepsPacketTime(cfg: Config, s: State, now: int, coin: bool)
    ensures Advanced(cfg, s, now, coin).s.lastDsPacketTime == s.lastDsPacketTime
  {
  }

  /** What comes after the packets in a tick says nothing to the robots. */
  lemma InputSaysNothing(s: State, input: Input, now: int, i: StationId)
    ensures InputHandled(s, input, now).stations[i].conn == s.stations[i].conn
  {
    InputReachesStation(s, input, now, i);
  }

  lemma {:induction false} PanelsSayNothing(s: State, inputs: seq<Input>, now: int, i: StationId)
    ensures PanelsPolled(s, inputs, now).stations[i].conn == s.stations[i].conn
    decreases |inputs|
  {
    if inputs != [] {
      var earlier := inputs[..|inputs| - 1];
      PanelsSayNothing(s, earlier, now, i);
      InputSaysNothing(PanelsPolled(s, earlier, now), inputs[|inputs| - 1], now, i);
    }
  }

  lemma PlcSaysNothing(cfg: Config, a: State, plc: PlcReading, now: int, i: StationId)
    ensures PlcHandled(cfg, a, plc, now).stations[i].conn == a.stations[i].conn
  {
  }

  lemma OutputsSayNothing(cfg: Config, a: State, now: int, tick: TickInput, i: StationId)
    ensures OutputsSet(cfg, a, now, tick).stations[i].conn == a.stations[i].conn
  {
    DisplayContinues(cfg, a, now);
    PlcSaysNothing(cfg, Displayed(cfg, a, now), tick.plc, now + tick.lag, i);
  }

  lemma StopsSayNothing(cfg: Config, a: State, now: int, tick: TickInput, i: StationId)
    ensures OutputsSet(cfg, StopsPolled(a, now, tick), now, tick).stations[i].conn == a.stations[i].conn
  {
    PanelsSayNothing(FieldStopPolled(a, tick.fieldStop, now), tick.inputs, now + tick.lag, i);
    OutputsSayNothing(cfg, StopsPolled(a, now, tick), now, tick, i);
  }

  lemma BlockedTick(cfg: Config, s: State, now: int, tick: TickInput, i: StationId, since: int)
    requires Blocked(s, i)
    requires s.lastDsPacketTime <= since || Disabled(s, i)
    ensures var t := Ticked(cfg, s, now, tick);
            && (t.lastDsPacketTime <= since || Disabled(t, i))
            && (Disabled(s, i) || since + PACKET_PERIOD <= now ==> Disabled(t, i))
  {
    var a := Sent(cfg, s, now, tick.coin);
    BlockedIsDisabled(cfg, s, now, tick.coin, i);
    StopsSayNothing(cfg, a, now, tick, i);
    TickAfterSent(cfg, a, now, tick);
  }

  lemma LineupsEnableNothing(cfg: Config, s: State, now: int, e: Event, i: StationId)
    requires e.Clear? || e.ResetField? || e.Load? || e.Substitute?
    ensures Disabled(s, i) ==> Disabled(Step(cfg, s, now, e), i)
    ensures Step(cfg, s, now, e).lastDsPacketTime == s.lastDsPacketTime
  {
    match e
    case Clear => ClearedKeepsBlocks(cfg, s, i);
    case ResetField =>
    case Load(_) =>
    case Substitute(_, _, _) =>
  }

  lemma CommandsEnableNothing(cfg: Config, s: State, now: int, e: Event, i: StationId)
    requires !e.Tick?
    ensures Disabled(s, i) ==> Disabled(Step(cfg, s, now, e), i)
    ensures Step(cfg, s, now, e).lastDsPacketTime == s.lastDsPacketTime
  {
    if e.Clear? || e.ResetField? || e.Load? || e.Substitute? { LineupsEnableNothing(cfg, s, now, e, i); }
  }

  /** The robot is blocked before every event of the run. */
  predicate StaysBlocked(cfg: Config, s: State, run: Run, i: StationId) {
    match run
    case Begin => true
    case Then(before, _, _) => StaysBlocked(cfg, s, before, i) && Blocked(Ran(cfg, s, before), i)
  }

  predicate TickSince(run: Run, from: int) {
    match run
    case Begin => false
    case Then(before, now, e) => (e.Tick? && from <= now) || TickSince(before, from)
  }

  lemma {:induction false} DisabledByTick(cfg: Config, s: State, run: Run, i: StationId, since: int)
    requires StaysBlocked(cfg, s, run, i)
    requires s.lastDsPacketTime <= since || Disabled(s, i)
    ensures var t := Ran(cfg, s, run);
            && (t.lastDsPacketTime <= since || Disabled(t, i))
            && (TickSince(run, since + PACKET_PERIOD) ==> Disabled(t, i))
  {
    match run
    case Begin =>
    case Then(before, now, e) =>
      DisabledByTick(cfg, s, before, i, since);
      if e.Tick? {
        BlockedTick(cfg, Ran(cfg, s, before), now, e.tick, i, since);
      } else {
        CommandsEnableNothing(cfg, Ran(cfg, s, before), now, e, i);
      }
  }

  /** From t on there is never a stretch of length d without a tick. */
  ghost predicate TicksWithin(run: Run, t: int, d: int) {
    match run
    case Begin => true
    case Then(before, now, _) =>
      TicksWithin(before, t, d) && forall from :: t <= from <= now - d ==> TickSince(run, from)
  }

  /** The stop latency bound. Take any moment t at which a robot must not move, whether for an e-stop,
      a bypass or an abort, and any run in which that stays so. If ticks are at most d apart, then
      from 500 ms + d on every connection of that station has been told so, and stays told, whatever
      transitions, reconnections and commands happen in between. */
  lemma StopLatency(cfg: Config, s: State, run: Run, i: StationId, t: int, d: int)
    requires s.lastDsPacketTime <= t && StaysBlocked(cfg, s, run, i) && TicksWithin(run, t, d)
    requires run.Then? && t + PACKET_PERIOD + d <= run.now
    ensures Disabled(Ran(cfg, s, run), i)
  {
    DisabledByTick(cfg, s, run, i, t);
  }

  // ---------------------------------------------------------------------------- stop latches

  lemma {:induction false} PanelsHoldEStop(s: State, inputs: seq<Input>, now: int, i: StationId)
    requires s.stations[i].eStop
    requires InProgress(PanelsPolled(s, inputs, now).phase) && MatchTime(s, now) != 0
    ensures PanelsPolled(s, inputs, now).stations[i].eStop
    decreases |inputs|
  {
    PanelsOnlyStop(s, inputs, now);
    if inputs != [] {
      PanelsOnlyStop(s, inputs[..|inputs| - 1], now);
      PanelsHoldEStop(s, inputs[..|inputs| - 1], now, i);
    }
  }

  lemma {:induction false} PanelsHoldAStop(s: State, inputs: seq<Input>, now: int, i: StationId)
    requires s.stations[i].aStop && PanelsPolled(s, inputs, now).phase == AutoPeriod
    ensures PanelsPolled(s, inputs, now).stations[i].aStop
    decreases |inputs|
  {
    PanelsOnlyStop(s, inputs, now);
    if inputs != [] {
      PanelsOnlyStop(s, inputs[..|inputs| - 1], now);
      PanelsHoldAStop(s, inputs[..|inputs| - 1], now, i);
    }
  }

  lemma PlcHoldsStops(cfg: Config, s: State, plc: PlcReading, now: int, i: StationId)
    ensures var t := PlcHandled(cfg, s, plc, now);
            && (s.stations[i].eStop && InProgress(t.phase) && MatchTime(s, now) != 0 ==> t.stations[i].eStop)
            && (s.stations[i].aStop && t.phase == AutoPeriod ==> t.stations[i].aStop)
  {
  }

  lemma PolledHoldStops(a: State, now: int, tick: TickInput, i: StationId)
    ensures var p := StopsPolled(a, now, tick);
            && (a.stations[i].eStop && InProgress(p.phase) && MatchTime(a, now + tick.lag) != 0 ==> p.stations[i].eStop)
            && (a.stations[i].aStop && p.phase == AutoPeriod ==> p.stations[i].aStop)
  {
    var f := FieldStopPolled(a, tick.fieldStop, now);
    var p := StopsPolled(a, now, tick);
    FieldStopContinues(a, tick.fieldStop, now);
    PanelsContinue(f, tick.inputs, now + tick.lag);
    if a.stations[i].eStop && InProgress(p.phase) && MatchTime(a, now + tick.lag) != 0 {
      PanelsHoldEStop(f, tick.inputs, now + tick.lag, i);
    }
    if a.stations[i].aStop && p.phase == AutoPeriod {
      PanelsHoldAStop(f, tick.inputs, now + tick.lag, i);
    }
  }

  lemma OutputsHoldStops(cfg: Config, p: State, now: int, tick: TickInput, i: StationId)
    ensures var t := OutputsSet(cfg, p, now, tick);
            && Continues(p, t)
            && (p.stations[i].eStop && InProgress(t.phase) && MatchTime(p, now + tick.lag) != 0 ==> t.stations[i].eStop)
            && (p.stations[i].aStop && t.phase == AutoPeriod ==> t.stations[i].aStop)
  {
    OutputsContinue(cfg, p, now, tick);
    DisplayContinues(cfg, p, now);
    PlcHoldsStops(cfg, Displayed(cfg, p, now), tick.plc, now + tick.lag, i);
  }

  lemma StopInputsHold(cfg: Config, a: State, now: int, tick: TickInput, i: StationId)
    ensures var t := OutputsSet(cfg, StopsPolled(a, now, tick), now, tick);
            && (a.stations[i].eStop && InProgress(t.phase) && MatchTime(a, now + tick.lag) != 0 ==> t.stations[i].eStop)
            && (a.stations[i].aStop && t.phase == AutoPeriod ==> t.stations[i].aStop)
  {
    StopsContinue(a, now, tick);
    PolledHoldStops(a, now, tick, i);
    OutputsHoldStops(cfg, StopsPolled(a, now, tick), now, tick, i);
  }

  /** Sending packets leaves the stops as they are. */
  lemma SentHoldsStops(cfg: Config, s: State, now: int, coin: bool, i: StationId)
    ensures var a := Sent(cfg, s, now, coin);
            && a.stations[i].eStop == s.stations[i].eStop && a.stations[i].aStop == s.stations[i].aStop
            && a.phase != StartMatch
  {
    var c := HubsCounted(cfg, s, now);
    AdvanceKeepsBlocks(cfg, c, now, coin, i);
    AdvanceLeavesStart(cfg, c, now, coin);
    PacketsKeepStops(Advanced(cfg, c, now, coin), now, i);
  }

  lemma AdvanceLeavesStart(cfg: Config, s: State, now: int, coin: bool)
    ensures Advanced(cfg, s, now, coin).s.phase != StartMatch
  {
    if s.phase == PostMatch { ClearedIsPreMatch(cfg, s); }
  }

  lemma PacketsKeepStops(a: Advance, now: int, i: StationId)
    ensures var t := PacketsSent(a.s, a.auto, a.enabled, now);
            && t.stations[i].eStop == a.s.stations[i].eStop && t.stations[i].aStop == a.s.stations[i].aStop
            && t.phase == a.s.phase
  {
  }

  /** A station's e-stop survives any readings a tick brings, from panels or PLC, while the match
      goes on and its clock has moved; and an a-stop survives them throughout AUTO. */
  lemma TickHoldsStops(cfg: Config, s: State, now: int, tick: TickInput, i: StationId)
    ensures var t := Ticked(cfg, s, now, tick);
            && (s.stations[i].eStop && InProgress(t.phase) && t.matchStartTime != now + tick.lag ==>
                  t.stations[i].eStop)
            && (s.stations[i].aStop && t.phase == AutoPeriod ==> t.stations[i].aStop)
  {
    var a := Sent(cfg, s, now, tick.coin);
    SentHoldsStops(cfg, s, now, tick.coin, i);
    StopInputsHold(cfg, a, now, tick, i);
    TickAfterSent(cfg, a, now, tick);
  }

  /** No operator releases this station's e-stop. */
  predicate NotReleased(run: Run, i: StationId) {
    match run
    case Begin => true
    case Then(before, _, e) =>
      && NotReleased(before, i)
      && e != ToggleEStop(i)
      && !(e.ClearFieldEStop? && e.reading.state == StopOK)
  }

  /** The match is in progress throughout, and its clock has moved by the time stops are polled. */
  predicate Playing(cfg: Config, s: State, run: Run) {
    && InProgress(Ran(cfg, s, run).phase)
    && match run
       case Begin => true
       case Then(before, now, e) =>
         Playing(cfg, s, before) && (e.Tick? ==> Ran(cfg, s, run).matchStartTime != now + e.tick.lag)
  }

  lemma CommandsHoldEStop(cfg: Config, s: State, now: int, e: Event, i: StationId)
    requires s.stations[i].eStop && InProgress(s.phase) && !e.Tick?
    requires e != ToggleEStop(i) && !(e.ClearFieldEStop? && e.reading.state == StopOK)
    ensures Step(cfg, s, now, e).stations[i].eStop
  {
    match e
    case Load(_) =>
    case Substitute(_, _, _) =>
    case _ =>
  }

  /** Over a whole match no sequence of panel or PLC readings releases a station's e-stop. */
  lemma {:induction false} EStopOutlastsReadings(cfg: Config, s: State, run: Run, i: StationId)
    requires s.stations[i].eStop && Playing(cfg, s, run) && NotReleased(run, i)
    ensures Ran(cfg, s, run).stations[i].eStop
  {
    match run
    case Begin =>
    case Then(before, now, e) =>
      EStopOutlastsReadings(cfg, s, before, i);
      if e.Tick? {
        TickHoldsStops(cfg, Ran(cfg, s, before), now, e.tick, i);
      } else {
        CommandsHoldEStop(cfg, Ran(cfg, s, before), now, e, i);
      }
  }

  /** AUTO is on throughout. */
  predicate InAuto(cfg: Config, s: State, run: Run) {
    && Ran(cfg, s, run).phase == AutoPeriod
    && match run
       case Begin => true
       case Then(before, _, _) => InAuto(cfg, s, before)
  }

  lemma CommandsHoldAStop(cfg: Config, s: State, now: int, e: Event, i: StationId)
    requires s.stations[i].aStop && s.phase == AutoPeriod && !e.Tick?
    ensures Step(cfg, s, now, e).stations[i].aStop
  {
    match e
    case Load(_) =>
    case Substitute(_, _, _) =>
    case _ =>
  }

  /** Over the whole of AUTO nothing releases a station's a-stop: no reading, and no command. */
  lemma {:induction false} AStopOutlastsAuto(cfg: Config, s: State, run: Run, i: StationId)
    requires s.stations[i].aStop && InAuto(cfg, s, run)
    ensures Ran(cfg, s, run).stations[i].aStop
  {
    match run
    case Begin =>
    case Then(before, now, e) =>
      AStopOutlastsAuto(cfg, s, before, i);
      if e.Tick? {
        TickHoldsStops(cfg, Ran(cfg, s, before), now, e.tick, i);
      } else {
        CommandsHoldAStop(cfg, Ran(cfg, s, before), now, e, i);
      }
  }
}
