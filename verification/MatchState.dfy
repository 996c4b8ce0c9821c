/** field/arena.go as a value: the arena's state, one function per phase of Update, and one per
    operator command. The Arena class performs these steps in place. */
module MatchState {
  import opened Common
  import opened Timing
  import opened Hub
  import opened HubCounter
  import opened HubLights
  import opened FieldEStop
  import opened ShiftCue

  datatype Phase = PreMatch | StartMatch | WarmupPeriod | AutoPeriod | PausePeriod | TeleopPeriod | PostMatch

  datatype AutoWinnerMode = Random | ForceRed | ForceBlue | FromCounts

  const STATIONS: nat := 6

  type StationId = i: nat | i < STATIONS

  /** A driver station's connection, with what the last control packet told it. `id` tells it from any
      other connection of its team. */
  datatype Connection = Connection(
    id: nat,
    teamId: int,
    auto: bool,
    enabled: bool,
    eStop: bool,
    aStop: bool,
    robotLinked: bool)

  /** An alliance station. Team 0 is an empty station. */
  datatype Station = Station(
    team: int,
    conn: Option<Connection>,
    eStop: bool,
    aStop: bool,
    bypass: bool,
    aStopReset: bool,
    eStopFault: FaultKind)

  const EMPTY_STATION := Station(0, None, false, false, false, false, FaultNone)

  type Stations = s: seq<Station> | |s| == STATIONS
    witness [EMPTY_STATION, EMPTY_STATION, EMPTY_STATION, EMPTY_STATION, EMPTY_STATION, EMPTY_STATION]

  type Lineup = s: seq<int> | |s| == STATIONS witness [0, 0, 0, 0, 0, 0]

  const NO_TEAMS: Lineup := [0, 0, 0, 0, 0, 0]

  function Each(stations: Stations, f: Station -> Station): (r: Stations)
    ensures forall i :: 0 <= i < STATIONS ==> r[i] == f(stations[i])
  {
    seq(STATIONS, i requires 0 <= i < STATIONS => f(stations[i]))
  }

  /** What is fixed for a run: the match timing, and whether a PLC is in use. */
  datatype Config = Config(tm: MatchTiming, plcEnabled: bool)

  /** `lastMatchTime` is the match time of the latest tick, and `cues` the shift last seen and the changes
      sounded since the match began. */
  datatype State = State(
    phase: Phase,
    lastPhase: Option<Phase>,
    matchStartTime: int,
    postMatchStartTime: int,
    lastDsPacketTime: int,
    autoWinner: Alliance,
    mode: AutoWinnerMode,
    gameData: string,
    stations: Stations,
    lineup: Lineup,
    redHub: Tally,
    blueHub: Tally,
    feed: Feed,
    fieldEStopActive: bool,
    fieldEStopFault: FaultKind,
    matchAborted: bool,
    lamps: Modes,
    lastMatchTime: int,
    cues: Cues)

  const DS_PACKET_PERIOD_MS: int := 500
  const POST_MATCH_DWELL: int := 5 * SECOND

  /** The zero value of a Go time, year 1, in nanoseconds from the start of 1970, where clocks start. */
  const ZERO_TIME: int := -62_135_596_800_000_000_000

  predicate InProgress(phase: Phase) { phase != PreMatch && phase != PostMatch }

  /** Time since the start of the match, or zero outside one. */
  function MatchTime(s: State, now: int): int {
    if s.phase in {PreMatch, StartMatch, PostMatch} then 0 else now - s.matchStartTime
  }

  // ---------------------------------------------------------------------- scoring and AUTO

  function WithResult(hub: Tally, won: bool): Tally { hub.(wonAuto := won) }

  function HubsSynced(s: State): State {
    s.(redHub := WithResult(s.redHub, s.autoWinner == Red), blueHub := WithResult(s.blueHub, s.autoWinner == Blue))
  }

  /** Folds the counter's totals into the HUBs. */
  function HubsCounted(cfg: Config, s: State, now: int): State {
    var t := HubsSynced(s);
    var total := s.feed.Total();
    t.(redHub := Counted(cfg.tm, t.redHub, total.red, now - s.matchStartTime),
       blueHub := Counted(cfg.tm, t.blueHub, total.blue, now - s.matchStartTime))
  }

  function HubsReset(s: State): State {
    s.(feed := s.feed.Rebased(), redHub := EMPTY_TALLY, blueHub := EMPTY_TALLY)
  }

  /** The AUTO result; `coin` is the coin flip that settles a random result or a tie. */
  function Winner(s: State, coin: bool): Alliance {
    var flipped := if coin then Red else Blue;
    match s.mode
    case ForceRed => Red
    case ForceBlue => Blue
    case Random => flipped
    case FromCounts =>
      var red, blue := s.redHub.counts[Index(ShiftAuto)], s.blueHub.counts[Index(ShiftAuto)];
      if red == blue then flipped else if red > blue then Red else Blue
  }

  function GameDataFor(winner: Alliance): string {
    match winner
    case Red => "R"
    case Blue => "B"
    case NoAlliance => ""
  }

  function AutoDecided(s: State, coin: bool): State {
    var t := HubsSynced(s.(autoWinner := Winner(s, coin)));
    t.(gameData := GameDataFor(t.autoWinner))
  }

  // -------------------------------------------------------- loading, clearing and aborting

  function Assigned(cfg: Config, st: Station, team: int): Station {
    var ready := st.(aStopReset := !cfg.plcEnabled);
    if st.conn.Some? && st.conn.value.teamId == team then ready else ready.(team := team, conn := None)
  }

  function AllAssigned(cfg: Config, stations: Stations, lineup: Lineup): (r: Stations)
    ensures forall i :: 0 <= i < STATIONS ==> r[i] == Assigned(cfg, stations[i], lineup[i])
  {
    seq(STATIONS, i requires 0 <= i < STATIONS => Assigned(cfg, stations[i], lineup[i]))
  }

  function Loaded(cfg: Config, s: State, lineup: Lineup): State {
    if s.phase != PreMatch then s
    else HubsReset(s.(lineup := lineup, stations := AllAssigned(cfg, s.stations, lineup))).(autoWinner := NoAlliance)
  }

  function Unbypassed(st: Station): Station { st.(bypass := false) }

  function MatchReset(s: State): State {
    if InProgress(s.phase) then s
    else s.(phase := PreMatch, matchAborted := false, gameData := "", stations := Each(s.stations, Unbypassed))
  }

  function BypassRestored(stations: Stations, saved: Stations): (r: Stations)
    ensures forall i :: 0 <= i < STATIONS ==> r[i] == stations[i].(bypass := saved[i].bypass)
  {
    seq(STATIONS, i requires 0 <= i < STATIONS => stations[i].(bypass := saved[i].bypass))
  }

  /** Returns to PreMatch with the same lineup, carrying the bypasses over. */
  function MatchCleared(cfg: Config, s: State): State {
    if s.phase != PostMatch then s
    else
      var t := Loaded(cfg, MatchReset(s), s.lineup);
      t.(stations := BypassRestored(t.stations, s.stations))
  }

  function StationEmptied(st: Station): Station {
    st.(conn := None, team := 0, bypass := false, eStop := false, aStop := false, eStopFault := FaultNone)
  }

  function FieldReset(cfg: Config, s: State): State {
    if InProgress(s.phase) then s
    else Loaded(cfg, MatchReset(s.(stations := Each(s.stations, StationEmptied))), NO_TEAMS)
  }

  function Aborted(s: State, now: int): State {
    if !InProgress(s.phase) then s
    else s.(phase := PostMatch, postMatchStartTime := now, gameData := "", matchAborted := true)
  }

  // ------------------------------------------------------------- the match state machine

  /** Where the match goes at a tick, and what the robots are to be told. */
  datatype Advance = Advance(s: State, auto: bool, enabled: bool, send: bool)

  /** The first tick of a match: into the warmup, or into AUTO with the robots enabled. */
  function MatchBegun(cfg: Config, s: State, now: int): Advance {
    var t := HubsReset(s.(matchStartTime := now, autoWinner := NoAlliance, gameData := "",
                          cues := s.cues.(heard := [])));
    if cfg.tm.warmupSec > 0 then Advance(t.(phase := WarmupPeriod), true, false, false)
    else Advance(t.(phase := AutoPeriod), true, true, true)
  }

  function Advanced(cfg: Config, s: State, now: int, coin: bool): Advance {
    var elapsed := MatchTime(s, now);
    match s.phase
    case PreMatch => Advance(s, true, false, false)
    case StartMatch => MatchBegun(cfg, s, now)
    case WarmupPeriod =>
      if elapsed >= Seconds(cfg.tm.warmupSec) then Advance(s.(phase := AutoPeriod), true, true, true)
      else Advance(s, true, false, false)
    case AutoPeriod =>
      if elapsed < cfg.tm.AutoEnd() then Advance(s, true, true, false)
      else if cfg.tm.pauseSec > 0 then Advance(s.(phase := PausePeriod), false, false, true)
      else Advance(AutoDecided(s, coin).(phase := TeleopPeriod), false, true, true)
    case PausePeriod =>
      if elapsed < cfg.tm.TeleopStart() then Advance(s, false, false, false)
      else Advance(AutoDecided(s, coin).(phase := TeleopPeriod), false, true, true)
    case TeleopPeriod =>
      if elapsed < cfg.tm.TeleopEnd() then Advance(s, false, true, false)
      else Advance(s.(phase := PostMatch, postMatchStartTime := now, gameData := ""), false, false, true)
    case PostMatch =>
      if now - s.postMatchStartTime >= POST_MATCH_DWELL then Advance(MatchCleared(cfg, s), false, false, false)
      else Advance(s, false, false, false)
  }

  // ----------------------------------------------------------------------- control packets

  /** What the next control packet tells a station's robot. */
  function Told(st: Station, auto: bool, enabled: bool): Station {
    if st.conn.None? then st
    else
      st.(conn := Some(st.conn.value.(
        auto := auto,
        enabled := enabled && !st.eStop && !(auto && st.aStop) && !st.bypass,
        eStop := st.eStop,
        aStop := auto && st.aStop)))
  }

  function PacketsSent(s: State, auto: bool, enabled: bool, now: int): State {
    s.(stations := Each(s.stations, (st: Station) => Told(st, auto, enabled)), lastDsPacketTime := now)
  }

  predicate PacketDue(s: State, now: int, send: bool) {
    send || (now - s.lastDsPacketTime) / MILLISECOND >= DS_PACKET_PERIOD_MS
  }

  // ---------------------------------------------------------------------------------- stops

  function EStopped(st: Station): Station { st.(eStop := true) }

  function EStopReleased(st: Station): Station { st.(eStop := false) }

  /** The controller's own field e-stop. */
  function FieldStopPolled(s: State, reading: Reading, now: int): State {
    var t := s.(fieldEStopFault := reading.fault);
    if reading.state != StopOK && !s.fieldEStopActive
    then Aborted(t.(fieldEStopActive := true, stations := Each(s.stations, EStopped)), now)
    else t
  }

  /** One input of a panel; a station of None is every station. */
  datatype Input = Input(station: Option<StationId>, isAStop: bool, reading: Reading)

  function TeamEStop(s: State, st: Station, active: bool, now: int): Station {
    if active then st.(eStop := true)
    else if MatchTime(s, now) == 0 then st.(eStop := false)
    else st
  }

  function TeamAStop(s: State, st: Station, active: bool): Station {
    if active then st.(aStop := true)
    else if s.phase != AutoPeriod then st.(aStop := false, aStopReset := true)
    else st
  }

  function StationInput(s: State, st: Station, input: Input, now: int): Station {
    if input.isAStop then TeamAStop(s, st, input.reading.state == StopActive)
    else TeamEStop(s, st.(eStopFault := input.reading.fault), input.reading.state != StopOK, now)
  }

  function Concerns(input: Input, i: StationId): bool { input.station.None? || input.station.value == i }

  function InputHandled(s: State, input: Input, now: int): State {
    var stations := seq(STATIONS, i requires 0 <= i < STATIONS =>
      if Concerns(input, i) then StationInput(s, s.stations[i], input, now) else s.stations[i]);
    var t := s.(stations := stations);
    if input.station.None? && !input.isAStop && input.reading.state != StopOK then Aborted(t, now) else t
  }

  function PanelsPolled(s: State, inputs: seq<Input>, now: int): State
    decreases |inputs|
  {
    if inputs == [] then s
    else InputHandled(PanelsPolled(s, inputs[..|inputs| - 1], now), inputs[|inputs| - 1], now)
  }

  datatype PlcInputs = PlcInputs(fieldEStop: bool, eStops: seq<bool>, aStops: seq<bool>) {
    predicate Valid() { |eStops| == STATIONS && |aStops| == STATIONS }
  }

  type PlcReading = p: PlcInputs | p.Valid()
    witness PlcInputs(false, [false, false, false, false, false, false], [false, false, false, false, false, false])

  function PlcHandled(cfg: Config, s: State, plc: PlcReading, now: int): State {
    if !cfg.plcEnabled then s
    else
      var t := if plc.fieldEStop && !s.matchAborted then Aborted(s, now) else s;
      t.(stations := seq(STATIONS, i requires 0 <= i < STATIONS =>
           TeamAStop(t, TeamEStop(t, t.stations[i], plc.eStops[i], now), plc.aStops[i])))
  }

  // ------------------------------------------------------------------------------- lighting

  function LampsUpdated(cfg: Config, s: State, now: int): State {
    match s.phase
    case AutoPeriod => s.(lamps := Modes(RedStartupMode, BlueStartupMode))
    case PausePeriod => s.(lamps := Modes(RedMode, BlueMode))
    case TeleopPeriod => s.(lamps := LampsAt(cfg.tm, s.autoWinner, now - s.matchStartTime, s.lamps))
    case PostMatch => if s.lastPhase != Some(PostMatch) then s.(lamps := Modes(WhiteMode, WhiteMode)) else s
    case _ => s
  }

  // -------------------------------------------------------------------------------- one tick

  /** Everything a tick reads besides the clock. `lag` is how long after the top of the tick the
      stop panels are polled. */
  datatype TickInput = TickInput(coin: bool, fieldStop: Reading, inputs: seq<Input>, plc: PlcReading, lag: nat)

  function SentIfDue(a: Advance, now: int): State {
    if PacketDue(a.s, now, a.send) then PacketsSent(a.s, a.auto, a.enabled, now) else a.s
  }

  /** The arena after the tick's packets, if any, have gone out. */
  function Sent(cfg: Config, s: State, now: int, coin: bool): State {
    SentIfDue(Advanced(cfg, HubsCounted(cfg, s, now), now, coin), now).(lastMatchTime := MatchTime(s, now))
  }

  /** The stop inputs, polled after the packets have gone out. */
  function StopsPolled(a: State, now: int, tick: TickInput): State {
    PanelsPolled(FieldStopPolled(a, tick.fieldStop, now), tick.inputs, now + tick.lag)
  }

  /** The shift the arena says it is in; None outside any. */
  function CurrentShift(cfg: Config, phase: Phase, matchTime: int): Option<Shift> {
    match phase
    case AutoPeriod => Some(ShiftAuto)
    case TeleopPeriod => Some(CoarseShift(cfg.tm, matchTime))
    case PostMatch => Some(ShiftPostMatch)
    case _ => None
  }

  function CueSounded(cfg: Config, a: State): State {
    a.(cues := Sounded(a.cues, CurrentShift(cfg, a.phase, a.lastMatchTime)))
  }

  /** What the field shows: the cue and the lamps. */
  function Displayed(cfg: Config, a: State, now: int): State { LampsUpdated(cfg, CueSounded(cfg, a), now) }

  function PhaseNoted(s: State): State { s.(lastPhase := Some(s.phase)) }

  /** The display and the PLC, at the end of a tick. */
  function OutputsSet(cfg: Config, a: State, now: int, tick: TickInput): State {
    PhaseNoted(PlcHandled(cfg, Displayed(cfg, a, now), tick.plc, now + tick.lag))
  }

  function Ticked(cfg: Config, s: State, now: int, tick: TickInput): State {
    OutputsSet(cfg, StopsPolled(Sent(cfg, s, now, tick.coin), now, tick), now, tick)
  }

  // ---------------------------------------------------------------------- operator commands

  predicate StationReady(st: Station) {
    && st.eStopFault == FaultNone && !st.eStop && st.aStopReset
    && (st.bypass || (st.conn.Some? && st.conn.value.robotLinked))
  }

  datatype CounterStatus = NotConfigured | Offline | Online

  /** What a start additionally depends on: the counter's status and the PLC's. */
  datatype StartChecks = StartChecks(
    counter: CounterStatus,
    plcHealthy: bool,
    plcFieldEStop: bool,
    armorBlocks: seq<bool>)
  {
    predicate PlcReady() { plcHealthy && !plcFieldEStop && false !in armorBlocks }
  }

  predicate CanStart(cfg: Config, s: State, checks: StartChecks) {
    && s.phase == PreMatch
    && s.fieldEStopFault == FaultNone
    && !s.fieldEStopActive
    && (forall i :: 0 <= i < STATIONS ==> StationReady(s.stations[i]))
    && (s.mode == FromCounts ==> checks.counter == Online)
    && (cfg.plcEnabled ==> checks.PlcReady())
  }

  function EStopCleared(s: State, reading: Reading): State {
    var t := s.(fieldEStopFault := reading.fault);
    if reading.state == StopOK
    then t.(fieldEStopActive := false, stations := Each(s.stations, EStopReleased))
    else t
  }

  /** No team but 0 appears twice. */
  predicate NoDuplicates(lineup: Lineup) {
    forall i, j :: 0 <= i < j < STATIONS && lineup[i] != 0 ==> lineup[i] != lineup[j]
  }

  predicate AllKnown(lineup: Lineup, known: set<int>) {
    forall i :: 0 <= i < STATIONS ==> lineup[i] == 0 || lineup[i] in known
  }

  function Substituted(cfg: Config, s: State, lineup: Lineup, allowed: bool, known: set<int>): State {
    if !allowed || !NoDuplicates(lineup) || !AllKnown(lineup, known) then s
    else s.(lineup := lineup, stations := AllAssigned(cfg, s.stations, lineup))
  }

  function StationChanged(s: State, i: StationId, st: Station): State { s.(stations := s.stations[i := st]) }

  function NewConnection(id: nat, teamId: int): Connection {
    Connection(id, teamId, false, false, false, false, false)
  }

  /** A team registered in a station; an empty station has none. */
  predicate IsTeamOf(st: Station, teamId: int) { teamId != 0 && st.team == teamId }

  function Bypassed(st: Station): Station { st.(bypass := true) }

  function BypassedIfEmpty(st: Station): Station { if st.team == 0 then st.(bypass := true) else st }

  datatype Event =
    | Tick(tick: TickInput)
    | Start(checks: StartChecks)
    | Abort
    | Clear
    | ResetField
    | ClearFieldEStop(reading: Reading)
    | Load(teams: Lineup)
    | Substitute(teams: Lineup, allowed: bool, known: set<int>)
    | SetMode(mode: AutoWinnerMode)
    | ToggleBypass(i: StationId)
    | ToggleEStop(i: StationId)
    | BypassEmpty
    | DisableAll
    | Accept(id: nat, teamId: int, i: StationId)
    | Disconnect(id: nat, i: StationId)
    | Telemetry(teamId: int, i: StationId, robotLinked: bool)
    | Receive(message: Message)
    | LampsOut

  function Step(cfg: Config, s: State, now: int, e: Event): State {
    match e
    case Tick(tick) => Ticked(cfg, s, now, tick)
    case Start(checks) => if CanStart(cfg, s, checks) then s.(phase := StartMatch) else s
    case Abort => Aborted(s, now)
    case Clear => MatchCleared(cfg, s)
    case ResetField => FieldReset(cfg, s)
    case ClearFieldEStop(reading) => EStopCleared(s, reading)
    case Load(teams) => Loaded(cfg, s, teams)
    case Substitute(teams, allowed, known) => Substituted(cfg, s, teams, allowed, known)
    case SetMode(mode) => if InProgress(s.phase) then s else s.(mode := mode)
    case ToggleBypass(i) => StationChanged(s, i, s.stations[i].(bypass := !s.stations[i].bypass))
    case ToggleEStop(i) => StationChanged(s, i, s.stations[i].(eStop := !s.stations[i].eStop))
    case BypassEmpty => s.(stations := Each(s.stations, BypassedIfEmpty))
    case DisableAll => s.(stations := Each(s.stations, Bypassed))
    case Accept(id, teamId, i) =>
      if IsTeamOf(s.stations[i], teamId)
      then StationChanged(s, i, s.stations[i].(conn := Some(NewConnection(id, teamId))))
      else s
    case Disconnect(id, i) =>
      var st := s.stations[i];
      if st.conn.Some? && st.conn.value.id == id then StationChanged(s, i, st.(conn := None)) else s
    case Telemetry(teamId, i, linked) =>
      var st := s.stations[i];
      if IsTeamOf(st, teamId) && st.conn.Some?
      then StationChanged(s, i, st.(conn := Some(st.conn.value.(robotLinked := linked))))
      else s
    case Receive(message) =>
      var d := Admitted(message);
      if d.Some? then s.(feed := s.feed.Recorded(d.value)) else s
    case LampsOut => s.(lamps := Modes(OffMode, OffMode))
  }

  function Initial(mode: AutoWinnerMode): State {
    State(PreMatch, None, ZERO_TIME, ZERO_TIME, ZERO_TIME, NoAlliance, mode, "",
          [EMPTY_STATION, EMPTY_STATION, EMPTY_STATION, EMPTY_STATION, EMPTY_STATION, EMPTY_STATION],
          NO_TEAMS, EMPTY_TALLY, EMPTY_TALLY, SILENT, false, FaultNone, false, Modes(OffMode, OffMode), 0, Cues(None, []))
  }
}
