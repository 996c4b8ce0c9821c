/** The AUTO result on its way to a legacy driver station, over whole runs: from the arena's ticks to what the
    station reads off its socket. */
module MatchGameData {
  import opened Common
  import opened HubLights
  import opened MatchState
  import opened MatchSafety
  import opened MatchClock
  import opened MatchPace
  import opened MatchScoring
  import opened MatchScore
  import opened MatchCues
  import opened DriverStation

  /** A string of single-byte characters. */
  function Text(s: string): Bytes { seq(|s|, i requires 0 <= i < |s| => s[i] as int % 256) }

  /** One connection at the packet ticks of a run. `up` says, of the run so far, whether a message sent next
      would get through. */
  function PacketTicks(cfg: Config, s: State, run: Run, up: Run -> bool): Ticks {
    match run
    case Begin => NoTicks
    case Then(before, now, e) =>
      var ticks := PacketTicks(cfg, s, before, up);
      var b := Ran(cfg, s, before);
      if e.Tick? && SendsPacket(cfg, b, now, e.tick.coin)
      then At(ticks, Text(Sent(cfg, b, now, e.tick.coin).gameData), up(before))
      else ticks
  }

  function Letter(winner: Alliance): Bytes { Text(GameDataFor(winner)) }

  /** Some packet of teleop found the connection up. */
  predicate HeardResult(cfg: Config, s: State, run: Run, up: Run -> bool) {
    match run
    case Begin => false
    case Then(before, now, e) =>
      || HeardResult(cfg, s, before, up)
      || (&& e.Tick? && up(before)
          && SendsPacket(cfg, Ran(cfg, s, before), now, e.tick.coin)
          && PhaseSent(cfg, Ran(cfg, s, before), now, e.tick.coin) == TeleopPeriod)
  }

  /** And after that, one that came when teleop was over did too. */
  predicate HeardEnd(cfg: Config, s: State, run: Run, up: Run -> bool) {
    match run
    case Begin => false
    case Then(before, now, e) =>
      || HeardEnd(cfg, s, before, up)
      || (&& HeardResult(cfg, s, before, up)
          && e.Tick? && up(before)
          && SendsPacket(cfg, Ran(cfg, s, before), now, e.tick.coin)
          && PhaseSent(cfg, Ran(cfg, s, before), now, e.tick.coin) != TeleopPeriod)
  }

  // ------------------------------------------------------------------------------- the messages

  /** What a station has been told by the time it has heard this much. */
  function Messages(winner: Alliance, result: bool, end: bool): seq<Bytes> {
    if end then [Letter(winner), []] else if result then [Letter(winner)] else []
  }

  predicate HasBeenTold(channel: Channel, winner: Alliance, result: bool, end: bool) {
    && channel.messages == Messages(winner, result, end)
    && channel.sent == if result && !end then Letter(winner) else []
  }

  lemma LetterIsShort(winner: Alliance)
    ensures |Letter(winner)| <= 1
    ensures winner != NoAlliance ==> Letter(winner) != []
  {
  }

  /** A match before, in or after teleop, of whose result this much has been heard. */
  predicate Stage(t: State, result: bool, end: bool) {
    && Underway(t) && Controlled(t)
    && (result ==> !BeforeTeleop(t.phase) && t.autoWinner != NoAlliance)
    && (end ==> result && t.phase == PostMatch)
  }

  /** One packet. */
  lemma CheckedFollows(channel: Channel, winner: Alliance, result: bool, end: bool, teleop: bool, up: bool)
    requires HasBeenTold(channel, winner, result, end)
    requires (result || teleop ==> winner != NoAlliance) && (end ==> result && !teleop)
    ensures var data := if teleop then Letter(winner) else [];
            HasBeenTold(Checked(channel, data, up), winner, result || (up && teleop), end || (result && up && !teleop))
  {
    LetterIsShort(winner);
  }

  /** Before anything was heard it does not matter who was to be the winner. */
  lemma NothingHeard(channel: Channel, winner: Alliance, other: Alliance)
    requires HasBeenTold(channel, winner, false, false)
    ensures HasBeenTold(channel, other, false, false)
  {
  }

  lemma ControlledSent(cfg: Config, b: State, now: int, coin: bool)
    requires Controlled(b)
    ensures Controlled(Sent(cfg, b, now, coin))
  {
    ControlledAdvance(cfg, b, now, coin);
    SentKeeps(cfg, b, now, coin);
  }

  /** What the packets of a tick find. */
  lemma PacketFinds(cfg: Config, b: State, now: int, tick: TickInput)
    requires Underway(b) && Controlled(b) && !Resets(b, now, Tick(tick))
    ensures var a, t := Sent(cfg, b, now, tick.coin), Ticked(cfg, b, now, tick);
            && Text(a.gameData) == (if a.phase == TeleopPeriod then Letter(a.autoWinner) else [])
            && a.autoWinner == t.autoWinner
            && (a.phase == TeleopPeriod ==> a.autoWinner != NoAlliance && b.phase != PostMatch)
            && (a.phase != TeleopPeriod && !BeforeTeleop(b.phase) ==> t.phase == PostMatch)
            && (!BeforeTeleop(b.phase) ==> t.autoWinner == b.autoWinner)
            && (a.phase == TeleopPeriod ==> !BeforeTeleop(t.phase))
  {
    ControlledSent(cfg, b, now, tick.coin);
    StepUnderway(cfg, b, now, Tick(tick));
    TickAfterSent(cfg, Sent(cfg, b, now, tick.coin), now, tick);
    PhaseAfter(cfg, b, now, tick);
  }

  lemma PhaseAfter(cfg: Config, b: State, now: int, tick: TickInput)
    requires Underway(b) && !Resets(b, now, Tick(tick))
    ensures var a := Sent(cfg, b, now, tick.coin);
            && (b.phase == PostMatch ==> a.phase == PostMatch)
            && (b.phase == TeleopPeriod ==> a.phase in {TeleopPeriod, PostMatch})
  {
    var c := HubsCounted(cfg, b, now);
    CountingKeepsMatch(cfg, b, now);
    SentKeeps(cfg, b, now, tick.coin);
    AdvanceFollows(cfg, c, now, tick.coin);
    AdvanceUnderway(cfg, c, now, tick.coin, tick);
  }

  lemma StageStep(cfg: Config, b: State, now: int, e: Event, result: bool, end: bool, channel: Channel, up: bool)
    requires Stage(b, result, end) && !Resets(b, now, e) && HasBeenTold(channel, b.autoWinner, result, end)
    ensures var t := Step(cfg, b, now, e);
            var a := if e.Tick? then Sent(cfg, b, now, e.tick.coin) else b;
            var sends := e.Tick? && SendsPacket(cfg, b, now, e.tick.coin);
            var teleop := a.phase == TeleopPeriod;
            var result', end' := result || (sends && up && teleop), end || (result && sends && up && !teleop);
            && Stage(t, result', end')
            && HasBeenTold(if sends then Checked(channel, Text(a.gameData), up) else channel, t.autoWinner, result', end')
  {
    ControlledStep(cfg, b, now, e);
    StepUnderway(cfg, b, now, e);
    var t := Step(cfg, b, now, e);
    if e.Tick? {
      PacketFinds(cfg, b, now, e.tick);
      if !result { NothingHeard(channel, b.autoWinner, t.autoWinner); }
      CheckedFollows(channel, t.autoWinner, result, end, Sent(cfg, b, now, e.tick.coin).phase == TeleopPeriod, up);
    } else {
      CommandStays(cfg, b, now, e);
    }
  }

  lemma CommandStays(cfg: Config, b: State, now: int, e: Event)
    requires Underway(b) && !e.Tick? && !Resets(b, now, e)
    ensures var t := Step(cfg, b, now, e);
            t.autoWinner == b.autoWinner && (t.phase == b.phase || t.phase == PostMatch)
  {
  }

  lemma {:induction false} StagesFollow(cfg: Config, s: State, run: Run, up: Run -> bool)
    requires Stage(s, false, false) && NoResets(cfg, s, run)
    ensures var t := Ran(cfg, s, run);
            var result, end := HeardResult(cfg, s, run, up), HeardEnd(cfg, s, run, up);
            && Stage(t, result, end)
            && HasBeenTold(ChannelAfter(PacketTicks(cfg, s, run, up)), t.autoWinner, result, end)
  {
    match run
    case Begin =>
    case Then(before, now, e) =>
      StagesFollow(cfg, s, before, up);
      StageStep(cfg, Ran(cfg, s, before), now, e, HeardResult(cfg, s, before, up), HeardEnd(cfg, s, before, up),
                ChannelAfter(PacketTicks(cfg, s, before, up)), up(before));
  }

  /** Whatever becomes of its connection, a legacy station reads nothing of a match but the letter of the AUTO
      winner and then an empty string: each at most once, in that order, and exactly when a packet of teleop,
      and later one after it, found the connection up. */
  lemma StationReadsResult(cfg: Config, s: State, run: Run, up: Run -> bool)
    requires Underway(s) && Controlled(s) && NoResets(cfg, s, run)
    ensures Split(Wire(ChannelAfter(PacketTicks(cfg, s, run, up)).messages)) ==
            Some(Messages(Ran(cfg, s, run).autoWinner, HeardResult(cfg, s, run, up), HeardEnd(cfg, s, run, up)))
  {
    StagesFollow(cfg, s, run, up);
    LetterIsShort(Ran(cfg, s, run).autoWinner);
    WireSplits(ChannelAfter(PacketTicks(cfg, s, run, up)).messages);
  }

  // --------------------------------------------------------------------- a connection that stays up

  predicate StaysUp(run: Run, up: Run -> bool) {
    match run
    case Begin => true
    case Then(before, _, _) => up(before) && StaysUp(before, up)
  }

  /** The ticks that enter and leave teleop send packets whether or not any are due. */
  lemma TeleopEdgesSend(cfg: Config, b: State, now: int, coin: bool)
    ensures var a := Sent(cfg, b, now, coin);
            && (a.phase == TeleopPeriod && b.phase != TeleopPeriod ==> SendsPacket(cfg, b, now, coin))
            && (a.phase == PostMatch && b.phase == TeleopPeriod ==> SendsPacket(cfg, b, now, coin))
  {
    PacketsSentExactly(cfg, b, now, coin, 0);
  }

  /** What is heard at once. */
  predicate Prompt(t: State, result: bool, end: bool) {
    && (t.phase == TeleopPeriod ==> result)
    && (PlayedToEnd(t) ==> result && end)
  }

  lemma PromptStep(cfg: Config, b: State, now: int, e: Event, result: bool, end: bool)
    requires Underway(b) && !Resets(b, now, e) && Prompt(b, result, end)
    ensures var t := Step(cfg, b, now, e);
            var sends := e.Tick? && SendsPacket(cfg, b, now, e.tick.coin);
            var teleop := e.Tick? && PhaseSent(cfg, b, now, e.tick.coin) == TeleopPeriod;
            Prompt(t, result || (sends && teleop), end || (result && sends && !teleop))
  {
    if e.Tick? {
      var a := Sent(cfg, b, now, e.tick.coin);
      PhaseAfter(cfg, b, now, e.tick);
      TeleopEdgesSend(cfg, b, now, e.tick.coin);
      SentGoes(cfg, b, now, e.tick.coin);
      SentCues(cfg, b, now, e.tick.coin);
      TickCues(cfg, a, now, e.tick);
    } else {
      CommandsEndNothing(cfg, b, now, e);
    }
  }

  lemma CommandsEndNothing(cfg: Config, b: State, now: int, e: Event)
    requires Underway(b) && !e.Tick? && !Resets(b, now, e)
    ensures var t := Step(cfg, b, now, e);
            && (t.phase == TeleopPeriod ==> b.phase == TeleopPeriod)
            && (PlayedToEnd(t) ==> PlayedToEnd(b))
  {
  }

  lemma {:induction false} HeardPromptly(cfg: Config, s: State, run: Run, up: Run -> bool)
    requires Underway(s) && BeforeTeleop(s.phase) && NoResets(cfg, s, run) && StaysUp(run, up)
    ensures Underway(Ran(cfg, s, run))
    ensures Prompt(Ran(cfg, s, run), HeardResult(cfg, s, run, up), HeardEnd(cfg, s, run, up))
  {
    match run
    case Begin =>
    case Then(before, now, e) =>
      HeardPromptly(cfg, s, before, up);
      StepUnderway(cfg, Ran(cfg, s, before), now, e);
      PromptStep(cfg, Ran(cfg, s, before), now, e, HeardResult(cfg, s, before, up), HeardEnd(cfg, s, before, up));
  }

  /** A station whose connection stays up has read the letter by the end of the tick that enters teleop, and
      both by the end of the one that ends the match. */
  lemma StationReadsPromptly(cfg: Config, s: State, run: Run, up: Run -> bool)
    requires Underway(s) && BeforeTeleop(s.phase) && Controlled(s)
    requires NoResets(cfg, s, run) && StaysUp(run, up)
    ensures var t := Ran(cfg, s, run);
            var read := Split(Wire(ChannelAfter(PacketTicks(cfg, s, run, up)).messages));
            && (t.phase == TeleopPeriod ==> read == Some([Letter(t.autoWinner)]))
            && (PlayedToEnd(t) ==> read == Some([Letter(t.autoWinner), []]))
  {
    StationReadsResult(cfg, s, run, up);
    StagesFollow(cfg, s, run, up);
    HeardPromptly(cfg, s, run, up);
  }
}
