/** The course of a match over whole runs: its periods come in order, and neither early nor late. */
module MatchClock {
  import opened Timing
  import opened MatchState
  import opened MatchSafety
  import FieldEStop

  /** Where a step may take the match. A stop may end it from anywhere. */
  predicate Follows(cfg: Config, from: Phase, to: Phase) {
    || to == from
    || (InProgress(from) && to == PostMatch)
    || match from
       case PreMatch => to == StartMatch
       case StartMatch => to == if cfg.tm.warmupSec > 0 then WarmupPeriod else AutoPeriod
       case WarmupPeriod => to == AutoPeriod
       case AutoPeriod => to == if cfg.tm.pauseSec > 0 then PausePeriod else TeleopPeriod
       case PausePeriod => to == TeleopPeriod
       case TeleopPeriod => false
       case PostMatch => to == PreMatch
  }

  lemma AdvanceFollows(cfg: Config, s: State, now: int, coin: bool)
    ensures Follows(cfg, s.phase, Advanced(cfg, s, now, coin).s.phase)
  {
    if s.phase == PostMatch { ClearedIsPreMatch(cfg, s); }
  }

  lemma TickFollows(cfg: Config, s: State, now: int, tick: TickInput)
    ensures Follows(cfg, s.phase, Ticked(cfg, s, now, tick).phase)
  {
    AdvanceFollows(cfg, HubsCounted(cfg, s, now), now, tick.coin);
    AdvanceEnables(cfg, HubsCounted(cfg, s, now), now, tick.coin);
    SentKeeps(cfg, s, now, tick.coin);
    TickAfterSent(cfg, Sent(cfg, s, now, tick.coin), now, tick);
  }

  /** No step skips a period, and only a start that is allowed leaves PreMatch. */
  lemma StepFollows(cfg: Config, s: State, now: int, e: Event)
    ensures var t := Step(cfg, s, now, e);
            && Follows(cfg, s.phase, t.phase)
            && (t.phase == StartMatch && s.phase != StartMatch ==> e.Start? && CanStart(cfg, s, e.checks))
  {
    if e.Tick? {
      TickFollows(cfg, s, now, e.tick);
      SentHoldsStops(cfg, s, now, e.tick.coin, 0);
      TickAfterSent(cfg, Sent(cfg, s, now, e.tick.coin), now, e.tick);
    } else if e.Clear? && s.phase == PostMatch {
      ClearedIsPreMatch(cfg, s);
    }
  }

  /** When each period may begin, from the start of the match. */
  function Opens(tm: MatchTiming, phase: Phase): int {
    match phase
    case AutoPeriod => Seconds(tm.warmupSec)
    case PausePeriod => tm.AutoEnd()
    case TeleopPeriod => tm.TeleopStart()
    case _ => 0
  }

  /** And when it is over. */
  function Closes(tm: MatchTiming, phase: Phase): int {
    match phase
    case WarmupPeriod => Seconds(tm.warmupSec)
    case AutoPeriod => tm.AutoEnd()
    case PausePeriod => tm.TeleopStart()
    case _ => tm.TeleopEnd()
  }

  predicate Running(phase: Phase) { phase in {WarmupPeriod, AutoPeriod, PausePeriod, TeleopPeriod} }

  predicate NotEarly(cfg: Config, s: State, t: int) {
    Running(s.phase) ==> s.matchStartTime + Opens(cfg.tm, s.phase) <= t
  }

  lemma AdvanceIsNotEarly(cfg: Config, s: State, now: int, coin: bool)
    requires cfg.tm.Valid() && NotEarly(cfg, s, now)
    ensures var a := Advanced(cfg, s, now, coin).s;
            && NotEarly(cfg, a, now)
            && (Running(a.phase) && a.phase == s.phase ==> now < a.matchStartTime + Closes(cfg.tm, a.phase))
  {
    if s.phase == PostMatch { ClearedIsPreMatch(cfg, s); }
  }

  lemma TickIsOnTime(cfg: Config, s: State, now: int, tick: TickInput)
    requires cfg.tm.Valid() && NotEarly(cfg, s, now)
    ensures var t := Ticked(cfg, s, now, tick);
            && NotEarly(cfg, t, now)
            && (Running(t.phase) && t.phase == s.phase ==> now < t.matchStartTime + Closes(cfg.tm, t.phase))
  {
    AdvanceIsNotEarly(cfg, HubsCounted(cfg, s, now), now, tick.coin);
    SentKeeps(cfg, s, now, tick.coin);
    TickAfterSent(cfg, Sent(cfg, s, now, tick.coin), now, tick);
  }

  lemma CommandIsNotEarly(cfg: Config, s: State, now: int, e: Event)
    requires !e.Tick? && NotEarly(cfg, s, now)
    ensures NotEarly(cfg, Step(cfg, s, now, e), now)
  {
    if e.Clear? && s.phase == PostMatch { ClearedIsPreMatch(cfg, s); }
  }

  lemma {:induction false} NeverEarly(cfg: Config, s: State, run: Run, t0: int, t: int)
    requires cfg.tm.Valid() && NotEarly(cfg, s, t0) && Timely(run, t0, t)
    ensures NotEarly(cfg, Ran(cfg, s, run), t)
  {
    match run
    case Begin =>
    case Then(before, now, e) =>
      NeverEarly(cfg, s, before, t0, now);
      if e.Tick? {
        TickIsOnTime(cfg, Ran(cfg, s, before), now, e.tick);
      } else {
        CommandIsNotEarly(cfg, Ran(cfg, s, before), now, e);
      }
  }

  /** In every run, a packet that enables a robot goes out inside the period it belongs to: in AUTO or
      teleop, not before the period opens; and if the period did not just open, before it is over. */
  lemma EnabledInItsPeriod(cfg: Config, s: State, run: Run, t0: int, now: int, coin: bool, i: StationId)
    requires cfg.tm.Valid() && NotEarly(cfg, s, t0) && Timely(run, t0, now)
    requires Packet(cfg, Ran(cfg, s, run), now, coin, i).Some?
    requires Packet(cfg, Ran(cfg, s, run), now, coin, i).value.enabled
    ensures var b := Ran(cfg, s, run);
            var a := Sent(cfg, b, now, coin);
            && a.phase in {AutoPeriod, TeleopPeriod}
            && a.matchStartTime + Opens(cfg.tm, a.phase) <= now
            && (a.phase == b.phase ==> now < a.matchStartTime + Closes(cfg.tm, a.phase))
  {
    var b := Ran(cfg, s, run);
    NeverEarly(cfg, s, run, t0, now);
    PacketsEnableExactly(cfg, b, now, coin, i);
    AdvanceIsNotEarly(cfg, HubsCounted(cfg, b, now), now, coin);
    SentKeeps(cfg, b, now, coin);
  }

  // ------------------------------------------------------------------------- when packets go out

  predicate SendsPacket(cfg: Config, s: State, now: int, coin: bool) {
    var a := Advanced(cfg, HubsCounted(cfg, s, now), now, coin);
    PacketDue(a.s, now, a.send)
  }

  /** The match enters AUTO, the pause or teleop, or comes to the end of teleop. */
  predicate Turns(from: Phase, to: Phase) {
    (to in {AutoPeriod, PausePeriod, TeleopPeriod} && to != from) || (from == TeleopPeriod && to == PostMatch)
  }

  lemma AdvanceSendsExactly(cfg: Config, c: State, now: int, coin: bool)
    ensures var a := Advanced(cfg, c, now, coin);
            && (a.send <==> Turns(c.phase, a.s.phase)) && a.s.lastDsPacketTime == c.lastDsPacketTime
  {
    if c.phase == PostMatch { ClearedIsPreMatch(cfg, c); }
  }

  lemma PacketsNoteTime(a: Advance, now: int, i: StationId)
    ensures var t := SentIfDue(a, now);
            && t.lastDsPacketTime == (if PacketDue(a.s, now, a.send) then now else a.s.lastDsPacketTime)
            && (t.stations[i].conn.Some? <==> a.s.stations[i].conn.Some?)
  {
  }

  /** A tick sends control packets, to every connection there is, exactly when the match turns from one period to
      the next or half a second has gone by since the last were sent; and only then is that time noted. */
  lemma PacketsSentExactly(cfg: Config, s: State, now: int, coin: bool, i: StationId)
    ensures var a := Sent(cfg, s, now, coin);
            && (SendsPacket(cfg, s, now, coin) <==>
                  Turns(s.phase, a.phase) || now - s.lastDsPacketTime >= 500 * MILLISECOND)
            && a.lastDsPacketTime == (if SendsPacket(cfg, s, now, coin) then now else s.lastDsPacketTime)
            && (Packet(cfg, s, now, coin, i).Some? <==>
                  SendsPacket(cfg, s, now, coin) && a.stations[i].conn.Some?)
  {
    var c := HubsCounted(cfg, s, now);
    AdvanceSendsExactly(cfg, c, now, coin);
    PacketsNoteTime(Advanced(cfg, c, now, coin), now, i);
    SentKeeps(cfg, s, now, coin);
  }

  // ---------------------------------------------------------------------------------- after a match

  /** The match is as it was, or has been ended between these times. */
  predicate EndedWithin(a: State, t: State, from: int, to: int) {
    || (t.phase == a.phase && t.postMatchStartTime == a.postMatchStartTime)
    || (InProgress(a.phase) && t.phase == PostMatch && from <= t.postMatchStartTime <= to)
  }

  lemma {:induction false} PanelsEndWithin(a: State, inputs: seq<Input>, now: int)
    ensures EndedWithin(a, PanelsPolled(a, inputs, now), now, now)
    decreases |inputs|
  {
    if inputs != [] {
      var earlier := PanelsPolled(a, inputs[..|inputs| - 1], now);
      PanelsEndWithin(a, inputs[..|inputs| - 1], now);
      InputEndsWithin(earlier, inputs[|inputs| - 1], now);
    }
  }

  lemma InputEndsWithin(a: State, input: Input, now: int)
    ensures EndedWithin(a, InputHandled(a, input, now), now, now)
  {
  }

  lemma FieldStopEndsWithin(a: State, reading: FieldEStop.Reading, now: int)
    ensures EndedWithin(a, FieldStopPolled(a, reading, now), now, now)
  {
  }

  lemma PlcEndsWithin(cfg: Config, a: State, plc: PlcReading, now: int)
    ensures EndedWithin(a, PlcHandled(cfg, a, plc, now), now, now)
  {
  }

  lemma AfterSentEndsWithin(cfg: Config, a: State, now: int, tick: TickInput)
    ensures EndedWithin(a, OutputsSet(cfg, StopsPolled(a, now, tick), now, tick), now, now + tick.lag)
  {
    var p := StopsPolled(a, now, tick);
    FieldStopEndsWithin(a, tick.fieldStop, now);
    PanelsEndWithin(FieldStopPolled(a, tick.fieldStop, now), tick.inputs, now + tick.lag);
    DisplayContinues(cfg, p, now);
    PlcEndsWithin(cfg, Displayed(cfg, p, now), tick.plc, now + tick.lag);
  }

  lemma AdvanceEndsWithin(cfg: Config, c: State, now: int, coin: bool)
    ensures var a := Advanced(cfg, c, now, coin).s;
            && (c.phase == PostMatch && now - c.postMatchStartTime >= Seconds(5) ==> a.phase == PreMatch)
            && (c.phase == PostMatch && now - c.postMatchStartTime < Seconds(5) ==> a == c)
            && (c.phase != PostMatch && a.phase == PostMatch ==> a.postMatchStartTime == now)
  {
    if c.phase == PostMatch { ClearedIsPreMatch(cfg, c); }
  }

  /** A match that is over stays so for five seconds, by the clock of the moment it ended, and then a tick
      clears it. */
  lemma PostMatchDwells(cfg: Config, s: State, now: int, tick: TickInput)
    ensures var t := Ticked(cfg, s, now, tick);
            && (s.phase == PostMatch && now - s.postMatchStartTime >= Seconds(5) ==> t.phase == PreMatch)
            && (s.phase == PostMatch && now - s.postMatchStartTime < Seconds(5) ==>
                  t.phase == PostMatch && t.postMatchStartTime == s.postMatchStartTime)
            && (s.phase != PostMatch && t.phase == PostMatch ==> now <= t.postMatchStartTime <= now + tick.lag)
  {
    var c := HubsCounted(cfg, s, now);
    AdvanceEndsWithin(cfg, c, now, tick.coin);
    SentKeeps(cfg, s, now, tick.coin);
    AfterSentEndsWithin(cfg, Sent(cfg, s, now, tick.coin), now, tick);
  }
}
