/** The field e-stop from the pins of its panel to the robots, over whole runs. */
module MatchFieldStop {
  import opened Common
  import opened FieldEStop
  import opened MatchState
  import opened MatchSafety

  /** What happens to an arena and its field e-stop panel, latest outermost: a tick polls the pins; an operator
      clears the panel, which is then polled again; and everything else leaves the panel alone. */
  datatype Wired =
    | Idle
    | Ticking(before: Wired, now: int, coin: bool, pins: Pins, inputs: seq<Input>, plc: PlcReading, lag: nat)
    | Clearing(before: Wired, now: int, pins: Pins, again: Pins)
    | Other(before: Wired, now: int, e: Event)

  predicate LeavesPanel(e: Event) { !e.Tick? && !e.ClearFieldEStop? }

  predicate Proper(w: Wired) {
    match w
    case Idle => true
    case Other(before, _, e) => Proper(before) && LeavesPanel(e)
    case _ => Proper(w.before)
  }

  /** What has been done to the panel. */
  function PanelHistory(w: Wired): History {
    match w
    case Idle => Built
    case Ticking(before, now, _, pins, _, _, _) => Poll(PanelHistory(before), pins, now)
    case Clearing(before, now, pins, again) => Poll(History.Clear(PanelHistory(before), pins, now), again, now)
    case Other(before, _, _) => PanelHistory(before)
  }

  function PanelAfter(dual: bool, window: int, w: Wired): Panel { After(dual, window, PanelHistory(w)) }

  /** What has been done to the arena, which is told the panel's latch. */
  function RunOf(dual: bool, window: int, w: Wired): Run {
    match w
    case Idle => Begin
    case Ticking(before, now, coin, _, inputs, plc, lag) =>
      Then(RunOf(dual, window, before), now,
           Tick(TickInput(coin, PanelAfter(dual, window, w).latched, inputs, plc, lag)))
    case Clearing(before, now, _, _) =>
      Then(RunOf(dual, window, before), now, ClearFieldEStop(PanelAfter(dual, window, w).latched))
    case Other(before, now, e) => Then(RunOf(dual, window, before), now, e)
  }

  /** Told by the pins alone: a tick has come at which, since the last clear that found the button released,
      it had not always been. */
  predicate Stopped(dual: bool, window: int, w: Wired) {
    match w
    case Idle => false
    case Ticking(before, _, _, _, _, _, _) =>
      Stopped(dual, window, before) || !NeverStopped(dual, window, PanelHistory(w))
    case Clearing(before, _, _, _) =>
      Stopped(dual, window, before) && !NeverStopped(dual, window, PanelHistory(w))
    case Other(before, _, _) => Stopped(dual, window, before)
  }

  lemma LatchFollows(cfg: Config, s: State, now: int, e: Event)
    ensures Step(cfg, s, now, e).fieldEStopActive ==
            match e
            case Tick(tick) => s.fieldEStopActive || tick.fieldStop.state != StopOK
            case ClearFieldEStop(reading) => s.fieldEStopActive && reading.state != StopOK
            case _ => s.fieldEStopActive
  {
    if e.Tick? {
      SentKeepsLatch(cfg, s, now, e.tick.coin);
      TickAfterSent(cfg, Sent(cfg, s, now, e.tick.coin), now, e.tick);
    }
  }

  /** The arena's field e-stop is latched exactly when the pins say so. */
  lemma {:induction false} StoppedExactly(cfg: Config, s: State, dual: bool, window: int, w: Wired)
    requires !s.fieldEStopActive && Proper(w)
    ensures Ran(cfg, s, RunOf(dual, window, w)).fieldEStopActive <==> Stopped(dual, window, w)
  {
    match w
    case Idle =>
    case Ticking(before, now, coin, pins, inputs, plc, lag) =>
      StoppedExactly(cfg, s, dual, window, before);
      LatchFollows(cfg, Ran(cfg, s, RunOf(dual, window, before)), now,
                   Tick(TickInput(coin, PanelAfter(dual, window, w).latched, inputs, plc, lag)));
      OkIffNeverStopped(dual, window, PanelHistory(w));
    case Clearing(before, now, pins, again) =>
      StoppedExactly(cfg, s, dual, window, before);
      LatchFollows(cfg, Ran(cfg, s, RunOf(dual, window, before)), now,
                   ClearFieldEStop(PanelAfter(dual, window, w).latched));
      OkIffNeverStopped(dual, window, PanelHistory(w));
    case Other(before, now, e) =>
      StoppedExactly(cfg, s, dual, window, before);
      LatchFollows(cfg, Ran(cfg, s, RunOf(dual, window, before)), now, e);
  }

  // ------------------------------------------------------------------- from a press until a clear

  /** A clear finds the button released if it is so both when the latch is dropped and when it is read again. */
  predicate FindsReleased(dual: bool, window: int, w: Wired)
    requires w.Clearing?
  {
    var panel := PanelAfter(dual, window, w.before);
    Released(panel, w.pins) && Released(panel.Cleared(w.pins, w.now), w.again)
  }

  /** Since then, no operator has cleared the panel while the button was released. */
  predicate Since(dual: bool, window: int, from: Wired, w: Wired) {
    || w == from
    || match w
       case Idle => false
       case Clearing(before, _, _, _) => Since(dual, window, from, before) && !FindsReleased(dual, window, w)
       case _ => Since(dual, window, from, w.before)
  }

  lemma {:induction false} StaysStopped(dual: bool, window: int, from: Wired, w: Wired)
    requires from.Ticking? && !Released(PanelAfter(dual, window, from.before), from.pins)
    requires Since(dual, window, from, w)
    ensures Stopped(dual, window, w) && !NeverStopped(dual, window, PanelHistory(w))
  {
    if w != from { StaysStopped(dual, window, from, w.before); }
  }

  /** From the first tick that does not find the button plainly released -- pressed, mismatched for however
      short a time, or unreadable -- until an operator clears the panel while it is, no match is in progress
      and no packet enables any robot. */
  lemma NothingEnabledUntilCleared(cfg: Config, mode: AutoWinnerMode, dual: bool, window: int, from: Wired, w: Wired,
                                   now: int, coin: bool, i: StationId)
    requires from.Ticking? && !Released(PanelAfter(dual, window, from.before), from.pins)
    requires Since(dual, window, from, w) && Proper(w)
    ensures var s := Ran(cfg, Initial(mode), RunOf(dual, window, w));
            && !InProgress(s.phase)
            && (Packet(cfg, s, now, coin, i).Some? ==> !Packet(cfg, s, now, coin, i).value.enabled)
  {
    var s := Ran(cfg, Initial(mode), RunOf(dual, window, w));
    StaysStopped(dual, window, from, w);
    StoppedExactly(cfg, Initial(mode), dual, window, w);
    AlwaysControlled(cfg, Initial(mode), RunOf(dual, window, w));
    DisabledOutsideMatch(cfg, s, now, coin, i);
  }
}
