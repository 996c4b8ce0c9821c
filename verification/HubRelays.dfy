/** hardware/gpio_hub_relays.go and led/override.go: one relay and one lamp per HUB, written only when
    the lamp changes, and rewritten after a failure. */
module HubRelays {
  import opened Timing
  import opened HubLights

  /** How often upstream's sequences advance. */
  const COUNTER_CYCLE: int := 10 * MILLISECOND
  const PULSE_BLINK_HALF_PERIOD: int := 70 * COUNTER_CYCLE
  const ADVANTAGE_BLINK_HALF_PERIOD: int := (8 * 2 + 2) * 4 * COUNTER_CYCLE / 2

  /** A square wave that starts dark. Go's division truncates, so time before the start is dark too. */
  predicate BlinkLit(elapsed: int, halfPeriod: int)
    requires 0 < halfPeriod
  {
    0 <= elapsed && elapsed / halfPeriod % 2 == 1
  }

  predicate LampLit(mode: Mode, elapsed: int) {
    match mode
    case OffMode => false
    case RedPulseMode | BluePulseMode => BlinkLit(elapsed, PULSE_BLINK_HALF_PERIOD)
    case RedAdvantageMode | BlueAdvantageMode => BlinkLit(elapsed, ADVANTAGE_BLINK_HALF_PERIOD)
    case _ => true
  }

  // What should be seen, told by the clock: a pulse is dark and lit for seven tenths of a second each, the
  // advantage blink for thirty-six hundredths, and both begin dark.

  predicate PulseLitIn(elapsed: int, k: nat) { 700_000_000 * (2 * k + 1) <= elapsed < 700_000_000 * (2 * k + 2) }

  predicate AdvantageLitIn(elapsed: int, k: nat) { 360_000_000 * (2 * k + 1) <= elapsed < 360_000_000 * (2 * k + 2) }

  ghost predicate SeenLit(mode: Mode, elapsed: int) {
    match mode
    case OffMode => false
    case RedPulseMode | BluePulseMode => exists k: nat :: PulseLitIn(elapsed, k)
    case RedAdvantageMode | BlueAdvantageMode => exists k: nat :: AdvantageLitIn(elapsed, k)
    case _ => true
  }

  lemma LitAsSeen(mode: Mode, elapsed: int)
    ensures LampLit(mode, elapsed) <==> SeenLit(mode, elapsed)
  {
    if IsPulse(mode) { PulseAsSeen(elapsed); }
    if IsAdvantage(mode) { AdvantageAsSeen(elapsed); }
  }

  lemma PulseAsSeen(elapsed: int)
    ensures BlinkLit(elapsed, 700_000_000) <==> exists k: nat :: PulseLitIn(elapsed, k)
  {
    if BlinkLit(elapsed, 700_000_000) { assert PulseLitIn(elapsed, elapsed / 700_000_000 / 2); }
    forall k: nat | PulseLitIn(elapsed, k) ensures elapsed / 700_000_000 == 2 * k + 1 {}
  }

  lemma AdvantageAsSeen(elapsed: int)
    ensures BlinkLit(elapsed, 360_000_000) <==> exists k: nat :: AdvantageLitIn(elapsed, k)
  {
    if BlinkLit(elapsed, 360_000_000) { assert AdvantageLitIn(elapsed, elapsed / 360_000_000 / 2); }
    forall k: nat | AdvantageLitIn(elapsed, k) ensures elapsed / 360_000_000 == 2 * k + 1 {}
  }

  // ------------------------------------------------------------------------------- one lamp

  /** What becomes of a write to a line; a failed one may leave the line at any level. */
  datatype Outcome = Landed | Failed(level: bool)

  /** A relay lamp and the line it drives. `writes` counts the writes that were tried. */
  datatype Lamp = Lamp(mode: Mode, since: int, lit: bool, driven: bool, level: bool, writes: nat)

  function SetTo(lamp: Lamp, mode: Mode, now: int): Lamp {
    if mode != lamp.mode then lamp.(mode := mode, since := now) else lamp
  }

  predicate NeedsWrite(lamp: Lamp, now: int) {
    !lamp.driven || LampLit(lamp.mode, now - lamp.since) != lamp.lit
  }

  function Driven(lamp: Lamp, now: int, outcome: Outcome): Lamp {
    var lit := LampLit(lamp.mode, now - lamp.since);
    if !NeedsWrite(lamp, now) then lamp
    else match outcome
      case Landed => lamp.(lit := lit, driven := true, level := lit, writes := lamp.writes + 1)
      case Failed(level) => lamp.(driven := false, level := level, writes := lamp.writes + 1)
  }

  /** Everything done to a lamp, latest outermost. */
  datatype History =
    | Fresh(level: bool)
    | Set(before: History, mode: Mode, now: int)
    | Drive(before: History, now: int, outcome: Outcome)

  function After(h: History): Lamp {
    match h
    case Fresh(level) => Lamp(OffMode, 0, false, false, level, 0)
    case Set(before, mode, now) => SetTo(After(before), mode, now)
    case Drive(before, now, outcome) => Driven(After(before), now, outcome)
  }

  /** What a lamp has been told, whatever was driven: the modes with their times, latest last. */
  datatype Order = Order(mode: Mode, now: int)

  function Orders(h: History): seq<Order> {
    match h
    case Fresh(_) => [Order(OffMode, 0)]
    case Set(before, mode, now) => Orders(before) + [Order(mode, now)]
    case Drive(before, _, _) => Orders(before)
  }

  /** The latest mode, and when the unbroken run of it began. */
  ghost predicate InForce(orders: seq<Order>, mode: Mode, since: int) {
    exists i :: 0 <= i < |orders| && RunFrom(orders, i, mode) && orders[i].now == since
  }

  ghost predicate RunFrom(orders: seq<Order>, i: nat, mode: Mode)
    requires i < |orders|
  {
    && (forall j :: i <= j < |orders| ==> orders[j].mode == mode)
    && (i > 0 ==> orders[i - 1].mode != mode)
  }

  lemma {:induction false} ModeIsInForce(h: History)
    ensures Orders(h) != [] && Orders(h)[|Orders(h)| - 1].mode == After(h).mode
    ensures InForce(Orders(h), After(h).mode, After(h).since)
  {
    match h
    case Fresh(_) => assert RunFrom(Orders(h), 0, OffMode);
    case Drive(before, _, _) => ModeIsInForce(before);
    case Set(before, mode, now) =>
      ModeIsInForce(before);
      var was, orders := Orders(before), Orders(h);
      if mode == After(before).mode {
        var i :| 0 <= i < |was| && RunFrom(was, i, mode) && was[i].now == After(before).since;
        assert RunFrom(orders, i, mode) && orders[i].now == After(h).since;
      } else {
        assert RunFrom(orders, |was|, mode);
      }
  }

  /** The mode in force and its start are determined by what the lamp was told. */
  lemma InForceIsUnique(orders: seq<Order>, mode: Mode, since: int, mode': Mode, since': int)
    requires InForce(orders, mode, since) && InForce(orders, mode', since')
    ensures mode == mode' && since == since'
  {
    var i :| 0 <= i < |orders| && RunFrom(orders, i, mode) && orders[i].now == since;
    var j :| 0 <= j < |orders| && RunFrom(orders, j, mode') && orders[j].now == since';
    assert orders[|orders| - 1].mode == mode == mode';
  }

  lemma {:induction false} DrivenMeansLevel(h: History)
    ensures After(h).driven ==> After(h).level == After(h).lit
  {
    match h
    case Fresh(_) =>
    case Set(before, _, _) => DrivenMeansLevel(before);
    case Drive(before, _, _) => DrivenMeansLevel(before);
  }

  /** What an update returns: an error exactly when a write was needed and failed. */
  predicate Succeeds(lamp: Lamp, now: int, outcome: Outcome) { NeedsWrite(lamp, now) ==> outcome.Landed? }

  /** Skipped writes cannot be seen. After any history of orders, writes and failed writes that left
      the line at any level, an update that succeeds leaves the line as the mode in force wants it at
      that moment; and it writes only when the lamp is to change or an earlier write failed. */
  lemma LineShowsMode(h: History, now: int, outcome: Outcome, mode: Mode, since: int)
    requires InForce(Orders(h), mode, since)
    requires Succeeds(After(h), now, outcome)
    ensures var lamp := After(Drive(h, now, outcome));
            && (lamp.level <==> SeenLit(mode, now - since))
            && (After(h).driven && After(h).level == lamp.level ==> lamp.writes == After(h).writes)
            && lamp.writes <= After(h).writes + 1
  {
    ModeIsInForce(h);
    InForceIsUnique(Orders(h), mode, since, After(h).mode, After(h).since);
    DrivenMeansLevel(h);
    LitAsSeen(mode, now - since);
  }

  // -------------------------------------------------------------------------------- the objects

  /** A GPIO output. */
  class Line {
    var level: bool
    ghost var writes: nat

    constructor (level: bool)
      ensures this.level == level && writes == 0
    {
      this.level, writes := level, 0;
    }

    method SetValue(value: bool, outcome: Outcome) returns (ok: bool)
      modifies this
      ensures ok == outcome.Landed? && writes == old(writes) + 1
      ensures level == if outcome.Landed? then value else outcome.level
    {
      level := if outcome.Landed? then value else outcome.level;
      writes := writes + 1;
      return outcome.Landed?;
    }
  }

  class RelayLamp {
    const line: Line
    var mode: Mode
    var since: int
    var lit: bool
    var driven: bool

    ghost function View(): Lamp
      reads this, line
    {
      Lamp(mode, since, lit, driven, line.level, line.writes)
    }

    constructor (line: Line)
      requires line.writes == 0
      ensures this.line == line && View() == After(Fresh(line.level))
    {
      this.line := line;
      mode, since, lit, driven := OffMode, 0, false, false;
    }

    method SetMode(mode: Mode, now: int)
      modifies this
      ensures View() == SetTo(old(View()), mode, now)
    {
      if mode != this.mode {
        this.mode, since := mode, now;
      }
    }

    method Drive(now: int, outcome: Outcome) returns (ok: bool)
      modifies this, line
      ensures View() == Driven(old(View()), now, outcome)
      ensures ok <==> Succeeds(old(View()), now, outcome)
    {
      var want := LampLit(mode, now - since);
      if driven && want == lit {
        return true;
      }
      driven := false;
      ok := line.SetValue(want, outcome);
      if ok {
        lit, driven := want, true;
      }
    }
  }

  class GpioHubRelays {
    const red: RelayLamp
    const blue: RelayLamp
    var closed: bool

    ghost predicate Valid()
      reads this
    {
      red != blue && red.line != blue.line
    }

    constructor (redLine: Line, blueLine: Line)
      requires redLine != blueLine && redLine.writes == 0 == blueLine.writes
      ensures Valid() && !closed && fresh(red) && fresh(blue) && red.line == redLine && blue.line == blueLine
      ensures red.View() == After(Fresh(redLine.level)) && blue.View() == After(Fresh(blueLine.level))
    {
      red := new RelayLamp(redLine);
      blue := new RelayLamp(blueLine);
      closed := false;
    }

    method SetMode(redMode: Mode, blueMode: Mode, now: int)
      requires Valid()
      modifies red, blue
      ensures red.View() == SetTo(old(red.View()), redMode, now)
      ensures blue.View() == SetTo(old(blue.View()), blueMode, now)
    {
      red.SetMode(redMode, now);
      blue.SetMode(blueMode, now);
    }

    /** A failure on the red line leaves the blue one for the next call. */
    method Update(now: int, redOutcome: Outcome, blueOutcome: Outcome) returns (ok: bool)
      requires Valid()
      modifies red, red.line, blue, blue.line
      ensures closed ==> ok && red.View() == old(red.View()) && blue.View() == old(blue.View())
      ensures !closed ==> red.View() == Driven(old(red.View()), now, redOutcome)
      ensures !closed ==>
                blue.View() == if Succeeds(old(red.View()), now, redOutcome)
                               then Driven(old(blue.View()), now, blueOutcome) else old(blue.View())
      ensures !closed ==>
                (ok <==> Succeeds(old(red.View()), now, redOutcome) && Succeeds(old(blue.View()), now, blueOutcome))
    {
      if closed {
        return true;
      }
      ok := red.Drive(now, redOutcome);
      if !ok {
        return;
      }
      ok := blue.Drive(now, blueOutcome);
    }

    /** Darkens both lamps, whatever becomes of it, and lets the lines go. */
    method Close(redOutcome: Outcome, blueOutcome: Outcome)
      requires Valid()
      modifies `closed, red.line, blue.line
      ensures closed
      ensures old(closed) ==> red.View() == old(red.View()) && blue.View() == old(blue.View())
      ensures !old(closed) && redOutcome.Landed? && blueOutcome.Landed? ==> !red.line.level && !blue.line.level
    {
      if closed {
        return;
      }
      closed := true;
      var redOk := red.line.SetValue(false, redOutcome);
      var blueOk := blue.line.SetValue(false, blueOutcome);
    }
  }
}
