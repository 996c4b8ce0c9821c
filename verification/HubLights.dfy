/** field/arena_leds.go: which lighting mode each HUB shows during teleop. */
module HubLights {
  import opened Common
  import opened Timing
  import opened Hub

  datatype Alliance = NoAlliance | Red | Blue

  datatype Mode =
    | OffMode | RedMode | BlueMode | GreenMode | PurpleMode | WhiteMode
    | RedPulseMode | BluePulseMode
    | RedStartupMode | BlueStartupMode
    | RedAdvantageMode | BlueAdvantageMode
    | RainbowMode | Side1TestMode | Side2TestMode | Side3TestMode | Side4TestMode

  datatype Modes = Modes(red: Mode, blue: Mode)

  const LIGHT_WARNING: int := 3 * SECOND

  /** The modes chosen in a shift, given whether it is about to end and which HUBs are lit. */
  function ShiftModes(winner: Alliance, shift: Shift, warning: bool, redLit: bool, blueLit: bool): Modes {
    var red := if redLit then RedMode else OffMode;
    var blue := if blueLit then BlueMode else OffMode;
    match shift
    case ShiftTransition =>
      if winner == Red then Modes(if warning then RedPulseMode else RedAdvantageMode, blue)
      else Modes(red, if warning then BluePulseMode else BlueAdvantageMode)
    case Shift1 | Shift3 =>
      if !warning then Modes(red, blue)
      else if winner == Red then Modes(red, BluePulseMode)
      else Modes(RedPulseMode, blue)
    case Shift2 =>
      if !warning then Modes(red, blue)
      else if winner == Red then Modes(RedPulseMode, blue)
      else Modes(red, BluePulseMode)
    case ShiftEndgame => if warning then Modes(RedPulseMode, BluePulseMode) else Modes(red, blue)
    case _ => Modes(red, blue)
  }

  /** The modes chosen at an instant of teleop, or none between shifts, when they are left alone. */
  function TeleopModes(tm: MatchTiming, winner: Alliance, elapsed: int): Option<Modes> {
    var shift := LightingShift(tm, elapsed);
    if shift == None then None
    else
      var warning := End(tm, shift.value) - elapsed <= LIGHT_WARNING;
      Some(ShiftModes(winner, shift.value, warning, Lit(tm, winner == Red, elapsed), Lit(tm, winner == Blue, elapsed)))
  }

  /** The lamps once the modes of this instant have been set. */
  function LampsAt(tm: MatchTiming, winner: Alliance, elapsed: int, lamps: Modes): Modes {
    var modes := TeleopModes(tm, winner, elapsed);
    if modes.Some? then modes.value else lamps
  }

  lemma LampsFollow(tm: MatchTiming, winner: Alliance, elapsed: int, shift: Shift, remaining: int, lamps: Modes)
    requires LightingShift(tm, elapsed) == Some(shift) && remaining == End(tm, shift) - elapsed
    ensures LampsAt(tm, winner, elapsed, lamps) ==
            ShiftModes(winner, shift, remaining <= LIGHT_WARNING,
                       Lit(tm, winner == Red, elapsed), Lit(tm, winner == Blue, elapsed))
  {
  }

  /** Setting them again would change nothing. */
  predicate Shows(tm: MatchTiming, winner: Alliance, elapsed: int, lamps: Modes) {
    LampsAt(tm, winner, elapsed, lamps) == lamps
  }

  lemma LampsAtShows(tm: MatchTiming, winner: Alliance, elapsed: int, lamps: Modes)
    ensures Shows(tm, winner, elapsed, LampsAt(tm, winner, elapsed, lamps))
  {
  }

  predicate IsPulse(mode: Mode) { mode == RedPulseMode || mode == BluePulseMode }

  predicate IsAdvantage(mode: Mode) { mode == RedAdvantageMode || mode == BlueAdvantageMode }

  /** The HUB will be dark at some instant of the next three seconds. */
  ghost predicate DarkSoon(tm: MatchTiming, wonAuto: bool, elapsed: int) {
    exists u :: elapsed < u <= elapsed + LIGHT_WARNING && !Lit(tm, wonAuto, u)
  }

  /** What a driver may conclude from a lamp: off means inactive; a pulse means active now and dark
      within three seconds; the advantage sweep means this HUB goes dark first. */
  ghost predicate TellsTruth(tm: MatchTiming, wonAuto: bool, elapsed: int, mode: Mode) {
    && (mode == OffMode <==> !Lit(tm, wonAuto, elapsed))
    && (IsPulse(mode) <==> Lit(tm, wonAuto, elapsed) && DarkSoon(tm, wonAuto, elapsed))
    && (IsAdvantage(mode) <==>
          && wonAuto
          && LightingShift(tm, elapsed) == Some(ShiftTransition)
          && !DarkSoon(tm, wonAuto, elapsed))
  }

  ghost predicate LampsTellTruth(tm: MatchTiming, winner: Alliance, elapsed: int) {
    var modes := TeleopModes(tm, winner, elapsed);
    && modes.Some?
    && TellsTruth(tm, winner == Red, elapsed, modes.value.red)
    && TellsTruth(tm, winner == Blue, elapsed, modes.value.blue)
  }

  /** The settings under which a lamp can warn in time: either the shifts and what is left for the endgame
      outlast the warning, with teleop not cut off within it of the end of Shift 4; or teleop is over three
      seconds or more before the end of Shift 1. */
  predicate WarningsFit(tm: MatchTiming) {
    || (3 <= tm.shiftSec && (3 <= tm.TailSec() || tm.TailSec() <= -3))
    || tm.teleopSec <= tm.transitionSec + tm.shiftSec - 3
  }

  /** The first instant after the given one at which a HUB lit in this shift is dark. */
  function NextDark(tm: MatchTiming, wonAuto: bool, shift: Shift): int {
    match shift
    case ShiftTransition => if wonAuto then Begin(tm, Shift1) else Begin(tm, Shift2)
    case Shift1 => Begin(tm, Shift2)
    case Shift2 => Begin(tm, Shift3)
    case Shift3 => Begin(tm, Shift4)
    case _ => if 0 < tm.TailSec() then tm.TeleopEnd() else Begin(tm, ShiftEndgame)
  }

  lemma LitUntilNextDark(tm: MatchTiming, wonAuto: bool, elapsed: int, u: int)
    requires tm.Valid() && InTeleop(tm, elapsed) && Lit(tm, wonAuto, elapsed)
    ensures var dark := NextDark(tm, wonAuto, LightingShift(tm, elapsed).value);
            elapsed < dark && (elapsed <= u < dark ==> Lit(tm, wonAuto, u))
  {
  }

  lemma NextDarkIsDark(tm: MatchTiming, wonAuto: bool, elapsed: int)
    requires tm.Valid() && InTeleop(tm, elapsed) && Lit(tm, wonAuto, elapsed)
    ensures !Lit(tm, wonAuto, NextDark(tm, wonAuto, LightingShift(tm, elapsed).value))
  {
  }

  /** So a lit HUB is dark soon exactly if that instant is near. */
  lemma DarkSoonAtNextDark(tm: MatchTiming, wonAuto: bool, elapsed: int)
    requires tm.Valid() && InTeleop(tm, elapsed) && Lit(tm, wonAuto, elapsed)
    ensures DarkSoon(tm, wonAuto, elapsed) <==>
            NextDark(tm, wonAuto, LightingShift(tm, elapsed).value) - elapsed <= LIGHT_WARNING
  {
    var dark := NextDark(tm, wonAuto, LightingShift(tm, elapsed).value);
    NextDarkIsDark(tm, wonAuto, elapsed);
    LitUntilNextDark(tm, wonAuto, elapsed, elapsed);
    if DarkSoon(tm, wonAuto, elapsed) {
      var u :| elapsed < u <= elapsed + LIGHT_WARNING && !Lit(tm, wonAuto, u);
      LitUntilNextDark(tm, wonAuto, elapsed, u);
    }
  }

  lemma TeleopHasShift(tm: MatchTiming, winner: Alliance, elapsed: int)
    requires tm.Valid() && InTeleop(tm, elapsed)
    ensures LightingShift(tm, elapsed).Some? && LightingShift(tm, elapsed) != Some(ShiftAuto)
    ensures TeleopModes(tm, winner, elapsed).Some?
  {
  }

  /** Whether a HUB lit in this shift is to go dark at its end. */
  predicate GoesDark(wonAuto: bool, shift: Shift) {
    shift != Shift4 && (shift == ShiftTransition ==> wonAuto)
  }

  /** When the warnings fit, a lit HUB is dark soon exactly if its last shift is about to end. */
  lemma DarkSoonIsWarned(tm: MatchTiming, wonAuto: bool, elapsed: int)
    requires tm.Valid() && WarningsFit(tm) && InTeleop(tm, elapsed) && Lit(tm, wonAuto, elapsed)
    ensures var shift := LightingShift(tm, elapsed).value;
            DarkSoon(tm, wonAuto, elapsed) <==> GoesDark(wonAuto, shift) && End(tm, shift) - elapsed <= LIGHT_WARNING
  {
    DarkSoonAtNextDark(tm, wonAuto, elapsed);
  }

  lemma RedTellsTruth(tm: MatchTiming, winner: Alliance, elapsed: int)
    requires tm.Valid() && WarningsFit(tm) && InTeleop(tm, elapsed)
    requires winner != NoAlliance && TeleopModes(tm, winner, elapsed).Some?
    ensures TellsTruth(tm, winner == Red, elapsed, TeleopModes(tm, winner, elapsed).value.red)
  {
    TeleopHasShift(tm, winner, elapsed);
    if Lit(tm, winner == Red, elapsed) { DarkSoonIsWarned(tm, winner == Red, elapsed); }
  }

  lemma BlueTellsTruth(tm: MatchTiming, winner: Alliance, elapsed: int)
    requires tm.Valid() && WarningsFit(tm) && InTeleop(tm, elapsed)
    requires winner != NoAlliance && TeleopModes(tm, winner, elapsed).Some?
    ensures TellsTruth(tm, winner == Blue, elapsed, TeleopModes(tm, winner, elapsed).value.blue)
  {
    TeleopHasShift(tm, winner, elapsed);
    if Lit(tm, winner == Blue, elapsed) { DarkSoonIsWarned(tm, winner == Blue, elapsed); }
  }

  lemma LampsTellTruthIfDecided(tm: MatchTiming, winner: Alliance, elapsed: int)
    requires tm.Valid() && WarningsFit(tm) && InTeleop(tm, elapsed)
    requires winner != NoAlliance
    ensures LampsTellTruth(tm, winner, elapsed)
  {
    TeleopHasShift(tm, winner, elapsed);
    RedTellsTruth(tm, winner, elapsed);
    BlueTellsTruth(tm, winner, elapsed);
  }

  /** An instant at which a lamp misleads when the warnings do not fit: the last of the transition, when
      the HUB that did not win is dark too soon, or the last of Shift 4 or of teleop, when the winner's
      is. */
  function Misleading(tm: MatchTiming): int {
    if tm.shiftSec < 3
    then tm.TeleopStart() + Seconds(if tm.teleopSec < tm.transitionSec then tm.teleopSec else tm.transitionSec) - 1
    else if 0 < tm.TailSec() then Begin(tm, ShiftEndgame) - 1
    else tm.TeleopEnd() - 1
  }

  lemma LateWarningMisleads(tm: MatchTiming, winner: Alliance)
    requires tm.Valid() && 0 < tm.teleopSec && !WarningsFit(tm) && winner != NoAlliance
    ensures InTeleop(tm, Misleading(tm)) && !LampsTellTruth(tm, winner, Misleading(tm))
  {
    var elapsed := Misleading(tm);
    var won := 3 <= tm.shiftSec;
    assert LightingShift(tm, elapsed) == if won then Some(Shift4) else Some(ShiftTransition);
    DarkSoonAtNextDark(tm, won, elapsed);
    SteadyMisleads(tm, winner, won, elapsed);
  }

  /** A lamp that is steady although its HUB is dark soon. */
  lemma SteadyMisleads(tm: MatchTiming, winner: Alliance, won: bool, elapsed: int)
    requires winner != NoAlliance && TeleopModes(tm, winner, elapsed).Some?
    requires Lit(tm, won, elapsed) && DarkSoon(tm, won, elapsed)
    requires LightingShift(tm, elapsed) == if won then Some(Shift4) else Some(ShiftTransition)
    ensures !LampsTellTruth(tm, winner, elapsed)
  {
  }

  /** Nothing true can be shown while AUTO is undecided: the lamps treat the HUBs differently, and the
      HUBs are alike. */
  lemma UndecidedMisleads(tm: MatchTiming)
    requires tm.Valid() && 0 < tm.teleopSec
    ensures InTeleop(tm, tm.TeleopStart()) && !LampsTellTruth(tm, NoAlliance, tm.TeleopStart())
  {
    assert LightingShift(tm, tm.TeleopStart()) == Some(ShiftTransition);
  }

  /** The law of the lamps, with its exact condition: they tell the truth throughout a teleop that lasts
      at all exactly when AUTO has been decided by then and the warnings fit. */
  lemma LampsTellTruthExactly(tm: MatchTiming, winner: Alliance)
    requires tm.Valid()
    ensures (forall elapsed :: InTeleop(tm, elapsed) ==> LampsTellTruth(tm, winner, elapsed)) <==>
            tm.teleopSec == 0 || (winner != NoAlliance && WarningsFit(tm))
  {
    if tm.teleopSec == 0 {
      assert forall elapsed :: !InTeleop(tm, elapsed);
    } else if winner == NoAlliance {
      UndecidedMisleads(tm);
    } else if WarningsFit(tm) {
      forall elapsed | InTeleop(tm, elapsed) ensures LampsTellTruth(tm, winner, elapsed) {
        LampsTellTruthIfDecided(tm, winner, elapsed);
      }
    } else {
      LateWarningMisleads(tm, winner);
    }
  }

  /** The settings the controller starts with meet every condition that this project finds. */
  lemma DefaultsMeetEveryCondition()
    ensures var tm := DEFAULT_TIMING;
            && tm.Valid() && GraceCovers(tm) && WarningsFit(tm)
            && 3 <= tm.pauseSec && tm.TailSec() == tm.endgameSec
  {
  }
}
