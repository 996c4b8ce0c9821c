/** field/arena.go, teleopShift and the shift-change cue: a coarser clock than the HUBs' own, counting
    whole seconds down from the end of teleop, that sounds the handovers between the HUBs. */
module ShiftCue {
  import opened Common
  import opened Timing
  import Hub

  /** Go's conversion to an integer drops the fraction. */
  function WholeSeconds(t: int): int { if t >= 0 then t / SECOND else -((-t) / SECOND) }

  function TeleopShift(tm: MatchTiming, remaining: int): Hub.Shift {
    if remaining > tm.endgameSec + 4 * tm.shiftSec then Hub.ShiftTransition
    else if remaining > tm.endgameSec + 3 * tm.shiftSec then Hub.Shift1
    else if remaining > tm.endgameSec + 2 * tm.shiftSec then Hub.Shift2
    else if remaining > tm.endgameSec + tm.shiftSec then Hub.Shift3
    else if remaining > tm.endgameSec then Hub.Shift4
    else Hub.ShiftEndgame
  }

  function CoarseShift(tm: MatchTiming, matchTime: int): Hub.Shift {
    TeleopShift(tm, WholeSeconds(tm.TeleopEnd() - matchTime))
  }

  predicate ShiftChangeSounds(shift: Option<Hub.Shift>) {
    shift.Some? && shift.value in {Hub.Shift1, Hub.Shift2, Hub.Shift3, Hub.Shift4}
  }

  // ----------------------------------------------------------------------- the two clocks compared

  /** The next whole second at or after an instant of teleop. */
  function RoundedUp(tm: MatchTiming, t: int): int {
    tm.TeleopEnd() - Seconds(WholeSeconds(tm.TeleopEnd() - t))
  }

  /** The coarse clock reads what the HUBs' clock will read at the next whole second, and the endgame in
      the last second of all. */
  predicate ReadsAhead(tm: MatchTiming, t: int) {
    var up := RoundedUp(tm, t);
    CoarseShift(tm, t) ==
    if up < tm.TeleopEnd() && Hub.LightingShift(tm, up).Some? then Hub.LightingShift(tm, up).value else Hub.ShiftEndgame
  }

  /** Counting from either end of teleop, k whole seconds in. */
  lemma CoarseAtSecond(tm: MatchTiming, k: int)
    requires tm.Valid() && 0 <= k <= tm.teleopSec
    ensures CoarseShift(tm, tm.TeleopStart() + Seconds(k)) == TeleopShift(tm, tm.teleopSec - k)
    ensures RoundedUp(tm, tm.TeleopStart() + Seconds(k)) == tm.TeleopStart() + Seconds(k)
  {
    assert WholeSeconds(Seconds(tm.teleopSec - k)) == tm.teleopSec - k;
  }

  lemma RoundedUpIsNear(tm: MatchTiming, t: int)
    requires InTeleop(tm, t)
    ensures t <= RoundedUp(tm, t) < t + SECOND && RoundedUp(tm, t) <= tm.TeleopEnd()
  {
  }

  lemma ReadsAheadIfAligned(tm: MatchTiming, t: int)
    requires tm.Valid() && tm.TailSec() == tm.endgameSec && InTeleop(tm, t)
    ensures ReadsAhead(tm, t)
  {
    RoundedUpIsNear(tm, t);
  }

  /** The two clocks keep this lead, of less than a second, throughout teleop exactly when the settings
      leave the endgame its own length. */
  lemma CoarseClockLeadsExactly(tm: MatchTiming)
    requires tm.Valid() && 0 < tm.teleopSec
    ensures (forall t :: InTeleop(tm, t) ==> ReadsAhead(tm, t)) <==> tm.TailSec() == tm.endgameSec
  {
    if tm.TailSec() == tm.endgameSec {
      forall t | InTeleop(tm, t) ensures ReadsAhead(tm, t) { ReadsAheadIfAligned(tm, t); }
    } else {
      MisalignedDiffers(tm);
    }
  }

  /** Otherwise they differ as one of them leaves the transition shift. */
  lemma MisalignedDiffers(tm: MatchTiming)
    requires tm.Valid() && 0 < tm.teleopSec && tm.TailSec() != tm.endgameSec
    ensures exists t :: InTeleop(tm, t) && !ReadsAhead(tm, t)
  {
    var leaves := tm.transitionSec + tm.TailSec() - tm.endgameSec;
    var k := if leaves < 0 then 0 else if leaves < tm.transitionSec then leaves else tm.transitionSec;
    var t := tm.TeleopStart() + Seconds(k);
    CoarseAtSecond(tm, k);
    assert InTeleop(tm, t) && !ReadsAhead(tm, t);
  }

  // --------------------------------------------------------------------------------- the handovers

  /** How many handovers there have been by a shift. */
  function Handovers(shift: Hub.Shift): nat {
    match shift
    case ShiftTransition => 0
    case Shift1 => 1
    case Shift2 => 2
    case Shift3 => 3
    case _ => 4
  }

  function FirstHandovers(n: nat): seq<Hub.Shift>
    requires n <= 4
  {
    [Hub.Shift1, Hub.Shift2, Hub.Shift3, Hub.Shift4][..n]
  }

  /** Two instants no more than one shift apart are at most one handover apart. */
  lemma OneHandoverAtMost(tm: MatchTiming, t: int, u: int)
    requires tm.Valid() && u < tm.TeleopEnd() && t <= u <= t + Seconds(tm.shiftSec)
    ensures Handovers(CoarseShift(tm, t)) <= Handovers(CoarseShift(tm, u)) <= Handovers(CoarseShift(tm, t)) + 1
    ensures CoarseShift(tm, u) == Hub.ShiftEndgame ==> Handovers(CoarseShift(tm, t)) == 4
  {
  }

  /** No longer gap has that property, short of all of teleop, unless teleop is so short that it starts
      after the third handover. */
  lemma OneHandoverExactly(tm: MatchTiming, gap: int)
    requires tm.Valid() && 0 <= gap
    ensures (forall t :: InTeleop(tm, t) && InTeleop(tm, t + gap) ==>
               Handovers(CoarseShift(tm, t + gap)) <= Handovers(CoarseShift(tm, t)) + 1) <==>
            || gap <= Seconds(tm.shiftSec)
            || Seconds(tm.teleopSec) <= gap
            || tm.teleopSec <= tm.endgameSec + 2 * tm.shiftSec
  {
    if gap <= Seconds(tm.shiftSec) {
      forall t | InTeleop(tm, t) && InTeleop(tm, t + gap)
        ensures Handovers(CoarseShift(tm, t + gap)) <= Handovers(CoarseShift(tm, t)) + 1
      {
        OneHandoverAtMost(tm, t, t + gap);
      }
    } else if gap < Seconds(tm.teleopSec) && tm.endgameSec + 2 * tm.shiftSec < tm.teleopSec {
      var left := Seconds(tm.endgameSec + 2 * tm.shiftSec + 1);
      var t := tm.TeleopEnd() - if gap < left then left else gap + 1;
      assert InTeleop(tm, t) && InTeleop(tm, t + gap);
      assert Handovers(CoarseShift(tm, t)) <= 2;
    } else if tm.teleopSec <= tm.endgameSec + 2 * tm.shiftSec {
      forall t | InTeleop(tm, t) ensures 3 <= Handovers(CoarseShift(tm, t)) {
        assert WholeSeconds(tm.TeleopEnd() - t) <= tm.teleopSec;
      }
    }
  }

  lemma FirstHandoversGrow(shift: Hub.Shift)
    requires 1 <= Handovers(shift) && shift in {Hub.Shift1, Hub.Shift2, Hub.Shift3, Hub.Shift4}
    ensures FirstHandovers(Handovers(shift)) == FirstHandovers(Handovers(shift) - 1) + [shift]
  {
  }

  /** What the arena does when it looks at the clock: a change is remembered, and a handover sounded. */
  datatype Cues = Cues(last: Option<Hub.Shift>, heard: seq<Hub.Shift>)

  function Sounded(cues: Cues, shift: Option<Hub.Shift>): Cues {
    if shift == cues.last then cues
    else Cues(shift, if ShiftChangeSounds(shift) then cues.heard + [shift.value] else cues.heard)
  }

  /** One look in teleop: n handovers have been sounded, and this shift is at most one on. */
  lemma NextHandover(cues: Cues, shift: Hub.Shift, n: nat)
    requires n <= 4 && cues.heard == FirstHandovers(n)
    requires n <= Handovers(shift) <= n + 1
    requires shift in {Hub.ShiftTransition, Hub.Shift1, Hub.Shift2, Hub.Shift3, Hub.Shift4, Hub.ShiftEndgame}
    requires cues.last == Some(shift) ==> n == Handovers(shift)
    requires n == Handovers(shift) ==> cues.last == Some(shift) || shift in {Hub.ShiftTransition, Hub.ShiftEndgame}
    requires shift == Hub.ShiftEndgame ==> n == 4
    ensures Sounded(cues, Some(shift)) == Cues(Some(shift), FirstHandovers(Handovers(shift)))
  {
    if n < Handovers(shift) { FirstHandoversGrow(shift); }
  }
}
