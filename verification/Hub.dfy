/** game/hub.go and game/hub_bioarena.go: per-shift FUEL tallies, and the two clocks that decide
    when a HUB is lit and which shift a FUEL is credited to. */
module Hub {
  import opened Common
  import opened Timing

  datatype Shift = ShiftAuto | ShiftTransition | Shift1 | Shift2 | Shift3 | Shift4 | ShiftEndgame | ShiftPostMatch

  const SHIFT_COUNT: nat := 8

  function Index(shift: Shift): (i: nat)
    ensures i < SHIFT_COUNT
  {
    match shift
    case ShiftAuto => 0
    case ShiftTransition => 1
    case Shift1 => 2
    case Shift2 => 3
    case Shift3 => 4
    case Shift4 => 5
    case ShiftEndgame => 6
    case ShiftPostMatch => 7
  }

  function ShiftAt(i: nat): (shift: Shift)
    requires i < SHIFT_COUNT
    ensures Index(shift) == i
  {
    if i == 0 then ShiftAuto else if i == 1 then ShiftTransition else if i == 2 then Shift1
    else if i == 3 then Shift2 else if i == 4 then Shift3 else if i == 5 then Shift4
    else if i == 6 then ShiftEndgame else ShiftPostMatch
  }

  lemma IndexInjective(s: Shift, t: Shift)
    ensures Index(s) == Index(t) ==> s == t
  {
    assert ShiftAt(Index(s)) == s && ShiftAt(Index(t)) == t;
  }

  /** Whether a HUB is active during a shift. The AUTO winner's HUB is dark first. */
  predicate IsShiftActive(wonAuto: bool, shift: Shift) {
    match shift
    case ShiftAuto | ShiftTransition | ShiftEndgame | ShiftPostMatch => true
    case Shift1 | Shift3 => !wonAuto
    case Shift2 | Shift4 => wonAuto
  }

  function ScoringGracePeriod(wonAuto: bool, shift: Shift): int {
    if IsShiftActive(wonAuto, shift) then SCORING_GRACE else 0
  }

  /** Where a shift begins and ends, measured from the start of the match. */
  function Begin(tm: MatchTiming, shift: Shift): int {
    match shift
    case ShiftAuto => 0
    case ShiftTransition => tm.TeleopStart()
    case Shift1 => tm.TransitionEnd()
    case Shift2 => tm.TransitionEnd() + Seconds(tm.shiftSec)
    case Shift3 => tm.TransitionEnd() + Seconds(2 * tm.shiftSec)
    case Shift4 => tm.TransitionEnd() + Seconds(3 * tm.shiftSec)
    case ShiftEndgame => tm.TransitionEnd() + Seconds(4 * tm.shiftSec)
    case ShiftPostMatch => tm.TeleopEnd()
  }

  function End(tm: MatchTiming, shift: Shift): int {
    match shift
    case ShiftAuto => tm.AutoEnd()
    case ShiftTransition => tm.TransitionEnd()
    case Shift1 | Shift2 | Shift3 | Shift4 => Begin(tm, shift) + Seconds(tm.shiftSec)
    case ShiftEndgame | ShiftPostMatch => tm.TeleopEnd()
  }

  /** The instant from which FUEL no longer counts for a shift. Endgame has no grace of its own:
      the grace after teleop is the post-match shift. */
  function Deadline(tm: MatchTiming, wonAuto: bool, shift: Shift): int {
    if shift == ShiftEndgame then End(tm, shift)
    else End(tm, shift) + ScoringGracePeriod(wonAuto, shift)
  }

  /** The scoring clock: the first shift that is still open. */
  function ScoringShift(tm: MatchTiming, wonAuto: bool, elapsed: int): Option<Shift> {
    if elapsed < Deadline(tm, wonAuto, ShiftAuto) then Some(ShiftAuto)
    else if elapsed < Deadline(tm, wonAuto, ShiftTransition) then Some(ShiftTransition)
    else if elapsed < Deadline(tm, wonAuto, Shift1) then Some(Shift1)
    else if elapsed < Deadline(tm, wonAuto, Shift2) then Some(Shift2)
    else if elapsed < Deadline(tm, wonAuto, Shift3) then Some(Shift3)
    else if elapsed < Deadline(tm, wonAuto, Shift4) then Some(Shift4)
    else if elapsed < Deadline(tm, wonAuto, ShiftEndgame) then Some(ShiftEndgame)
    else if elapsed < Deadline(tm, wonAuto, ShiftPostMatch) then Some(ShiftPostMatch)
    else None
  }

  predicate ClosedBefore(tm: MatchTiming, wonAuto: bool, elapsed: int, i: int) {
    forall shift: Shift :: Index(shift) < i ==> Deadline(tm, wonAuto, shift) <= elapsed
  }

  lemma ClosesNext(tm: MatchTiming, wonAuto: bool, elapsed: int, shift: Shift)
    requires ClosedBefore(tm, wonAuto, elapsed, Index(shift)) && Deadline(tm, wonAuto, shift) <= elapsed
    ensures ClosedBefore(tm, wonAuto, elapsed, Index(shift) + 1)
  {
    forall s: Shift | Index(s) < Index(shift) + 1 ensures Deadline(tm, wonAuto, s) <= elapsed {
      IndexInjective(s, shift);
    }
  }

  /** The four alliance shifts follow one another. */
  lemma AllianceDeadline(tm: MatchTiming, wonAuto: bool, i: nat)
    requires Index(Shift1) <= i < Index(ShiftEndgame)
    ensures Begin(tm, ShiftAt(i)) + Seconds(tm.shiftSec) == Begin(tm, ShiftAt(i + 1))
    ensures Deadline(tm, wonAuto, ShiftAt(i)) == Begin(tm, ShiftAt(i + 1)) + ScoringGracePeriod(wonAuto, ShiftAt(i))
  {
  }

  lemma FirstOpen(tm: MatchTiming, wonAuto: bool, elapsed: int, shift: Shift)
    requires ClosedBefore(tm, wonAuto, elapsed, Index(shift)) && elapsed < Deadline(tm, wonAuto, shift)
    ensures ScoringShift(tm, wonAuto, elapsed) == Some(shift)
  {
  }

  lemma NoneOpen(tm: MatchTiming, wonAuto: bool, elapsed: int)
    requires ClosedBefore(tm, wonAuto, elapsed, SHIFT_COUNT)
    ensures ScoringShift(tm, wonAuto, elapsed) == None
  {
  }

  /** The lighting clock: the shift the field is physically in, if any. */
  function LightingShift(tm: MatchTiming, elapsed: int): (shift: Option<Shift>)
    ensures shift.Some? ==>
              && shift.value != ShiftPostMatch
              && Begin(tm, shift.value) <= elapsed < End(tm, shift.value)
  {
    if Begin(tm, ShiftAuto) <= elapsed < End(tm, ShiftAuto) then Some(ShiftAuto)
    else if Begin(tm, ShiftTransition) <= elapsed < End(tm, ShiftTransition) then Some(ShiftTransition)
    else if Begin(tm, Shift1) <= elapsed < End(tm, Shift1) then Some(Shift1)
    else if Begin(tm, Shift2) <= elapsed < End(tm, Shift2) then Some(Shift2)
    else if Begin(tm, Shift3) <= elapsed < End(tm, Shift3) then Some(Shift3)
    else if Begin(tm, Shift4) <= elapsed < End(tm, Shift4) then Some(Shift4)
    else if Begin(tm, ShiftEndgame) <= elapsed < End(tm, ShiftEndgame) then Some(ShiftEndgame)
    else None
  }

  /** Each shift begins where the one before it ends, but for the pause after AUTO. */
  lemma ShiftsFollow(tm: MatchTiming, i: nat)
    requires i + 1 < SHIFT_COUNT
    ensures Begin(tm, ShiftAt(i + 1)) == if i == 0 then tm.TeleopStart() else End(tm, ShiftAt(i))
    ensures ShiftAt(i + 1) == ShiftTransition ==> End(tm, ShiftAt(i + 1)) == tm.TeleopStart() + Seconds(tm.transitionSec)
    ensures ShiftAt(i + 1) in {Shift1, Shift2, Shift3, Shift4} ==>
              End(tm, ShiftAt(i + 1)) == End(tm, ShiftAt(i)) + Seconds(tm.shiftSec)
    ensures ShiftAt(i + 1) == ShiftEndgame ==> End(tm, ShiftAt(i + 1)) == tm.TeleopEnd()
  {
  }

  predicate Inside(tm: MatchTiming, shift: Shift, elapsed: int) {
    Begin(tm, shift) <= elapsed < End(tm, shift)
  }

  /** Scanning the shifts in order finds the lighting clock's shift. */
  lemma LightingShiftIsFirstInside(tm: MatchTiming, elapsed: int, i: nat)
    requires i <= Index(ShiftPostMatch)
    requires forall j: nat :: j < i ==> !Inside(tm, ShiftAt(j), elapsed)
    ensures i == Index(ShiftPostMatch) ==> LightingShift(tm, elapsed) == None
    ensures i < Index(ShiftPostMatch) && Inside(tm, ShiftAt(i), elapsed) ==>
              LightingShift(tm, elapsed) == Some(ShiftAt(i))
  {
    if 0 < i { assert !Inside(tm, ShiftAt(0), elapsed); }
    if 1 < i { assert !Inside(tm, ShiftAt(1), elapsed); }
    if 2 < i { assert !Inside(tm, ShiftAt(2), elapsed); }
    if 3 < i { assert !Inside(tm, ShiftAt(3), elapsed); }
    if 4 < i { assert !Inside(tm, ShiftAt(4), elapsed); }
    if 5 < i { assert !Inside(tm, ShiftAt(5), elapsed); }
    if 6 < i { assert !Inside(tm, ShiftAt(6), elapsed); }
  }

  // -------------------------------------------------------------------- the two clocks compared

  /** The HUB's lamp is on at this instant. */
  predicate Lit(tm: MatchTiming, wonAuto: bool, elapsed: int) {
    var shift := LightingShift(tm, elapsed);
    shift.Some? && IsShiftActive(wonAuto, shift.value)
  }

  /** A FUEL arriving at this instant scores. */
  predicate Credits(tm: MatchTiming, wonAuto: bool, elapsed: int) {
    var shift := ScoringShift(tm, wonAuto, elapsed);
    0 <= elapsed && shift.Some? && IsShiftActive(wonAuto, shift.value)
  }

  ghost predicate LitWithinGrace(tm: MatchTiming, wonAuto: bool, elapsed: int) {
    exists u :: elapsed - SCORING_GRACE <= u <= elapsed && Lit(tm, wonAuto, u)
  }

  /** FUEL scores at exactly the instants at which the HUB has been lit in the last three seconds. */
  ghost predicate ClocksAgree(tm: MatchTiming) {
    forall wonAuto, elapsed :: Credits(tm, wonAuto, elapsed) <==> LitWithinGrace(tm, wonAuto, elapsed)
  }

  /** The settings under which the clocks agree: the grace spans the pause, and teleop is not cut
      off just after the last alliance shift. */
  predicate GraceCovers(tm: MatchTiming) {
    && tm.pauseSec <= 3
    && (0 < tm.TailSec() || tm.TailSec() <= -3 || tm.TailSec() <= -tm.shiftSec)
  }

  lemma ActiveShiftIsLit(tm: MatchTiming, wonAuto: bool, shift: Shift, u: int)
    requires tm.Valid()
    requires shift != ShiftPostMatch && IsShiftActive(wonAuto, shift)
    requires Begin(tm, shift) <= u < End(tm, shift)
    ensures Lit(tm, wonAuto, u)
  {
  }

  /** When teleop is cut off early enough, nothing is left for the post-match grace. */
  lemma TeleopCutShort(tm: MatchTiming, wonAuto: bool, elapsed: int)
    requires tm.Valid() && GraceCovers(tm) && tm.TailSec() <= 0
    ensures ScoringShift(tm, wonAuto, elapsed) != Some(ShiftPostMatch)
  {
  }

  /** The latest instant, up to `elapsed`, of the shift a FUEL is credited to. */
  function LatestIn(tm: MatchTiming, shift: Shift, elapsed: int): int {
    if elapsed < End(tm, shift) then elapsed else End(tm, shift) - 1
  }

  /** The post-match shift stands for the endgame it follows. */
  function LitShift(shift: Shift): Shift { if shift == ShiftPostMatch then ShiftEndgame else shift }

  lemma CreditedIsNear(tm: MatchTiming, wonAuto: bool, elapsed: int)
    requires tm.Valid() && GraceCovers(tm)
    requires Credits(tm, wonAuto, elapsed)
    ensures var lit := LitShift(ScoringShift(tm, wonAuto, elapsed).value);
            Begin(tm, lit) <= LatestIn(tm, lit, elapsed) && elapsed - SCORING_GRACE <= LatestIn(tm, lit, elapsed)
  {
    if tm.TailSec() <= 0 { TeleopCutShort(tm, wonAuto, elapsed); }
  }

  lemma CreditedWasLit(tm: MatchTiming, wonAuto: bool, elapsed: int)
    requires tm.Valid() && GraceCovers(tm)
    requires Credits(tm, wonAuto, elapsed)
    ensures LitWithinGrace(tm, wonAuto, elapsed)
  {
    var lit := LitShift(ScoringShift(tm, wonAuto, elapsed).value);
    CreditedIsNear(tm, wonAuto, elapsed);
    ActiveShiftIsLit(tm, wonAuto, lit, LatestIn(tm, lit, elapsed));
  }

  lemma LitStillCredits(tm: MatchTiming, wonAuto: bool, u: int, elapsed: int)
    requires tm.Valid()
    requires Lit(tm, wonAuto, u) && u <= elapsed <= u + SCORING_GRACE
    ensures Credits(tm, wonAuto, elapsed)
  {
  }

  /** Outside those settings there is an instant that scores with the HUB long dark: just after
      the grace when the pause outlasts it, or just after Shift 4 when teleop ends too early. */
  lemma DisagreementExists(tm: MatchTiming)
    requires tm.Valid() && !GraceCovers(tm)
    ensures exists wonAuto, elapsed ::
              Credits(tm, wonAuto, elapsed) && !LitWithinGrace(tm, wonAuto, elapsed)
  {
    if tm.pauseSec > 3 {
      var elapsed := tm.AutoEnd() + SCORING_GRACE;
      assert Credits(tm, true, elapsed);
      assert !LitWithinGrace(tm, true, elapsed);
    } else {
      var elapsed := End(tm, Shift4) + (if tm.shiftSec < 3 then Seconds(3 - tm.shiftSec) else 0);
      assert Credits(tm, false, elapsed);
      assert !LitWithinGrace(tm, false, elapsed);
    }
  }

  /** The law of the scoring clock, with its exact condition on the settings. */
  lemma ClocksAgreeExactly(tm: MatchTiming)
    requires tm.Valid()
    ensures ClocksAgree(tm) <==> GraceCovers(tm)
  {
    if GraceCovers(tm) {
      forall wonAuto, elapsed
        ensures Credits(tm, wonAuto, elapsed) <==> LitWithinGrace(tm, wonAuto, elapsed)
      {
        if Credits(tm, wonAuto, elapsed) { CreditedWasLit(tm, wonAuto, elapsed); }
        if LitWithinGrace(tm, wonAuto, elapsed) {
          var u :| elapsed - SCORING_GRACE <= u <= elapsed && Lit(tm, wonAuto, u);
          LitStillCredits(tm, wonAuto, u, elapsed);
        }
      }
    } else {
      DisagreementExists(tm);
    }
  }

  /** Inside an alliance shift the HUB that is active in it always scores; the other one scores
      for its first three seconds only, on the grace of the shift before. */
  lemma CreditsInAllianceShift(tm: MatchTiming, wonAuto: bool, shift: Shift, elapsed: int)
    requires tm.Valid()
    requires shift in {Shift1, Shift2, Shift3, Shift4}
    requires Begin(tm, shift) <= elapsed < End(tm, shift)
    ensures Credits(tm, wonAuto, elapsed) <==>
            IsShiftActive(wonAuto, shift) || elapsed < Begin(tm, shift) + SCORING_GRACE
  {
  }

  /** With opposite AUTO results the two HUBs never leave a FUEL unscored in an alliance shift, and
      both score only while one is in its grace. */
  lemma OneHubScores(tm: MatchTiming, redWonAuto: bool, shift: Shift, elapsed: int)
    requires tm.Valid()
    requires shift in {Shift1, Shift2, Shift3, Shift4}
    requires Begin(tm, shift) <= elapsed < End(tm, shift)
    ensures Credits(tm, redWonAuto, elapsed) || Credits(tm, !redWonAuto, elapsed)
    ensures Credits(tm, redWonAuto, elapsed) && Credits(tm, !redWonAuto, elapsed) <==>
            elapsed < Begin(tm, shift) + SCORING_GRACE
  {
    CreditsInAllianceShift(tm, redWonAuto, shift, elapsed);
    CreditsInAllianceShift(tm, !redWonAuto, shift, elapsed);
  }

  /** No instant from the start of teleop on is credited to AUTO, whatever the HUB, exactly when
      the pause is at least as long as the grace. */
  lemma AutoClosesBeforeTeleop(tm: MatchTiming)
    requires tm.Valid()
    ensures (forall wonAuto, elapsed {:trigger ScoringShift(tm, wonAuto, elapsed)} ::
               tm.TeleopStart() <= elapsed ==> ScoringShift(tm, wonAuto, elapsed) != Some(ShiftAuto)) <==>
            3 <= tm.pauseSec
  {
    if tm.pauseSec < 3 {
      assert ScoringShift(tm, true, tm.TeleopStart()) == Some(ShiftAuto);
    }
  }

  // ------------------------------------------------------------------------------- the tallies

  /** A HUB's state as a value: which way its alternation runs, and its FUEL per shift. */
  datatype HubTally = HubTally(wonAuto: bool, counts: seq<int>) {
    predicate Valid() {
      |counts| == SHIFT_COUNT && forall i :: 0 <= i < |counts| ==> 0 <= counts[i]
    }

    function Total(): int { Sum(counts) }
  }

  const EMPTY_TALLY := HubTally(false, [0, 0, 0, 0, 0, 0, 0, 0])

  type Tally = tally: HubTally | tally.Valid() witness EMPTY_TALLY

  lemma EmptyTallyIsZero()
    ensures EMPTY_TALLY.Valid() && EMPTY_TALLY.Total() == 0
  {
    SumNonNegative(EMPTY_TALLY.counts);
    var c := EMPTY_TALLY.counts;
    assert c == [0, 0, 0, 0] + [0, 0, 0, 0];
    SumAppend([0, 0, 0, 0], [0, 0, 0, 0]);
    assert Sum([0, 0, 0, 0]) == 0 by {
      SumAppend([0, 0], [0, 0]);
      assert [0, 0, 0, 0] == [0, 0] + [0, 0];
    }
  }

  /** The shift a reading is folded into: none before the match or after the last grace. */
  function Window(tm: MatchTiming, wonAuto: bool, elapsed: int): Option<Shift> {
    if elapsed < 0 then None else ScoringShift(tm, wonAuto, elapsed)
  }

  /** The tally after a hardware reading: the FUEL not yet accounted for goes to the open shift. */
  function Counted(tm: MatchTiming, tally: HubTally, count: int, elapsed: int): (r: HubTally)
    requires tally.Valid()
    ensures r.Valid() && r.wonAuto == tally.wonAuto
  {
    var shift := Window(tm, tally.wonAuto, elapsed);
    if shift == None || count <= tally.Total() then tally
    else
      var i := Index(shift.value);
      tally.(counts := tally.counts[i := tally.counts[i] + (count - tally.Total())])
  }

  /** Conservation at one reading: in the window the shifts add up to the reading (unless the
      reading went backwards); outside it nothing moves; and only the open shift ever changes. */
  lemma CountedConserves(tm: MatchTiming, tally: HubTally, count: int, elapsed: int)
    requires tally.Valid()
    ensures var after := Counted(tm, tally, count, elapsed);
            var shift := Window(tm, tally.wonAuto, elapsed);
            && after.Total() == (if shift == None || count < tally.Total() then tally.Total() else count)
            && (forall s: Shift :: Some(s) != shift ==> after.counts[Index(s)] == tally.counts[Index(s)])
  {
    var shift := Window(tm, tally.wonAuto, elapsed);
    if shift != None && count > tally.Total() {
      SumUpdate(tally.counts, Index(shift.value),
                tally.counts[Index(shift.value)] + (count - tally.Total()));
    }
  }

  /** What one reading adds to one shift. */
  lemma CountedAtShift(tm: MatchTiming, tally: HubTally, count: int, elapsed: int, s: Shift)
    requires tally.Valid() && tally.Total() <= count
    ensures Counted(tm, tally, count, elapsed).counts[Index(s)] ==
            tally.counts[Index(s)] +
            if Window(tm, tally.wonAuto, elapsed) == Some(s) then count - tally.Total() else 0
  {
    var shift := Window(tm, tally.wonAuto, elapsed);
    if shift != None { IndexInjective(s, shift.value); }
  }

  /** One reading of the hardware count, and when it was taken. */
  datatype Sample = Sample(count: int, elapsed: int)

  function CountedAll(tm: MatchTiming, tally: HubTally, samples: seq<Sample>): (r: HubTally)
    requires tally.Valid()
    ensures r.Valid() && r.wonAuto == tally.wonAuto
    decreases |samples|
  {
    if samples == [] then tally
    else
      var before := CountedAll(tm, tally, samples[..|samples| - 1]);
      Counted(tm, before, samples[|samples| - 1].count, samples[|samples| - 1].elapsed)
  }

  /** The last reading taken inside the window, or zero before there is one. */
  ghost function LastCounted(tm: MatchTiming, wonAuto: bool, samples: seq<Sample>): int {
    if samples == [] then 0
    else
      var last := samples[|samples| - 1];
      if Window(tm, wonAuto, last.elapsed) != None then last.count
      else LastCounted(tm, wonAuto, samples[..|samples| - 1])
  }

  /** What the rules give a shift: the rises of the reading over the instants the shift was open. */
  ghost function RisesDuring(tm: MatchTiming, wonAuto: bool, samples: seq<Sample>, shift: Shift): int {
    if samples == [] then 0
    else
      var before := samples[..|samples| - 1];
      var last := samples[|samples| - 1];
      RisesDuring(tm, wonAuto, before, shift) +
      if Window(tm, wonAuto, last.elapsed) == Some(shift)
      then last.count - LastCounted(tm, wonAuto, before) else 0
  }

  ghost predicate NonDecreasing(samples: seq<Sample>) {
    && (forall i :: 0 <= i < |samples| ==> 0 <= samples[i].count)
    && (forall i, j :: 0 <= i < j < |samples| ==> samples[i].count <= samples[j].count)
  }

  lemma {:induction false} LastCountedBounds(tm: MatchTiming, wonAuto: bool, samples: seq<Sample>)
    requires NonDecreasing(samples)
    ensures 0 <= LastCounted(tm, wonAuto, samples)
    ensures samples != [] ==> LastCounted(tm, wonAuto, samples) <= samples[|samples| - 1].count
  {
    if samples != [] {
      var before := samples[..|samples| - 1];
      LastCountedBounds(tm, wonAuto, before);
      if before != [] { assert before[|before| - 1] == samples[|samples| - 2]; }
    }
  }

  ghost predicate HoldsRises(tm: MatchTiming, tally: HubTally, samples: seq<Sample>) {
    && tally.Valid()
    && tally.Total() == LastCounted(tm, tally.wonAuto, samples)
    && forall s: Shift :: tally.counts[Index(s)] == RisesDuring(tm, tally.wonAuto, samples, s)
  }

  lemma HoldsRisesStep(tm: MatchTiming, tally: HubTally, before: seq<Sample>, last: Sample)
    requires HoldsRises(tm, tally, before) && tally.Total() <= last.count
    ensures HoldsRises(tm, Counted(tm, tally, last.count, last.elapsed), before + [last])
  {
    var samples := before + [last];
    assert samples[..|samples| - 1] == before;
    var after := Counted(tm, tally, last.count, last.elapsed);
    CountedConserves(tm, tally, last.count, last.elapsed);
    forall s: Shift ensures after.counts[Index(s)] == RisesDuring(tm, tally.wonAuto, samples, s) {
      CountedAtShift(tm, tally, last.count, last.elapsed, s);
    }
  }

  lemma EmptyHoldsRises(tm: MatchTiming, wonAuto: bool)
    ensures HoldsRises(tm, EMPTY_TALLY.(wonAuto := wonAuto), [])
  {
    EmptyTallyIsZero();
  }

  lemma NextCoversCounted(tm: MatchTiming, wonAuto: bool, samples: seq<Sample>)
    requires NonDecreasing(samples) && samples != []
    ensures LastCounted(tm, wonAuto, samples[..|samples| - 1]) <= samples[|samples| - 1].count
  {
    var before := samples[..|samples| - 1];
    LastCountedBounds(tm, wonAuto, before);
    if before != [] { assert before[|before| - 1] == samples[|samples| - 2]; }
  }

  /** Attribution over a whole match: from zeroed tallies, after any readings of a count that never
      falls, every shift holds exactly the FUEL that arrived while it was open, and together they
      hold the last reading taken in the window -- each FUEL in one shift, none twice. */
  lemma {:induction false} TalliesAreRises(tm: MatchTiming, wonAuto: bool, samples: seq<Sample>)
    requires NonDecreasing(samples)
    ensures HoldsRises(tm, CountedAll(tm, EMPTY_TALLY.(wonAuto := wonAuto), samples), samples)
  {
    var empty := EMPTY_TALLY.(wonAuto := wonAuto);
    if samples == [] {
      EmptyHoldsRises(tm, wonAuto);
    } else {
      var before := samples[..|samples| - 1];
      var last := samples[|samples| - 1];
      TalliesAreRises(tm, wonAuto, before);
      NextCoversCounted(tm, wonAuto, samples);
      HoldsRisesStep(tm, CountedAll(tm, empty, before), before, last);
      assert before + [last] == samples;
    }
  }

  // --------------------------------------------------------------------------------- the score

  /** The FUEL of a shift, or none of it if only FUEL shot into a lit HUB is wanted and it was dark. */
  function ShiftCount(tally: HubTally, shift: Shift, activeOnly: bool): int
    requires |tally.counts| == SHIFT_COUNT
  {
    if IsShiftActive(tally.wonAuto, shift) || !activeOnly then tally.counts[Index(shift)] else 0
  }

  function ShiftCounts(tally: HubTally, activeOnly: bool): (counts: seq<int>)
    requires |tally.counts| == SHIFT_COUNT
    ensures |counts| == SHIFT_COUNT
    ensures forall i: nat :: i < SHIFT_COUNT ==> counts[i] == ShiftCount(tally, ShiftAt(i), activeOnly)
  {
    seq(SHIFT_COUNT, i requires 0 <= i < SHIFT_COUNT => ShiftCount(tally, ShiftAt(i), activeOnly))
  }

  /** The score: the FUEL of the shifts in which the HUB was active. */
  function CreditedCount(tally: HubTally): int
    requires |tally.counts| == SHIFT_COUNT
  {
    Sum(ShiftCounts(tally, true))
  }

  /** The score of a match, from zeroed tallies. */
  function Score(tm: MatchTiming, wonAuto: bool, samples: seq<Sample>): int {
    CreditedCount(CountedAll(tm, EMPTY_TALLY.(wonAuto := wonAuto), samples))
  }

  /** What one reading adds to the score. */
  lemma CountedScores(tm: MatchTiming, tally: HubTally, count: int, elapsed: int)
    requires tally.Valid() && tally.Total() <= count
    ensures CreditedCount(Counted(tm, tally, count, elapsed)) ==
            CreditedCount(tally) + if Credits(tm, tally.wonAuto, elapsed) then count - tally.Total() else 0
  {
    var after := Counted(tm, tally, count, elapsed);
    var before, now := ShiftCounts(tally, true), ShiftCounts(after, true);
    var shift := Window(tm, tally.wonAuto, elapsed);
    if shift == None {
      assert now == before;
    } else {
      var i := Index(shift.value);
      forall j: nat | j < SHIFT_COUNT ensures now[j] == before[i := now[i]][j] {
        CountedAtShift(tm, tally, count, elapsed, ShiftAt(j));
        IndexInjective(ShiftAt(j), shift.value);
      }
      assert now == before[i := now[i]];
      SumUpdate(before, i, now[i]);
      CountedAtShift(tm, tally, count, elapsed, shift.value);
      IndexInjective(ShiftAt(i), shift.value);
    }
  }

  /** What the rules give a HUB: the rises of the reading while it has been lit in the last three
      seconds. */
  ghost function RisesWhileLit(tm: MatchTiming, wonAuto: bool, samples: seq<Sample>): int {
    if samples == [] then 0
    else
      var before := samples[..|samples| - 1];
      var last := samples[|samples| - 1];
      RisesWhileLit(tm, wonAuto, before) +
      if LitWithinGrace(tm, wonAuto, last.elapsed) then last.count - LastCounted(tm, wonAuto, before) else 0
  }

  lemma {:induction false} ScoreIsRisesWhileLit(tm: MatchTiming, wonAuto: bool, samples: seq<Sample>)
    requires NonDecreasing(samples) && tm.Valid() && GraceCovers(tm)
    ensures Score(tm, wonAuto, samples) == RisesWhileLit(tm, wonAuto, samples)
  {
    if samples == [] {
      EmptyScoresNothing(wonAuto);
    } else {
      var before := samples[..|samples| - 1];
      var last := samples[|samples| - 1];
      ScoreIsRisesWhileLit(tm, wonAuto, before);
      ScoreStep(tm, wonAuto, before, last);
      assert before + [last] == samples;
    }
  }

  lemma EmptyScoresNothing(wonAuto: bool)
    ensures CreditedCount(EMPTY_TALLY.(wonAuto := wonAuto)) == 0
  {
    EmptyTallyIsZero();
    assert ShiftCounts(EMPTY_TALLY.(wonAuto := wonAuto), true) == EMPTY_TALLY.counts;
  }

  lemma ScoreStep(tm: MatchTiming, wonAuto: bool, before: seq<Sample>, last: Sample)
    requires NonDecreasing(before + [last]) && tm.Valid() && GraceCovers(tm)
    ensures Score(tm, wonAuto, before + [last]) - Score(tm, wonAuto, before) ==
            RisesWhileLit(tm, wonAuto, before + [last]) - RisesWhileLit(tm, wonAuto, before)
  {
    var all := before + [last];
    assert forall i :: 0 <= i < |before| ==> before[i] == all[i];
    assert all[..|all| - 1] == before && all[|before|] == last;
    TalliesAreRises(tm, wonAuto, before);
    LastCountedBounds(tm, wonAuto, before);
    CountedScores(tm, CountedAll(tm, EMPTY_TALLY.(wonAuto := wonAuto), before), last.count, last.elapsed);
    assert Credits(tm, wonAuto, last.elapsed) <==> LitWithinGrace(tm, wonAuto, last.elapsed) by {
      ClocksAgreeExactly(tm);
    }
  }

  /** Until the first alliance shift begins, it makes no difference to the tallies, the lamp or the
      credit that the AUTO result is not known yet. */
  lemma ResultDoesNotMatterYet(tm: MatchTiming, tally: HubTally, won: bool, count: int, elapsed: int)
    requires tm.Valid() && tally.Valid() && elapsed < tm.TransitionEnd()
    ensures Counted(tm, tally.(wonAuto := won), count, elapsed).counts == Counted(tm, tally, count, elapsed).counts
    ensures Lit(tm, won, elapsed) == Lit(tm, tally.wonAuto, elapsed)
    ensures Credits(tm, won, elapsed) == Credits(tm, tally.wonAuto, elapsed)
  {
    assert ScoringShift(tm, won, elapsed) == ScoringShift(tm, tally.wonAuto, elapsed);
  }

  /** From lamps to score: over any readings of a count that never falls, a HUB is credited with exactly
      the FUEL that arrived while it was lit or within three seconds of it -- for every such match
      precisely under the settings for which the clocks agree. */
  lemma ScoreFollowsLampsExactly(tm: MatchTiming)
    requires tm.Valid()
    ensures (forall wonAuto, samples :: NonDecreasing(samples) ==>
               Score(tm, wonAuto, samples) == RisesWhileLit(tm, wonAuto, samples)) <==>
            GraceCovers(tm)
  {
    if GraceCovers(tm) {
      forall wonAuto, samples | NonDecreasing(samples)
        ensures Score(tm, wonAuto, samples) == RisesWhileLit(tm, wonAuto, samples)
      {
        ScoreIsRisesWhileLit(tm, wonAuto, samples);
      }
    } else {
      DisagreementExists(tm);
      var wonAuto, elapsed :| Credits(tm, wonAuto, elapsed) && !LitWithinGrace(tm, wonAuto, elapsed);
      DarkFuelScores(tm, wonAuto, elapsed);
    }
  }

  lemma DarkFuelScores(tm: MatchTiming, wonAuto: bool, elapsed: int)
    requires Credits(tm, wonAuto, elapsed) && !LitWithinGrace(tm, wonAuto, elapsed)
    ensures var samples := [Sample(1, elapsed)];
            && NonDecreasing(samples)
            && Score(tm, wonAuto, samples) == 1
            && RisesWhileLit(tm, wonAuto, samples) == 0
  {
    var samples := [Sample(1, elapsed)];
    var empty := EMPTY_TALLY.(wonAuto := wonAuto);
    assert samples[..0] == [];
    EmptyTallyIsZero();
    EmptyScoresNothing(wonAuto);
    CountedScores(tm, empty, 1, elapsed);
    assert CountedAll(tm, empty, samples) == Counted(tm, CountedAll(tm, empty, []), 1, elapsed);
  }

  // ------------------------------------------------------------------------------- the Hub object

  /** The Hub object, whose tallies are updated in place. */
  class Hub {
    var wonAuto: bool
    const shiftCounts: array<int>

    ghost predicate Valid()
      reads this, shiftCounts
    {
      shiftCounts.Length == SHIFT_COUNT && View().Valid()
    }

    ghost function View(): HubTally
      reads this, shiftCounts
    {
      HubTally(wonAuto, shiftCounts[..])
    }

    constructor ()
      ensures Valid() && fresh(shiftCounts) && View() == EMPTY_TALLY
    {
      wonAuto := false;
      shiftCounts := new int[8](_ => 0);
      new;
      assert shiftCounts[..] == EMPTY_TALLY.counts;
    }

    /** The zero value, which is what the arena assigns to reset a HUB. */
    method Reset()
      requires Valid()
      modifies this, shiftCounts
      ensures Valid() && View() == EMPTY_TALLY
    {
      wonAuto := false;
      forall i | 0 <= i < shiftCounts.Length { shiftCounts[i] := 0; }
      assert shiftCounts[..] == EMPTY_TALLY.counts;
    }

    method GetCurrentShift(tm: MatchTiming, matchStartTime: int, currentTime: int)
      returns (shift: Option<Shift>)
      requires Valid()
      ensures shift == ScoringShift(tm, wonAuto, currentTime - matchStartTime)
    {
      ghost var elapsed := currentTime - matchStartTime;
      if currentTime < matchStartTime + tm.AutoEnd() + ScoringGracePeriod(wonAuto, ShiftAuto) {
        return Some(ShiftAuto);
      }
      var teleopStartTime := matchStartTime + tm.TeleopStart();
      var shiftEndTime := teleopStartTime + Seconds(tm.transitionSec);
      if currentTime < shiftEndTime + ScoringGracePeriod(wonAuto, ShiftTransition) {
        return Some(ShiftTransition);
      }
      ClosesNext(tm, wonAuto, elapsed, ShiftAuto);
      ClosesNext(tm, wonAuto, elapsed, ShiftTransition);
      shift := GetAllianceShift(tm, shiftEndTime, currentTime, elapsed);
      if shift.Some? {
        return;
      }
      var teleopEndTime := matchStartTime + tm.TeleopEnd();
      if currentTime < teleopEndTime {
        FirstOpen(tm, wonAuto, elapsed, ShiftEndgame);
        return Some(ShiftEndgame);
      }
      ClosesNext(tm, wonAuto, elapsed, ShiftEndgame);
      if currentTime < teleopEndTime + ScoringGracePeriod(wonAuto, ShiftPostMatch) {
        FirstOpen(tm, wonAuto, elapsed, ShiftPostMatch);
        return Some(ShiftPostMatch);
      }
      ClosesNext(tm, wonAuto, elapsed, ShiftPostMatch);
      NoneOpen(tm, wonAuto, elapsed);
      return None;
    }

    /** The alliance shifts, the first of which begins at the given time. */
    method GetAllianceShift(tm: MatchTiming, begin: int, currentTime: int, ghost elapsed: int)
      returns (shift: Option<Shift>)
      requires ClosedBefore(tm, wonAuto, elapsed, Index(Shift1)) && currentTime - begin == elapsed - tm.TransitionEnd()
      ensures if shift.Some? then ScoringShift(tm, wonAuto, elapsed) == shift
              else ClosedBefore(tm, wonAuto, elapsed, Index(ShiftEndgame))
    {
      var shiftEndTime := begin;
      for i := Index(Shift1) to Index(ShiftEndgame)
        invariant currentTime - shiftEndTime == elapsed - Begin(tm, ShiftAt(i))
        invariant ClosedBefore(tm, wonAuto, elapsed, i)
      {
        AllianceDeadline(tm, wonAuto, i);
        shiftEndTime := shiftEndTime + Seconds(tm.shiftSec);
        if currentTime < shiftEndTime + ScoringGracePeriod(wonAuto, ShiftAt(i)) {
          FirstOpen(tm, wonAuto, elapsed, ShiftAt(i));
          return Some(ShiftAt(i));
        }
        ClosesNext(tm, wonAuto, elapsed, ShiftAt(i));
      }
      return None;
    }

    /** The lighting clock, with what is left of the current shift and how long it is. */
    method GetCurrentShiftTiming(tm: MatchTiming, matchStartTime: int, currentTime: int)
      returns (shift: Option<Shift>, remaining: int, duration: int)
      ensures shift == LightingShift(tm, currentTime - matchStartTime)
      ensures if shift.Some? then
                && remaining == matchStartTime + End(tm, shift.value) - currentTime
                && duration == End(tm, shift.value) - Begin(tm, shift.value)
              else remaining == 0 && duration == 0
    {
      var shiftStartTime := matchStartTime;
      var shiftEndTime := matchStartTime + tm.AutoEnd();
      ghost var elapsed := currentTime - matchStartTime;
      for i := 0 to Index(ShiftPostMatch)
        invariant i < Index(ShiftPostMatch) ==>
                    && shiftStartTime == matchStartTime + Begin(tm, ShiftAt(i))
                    && shiftEndTime == matchStartTime + End(tm, ShiftAt(i))
        invariant forall j: nat :: j < i ==> !Inside(tm, ShiftAt(j), elapsed)
      {
        var s := ShiftAt(i);
        LightingShiftIsFirstInside(tm, elapsed, i);
        var shiftDuration := shiftEndTime - shiftStartTime;
        if shiftStartTime <= currentTime < shiftEndTime {
          return Some(s), shiftEndTime - currentTime, shiftDuration;
        }
        ShiftsFollow(tm, i);
        shiftStartTime := shiftEndTime;
        match s {
          case ShiftAuto =>
            shiftStartTime := matchStartTime + tm.TeleopStart();
            shiftEndTime := shiftStartTime + Seconds(tm.transitionSec);
          case ShiftTransition | Shift1 | Shift2 | Shift3 =>
            shiftEndTime := shiftEndTime + Seconds(tm.shiftSec);
          case Shift4 =>
            shiftEndTime := matchStartTime + tm.TeleopEnd();
          case _ =>
            shiftEndTime := shiftStartTime;
        }
      }
      LightingShiftIsFirstInside(tm, elapsed, Index(ShiftPostMatch));
      return None, 0, 0;
    }

    /** What is left of the current shift if this HUB is active in it, and zero otherwise. */
    method GetActiveShiftTiming(tm: MatchTiming, matchStartTime: int, currentTime: int)
      returns (remaining: int, duration: int)
      ensures 0 < remaining <==> Lit(tm, wonAuto, currentTime - matchStartTime)
      ensures 0 <= remaining
      ensures var shift := LightingShift(tm, currentTime - matchStartTime);
              duration == if shift.Some? then End(tm, shift.value) - Begin(tm, shift.value) else 0
      ensures 0 < remaining ==>
                matchStartTime + End(tm, LightingShift(tm, currentTime - matchStartTime).value) ==
                currentTime + remaining
    {
      var shift, left, total := GetCurrentShiftTiming(tm, matchStartTime, currentTime);
      if shift == None {
        return 0, 0;
      }
      if IsShiftActive(wonAuto, shift.value) {
        return left, total;
      }
      return 0, total;
    }

    method UpdateState(tm: MatchTiming, count: int, matchStartTime: int, currentTime: int)
      requires Valid()
      modifies shiftCounts
      ensures Valid()
      ensures View() == Counted(tm, old(View()), count, currentTime - matchStartTime)
    {
      if currentTime < matchStartTime {
        return;
      }
      var shift := GetCurrentShift(tm, matchStartTime, currentTime);
      if shift == None {
        return;
      }
      var existingCount := SumOf(shiftCounts);
      var newFuel := count - existingCount;
      if newFuel <= 0 {
        return;
      }
      var i := Index(shift.value);
      shiftCounts[i] := shiftCounts[i] + newFuel;
    }
  }

  /** hubTotalCount and hubCreditedCount: every FUEL seen, or only what scored. */
  method Fuel(hub: Hub, activeOnly: bool) returns (count: int)
    requires hub.Valid()
    ensures count == if activeOnly then CreditedCount(hub.View()) else hub.View().Total()
  {
    count := 0;
    ghost var counts := ShiftCounts(hub.View(), activeOnly);
    for i := 0 to SHIFT_COUNT
      invariant count == Sum(counts[..i])
    {
      SumAppend(counts[..i], [counts[i]]);
      assert counts[..i + 1] == counts[..i] + [counts[i]];
      if IsShiftActive(hub.wonAuto, ShiftAt(i)) || !activeOnly {
        count := count + hub.shiftCounts[i];
      }
    }
    assert counts[..SHIFT_COUNT] == counts;
    if !activeOnly { assert counts == hub.View().counts; }
  }

  method SumOf(a: array<int>) returns (sum: int)
    ensures sum == Sum(a[..])
  {
    sum := 0;
    for i := 0 to a.Length
      invariant sum == Sum(a[..i])
    {
      SumAppend(a[..i], [a[i]]);
      assert a[..i + 1] == a[..i] + [a[i]];
      sum := sum + a[i];
    }
    assert a[..a.Length] == a[..];
  }
}
