/** The score over runs of the arena: from the readings of the counter at its ticks, by way of an AUTO
    result that is not known at first, to what each HUB is credited with. */
module MatchScore {
  import opened Common
  import opened Timing
  import opened Hub
  import opened HubCounter
  import opened HubLights
  import opened MatchState
  import opened MatchSafety
  import opened MatchScoring
  import opened MatchClock
  import opened MatchPace

  function HubOf(s: State, a: Alliance): Tally { if a == Red then s.redHub else s.blueHub }

  function Reported(s: State, a: Alliance): int { if a == Red then s.feed.Total().red else s.feed.Total().blue }

  function Reading(b: State, now: int, a: Alliance): Sample { Sample(Reported(b, a), now - b.matchStartTime) }

  /** A tick takes one more reading. */
  function Read(b: State, now: int, e: Event, a: Alliance, samples: seq<Sample>): seq<Sample> {
    if e.Tick? then samples + [Reading(b, now, a)] else samples
  }

  /** What the counter reported for an alliance at each tick of a run. */
  function Readings(cfg: Config, s: State, run: Run, a: Alliance): seq<Sample> {
    match run
    case Begin => []
    case Then(before, now, e) => Read(Ran(cfg, s, before), now, e, a, Readings(cfg, s, before, a))
  }

  /** A tick goes by this result, or comes before the first alliance shift. */
  predicate SettledAt(cfg: Config, b: State, now: int, e: Event, winner: Alliance) {
    e.Tick? ==> b.autoWinner == winner || now - b.matchStartTime < cfg.tm.TransitionEnd()
  }

  predicate Settled(cfg: Config, s: State, run: Run, winner: Alliance) {
    match run
    case Begin => true
    case Then(before, now, e) => Settled(cfg, s, before, winner) && SettledAt(cfg, Ran(cfg, s, before), now, e, winner)
  }

  // ---------------------------------------------------------------------- the readings never fall

  lemma ReportedIsNatural(s: State, a: Alliance)
    requires s.feed.Valid()
    ensures 0 <= Reported(s, a)
  {
  }

  lemma ReportedRises(cfg: Config, s: State, now: int, e: Event, a: Alliance)
    requires s.feed.Valid() && !Resets(s, now, e)
    ensures Reported(s, a) <= Reported(Step(cfg, s, now, e), a)
  {
    if e.Tick? {
      TickScores(cfg, s, now, e.tick);
    } else {
      CommandsScoreNothing(cfg, s, now, e);
      if e.Receive? && Admitted(e.message).Some? { RecordedKeeps(s.feed, Admitted(e.message).value); }
    }
  }

  lemma OneMoreReading(samples: seq<Sample>, s: Sample, bound: int)
    requires NonDecreasing(samples) && 0 <= s.count && (samples != [] ==> samples[|samples| - 1].count <= bound)
    requires bound <= s.count
    ensures NonDecreasing(samples + [s])
  {
    var all := samples + [s];
    forall i, j | 0 <= i < j < |all| ensures all[i].count <= all[j].count {
      if j == |samples| && i < j - 1 { assert samples[i].count <= samples[|samples| - 1].count; }
    }
  }

  /** The readings so far never fall, and the counter is not behind them. */
  ghost predicate Risen(samples: seq<Sample>, reported: int) {
    NonDecreasing(samples) && (samples != [] ==> samples[|samples| - 1].count <= reported)
  }

  lemma RisenStep(cfg: Config, b: State, now: int, e: Event, a: Alliance, samples: seq<Sample>)
    requires b.feed.Valid() && !Resets(b, now, e) && Risen(samples, Reported(b, a))
    ensures Risen(Read(b, now, e, a, samples), Reported(Step(cfg, b, now, e), a))
  {
    ReportedIsNatural(b, a);
    ReportedRises(cfg, b, now, e, a);
    if e.Tick? { OneMoreReading(samples, Reading(b, now, a), Reported(b, a)); }
  }

  lemma {:induction false} ReadingsRise(cfg: Config, s: State, run: Run, a: Alliance)
    requires Funded(s) && NoResets(cfg, s, run)
    ensures Risen(Readings(cfg, s, run, a), Reported(Ran(cfg, s, run), a))
  {
    match run
    case Begin =>
    case Then(before, now, e) =>
      ReadingsRise(cfg, s, before, a);
      AlwaysFunded(cfg, s, before);
      RisenStep(cfg, Ran(cfg, s, before), now, e, a, Readings(cfg, s, before, a));
  }

  // -------------------------------------------------------------------- the tallies of a whole match

  /** Counted under another result, but early enough, a reading moves the tallies the same. */
  lemma CountedAlike(tm: MatchTiming, hub: Tally, tally: HubTally, won: bool, count: int, elapsed: int)
    requires tm.Valid() && tally.Valid() && tally.counts == hub.counts
    requires won == tally.wonAuto || elapsed < tm.TransitionEnd()
    ensures Counted(tm, WithResult(hub, won), count, elapsed).counts == Counted(tm, tally, count, elapsed).counts
  {
    var under := WithResult(hub, won);
    assert under.(wonAuto := tally.wonAuto) == tally;
    if won != tally.wonAuto { ResultDoesNotMatterYet(tm, under, tally.wonAuto, count, elapsed); }
  }

  lemma CountsOfTick(cfg: Config, s: State, now: int, tick: TickInput, a: Alliance)
    requires a != NoAlliance && !Resets(s, now, Tick(tick))
    ensures HubOf(Ticked(cfg, s, now, tick), a).counts ==
            Counted(cfg.tm, WithResult(HubOf(s, a), s.autoWinner == a), Reported(s, a), now - s.matchStartTime).counts
  {
    TickScores(cfg, s, now, tick);
    CountingKeepsMatch(cfg, s, now);
  }

  /** The tallies are those of these readings, under the final result. */
  ghost predicate TalliesAre(tm: MatchTiming, hub: Tally, empty: HubTally, samples: seq<Sample>)
    requires empty.Valid()
  {
    hub.counts == CountedAll(tm, empty, samples).counts
  }

  lemma OneMoreCounted(
      tm: MatchTiming, hub: Tally, after: Tally, empty: HubTally, samples: seq<Sample>, s: Sample, won: bool)
    requires tm.Valid() && empty.Valid() && TalliesAre(tm, hub, empty, samples)
    requires won == empty.wonAuto || s.elapsed < tm.TransitionEnd()
    requires after.counts == Counted(tm, WithResult(hub, won), s.count, s.elapsed).counts
    ensures TalliesAre(tm, after, empty, samples + [s])
  {
    var all := samples + [s];
    assert all[..|all| - 1] == samples && all[|all| - 1] == s;
    CountedAlike(tm, hub, CountedAll(tm, empty, samples), won, s.count, s.elapsed);
  }

  lemma TalliesStep(cfg: Config, b: State, now: int, e: Event, winner: Alliance, a: Alliance, empty: HubTally,
                    samples: seq<Sample>)
    requires cfg.tm.Valid() && a != NoAlliance && empty.Valid() && empty.wonAuto == (winner == a)
    requires !Resets(b, now, e) && SettledAt(cfg, b, now, e, winner) && TalliesAre(cfg.tm, HubOf(b, a), empty, samples)
    ensures TalliesAre(cfg.tm, HubOf(Step(cfg, b, now, e), a), empty, Read(b, now, e, a, samples))
  {
    if e.Tick? {
      CountsOfTick(cfg, b, now, e.tick, a);
      OneMoreCounted(cfg.tm, HubOf(b, a), HubOf(Ticked(cfg, b, now, e.tick), a), empty, samples, Reading(b, now, a),
                     b.autoWinner == a);
    } else {
      CommandsScoreNothing(cfg, b, now, e);
    }
  }

  /** After any run without a reset the tallies are those of its readings under the final result. */
  lemma {:induction false} TalliesOfReadings(cfg: Config, s: State, run: Run, winner: Alliance, a: Alliance,
                                             empty: HubTally)
    requires cfg.tm.Valid() && a != NoAlliance
    requires empty.Valid() && empty.wonAuto == (winner == a) && HubOf(s, a).counts == empty.counts
    requires NoResets(cfg, s, run) && Settled(cfg, s, run, winner)
    ensures TalliesAre(cfg.tm, HubOf(Ran(cfg, s, run), a), empty, Readings(cfg, s, run, a))
  {
    match run
    case Begin =>
    case Then(before, now, e) =>
      TalliesOfReadings(cfg, s, before, winner, a, empty);
      TalliesStep(cfg, Ran(cfg, s, before), now, e, winner, a, empty, Readings(cfg, s, before, a));
  }

  lemma SameScore(t: HubTally, u: HubTally)
    requires |t.counts| == SHIFT_COUNT && t == u
    ensures CreditedCount(t) == CreditedCount(u)
  {
  }

  /** The score of a match. Take any run from the moment the counts start, without a reset, in which the
      result is out before the first alliance shift. Then each HUB is credited with exactly the rises of
      the counter's report at ticks within three seconds of its lamp being lit under that result. */
  lemma ScoreFollowsLampsInRuns(cfg: Config, s: State, run: Run, winner: Alliance, a: Alliance)
    requires cfg.tm.Valid() && GraceCovers(cfg.tm)
    requires a != NoAlliance && HubOf(s, a).counts == EMPTY_TALLY.counts && Funded(s)
    requires NoResets(cfg, s, run) && Settled(cfg, s, run, winner)
    ensures CreditedCount(WithResult(HubOf(Ran(cfg, s, run), a), winner == a)) ==
            RisesWhileLit(cfg.tm, winner == a, Readings(cfg, s, run, a))
  {
    var won, samples := winner == a, Readings(cfg, s, run, a);
    var tally := CountedAll(cfg.tm, EMPTY_TALLY.(wonAuto := won), samples);
    TalliesOfReadings(cfg, s, run, winner, a, EMPTY_TALLY.(wonAuto := won));
    ReadingsRise(cfg, s, run, a);
    ScoreIsRisesWhileLit(cfg.tm, won, samples);
    SameScore(WithResult(HubOf(Ran(cfg, s, run), a), won), tally);
  }

  // --------------------------------------------------------------- the result is out in time

  /** The match is on, or over and not yet cleared; before teleop there is no result. */
  predicate Underway(s: State) {
    (Running(s.phase) || s.phase == PostMatch) && (BeforeTeleop(s.phase) ==> s.autoWinner == NoAlliance)
  }

  /** Every tick so far came before the first alliance shift. */
  predicate Early(cfg: Config, s: State, run: Run) {
    match run
    case Begin => true
    case Then(before, now, e) =>
      && Early(cfg, s, before)
      && (e.Tick? ==> now - Ran(cfg, s, before).matchStartTime < cfg.tm.TransitionEnd())
  }

  lemma {:induction false} EarlyIsSettled(cfg: Config, s: State, run: Run, winner: Alliance)
    requires Early(cfg, s, run)
    ensures Settled(cfg, s, run, winner)
  {
    match run
    case Begin =>
    case Then(before, now, e) => EarlyIsSettled(cfg, s, before, winner);
  }

  lemma AdvanceUnderway(cfg: Config, s: State, now: int, coin: bool, tick: TickInput)
    requires Underway(s) && !Resets(s, now, Tick(tick))
    ensures var t := Advanced(cfg, s, now, coin).s;
            && Underway(t)
            && (BeforeTeleop(t.phase) ==> BeforeTeleop(s.phase))
            && (BeforeTeleop(s.phase) || t.autoWinner == s.autoWinner)
  {
  }

  /** What a step of the match does to its result: only the step into teleop changes it. */
  lemma StepUnderway(cfg: Config, s: State, now: int, e: Event)
    requires Underway(s) && !Resets(s, now, e)
    ensures var t := Step(cfg, s, now, e);
            && Underway(t)
            && (BeforeTeleop(t.phase) ==> BeforeTeleop(s.phase))
            && ((e.Tick? && BeforeTeleop(s.phase)) || t.autoWinner == s.autoWinner)
  {
    if e.Tick? {
      var c := HubsCounted(cfg, s, now);
      CountingKeepsMatch(cfg, s, now);
      AdvanceUnderway(cfg, c, now, e.tick.coin, e.tick);
      SentKeeps(cfg, s, now, e.tick.coin);
      TickAfterSent(cfg, Sent(cfg, s, now, e.tick.coin), now, e.tick);
    }
  }

  /** The settings under which ticks this far apart bring the result before the first alliance shift. */
  predicate ResultIsInTime(tm: MatchTiming, gap: int) { LatestEntry(tm, gap) < tm.TransitionEnd() }

  /** A match that has been ticked often enough has gone by its present result throughout; and while there
      is none, it is early. */
  lemma {:induction false} MatchIsSettled(cfg: Config, s: State, run: Run, gap: int)
    requires cfg.tm.Valid() && 0 <= gap && ResultIsInTime(cfg.tm, gap)
    requires Underway(s) && Punctual(cfg, s, gap) && Paced(cfg, s, run, gap) && NoResets(cfg, s, run)
    ensures var t := Ran(cfg, s, run);
            && Underway(t) && Settled(cfg, s, run, t.autoWinner)
            && (BeforeTeleop(t.phase) ==> Early(cfg, s, run))
  {
    match run
    case Begin =>
    case Then(before, now, e) =>
      var b, t := Ran(cfg, s, before), Ran(cfg, s, run);
      MatchIsSettled(cfg, s, before, gap);
      StepUnderway(cfg, b, now, e);
      if BeforeTeleop(b.phase) {
        AlwaysPunctual(cfg, s, before, gap);
        if e.Tick? { BeforeTeleopIsSoon(cfg, b, now, gap); }
        EarlyIsSettled(cfg, s, run, t.autoWinner);
      }
  }

  lemma StartIsUnderway(cfg: Config, s: State, now: int, tick: TickInput, gap: int)
    requires cfg.tm.Valid() && 0 <= gap && s.phase == StartMatch
    ensures var b := Ticked(cfg, s, now, tick); Underway(b) && Punctual(cfg, b, gap) && Zeroed(s, b)
  {
    var c := HubsCounted(cfg, s, now);
    CountingKeepsMatch(cfg, s, now);
    TickScores(cfg, s, now, tick);
    SentKeeps(cfg, s, now, tick.coin);
    TickAfterSent(cfg, Sent(cfg, s, now, tick.coin), now, tick);
    PunctualTick(cfg, s, now, tick, gap);
  }

  // ------------------------------------------------------------------- the HUBs know the result

  /** Each HUB goes by the result as it stands. */
  predicate HubsKnow(s: State) {
    s.redHub.wonAuto == (s.autoWinner == Red) && s.blueHub.wonAuto == (s.autoWinner == Blue)
  }

  lemma CountedKnow(cfg: Config, s: State, now: int)
    ensures HubsKnow(HubsCounted(cfg, s, now))
  {
  }

  lemma AdvancedKnow(cfg: Config, c: State, now: int, coin: bool)
    requires HubsKnow(c)
    ensures HubsKnow(Advanced(cfg, c, now, coin).s)
  {
  }

  lemma StepKnows(cfg: Config, s: State, now: int, e: Event)
    requires HubsKnow(s)
    ensures HubsKnow(Step(cfg, s, now, e))
  {
    if e.Tick? { TickKnows(cfg, s, now, e.tick); }
  }

  lemma {:induction false} AlwaysKnow(cfg: Config, s: State, run: Run)
    requires HubsKnow(s)
    ensures HubsKnow(Ran(cfg, s, run))
  {
    match run
    case Begin =>
    case Then(before, now, e) =>
      AlwaysKnow(cfg, s, before);
      StepKnows(cfg, Ran(cfg, s, before), now, e);
  }

  lemma TickKnows(cfg: Config, s: State, now: int, tick: TickInput)
    ensures HubsKnow(Ticked(cfg, s, now, tick))
  {
    CountedKnow(cfg, s, now);
    AdvancedKnow(cfg, HubsCounted(cfg, s, now), now, tick.coin);
    SentKeeps(cfg, s, now, tick.coin);
    TickAfterSent(cfg, Sent(cfg, s, now, tick.coin), now, tick);
  }

  lemma KnownIsOwn(s: State, a: Alliance)
    requires HubsKnow(s) && a != NoAlliance
    ensures WithResult(HubOf(s, a), s.autoWinner == a) == HubOf(s, a)
  {
  }

  lemma ZeroedIsEmpty(s: State, b: State, a: Alliance)
    requires Zeroed(s, b)
    ensures HubOf(b, a).counts == EMPTY_TALLY.counts
  {
  }

  /** The score of any match: from the tick that starts it, through any run until it is cleared with ticks a
      gap apart that brings the result in time, each HUB is credited with exactly the rises of the counter's
      report at ticks within three seconds of its lamp being lit under the result of that match. */
  lemma MatchScoreFollowsLamps(cfg: Config, s: State, now: int, tick: TickInput, run: Run, gap: int, a: Alliance)
    requires cfg.tm.Valid() && GraceCovers(cfg.tm) && 0 <= gap && ResultIsInTime(cfg.tm, gap)
    requires s.phase == StartMatch && Funded(s) && a != NoAlliance
    requires var b := Ticked(cfg, s, now, tick); NoResets(cfg, b, run) && Paced(cfg, b, run, gap)
    ensures var b := Ticked(cfg, s, now, tick);
            var won := Ran(cfg, b, run).autoWinner == a;
            CreditedCount(HubOf(Ran(cfg, b, run), a)) == RisesWhileLit(cfg.tm, won, Readings(cfg, b, run, a))
  {
    var b := Ticked(cfg, s, now, tick);
    StartIsUnderway(cfg, s, now, tick, gap);
    MatchIsSettled(cfg, b, run, gap);
    FundedStep(cfg, s, now, Tick(tick));
    ZeroedIsEmpty(s, b, a);
    ScoreFollowsLampsInRuns(cfg, b, run, Ran(cfg, b, run).autoWinner, a);
    TickKnows(cfg, s, now, tick);
    AlwaysKnow(cfg, b, run);
    KnownIsOwn(Ran(cfg, b, run), a);
  }

  /** With the settings the controller starts with, ticks at most six and a half seconds apart do. */
  lemma DefaultsBringResultExactly(gap: int)
    requires 0 <= gap
    ensures ResultIsInTime(DEFAULT_TIMING, gap) <==> 2 * gap <= Seconds(13)
    ensures ShutByNow(DEFAULT_TIMING)
  {
  }
}
