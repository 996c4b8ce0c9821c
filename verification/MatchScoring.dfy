/** FUEL and the AUTO result over whole runs of the arena. */
module MatchScoring {
  import opened Common
  import opened Timing
  import opened Hub
  import opened HubCounter
  import opened HubLights
  import opened MatchState
  import opened MatchSafety
  import opened MatchClock

  /** The steps that start the count again: a match starting, or one being loaded. */
  predicate Resets(s: State, now: int, e: Event) {
    match e
    case Tick(_) => s.phase == StartMatch || (s.phase == PostMatch && now - s.postMatchStartTime >= POST_MATCH_DWELL)
    case Clear => s.phase == PostMatch
    case ResetField => !InProgress(s.phase)
    case Load(_) => s.phase == PreMatch
    case _ => false
  }

  /** What one step does to the scoring: it counts (a tick), or starts again, or leaves it alone. */
  predicate Scored(c: State, t: State) {
    && t.redHub.counts == c.redHub.counts && t.blueHub.counts == c.blueHub.counts
    && t.matchStartTime == c.matchStartTime
  }

  predicate Zeroed(s: State, t: State) {
    && t.redHub == EMPTY_TALLY && t.blueHub == EMPTY_TALLY && t.feed == s.feed.Rebased()
  }

  lemma ClearedIsZeroed(cfg: Config, s: State)
    requires s.phase == PostMatch
    ensures Zeroed(s, MatchCleared(cfg, s))
  {
  }

  lemma AdvanceScores(cfg: Config, c: State, now: int, coin: bool, tick: TickInput)
    ensures var a := Advanced(cfg, c, now, coin).s;
            if Resets(c, now, Tick(tick)) then Zeroed(c, a) else Scored(c, a) && a.feed == c.feed
  {
    if c.phase == PostMatch { ClearedIsZeroed(cfg, c); }
  }

  lemma CountingKeepsMatch(cfg: Config, s: State, now: int)
    ensures var c := HubsCounted(cfg, s, now);
            && c == s.(redHub := c.redHub, blueHub := c.blueHub)
            && c.redHub == Counted(cfg.tm, WithResult(s.redHub, s.autoWinner == Red), s.feed.Total().red,
                                   now - s.matchStartTime)
            && c.blueHub == Counted(cfg.tm, WithResult(s.blueHub, s.autoWinner == Blue), s.feed.Total().blue,
                                    now - s.matchStartTime)
  {
  }

  lemma TickScores(cfg: Config, s: State, now: int, tick: TickInput)
    ensures var c := HubsCounted(cfg, s, now);
            var t := Ticked(cfg, s, now, tick);
            if Resets(s, now, Tick(tick)) then Zeroed(s, t) else Scored(c, t) && t.feed == s.feed
  {
    var c := HubsCounted(cfg, s, now);
    CountingKeepsMatch(cfg, s, now);
    AdvanceScores(cfg, c, now, tick.coin, tick);
    SentKeeps(cfg, s, now, tick.coin);
    TickAfterSent(cfg, Sent(cfg, s, now, tick.coin), now, tick);
  }

  lemma CommandsScoreNothing(cfg: Config, s: State, now: int, e: Event)
    requires !e.Tick?
    ensures var t := Step(cfg, s, now, e);
            if Resets(s, now, e) then Zeroed(s, t) && t.matchStartTime == s.matchStartTime
            else
              && t.redHub == s.redHub && t.blueHub == s.blueHub && t.matchStartTime == s.matchStartTime
              && t.feed == if e.Receive? && Admitted(e.message).Some?
                           then s.feed.Recorded(Admitted(e.message).value) else s.feed
  {
  }

  // --------------------------------------------------------------------------- conservation

  /** The tallies never hold more FUEL than the counter has reported. */
  ghost predicate Funded(s: State) {
    && s.feed.Valid()
    && s.redHub.Total() <= s.feed.Total().red && s.blueHub.Total() <= s.feed.Total().blue
  }

  /** One HUB at one tick of a match: in its scoring window the tallies come to exactly what the
      counter reports; outside it nothing moves. */
  predicate Conserved(tm: MatchTiming, won: bool, elapsed: int, before: Tally, after: Tally, reported: int) {
    if Window(tm, won, elapsed) == None then after.counts == before.counts else after.Total() == reported
  }

  lemma CountedIsConserved(tm: MatchTiming, hub: Tally, won: bool, reported: int, elapsed: int)
    requires hub.Total() <= reported
    ensures var after := Counted(tm, WithResult(hub, won), reported, elapsed);
            Conserved(tm, won, elapsed, hub, after, reported) && after.Total() <= reported
  {
    CountedConserves(tm, WithResult(hub, won), reported, elapsed);
  }

  /** What a tick does to the scoring, in terms of what the counter reports. */
  predicate TickConserves(cfg: Config, s: State, now: int, t: State, resets: bool) {
    if resets then t.redHub.Total() == 0 && t.blueHub.Total() == 0 && t.feed.Total() == ZERO
    else
      && t.feed == s.feed
      && Conserved(cfg.tm, s.autoWinner == Red, now - s.matchStartTime, s.redHub, t.redHub, s.feed.Total().red)
      && Conserved(cfg.tm, s.autoWinner == Blue, now - s.matchStartTime, s.blueHub, t.blueHub, s.feed.Total().blue)
  }

  lemma EmptyTotal(hub: Tally)
    requires hub == EMPTY_TALLY
    ensures hub.Total() == 0
  {
    EmptyTallyIsZero();
  }

  lemma NothingLeftIsFunded(t: State)
    requires t.feed.Valid() && t.feed.Total() == ZERO && t.redHub.Total() == 0 && t.blueHub.Total() == 0
    ensures Funded(t)
  {
  }

  lemma ZeroedIsFunded(s: State, t: State)
    requires Zeroed(s, t) && s.feed.Valid()
    ensures Funded(t) && t.redHub.Total() == 0 && t.blueHub.Total() == 0 && t.feed.Total() == ZERO
  {
    assert t.feed.Valid() && t.feed.Total() == ZERO by { RebasedIsZero(s.feed); }
    assert t.redHub.Total() == 0 by { EmptyTotal(t.redHub); }
    assert t.blueHub.Total() == 0 by { EmptyTotal(t.blueHub); }
    NothingLeftIsFunded(t);
  }

  lemma ScoredIsFunded(cfg: Config, s: State, c: State, now: int, t: State)
    requires Funded(s) && Scored(c, t) && t.feed == s.feed
    requires c == HubsCounted(cfg, s, now)
    ensures Funded(t) && TickConserves(cfg, s, now, t, false)
  {
    CountingKeepsMatch(cfg, s, now);
    CountedIsConserved(cfg.tm, s.redHub, s.autoWinner == Red, s.feed.Total().red, now - s.matchStartTime);
    CountedIsConserved(cfg.tm, s.blueHub, s.autoWinner == Blue, s.feed.Total().blue, now - s.matchStartTime);
  }

  lemma FundedTick(cfg: Config, s: State, now: int, tick: TickInput)
    requires Funded(s)
    ensures Funded(Ticked(cfg, s, now, tick))
    ensures TickConserves(cfg, s, now, Ticked(cfg, s, now, tick), Resets(s, now, Tick(tick)))
  {
    TickScores(cfg, s, now, tick);
    var t := Ticked(cfg, s, now, tick);
    if Resets(s, now, Tick(tick)) {
      ZeroedIsFunded(s, t);
    } else {
      ScoredIsFunded(cfg, s, HubsCounted(cfg, s, now), now, t);
    }
  }

  lemma FundedCommand(cfg: Config, s: State, now: int, e: Event)
    requires Funded(s) && !e.Tick?
    ensures Funded(Step(cfg, s, now, e))
  {
    CommandsScoreNothing(cfg, s, now, e);
    var t := Step(cfg, s, now, e);
    if Resets(s, now, e) {
      ZeroedIsFunded(s, t);
    } else if e.Receive? && Admitted(e.message).Some? {
      ReceiptIsFunded(s, t, Admitted(e.message).value);
    }
  }

  lemma ReceiptIsFunded(s: State, t: State, d: Datagram)
    requires Funded(s) && ZERO.AtMost(d.counts)
    requires t.redHub == s.redHub && t.blueHub == s.blueHub && t.feed == s.feed.Recorded(d)
    ensures Funded(t)
  {
    RecordedKeeps(s.feed, d);
  }

  lemma FundedStep(cfg: Config, s: State, now: int, e: Event)
    requires Funded(s)
    ensures Funded(Step(cfg, s, now, e))
  {
    if e.Tick? { FundedTick(cfg, s, now, e.tick); } else { FundedCommand(cfg, s, now, e); }
  }

  lemma {:induction false} AlwaysFunded(cfg: Config, s: State, run: Run)
    requires Funded(s)
    ensures Funded(Ran(cfg, s, run))
  {
    match run
    case Begin =>
    case Then(before, now, e) =>
      AlwaysFunded(cfg, s, before);
      FundedStep(cfg, Ran(cfg, s, before), now, e);
  }

  /** Conservation. In every run, of datagrams, ticks, match starts and clears in any order: after a
      tick in a HUB's scoring window its tallies add up to exactly the count the receiver reports;
      outside the window they are frozen; and a step that starts a count again leaves nothing behind
      in the tallies or in the count. */
  lemma FuelIsConserved(cfg: Config, s: State, run: Run, now: int, tick: TickInput)
    requires Funded(s)
    ensures var b := Ran(cfg, s, run);
            TickConserves(cfg, b, now, Ticked(cfg, b, now, tick), Resets(b, now, Tick(tick)))
  {
    AlwaysFunded(cfg, s, run);
    FundedTick(cfg, Ran(cfg, s, run), now, tick);
  }

  // ------------------------------------------------------------- from the camera to the shifts

  /** What a run of the arena looks like to the receiver. */
  function Fed(cfg: Config, s: State, run: Run): HubCounter.History {
    match run
    case Begin => Nothing
    case Then(before, now, e) =>
      var h := Fed(cfg, s, before);
      if Resets(Ran(cfg, s, before), now, e) then Reset(h)
      else if e.Receive? && Admitted(e.message).Some? then Arrived(h, Admitted(e.message).value)
      else h
  }

  lemma {:induction false} FeedIsFed(cfg: Config, s: State, run: Run)
    requires s.feed == SILENT
    ensures Ran(cfg, s, run).feed == FeedAfter(Fed(cfg, s, run))
  {
    match run
    case Begin =>
    case Then(before, now, e) =>
      FeedIsFed(cfg, s, before);
      if e.Tick? {
        TickScores(cfg, Ran(cfg, s, before), now, e.tick);
      } else {
        CommandsScoreNothing(cfg, Ran(cfg, s, before), now, e);
      }
  }

  /** End to end: over a network that loses, repeats, reorders and replays, and any number of counter
      restarts and matches, a tick in a HUB's scoring window leaves its tallies adding up to exactly what
      the visits of the counter's runs have gained since the match began. */
  lemma TalliesHoldWhatVisitsGained(cfg: Config, s: State, run: Run, now: int, tick: TickInput)
    requires s.feed == SILENT && Funded(s)
    requires Monotone(Fed(cfg, s, run))
    requires !Resets(Ran(cfg, s, run), now, Tick(tick))
    ensures TalliesHold(cfg, Ran(cfg, s, run), now, Ticked(cfg, Ran(cfg, s, run), now, tick),
                        SumOfVisits(VisitsOf(Fed(cfg, s, run))))
  {
    var b := Ran(cfg, s, run);
    FuelIsConserved(cfg, s, run, now, tick);
    FeedIsFed(cfg, s, run);
    CountsWhatVisitsGained(Fed(cfg, s, run));
    ConservedHolds(cfg, b, now, Ticked(cfg, b, now, tick), SumOfVisits(VisitsOf(Fed(cfg, s, run))));
  }

  /** And when the counter's runs arrive one after another, to what those runs have gained. */
  lemma TalliesHoldWhatWasCounted(cfg: Config, s: State, run: Run, now: int, tick: TickInput)
    requires s.feed == SILENT && Funded(s)
    requires Monotone(Fed(cfg, s, run)) && OneSessionAtATime(Fed(cfg, s, run))
    requires !Resets(Ran(cfg, s, run), now, Tick(tick))
    ensures var h := Fed(cfg, s, run);
            TalliesHold(cfg, Ran(cfg, s, run), now, Ticked(cfg, Ran(cfg, s, run), now, tick), SumOfGains(h, Sessions(h)))
  {
    TalliesHoldWhatVisitsGained(cfg, s, run, now, tick);
    VisitsAreSessions(Fed(cfg, s, run));
  }

  lemma ConservedHolds(cfg: Config, s: State, now: int, t: State, gained: Counts)
    requires TickConserves(cfg, s, now, t, false) && s.feed.Total() == gained
    ensures TalliesHold(cfg, s, now, t, gained)
  {
  }

  predicate TalliesHold(cfg: Config, s: State, now: int, t: State, gained: Counts) {
    && (Window(cfg.tm, s.autoWinner == Red, now - s.matchStartTime) != None ==> t.redHub.Total() == gained.red)
    && (Window(cfg.tm, s.autoWinner == Blue, now - s.matchStartTime) != None ==> t.blueHub.Total() == gained.blue)
  }

  // -------------------------------------------------------------------------- the AUTO result

  function AutoTallies(s: State): (int, int) { (s.redHub.counts[0], s.blueHub.counts[0]) }

  /** From the scheduled start of teleop on no step moves an AUTO tally, unless it starts the count
      again, when the pause is at least as long as the scoring grace. */
  lemma AutoTalliesStay(cfg: Config, s: State, now: int, e: Event)
    requires cfg.tm.Valid() && 3 <= cfg.tm.pauseSec
    requires s.matchStartTime + cfg.tm.TeleopStart() <= now
    requires !Resets(s, now, e)
    ensures AutoTallies(Step(cfg, s, now, e)) == AutoTallies(s)
    ensures Step(cfg, s, now, e).matchStartTime == s.matchStartTime
  {
    if e.Tick? {
      TickScores(cfg, s, now, e.tick);
      AutoTalliesCounted(cfg, s, now);
    } else {
      CommandsScoreNothing(cfg, s, now, e);
    }
  }

  lemma AutoTalliesCounted(cfg: Config, s: State, now: int)
    requires cfg.tm.Valid() && 3 <= cfg.tm.pauseSec
    requires s.matchStartTime + cfg.tm.TeleopStart() <= now
    ensures AutoTallies(HubsCounted(cfg, s, now)) == AutoTallies(s)
    ensures HubsCounted(cfg, s, now).matchStartTime == s.matchStartTime
  {
    CountingKeepsMatch(cfg, s, now);
    AutoTallyStays(cfg.tm, WithResult(s.redHub, s.autoWinner == Red), s.feed.Total().red, now - s.matchStartTime);
    AutoTallyStays(cfg.tm, WithResult(s.blueHub, s.autoWinner == Blue), s.feed.Total().blue, now - s.matchStartTime);
  }

  lemma AutoTallyStays(tm: MatchTiming, hub: Tally, count: int, elapsed: int)
    requires tm.Valid() && 3 <= tm.pauseSec && tm.TeleopStart() <= elapsed
    ensures Counted(tm, hub, count, elapsed).counts[0] == hub.counts[0]
  {
    AutoClosesBeforeTeleop(tm);
    assert ScoringShift(tm, hub.wonAuto, elapsed) != Some(ShiftAuto);
    CountedConserves(tm, hub, count, elapsed);
    assert Index(ShiftAuto) == 0;
  }

  lemma LateFuelGoesToAuto(tm: MatchTiming, hub: Tally, count: int, elapsed: int)
    requires tm.Valid() && 0 <= elapsed < tm.AutoEnd() + SCORING_GRACE && hub.Total() < count
    ensures Counted(tm, hub, count, elapsed).counts[0] > hub.counts[0]
  {
    assert Window(tm, hub.wonAuto, elapsed) == Some(ShiftAuto);
    CountedAtShift(tm, hub, count, elapsed, ShiftAuto);
  }

  /** A shorter pause lets it move: FUEL not yet counted when a tick of teleop comes within the grace of
      AUTO is added to AUTO, after the winner has been published. */
  lemma ShortPauseMovesAuto(cfg: Config, s: State, now: int, tick: TickInput)
    requires cfg.tm.Valid()
    requires s.phase == TeleopPeriod && s.redHub.Total() < s.feed.Total().red
    requires cfg.tm.TeleopStart() <= now - s.matchStartTime < cfg.tm.AutoEnd() + SCORING_GRACE
    ensures AutoTallies(Ticked(cfg, s, now, tick)).0 > AutoTallies(s).0
  {
    TickScores(cfg, s, now, tick);
    CountingKeepsMatch(cfg, s, now);
    LateFuelGoesToAuto(cfg.tm, WithResult(s.redHub, s.autoWinner == Red), s.feed.Total().red, now - s.matchStartTime);
  }

  predicate NoResets(cfg: Config, s: State, run: Run) {
    match run
    case Begin => true
    case Then(before, now, e) => NoResets(cfg, s, before) && !Resets(Ran(cfg, s, before), now, e)
  }

  /** The AUTO result is final: whatever a run does from the start of teleop until the next reset,
      it ends with the AUTO tallies it began with. */
  lemma {:induction false} AutoResultIsFinal(cfg: Config, s: State, run: Run, t0: int, t: int)
    requires cfg.tm.Valid() && 3 <= cfg.tm.pauseSec
    requires s.matchStartTime + cfg.tm.TeleopStart() <= t0 && Timely(run, t0, t)
    requires NoResets(cfg, s, run)
    ensures AutoTallies(Ran(cfg, s, run)) == AutoTallies(s)
    ensures Ran(cfg, s, run).matchStartTime == s.matchStartTime && t0 <= t
  {
    match run
    case Begin =>
    case Then(before, now, e) =>
      AutoResultIsFinal(cfg, s, before, t0, now);
      AutoTalliesStay(cfg, Ran(cfg, s, before), now, e);
  }

  /** In teleop a forced result is the one that was forced; one taken from the counts names the HUB with
      more AUTO FUEL; and a random one, or a tie, goes to one alliance or the other. */
  predicate Fair(s: State) {
    s.phase == TeleopPeriod ==>
      && s.autoWinner != NoAlliance
      && (s.mode == ForceRed ==> s.autoWinner == Red)
      && (s.mode == ForceBlue ==> s.autoWinner == Blue)
      && (s.mode == FromCounts && AutoTallies(s).0 > AutoTallies(s).1 ==> s.autoWinner == Red)
      && (s.mode == FromCounts && AutoTallies(s).0 < AutoTallies(s).1 ==> s.autoWinner == Blue)
  }

  lemma AdvanceIsFair(cfg: Config, c: State, now: int, coin: bool)
    requires Fair(c)
    ensures Fair(Advanced(cfg, c, now, coin).s)
  {
    if c.phase == PostMatch { ClearedIsPreMatch(cfg, c); }
  }

  /** The settings under which the published winner can be relied on: no FUEL is credited to AUTO once
      teleop has begun, or no tick is left in teleop to count it. */
  predicate ResultStands(tm: MatchTiming) { 3 <= tm.pauseSec || tm.teleopSec == 0 }

  lemma FairTick(cfg: Config, s: State, now: int, tick: TickInput)
    requires cfg.tm.Valid() && ResultStands(cfg.tm) && NotEarly(cfg, s, now) && Fair(s)
    ensures Fair(Ticked(cfg, s, now, tick))
  {
    if s.phase == TeleopPeriod && cfg.tm.teleopSec == 0 {
      NoTeleopToTick(cfg, s, now, tick);
    } else {
      var c := HubsCounted(cfg, s, now);
      CountingKeepsMatch(cfg, s, now);
      if s.phase == TeleopPeriod { AutoTalliesCounted(cfg, s, now); }
      AdvanceIsFair(cfg, c, now, tick.coin);
      SentKeeps(cfg, s, now, tick.coin);
      TickAfterSent(cfg, Sent(cfg, s, now, tick.coin), now, tick);
    }
  }

  lemma NoTeleopToTick(cfg: Config, s: State, now: int, tick: TickInput)
    requires s.phase == TeleopPeriod && cfg.tm.teleopSec == 0 && NotEarly(cfg, s, now)
    ensures Ticked(cfg, s, now, tick).phase == PostMatch
  {
    SentKeeps(cfg, s, now, tick.coin);
    TickAfterSent(cfg, Sent(cfg, s, now, tick.coin), now, tick);
  }

  lemma FairCommand(cfg: Config, s: State, now: int, e: Event)
    requires Fair(s) && !e.Tick?
    ensures Fair(Step(cfg, s, now, e))
  {
    if e.Clear? && s.phase == PostMatch { ClearedIsPreMatch(cfg, s); }
  }

  /** In every run, at every moment of teleop, the published winner agrees with the AUTO tallies,
      which by then are final. */
  lemma {:induction false} WinnerIsAlwaysFair(cfg: Config, s: State, run: Run, t0: int, t: int)
    requires cfg.tm.Valid() && ResultStands(cfg.tm)
    requires NotEarly(cfg, s, t0) && Fair(s) && Timely(run, t0, t)
    ensures Fair(Ran(cfg, s, run))
  {
    match run
    case Begin =>
    case Then(before, now, e) =>
      WinnerIsAlwaysFair(cfg, s, before, t0, now);
      NeverEarly(cfg, s, before, t0, now);
      if e.Tick? {
        FairTick(cfg, Ran(cfg, s, before), now, e.tick);
      } else {
        FairCommand(cfg, Ran(cfg, s, before), now, e);
      }
  }

  // ---------------------------------------------------------------------- before there is any match

  /** The settings do not reach back over the years from the zero time to the start of the clocks. */
  predicate ShutByNow(tm: MatchTiming) {
    Window(tm, false, -ZERO_TIME) == None && Window(tm, true, -ZERO_TIME) == None
  }

  lemma StaysShut(tm: MatchTiming, won: bool, elapsed: int)
    requires tm.Valid() && ShutByNow(tm) && -ZERO_TIME <= elapsed
    ensures Window(tm, won, elapsed) == None
  {
  }

  /** As long as no match has begun, the HUBs hold nothing. */
  predicate EmptyUntilBegun(s: State) {
    s.matchStartTime == ZERO_TIME ==>
      s.redHub.counts == EMPTY_TALLY.counts && s.blueHub.counts == EMPTY_TALLY.counts
  }

  lemma TickUntilBegun(cfg: Config, s: State, now: int, tick: TickInput)
    requires cfg.tm.Valid() && ShutByNow(cfg.tm) && 0 <= now && EmptyUntilBegun(s)
    ensures EmptyUntilBegun(Ticked(cfg, s, now, tick))
  {
    TickScores(cfg, s, now, tick);
    CountingKeepsMatch(cfg, s, now);
    if s.matchStartTime == ZERO_TIME {
      StaysShut(cfg.tm, s.autoWinner == Red, now - s.matchStartTime);
      StaysShut(cfg.tm, s.autoWinner == Blue, now - s.matchStartTime);
    }
    if Resets(s, now, Tick(tick)) { ZeroedIsLikeEmpty(s, Ticked(cfg, s, now, tick)); }
  }

  lemma ZeroedIsLikeEmpty(s: State, t: State)
    requires Zeroed(s, t)
    ensures EmptyUntilBegun(t)
  {
  }

  lemma CommandUntilBegun(cfg: Config, s: State, now: int, e: Event)
    requires !e.Tick? && EmptyUntilBegun(s)
    ensures EmptyUntilBegun(Step(cfg, s, now, e))
  {
    CommandsScoreNothing(cfg, s, now, e);
    if Resets(s, now, e) { ZeroedIsLikeEmpty(s, Step(cfg, s, now, e)); }
  }

  /** Whatever the counter reports before the first match, nothing of it reaches a HUB. */
  lemma {:induction false} NothingCountsBeforeMatch(cfg: Config, mode: AutoWinnerMode, run: Run, t: int)
    requires cfg.tm.Valid() && ShutByNow(cfg.tm) && Timely(run, 0, t)
    ensures EmptyUntilBegun(Ran(cfg, Initial(mode), run))
  {
    match run
    case Begin =>
    case Then(before, now, e) =>
      NothingCountsBeforeMatch(cfg, mode, before, now);
      TimelyFrom(before, 0, now);
      if e.Tick? {
        TickUntilBegun(cfg, Ran(cfg, Initial(mode), before), now, e.tick);
      } else {
        CommandUntilBegun(cfg, Ran(cfg, Initial(mode), before), now, e);
      }
  }

  lemma {:induction false} TimelyFrom(run: Run, t0: int, t: int)
    requires Timely(run, t0, t)
    ensures t0 <= t
  {
    match run
    case Begin =>
    case Then(before, now, _) => TimelyFrom(before, t0, now);
  }

  // ------------------------------------------------------------------------------------- the coin

  /** The coin decides AUTO exactly when the mode is random, or the result is counted and level; heads is red. In
      every other case the result is settled without it. */
  lemma CoinDecidesExactly(s: State)
    ensures Winner(s, true) != Winner(s, false) <==>
            s.mode == Random || (s.mode == FromCounts && AutoTallies(s).0 == AutoTallies(s).1)
    ensures Winner(s, true) != Winner(s, false) ==> Winner(s, true) == Red && Winner(s, false) == Blue
    ensures s.mode == ForceRed || (s.mode == FromCounts && AutoTallies(s).0 > AutoTallies(s).1) ==>
              Winner(s, true) == Red
    ensures s.mode == ForceBlue || (s.mode == FromCounts && AutoTallies(s).0 < AutoTallies(s).1) ==>
              Winner(s, true) == Blue
  {
  }

  lemma AdvanceDecides(cfg: Config, c: State, now: int, coin: bool)
    requires c.phase in {AutoPeriod, PausePeriod} && Advanced(cfg, c, now, coin).s.phase == TeleopPeriod
    ensures Advanced(cfg, c, now, coin).s.autoWinner == Winner(c, coin)
  {
  }

  /** So in a random or level match it is the coin of the tick that enters teleop. */
  lemma CoinIsTaken(cfg: Config, s: State, now: int, tick: TickInput)
    requires s.phase in {AutoPeriod, PausePeriod} && Ticked(cfg, s, now, tick).phase == TeleopPeriod
    requires var t := Ticked(cfg, s, now, tick);
             s.mode == Random || (s.mode == FromCounts && AutoTallies(t).0 == AutoTallies(t).1)
    ensures Ticked(cfg, s, now, tick).autoWinner == if tick.coin then Red else Blue
  {
    var c := HubsCounted(cfg, s, now);
    CountingKeepsMatch(cfg, s, now);
    TickScores(cfg, s, now, tick);
    SentKeeps(cfg, s, now, tick.coin);
    TickAfterSent(cfg, Sent(cfg, s, now, tick.coin), now, tick);
    AdvanceDecides(cfg, c, now, tick.coin);
    CoinDecidesExactly(c);
  }
}
