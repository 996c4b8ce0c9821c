/** hardware/gpio_estop.go and hardware/interfaces.go: the latching, dual-channel field e-stop. */
module FieldEStop {
  import opened Common

  datatype StopState = StopOK | StopActive | StopFault

  datatype FaultKind = FaultNone | FaultBothOpen | FaultBothClosed | FaultReadError | FaultUnreachable | FaultStale

  datatype Reading = Reading(state: StopState, fault: FaultKind)

  const RELEASED := Reading(StopOK, FaultNone)

  /** NC closed and NO open is a released button; any reading that is not complementary is a fault. */
  function DecodeChannels(nc: int, no: int): Reading {
    if nc == 0 && no == 1 then RELEASED
    else if nc == 1 && no == 0 then Reading(StopActive, FaultNone)
    else if nc == 1 && no == 1 then Reading(StopFault, FaultBothOpen)
    else Reading(StopFault, FaultBothClosed)
  }

  function DecodeSingle(no: int): StopState { if no == 0 then StopActive else StopOK }

  // ------------------------------------------------------------------- the discrepancy filter

  /** One decoded sample, and when it was taken. */
  datatype Sample = Sample(raw: Reading, now: int)

  /** When the mismatch in progress began, after one more sample. */
  function Since(since: Option<int>, s: Sample): Option<int> {
    if s.raw.state != StopFault then None else if since.None? then Some(s.now) else since
  }

  /** What the filter reports for a sample. */
  function Report(window: int, since: Option<int>, s: Sample): Reading {
    if s.raw.state != StopFault then s.raw
    else if s.now - Since(since, s).value < window then Reading(StopActive, FaultNone)
    else s.raw
  }

  function SinceAfter(samples: seq<Sample>): Option<int> {
    if samples == [] then None
    else Since(SinceAfter(samples[..|samples| - 1]), samples[|samples| - 1])
  }

  ghost predicate InOrder(samples: seq<Sample>) {
    forall i, j :: 0 <= i < j < |samples| ==> samples[i].now <= samples[j].now
  }

  /** Every sample from i on is a mismatch. */
  ghost predicate MismatchFrom(samples: seq<Sample>, i: int) {
    0 <= i < |samples| && forall j :: i <= j < |samples| ==> samples[j].raw.state == StopFault
  }

  /** The filter remembers when the run of mismatches that reaches the latest sample began. */
  lemma {:induction false} SinceIsRunStart(samples: seq<Sample>)
    requires InOrder(samples)
    ensures SinceAfter(samples).Some? <==> samples != [] && samples[|samples| - 1].raw.state == StopFault
    ensures SinceAfter(samples).Some? ==>
              && (exists i :: MismatchFrom(samples, i) && samples[i].now == SinceAfter(samples).value)
              && (forall i :: MismatchFrom(samples, i) ==> SinceAfter(samples).value <= samples[i].now)
  {
    if samples != [] && samples[|samples| - 1].raw.state == StopFault {
      var last := |samples| - 1;
      var before := samples[..last];
      SinceIsRunStart(before);
      if SinceAfter(before).Some? {
        var i :| MismatchFrom(before, i) && before[i].now == SinceAfter(before).value;
        assert MismatchFrom(samples, i);
        forall k | MismatchFrom(samples, k) ensures SinceAfter(before).value <= samples[k].now {
          if k < last { assert MismatchFrom(before, k); } else { assert samples[i].now <= samples[last].now; }
        }
      } else {
        assert MismatchFrom(samples, last);
        forall k | MismatchFrom(samples, k) ensures k == last {
          assert 0 < last ==> samples[last - 1] == before[last - 1];
        }
      }
    }
  }

  /** A fault is reported exactly when some unbroken run of mismatches has lasted the window; a
      shorter one reads as pressed; and a sample that is not released is never reported as released. */
  lemma FaultIffRunLasted(window: int, samples: seq<Sample>, s: Sample)
    requires InOrder(samples + [s])
    ensures var report := Report(window, SinceAfter(samples), s);
            && (report.state == StopFault <==>
                  exists i :: MismatchFrom(samples + [s], i) && window <= s.now - (samples + [s])[i].now)
            && (report.state == StopFault ==> report == s.raw)
            && (report.state == StopOK <==> s.raw.state == StopOK)
  {
    var all := samples + [s];
    assert all[..|all| - 1] == samples && all[|all| - 1] == s;
    SinceIsRunStart(all);
  }

  class DiscrepancyFilter {
    const window: int
    var since: Option<int>

    constructor (window: int)
      ensures this.window == window && since == None
    {
      this.window := window;
      since := None;
    }

    method Update(raw: Reading, now: int) returns (report: Reading)
      modifies this
      ensures since == Since(old(since), Sample(raw, now))
      ensures report == Report(window, old(since), Sample(raw, now))
    {
      if raw.state != StopFault {
        since := None;
        return raw;
      }
      if since.None? {
        since := Some(now);
      }
      if now - since.value < window {
        return Reading(StopActive, FaultNone);
      }
      return raw;
    }
  }

  // ----------------------------------------------------------------------------- the panel

  /** What a GPIO line gives when it is read. */
  datatype Level = Level(value: int) | ReadError

  /** What the two lines give; a single-channel panel has no NC line. */
  datatype Pins = Pins(nc: Option<Level>, no: Level)

  datatype Panel = Panel(dual: bool, open: bool, window: int, since: Option<int>, latched: Reading) {
    /** The pins as they are seen: a panel that has been closed cannot be read. */
    function Levels(pins: Pins): Option<Reading> {
      if !open || pins.no.ReadError? then None
      else if !dual then Some(Reading(DecodeSingle(pins.no.value), FaultNone))
      else if pins.nc.None? || pins.nc.value.ReadError? then None
      else Some(DecodeChannels(pins.nc.value.value, pins.no.value))
    }

    function Read(pins: Pins, now: int): Reading {
      var levels := Levels(pins);
      if levels.None? then Reading(StopFault, FaultReadError)
      else if !dual then levels.value
      else Report(window, since, Sample(levels.value, now))
    }

    function Sampled(pins: Pins, now: int): Panel {
      var levels := Levels(pins);
      if levels.None? || !dual then this else this.(since := Since(since, Sample(levels.value, now)))
    }

    function Polled(pins: Pins, now: int): Panel {
      var reading := Read(pins, now);
      var after := Sampled(pins, now);
      if reading.state == StopFault || (reading.state == StopActive && latched.state == StopOK)
      then after.(latched := reading) else after
    }

    function Cleared(pins: Pins, now: int): Panel {
      var after := Sampled(pins, now);
      if Read(pins, now).state == StopOK then after.(latched := RELEASED) else after
    }
  }

  // What the pins say, told by their levels alone. The NC contact is closed to ground, and so reads 0, while the
  // button is released; the NO contact then reads 1. An open contact or a cut wire is pulled up to 1.

  /** Every line that the panel has can be read, and it has not been closed. */
  predicate Readable(panel: Panel, pins: Pins) {
    panel.open && pins.no.Level? && (panel.dual ==> pins.nc.Some? && pins.nc.value.Level?)
  }

  /** A healthy and released button. */
  predicate Released(panel: Panel, pins: Pins) {
    && Readable(panel, pins)
    && if panel.dual then pins.nc.value.value == 0 && pins.no.value == 1 else pins.no.value != 0
  }

  /** A healthy and pressed button. */
  predicate PressedDown(panel: Panel, pins: Pins) {
    && Readable(panel, pins)
    && if panel.dual then pins.nc.value.value == 1 && pins.no.value == 0 else pins.no.value == 0
  }

  /** Two lines that are not complementary, as they are while a button is in travel, or with a wire cut. */
  predicate Mismatched(panel: Panel, pins: Pins) {
    panel.dual && Readable(panel, pins) && {pins.nc.value.value, pins.no.value} != {0, 1}
  }

  /** Decoding tells these apart, and nothing else. */
  lemma LevelsTell(panel: Panel, pins: Pins)
    ensures var levels := panel.Levels(pins);
            && (levels.Some? <==> Readable(panel, pins))
            && (levels.Some? && levels.value.state == StopOK <==> Released(panel, pins))
            && (levels.Some? && levels.value.state == StopActive <==> PressedDown(panel, pins))
            && (levels.Some? && levels.value.state == StopFault <==> Mismatched(panel, pins))
            && (levels.Some? && levels.value.fault == FaultBothOpen <==>
                  Mismatched(panel, pins) && pins.nc.value.value == 1 && pins.no.value == 1)
            && (levels.Some? && levels.value.fault == FaultBothClosed <==>
                  Mismatched(panel, pins) && !(pins.nc.value.value == 1 && pins.no.value == 1))
  {
    if panel.dual && Readable(panel, pins) {
      var nc, no := pins.nc.value.value, pins.no.value;
      assert nc in {nc, no} && no in {nc, no};
      assert {nc, no} == {0, 1} <==> (nc == 0 && no == 1) || (nc == 1 && no == 0) by {
        assert {nc, no} == {0, 1} ==> 0 in {nc, no} && 1 in {nc, no} && nc in {0, 1} && no in {0, 1};
      }
    }
  }

  /** What the panel reads at once: released exactly when its pins show it, so that a cut wire in the sense loop,
      which leaves its NC line at 1, never reads released; and pressed for a plain press. */
  lemma ReadsReleasedExactly(panel: Panel, pins: Pins, now: int)
    ensures panel.Read(pins, now).state == StopOK <==> Released(panel, pins)
    ensures PressedDown(panel, pins) ==> panel.Read(pins, now) == Reading(StopActive, FaultNone)
    ensures panel.dual && pins.nc == Some(Level(1)) ==> panel.Read(pins, now).state != StopOK
  {
    LevelsTell(panel, pins);
  }

  function NewPanel(dual: bool, window: int): Panel { Panel(dual, true, window, None, RELEASED) }

  /** Everything done to a panel, latest outermost. */
  datatype History =
    | Built
    | Poll(before: History, pins: Pins, now: int)
    | Clear(before: History, pins: Pins, now: int)
    | Close(before: History)

  function After(dual: bool, window: int, h: History): Panel {
    match h
    case Built => NewPanel(dual, window)
    case Poll(before, pins, now) => After(dual, window, before).Polled(pins, now)
    case Clear(before, pins, now) => After(dual, window, before).Cleared(pins, now)
    case Close(before) => After(dual, window, before).(open := false)
  }

  /** The readings polled since the last clear that found the button released. */
  function Readings(dual: bool, window: int, h: History): seq<Reading> {
    match h
    case Built => []
    case Poll(before, pins, now) =>
      Readings(dual, window, before) + [After(dual, window, before).Read(pins, now)]
    case Clear(before, pins, now) =>
      if After(dual, window, before).Read(pins, now).state == StopOK then [] else Readings(dual, window, before)
    case Close(before) => Readings(dual, window, before)
  }

  ghost predicate Seen(readings: seq<Reading>, state: StopState) {
    exists i :: 0 <= i < |readings| && readings[i].state == state
  }

  /** The latch is the worst of the readings, and a faulted latch names the latest fault. */
  ghost predicate IsWorst(latched: Reading, readings: seq<Reading>) {
    && (latched.state == StopFault <==> Seen(readings, StopFault))
    && (latched.state == StopActive <==> Seen(readings, StopActive) && !Seen(readings, StopFault))
    && (latched.state != StopFault ==> latched.fault == FaultNone)
    && (forall i | 0 <= i < |readings| && readings[i].state == StopFault ::
          (forall j :: i < j < |readings| ==> readings[j].state != StopFault) ==> latched == readings[i])
  }

  lemma WorstStep(latched: Reading, readings: seq<Reading>, r: Reading)
    requires IsWorst(latched, readings)
    requires r.state != StopFault ==> r.fault == FaultNone
    ensures IsWorst(if r.state == StopFault || (r.state == StopActive && latched.state == StopOK) then r else latched,
                    readings + [r])
  {
    var all := readings + [r];
    assert all[|readings|] == r;
    forall state ensures Seen(all, state) <==> Seen(readings, state) || r.state == state {
      if Seen(readings, state) {
        var i :| 0 <= i < |readings| && readings[i].state == state;
        assert all[i].state == state;
      }
    }
    forall i | 0 <= i < |readings| && r.state != StopFault && all[i].state == StopFault
               && (forall j :: i < j < |all| ==> all[j].state != StopFault)
      ensures latched == all[i]
    {
      assert forall j :: i < j < |readings| ==> readings[j] == all[j];
    }
  }

  /** The latch over any history of polls, clears and a close. */
  lemma {:induction false} LatchIsWorstReading(dual: bool, window: int, h: History)
    ensures IsWorst(After(dual, window, h).latched, Readings(dual, window, h))
    ensures After(dual, window, h).dual == dual && After(dual, window, h).window == window
  {
    match h
    case Built =>
    case Poll(before, pins, now) =>
      LatchIsWorstReading(dual, window, before);
      var panel := After(dual, window, before);
      WorstStep(panel.latched, Readings(dual, window, before), panel.Read(pins, now));
    case Clear(before, pins, now) => LatchIsWorstReading(dual, window, before);
    case Close(before) => LatchIsWorstReading(dual, window, before);
  }

  /** Every poll since the last clear that found the button released has found it released. */
  predicate NeverStopped(dual: bool, window: int, h: History) {
    match h
    case Built => true
    case Poll(before, pins, _) =>
      Released(After(dual, window, before), pins) && NeverStopped(dual, window, before)
    case Clear(before, pins, _) =>
      Released(After(dual, window, before), pins) || NeverStopped(dual, window, before)
    case Close(before) => NeverStopped(dual, window, before)
  }

  /** No debouncing, fault or clear hides a stop: the panel answers OK exactly when the pins have
      shown a released button at every poll since a clear that saw the same. */
  lemma {:induction false} OkIffNeverStopped(dual: bool, window: int, h: History)
    ensures After(dual, window, h).latched.state == StopOK <==> NeverStopped(dual, window, h)
  {
    match h
    case Built =>
    case Poll(before, pins, now) =>
      OkIffNeverStopped(dual, window, before);
      ReadsReleasedExactly(After(dual, window, before), pins, now);
    case Clear(before, pins, now) =>
      OkIffNeverStopped(dual, window, before);
      ReadsReleasedExactly(After(dual, window, before), pins, now);
    case Close(before) => OkIffNeverStopped(dual, window, before);
  }

  /** The samples a history has fed to the filter: every poll and clear that could read both lines. */
  function Fed(dual: bool, window: int, h: History): seq<Sample> {
    match h
    case Built => []
    case Poll(before, pins, now) => Fed(dual, window, before) + Sampling(After(dual, window, before), pins, now)
    case Clear(before, pins, now) => Fed(dual, window, before) + Sampling(After(dual, window, before), pins, now)
    case Close(before) => Fed(dual, window, before)
  }

  /** What one reading of the pins feeds: a single line, or one that cannot be read, bypasses the filter. */
  function Sampling(panel: Panel, pins: Pins, now: int): seq<Sample> {
    var levels := panel.Levels(pins);
    if levels.None? || !panel.dual then [] else [Sample(levels.value, now)]
  }

  lemma FedOnce(panel: Panel, pins: Pins, now: int, fed: seq<Sample>)
    requires panel.since == SinceAfter(fed)
    ensures panel.Sampled(pins, now).since == SinceAfter(fed + Sampling(panel, pins, now))
  {
    var sampling := Sampling(panel, pins, now);
    if sampling == [] {
      assert fed + sampling == fed;
    } else {
      var all := fed + sampling;
      assert all[..|all| - 1] == fed && all[|all| - 1] == sampling[0];
    }
  }

  lemma LatchingKeepsFilter(panel: Panel, pins: Pins, now: int)
    ensures var sampled := panel.Sampled(pins, now);
            && panel.Polled(pins, now) == sampled.(latched := panel.Polled(pins, now).latched)
            && panel.Cleared(pins, now) == sampled.(latched := panel.Cleared(pins, now).latched)
            && sampled.dual == panel.dual && sampled.window == panel.window
  {
  }

  lemma {:induction false} SinceIsFed(dual: bool, window: int, h: History)
    ensures After(dual, window, h).since == SinceAfter(Fed(dual, window, h))
    ensures After(dual, window, h).dual == dual && After(dual, window, h).window == window
  {
    match h
    case Built =>
    case Poll(before, pins, now) =>
      SinceIsFed(dual, window, before);
      FedOnce(After(dual, window, before), pins, now, Fed(dual, window, before));
      LatchingKeepsFilter(After(dual, window, before), pins, now);
    case Clear(before, pins, now) =>
      SinceIsFed(dual, window, before);
      FedOnce(After(dual, window, before), pins, now, Fed(dual, window, before));
      LatchingKeepsFilter(After(dual, window, before), pins, now);
    case Close(before) => SinceIsFed(dual, window, before);
  }

  /** What a watcher of the two lines sees at one reading of them. */
  datatype Sighting = Sighting(mismatched: bool, now: int)

  function Sighted(panel: Panel, pins: Pins, now: int): seq<Sighting> {
    if panel.dual && Readable(panel, pins) then [Sighting(Mismatched(panel, pins), now)] else []
  }

  /** And over a history. */
  function Watched(dual: bool, window: int, h: History): seq<Sighting> {
    match h
    case Built => []
    case Poll(before, pins, now) => Watched(dual, window, before) + Sighted(After(dual, window, before), pins, now)
    case Clear(before, pins, now) => Watched(dual, window, before) + Sighted(After(dual, window, before), pins, now)
    case Close(before) => Watched(dual, window, before)
  }

  ghost predicate WatchedInOrder(seen: seq<Sighting>) {
    forall i, j :: 0 <= i < j < |seen| ==> seen[i].now <= seen[j].now
  }

  /** The lines have been mismatched, whenever they were seen, from sighting i on. */
  ghost predicate MismatchedFrom(seen: seq<Sighting>, i: int) {
    0 <= i < |seen| && forall j :: i <= j < |seen| ==> seen[j].mismatched
  }

  /** The filter is fed what a watcher sees. */
  ghost predicate Agree(samples: seq<Sample>, seen: seq<Sighting>) {
    && |samples| == |seen|
    && forall i :: 0 <= i < |seen| ==>
         samples[i].now == seen[i].now && (samples[i].raw.state == StopFault <==> seen[i].mismatched)
  }

  lemma SightedAgrees(panel: Panel, pins: Pins, now: int, samples: seq<Sample>, seen: seq<Sighting>)
    requires Agree(samples, seen)
    ensures Agree(samples + Sampling(panel, pins, now), seen + Sighted(panel, pins, now))
  {
    LevelsTell(panel, pins);
  }

  lemma {:induction false} FedIsWatched(dual: bool, window: int, h: History)
    ensures Agree(Fed(dual, window, h), Watched(dual, window, h))
  {
    match h
    case Built =>
    case Poll(before, pins, now) =>
      FedIsWatched(dual, window, before);
      SightedAgrees(After(dual, window, before), pins, now, Fed(dual, window, before), Watched(dual, window, before));
    case Clear(before, pins, now) =>
      FedIsWatched(dual, window, before);
      SightedAgrees(After(dual, window, before), pins, now, Fed(dual, window, before), Watched(dual, window, before));
    case Close(before) => FedIsWatched(dual, window, before);
  }

  /** A run of mismatches that is still going on began at least the window ago. */
  ghost predicate Lasted(seen: seq<Sighting>, window: int, now: int) {
    exists i :: MismatchedFrom(seen, i) && window <= now - seen[i].now
  }

  lemma AgreeingRuns(samples: seq<Sample>, seen: seq<Sighting>)
    requires Agree(samples, seen)
    ensures WatchedInOrder(seen) ==> InOrder(samples)
    ensures forall i :: MismatchFrom(samples, i) <==> MismatchedFrom(seen, i)
    ensures forall window, now ::
              Lasted(seen, window, now) <==> exists i :: MismatchFrom(samples, i) && window <= now - samples[i].now
  {
    forall i ensures MismatchFrom(samples, i) <==> MismatchedFrom(seen, i) {
      if MismatchFrom(samples, i) {
        forall j | i <= j < |seen| ensures seen[j].mismatched { assert samples[j].raw.state == StopFault; }
      }
      if MismatchedFrom(seen, i) {
        forall j | i <= j < |samples| ensures samples[j].raw.state == StopFault { assert seen[j].mismatched; }
      }
    }
  }

  /** What the panel reads, after any history of polls, clears, unreadable lines and a close: a fault
      exactly if a line cannot be read now, or the two lines have been seen to be mismatched at every reading,
      from one at least the window ago until now; and released exactly if the pins show it. */
  lemma PanelFaultsExactly(dual: bool, window: int, h: History, pins: Pins, now: int)
    requires WatchedInOrder(Watched(dual, window, h) + Sighted(After(dual, window, h), pins, now))
    ensures var panel := After(dual, window, h);
            var seen := Watched(dual, window, h) + Sighted(panel, pins, now);
            var reading := panel.Read(pins, now);
            && (reading.state == StopFault <==>
                  || !Readable(panel, pins)
                  || (dual && Lasted(seen, window, now)))
            && (reading.state == StopOK <==> Released(panel, pins))
            && (!Readable(panel, pins) ==> reading.fault == FaultReadError)
  {
    var panel := After(dual, window, h);
    SinceIsFed(dual, window, h);
    FedIsWatched(dual, window, h);
    ReadsReleasedExactly(panel, pins, now);
    LevelsTell(panel, pins);
    if Readable(panel, pins) && dual {
      DualFaultsExactly(panel, pins, now, Fed(dual, window, h), Watched(dual, window, h));
    }
  }

  lemma DualFaultsExactly(panel: Panel, pins: Pins, now: int, fed: seq<Sample>, watched: seq<Sighting>)
    requires panel.dual && Readable(panel, pins) && panel.since == SinceAfter(fed) && Agree(fed, watched)
    requires WatchedInOrder(watched + Sighted(panel, pins, now))
    ensures panel.Read(pins, now).state == StopFault <==>
            Lasted(watched + Sighted(panel, pins, now), panel.window, now)
  {
    LevelsTell(panel, pins);
    var samples := fed + Sampling(panel, pins, now);
    SightedAgrees(panel, pins, now, fed, watched);
    AgreeingRuns(samples, watched + Sighted(panel, pins, now));
    FaultIffRunLasted(panel.window, fed, Sample(panel.Levels(pins).value, now));
  }

  class GpioFieldEStopPanel {
    const dual: bool
    const filter: DiscrepancyFilter
    var open: bool
    var latched: Reading

    ghost function View(): Panel
      reads this, filter
    {
      Panel(dual, open, filter.window, filter.since, latched)
    }

    constructor (dual: bool, window: int)
      ensures View() == NewPanel(dual, window) && fresh(filter)
    {
      this.dual := dual;
      filter := new DiscrepancyFilter(window);
      open := true;
      latched := RELEASED;
    }

    method ReadPins(pins: Pins, now: int) returns (reading: Reading)
      modifies filter
      ensures reading == old(View()).Read(pins, now)
      ensures View() == old(View()).Sampled(pins, now)
      ensures reading.state == StopOK <==> Released(old(View()), pins)
      ensures !Readable(old(View()), pins) ==> reading == Reading(StopFault, FaultReadError)
    {
      ghost var was := View();
      ReadsReleasedExactly(was, pins, now);
      if !open || pins.no.ReadError? {
        return Reading(StopFault, FaultReadError);
      }
      if !dual {
        return Reading(DecodeSingle(pins.no.value), FaultNone);
      }
      if pins.nc.None? || pins.nc.value.ReadError? {
        return Reading(StopFault, FaultReadError);
      }
      reading := filter.Update(DecodeChannels(pins.nc.value.value, pins.no.value), now);
    }

    /** One poll: a live reading worse than the latch replaces it, and the latch is the answer. */
    method State(pins: Pins, now: int) returns (reading: Reading)
      modifies this, filter
      ensures View() == old(View()).Polled(pins, now) && reading == latched
      ensures reading.state == StopOK <==> old(latched).state == StopOK && Released(old(View()), pins)
    {
      var live := ReadPins(pins, now);
      if live.state == StopFault || (live.state == StopActive && latched.state == StopOK) {
        latched := live;
      }
      return latched;
    }

    /** An operator's clear, which does nothing while the button is held or its wiring is at fault. */
    method Clear(pins: Pins, now: int)
      modifies this, filter
      ensures View() == old(View()).Cleared(pins, now)
      ensures latched == if Released(old(View()), pins) then RELEASED else old(latched)
    {
      var live := ReadPins(pins, now);
      if live.state == StopOK {
        latched := RELEASED;
      }
    }

    method Close()
      modifies this
      ensures View() == old(View()).(open := false)
    {
      open := false;
    }
  }
}
