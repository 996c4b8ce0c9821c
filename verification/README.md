# A verified model of the bioarena field controller

Bioarena runs practice matches on an FRC field: it starts and stops robots, counts FUEL into two HUBs,
lights them, and configures the field's network. This project models its core in Dafny 4.11 and proves
what holds of it over whole runs. `dafny verify dfyconfig.toml` checks everything.

## What is modelled

- **The match** (`MatchState`, `Arena`). `MatchState` gives each phase of a tick and each operator command
  as a function on the arena's state. A *run* is any sequence of ticks, commands, driver stations coming and
  going, and counter datagrams, at any times. Panel, PLC and pin readings, coin flips and clock readings are
  inputs, and arbitrary. The class `Arena` performs the steps in place, method by method. It remembers its
  run, and between operations it is exactly where that run brings a new arena, so what is proved of runs is
  proved of the object (`Arena.Arena.IsSafe`).
- **What every run keeps** (`MatchSafety`, `MatchStart`, `MatchStops`, `MatchFieldStop`, `MatchClock`, `MatchPace`, `StopButton`,
  `MatchScoring`, `MatchScore`, `MatchGameData`, `MatchLineup`, `MatchLamps`, `MatchCues`): when a match
  may start, the stop rules and how fast they reach the robots, the order and timing of the periods, the game data, the FUEL, the
  score and the AUTO result, who is in which station, the lamps and the cue. `MatchExact` and `MatchCueLaw`
  build the runs that show three conditions to be needed.
- **FUEL** (`HubCounter`, `Hub`). The receiver for the webcam counter, over a network that loses, repeats
  and reorders datagrams from a counter that restarts; and the HUB, whose scoring clock and lighting clock
  are compared and whose score is derived from the lamps.
- **Stops** (`FieldEStop`). The dual-channel field e-stop: its discrepancy filter and its latch.
- **The switch** (`TeamSwitch`, `EthernetRequests`). The switch is an interpreter of configuration lines;
  a batch that fails has applied any prefix. Above it, any number of requests race to configure it.
- **The driver station's bytes** (`DriverStation`): framed game data, control packets, tags.
- **The lighting outputs** (`HubLights`, `HubRelays`, `DmxController`): the choice of modes, and two
  outputs that skip redundant writes.
- **The cue** (`ShiftCue`): the whole-second clock, and when it sounds a handover between the HUBs.

Time is in integer nanoseconds and settings are whole seconds (`Timing`). Runs and histories are lists
with the latest event outermost.

## What turned out to be conditional

Each of these needs a condition. The lemma named with it shows that the condition is exact, unless it says
otherwise. The settings the controller starts with meet all of those that are about settings alone
(`HubLights.DefaultsMeetEveryCondition`), and those about ticks too unless ticks are seconds apart
(`MatchCueLaw.DefaultsFitExactly`, `MatchScore.DefaultsBringResultExactly`).

- "FUEL scores while the HUB has been lit in the last three seconds" (`Hub.ClocksAgreeExactly`) needs a
  pause of at most three seconds, and a teleop that is not cut off just after the last alliance shift.
- The AUTO result agrees with the AUTO tallies throughout teleop, in every run, exactly with a pause of at
  least three seconds or without a teleop (`MatchExact.WinnersAreFairExactly`); the default is exactly three.
- The lamps are truthful in teleop exactly when AUTO has been decided, which every run guarantees, and the
  warnings fit: shifts of three seconds or more, and teleop not cut off within three seconds before or after
  the end of Shift 4; or teleop over three seconds or more before the end of Shift 1
  (`HubLights.LampsTellTruthExactly`, `MatchExact.LampsAreTruthfulExactly`).
- The whole-second clock and the HUBs' clock agree only when the endgame setting is what teleop leaves for
  it (`ShiftCue.CoarseClockLeadsExactly`): the fine clock ignores that setting.
- Every match played to its end sounds the change cue at all four handovers exactly when ticks are at most a
  shift apart and teleop is long enough: however late a tick enters it, more than the endgame and three
  shifts must be left on the whole-second clock (`MatchCueLaw.CueSoundsExactly`). With a teleop no longer
  than the endgame and three shifts, 105 seconds by default, the first handover is never sounded at all
  (`MatchCues.ShortTeleopNeverSounds`).
- A HUB is credited with what arrived within three seconds of its lamp being lit when, besides the clocks
  agreeing, ticks come close enough to bring the AUTO result before the first alliance shift
  (`MatchScore.MatchScoreFollowsLamps`, which shows that this is enough).
- A game data message can be read back only up to 253 bytes (`DriverStation.FrameReadsBackExactly`).
- The FUEL count is what each *visit* to a run of the counter gained, an unbroken stretch of its datagrams,
  whatever the network does (`HubCounter.CountsWhatVisitsGained`). That is what the runs gained when they
  arrive one after another. Otherwise FUEL can be counted twice (`HubCounter.ReplayIsCountedTwice`) or not at
  all (`HubCounter.OvertakenIsNotCounted`).
- A failed DMX send is not retried until the heartbeat, or until another frame is wanted
  (`DmxController.WaitEndsExactly`), whereas a failed relay write is retried at once.
- The HUBs turn white at the end of a match, except one that the PLC's field e-stop ends: the lamps have been
  shown by then, and the next tick takes the end for noted, so they go on showing the match
  (`MatchLamps.EndTurnsWhiteExactly`).
- The countdown in a control packet is right exactly when there is no warmup
  (`DriverStation.CountdownTellsTruthExactly`).
- The tick that latches the field e-stop e-stops every station, unless the same tick then reads that station's
  button released (`StopButton.FieldStopSetsStations`); the field's own latch holds all the same.
- A station's e-stop survives released inputs in a match exactly when the match clock does not read zero; it
  reads zero at the instant the match starts (`StopButton.HeldThroughInputsExactly`).

## Where code and documentation differ

- docs/spec-hub-fuel-counter-feed.md, section 4.5, has a new session of the counter count from zero. The
  receiver (hardware/hub_counter.go:330-355) measures it from the first datagram it sees. The code is
  followed.
- The comment at field/arena.go:1222-1226 calls the a-stop bit AUTO only. PreMatch and warmup packets carry
  the auto flag as well, so a held a-stop is reported in them too (`MatchSafety.PacketsEnableExactly`). The
  code is followed.

## Model

| member | source | states |
|---|---|---|
| `Hub.ClocksAgreeExactly` | game/hub.go:76-164 | FUEL scores at exactly the instants at which the HUB has been lit in the last three seconds, if and only if the pause is at most the grace and teleop is not cut off just after Shift 4 |
| `Hub.DisagreementExists` | game/hub.go:130-164 | outside those settings some instant scores although the HUB has been dark for more than three seconds |
| `Hub.CreditsInAllianceShift` | game/hub.go:130-164 | in an alliance shift the active HUB always scores and the other one exactly for the first three seconds |
| `Hub.OneHubScores` | field/arena_hub_counter.go:164-189 | with opposite AUTO results some HUB always scores in an alliance shift, and both do exactly while one is in its grace |
| `Hub.AutoClosesBeforeTeleop` | game/hub.go:130-133 | nothing from the start of teleop on is credited to AUTO, if and only if the pause is at least three seconds |
| `Hub.CountedConserves` | game/hub.go:34-54 | one reading changes one shift at most, and leaves the tallies adding up to the reading, or alone |
| `Hub.TalliesAreRises` | game/hub.go:34-54 | after any readings of a count that never falls each shift holds exactly the FUEL that arrived while it was open, and together they hold the last reading in the window |
| `Hub.ScoreFollowsLampsExactly` | field/arena_hub_counter.go:333-339 | a HUB is credited with exactly the FUEL that arrived while it was lit or within three seconds of it, for every match, if and only if the clocks agree |
| `Hub.ResultDoesNotMatterYet` | field/arena_hub_counter.go:118-132 | before the first alliance shift the tallies, the lamp and the credit do not depend on the AUTO result |
| `Hub.Hub.GetCurrentShift` | game/hub.go:130-156 | the loop finds the first shift that is still open on the scoring clock |
| `Hub.Hub.GetCurrentShiftTiming` | game/hub.go:76-98 | the loop finds the shift the instant is inside, what is left of it and its length |
| `Hub.Hub.GetActiveShiftTiming` | game/hub.go:103-112 | time remains exactly when the HUB is lit, and it runs to the end of the shift |
| `Hub.Hub.UpdateState` | game/hub.go:34-54 | the tallies become those of the counting function |
| `Hub.Fuel` | field/arena_hub_counter.go:323-339 | the two count loops return everything seen, and what scored |
| `HubLights.LampsTellTruthExactly` | field/arena_leds.go:155-215 | throughout teleop off means inactive, a pulse means lit and dark within three seconds and the sweep marks the AUTO winner early in transition, if and only if AUTO has been decided and the warnings fit: shifts of at least three seconds and teleop not cut off within three seconds of the end of Shift 4, or teleop over three seconds or more before the end of Shift 1 |
| `HubLights.LateWarningMisleads` | field/arena_leds.go:184-209 | for all other settings, whoever won AUTO, a lamp misleads at a named instant |
| `HubLights.DefaultsMeetEveryCondition` | game/match_timing.go:27-38 | the settings the controller starts with meet the condition of every theorem here |
| `HubCounter.ValidatedIsSafe` | hardware/hub_counter.go:93-132 | a packet that passes cannot forge a log line or report a negative count, and a sent zero is kept apart from a missing number |
| `HubCounter.ValidateUndoesSending` | hardware/hub_counter.go:93-132 | validation and sending are inverse: it accepts exactly what a counter can send, and gives it back |
| `HubCounter.RecordedKeeps` | hardware/hub_counter.go:304-368 | no datagram makes a match-relative count fall, and a counter restart by itself changes none |
| `HubCounter.CountsWhatVisitsGained` | hardware/hub_counter.go:304-464 | over any loss, repetition, reordering and replay within and between the runs of a counter that keeps restarting, the count is the sum over visits since the latest reset (unbroken stretches of one run) of how far each got |
| `HubCounter.CountsWhatSessionsGained` | hardware/hub_counter.go:304-464 | if the runs arrive one after another, that is the sum of what each run gained |
| `HubCounter.ReplayIsCountedTwice` | hardware/hub_counter.go:309-344 | datagrams of an older run arriving after a newer one are counted again: the order of runs is needed |
| `HubCounter.OvertakenIsNotCounted` | hardware/hub_counter.go:309-355 | and FUEL reported by a run that another has overtaken is never counted |
| `HubCounter.TakenAtMostOnce` | hardware/hub_counter.go:304-328 | while a session is heard, a repeated or overtaken datagram of it changes nothing |
| `HubCounter.AgeIsOfLastChange` | hardware/hub_counter.go:304-368 | the age shown is that of the datagram that last changed the counts, however many heartbeats follow |
| `HubCounter.HubCounterReceiver.HandleDatagram` | hardware/hub_counter.go:264-300 | a datagram is recorded exactly when it comes from the counter, is not too long, parses and validates, and reported accepted exactly when it is also in order |
| `HubCounter.HubCounterReceiver.Record` | hardware/hub_counter.go:304-368 | the receiver's fields move as the recording function says |
| `HubCounter.HubCounterReceiver.GetHubCounts` | hardware/hub_counter.go:435-445 | the counts returned are the carried part and the open run's contribution |
| `HubCounter.HubCounterReceiver.ResetMatch` | hardware/hub_counter.go:449-464 | the baseline moves to the last datagram, so the counts read zero |
| `FieldEStop.FaultIffRunLasted` | hardware/interfaces.go:181-193 | a fault is reported exactly when an unbroken run of mismatches has lasted the window, and a sample that is not released is never reported as released |
| `FieldEStop.LevelsTell` | hardware/interfaces.go:125-155 | told by raw levels: which readings of the lines are a released button, a pressed one and a mismatch, and which of the two faults a mismatch is |
| `FieldEStop.ReadsReleasedExactly` | hardware/gpio_estop.go:108-128 | the panel reads released exactly with NO at 1 and, on a dual panel, NC at 0; so a cut wire in the sense loop never reads released |
| `FieldEStop.PanelFaultsExactly` | hardware/gpio_estop.go:108-128 | after any polls, clears, unreadable lines and a close, the panel reads a fault exactly if a line cannot be read, or the raw lines have been mismatched at every reading for the window; and released exactly if they show it |
| `FieldEStop.LatchIsWorstReading` | hardware/gpio_estop.go:50-71 | after any polls, clears and a close the latch is the worst reading since the last clear that found the button released, and names the latest fault |
| `FieldEStop.OkIffNeverStopped` | hardware/gpio_estop.go:50-128 | the panel answers OK exactly when the raw pins have shown a released button at every poll since such a clear |
| `MatchFieldStop.StoppedExactly` | field/arena.go:808-823 | over any run of ticks, clears and everything else, the arena's field e-stop is latched exactly when the raw pins say so: a tick has come at which, since the last clear that found the button released, it had not always been |
| `MatchFieldStop.NothingEnabledUntilCleared` | field/arena.go:651-664 | from the first tick that does not find the button plainly released, until a clear that does, no match is in progress and no packet enables a robot |
| `FieldEStop.DiscrepancyFilter.Update` | hardware/interfaces.go:181-193 | the filter's state and report are those of the sample history |
| `FieldEStop.GpioFieldEStopPanel.ReadPins` | hardware/gpio_estop.go:108-128 | an unreadable or closed line is a read error at once; otherwise released exactly if the raw lines are, with mismatches filtered |
| `FieldEStop.GpioFieldEStopPanel.State` | hardware/gpio_estop.go:50-60 | the answer is OK exactly if the latch was and the raw lines show a released button; the latch only escalates |
| `FieldEStop.GpioFieldEStopPanel.Clear` | hardware/gpio_estop.go:64-71 | the latch resets exactly if the raw lines show a released button, and otherwise stays |
| `MatchSafety.AlwaysControlled` | field/arena.go:678-855 | in every reachable state game data is present exactly in teleop and names the AUTO winner, who is not known before; and a latched field e-stop means no match is in progress |
| `MatchSafety.GameDataIsExactlyTeleop` | field/arena.go:1530-1556 | in every reachable state the game data is R or B exactly in teleop, for the AUTO winner, and empty otherwise |
| `MatchSafety.PacketsEnableExactly` | field/arena.go:1214-1231 | a packet enables a robot exactly in AUTO or teleop, without e-stop, bypass or, in AUTO, a-stop; it carries the AUTO flag exactly before a match, in the warmup and in AUTO, but not at the tick that clears a match, and reports an a-stop exactly when it carries that flag and the station's is held |
| `MatchSafety.FieldEStopHolds` | field/arena.go:808-823 | a stopped reading latches, and until a clear that reads OK no run of ticks and commands sends a packet that enables a robot |
| `MatchSafety.StopLatency` | field/arena.go:797-806 | if ticks are at most d apart, every connection of a station that stays stopped has been told within 500 ms + d, and stays told |
| `MatchStops.AbortEndsMatch` | field/arena.go:481-496 | an abort takes a match in progress to PostMatch and withdraws its game data, touching nothing else; otherwise it does nothing |
| `MatchStops.AbortStopsRobots` | field/arena.go:474-496 | after any run, an abort has disabled every connection of every station within 500 ms and a tick gap, and keeps it so until another start |
| `MatchStops.StopEndsMatch` | field/arena.go:808-843 | a tick that reads a stop of the whole field -- the controller's own, a panel's or the PLC's -- leaves no match in progress |
| `MatchStops.FieldStopStopsRobots` | field/arena.go:1255-1258 | and so, after any run, has every robot disabled as fast |
| `MatchStops.AlwaysAbortedOnlyAfter` | field/arena.go:481-515 | in every run a match that was cut short is marked so only in PostMatch |
| `MatchStart.MatchStartsExactly` | field/arena.go:1153-1212 | in any run of a new arena a step begins a match exactly when it is a start and: no field e-stop or fault; no station e-stopped or with a wiring fault; every a-stop seen released since its lineup was assigned; every robot linked or bypassed; the counter online if the result is counted; and a PLC in use healthy, connected and not stopped |
| `MatchStart.AcknowledgedExactly` | field/arena.go:1324-1332 | the acknowledgement that a start asks for is exactly such a reading, outside AUTO, by a panel or the PLC, since the last assignment, or no PLC at that assignment |
| `MatchStart.HeldButtonStartsNothing` | field/arena.go:1192-1207 | from a tick that finds a station's e-stop held until something releases it, no match starts, whatever is asked |
| `MatchSafety.TickHoldsStops` | field/arena.go:1314-1356 | no readings of a tick clear a station's e-stop while the match goes on, or its a-stop in AUTO |
| `MatchSafety.EStopOutlastsReadings` | field/arena.go:1314-1322 | over a whole match no sequence of panel and PLC readings releases a station's e-stop |
| `MatchSafety.AStopOutlastsAuto` | field/arena.go:1324-1332 | over all of AUTO no reading and no command releases a station's a-stop |
| `MatchLamps.LampsAlwaysTellTruth` | field/arena_leds.go:115-142 | in every run the lamps a teleop tick leaves behind tell the truth, when the warnings fit or there is no teleop |
| `MatchLamps.AlwaysOwnColours` | field/arena_leds.go:115-215 | in every run each HUB shows its own colour or white |
| `MatchLamps.LampsHold` | field/arena_leds.go:123-133 | once a tick has noted the end of a match the lamps stay as they are until they are put out or another match starts |
| `MatchLamps.EndTurnsWhiteExactly` | field/arena_leds.go:123-133 | the end of a match turns the HUBs white, exactly if it came before the lamps were shown: one that the PLC's field e-stop ends goes on showing the match |
| `MatchExact.LampsAreTruthfulExactly` | field/arena_leds.go:155-215 | over all runs of a new arena they do if and only if that condition holds |
| `MatchClock.StepFollows` | field/arena.go:694-788 | no step skips a period, and PreMatch is left only by a start that is allowed |
| `MatchClock.NeverEarly` | field/arena.go:722-760 | in every run no period has begun before its time |
| `MatchClock.EnabledInItsPeriod` | field/arena.go:722-775 | in every run a packet enables a robot only inside AUTO or teleop, as the settings time them, give or take the tick that opens the period |
| `MatchClock.PacketsSentExactly` | field/arena.go:797-806 | a tick sends packets, to every connection, exactly when the match turns from one period to the next or half a second has gone by |
| `MatchClock.PostMatchDwells` | field/arena.go:776-791 | a match that is over is cleared by the first tick at least five seconds after the moment it ended, and by none before |
| `StopButton.PressStopsRobot` | field/arena.go:828-837 | one tick of a match that sees a station's e-stop pressed or faulted disables its robot within 500 ms and a tick gap, for the rest of the match, whatever follows |
| `StopButton.PanelsStopExactly` | field/arena.go:1339-1356 | while the match goes on a tick's panel inputs stop a station exactly if one of them is its button pressed or faulted, and release none |
| `StopButton.HeldThroughInputsExactly` | field/arena.go:667-674 | a match in progress holds an e-stop through any inputs that do not end it, if and only if its clock does not read zero |
| `StopButton.LastWordDecides` | field/arena.go:1314-1356 | a station's wiring fault is the last one reported; when the match clock reads zero its e-stop is what was last read, and outside AUTO so is its a-stop |
| `StopButton.AStopsLatchExactly` | field/arena.go:1324-1332 | through any inputs of AUTO an a-stop is set exactly if it was or one of them is its button pressed |
| `StopButton.FieldStopSetsStations` | field/arena.go:815-823 | the tick that latches the field e-stop e-stops every station, of which what the same tick then reads of it has the last word |
| `StopButton.PlcStopsExactly` | field/arena.go:1258-1265 | the PLC's inputs stop each its own station, and outside AUTO an a-stop follows its button |
| `StopButton.OthersUntouched` | field/arena.go:830-837 | inputs never reach a station they do not concern |
| `MatchScoring.FuelIsConserved` | field/arena_hub_counter.go:107-155 | in every run a tick leaves the tallies equal to the receiver's count inside the window, unmoved outside it, and empty when a match starts or is loaded |
| `MatchScoring.FeedIsFed` | field/arena.go:697-718 | what a run of the arena does to the receiver: its datagrams, and a reset at every match start and load |
| `MatchScoring.TalliesHoldWhatVisitsGained` | field/arena_hub_counter.go:140-148 | end to end, from datagrams on a bad network to the tallies: each HUB's tallies add up to what the visits of the counter's runs have gained since the match began |
| `MatchScoring.TalliesHoldWhatWasCounted` | field/arena_hub_counter.go:140-148 | and to what the runs gained, if they arrive one after another |
| `MatchScoring.AutoResultIsFinal` | field/arena.go:743-760 | with a pause of at least three seconds no run from the start of teleop to the next reset moves an AUTO tally |
| `MatchScoring.ShortPauseMovesAuto` | field/arena.go:735-742 | with a shorter pause, at any tick of teleop within three seconds of the end of AUTO, FUEL still uncounted is added to AUTO after the result is out |
| `MatchScoring.WinnerIsAlwaysFair` | field/arena.go:1581-1593 | in every run, at every moment of teleop, a forced result is the one forced and a counted one names the HUB with more AUTO FUEL, when the pause is at least three seconds |
| `MatchScoring.CoinIsTaken` | field/arena.go:1561-1593 | in a random match, or a counted one that is level, the coin of the tick that enters teleop decides |
| `MatchScoring.CoinDecidesExactly` | field/arena.go:1561-1593 | and in no other |
| `MatchExact.WinnersAreFairExactly` | field/arena.go:735-760 | over all runs of a new arena, in every mode, that is so if and only if the pause is at least three seconds or there is no teleop |
| `MatchScore.ScoreFollowsLampsInRuns` | field/arena_hub_counter.go:333-339 | in any run without a reset, under a result that is out before the first alliance shift, each HUB is credited with exactly the rises reported at ticks within three seconds of its lamp being lit |
| `MatchScore.MatchScoreFollowsLamps` | field/arena_hub_counter.go:333-339 | so is every match, from the tick that starts it until it is cleared, by its own HUBs under its own result, when the ticks come close enough to bring that result in time |
| `MatchScore.AlwaysKnow` | field/arena_hub_counter.go:118-132 | in every run each HUB goes by the AUTO result as it stands |
| `MatchScore.DefaultsBringResultExactly` | game/match_timing.go:27-38 | with the settings the controller starts with, ticks bring the result in time if and only if they are at most six and a half seconds apart |
| `MatchScoring.NothingCountsBeforeMatch` | field/arena_hub_counter.go:140-148 | whatever is reported before the first match, nothing of it reaches a HUB |
| `MatchLineup.AlwaysConsistent` | field/arena.go:913-973 | in every run no team is in two stations, a connection belongs to its station's team, and the match record agrees |
| `MatchLineup.LookupIsUnique` | field/arena.go:1238-1246 | so finding a station by its team does not depend on the order of the search |
| `MatchLineup.ClearKeepsStations` | field/arena.go:580-633 | clearing a match keeps every station's team, connection, stops and bypass, and empties the HUBs |
| `MatchLineup.ResetEmptiesField` | field/arena.go:536-577 | resetting the field leaves no team, connection, stop, bypass or FUEL behind |
| `Arena.EveryRunIsSafe` | field/arena.go:140-174 | from a new arena every run keeps the three invariants together |
| `Arena.Arena.IsSafe` | field/arena.go:678-864 | so the object keeps them through whatever operations it is put |
| `Arena.Arena.UpdateHubCounts` | field/arena_hub_counter.go:140-148 | both HUBs are counted from one reading of the receiver |
| `Arena.Arena.HandleAutoWinner` | field/arena.go:1550-1556 | the result, both HUBs' alternation and the game data change together |
| `Arena.Arena.CountedAutoWinner` | field/arena.go:1581-1593 | the alliance with more AUTO FUEL, or the coin |
| `Arena.Arena.ResetMatchLocked` | field/arena.go:499-515 | outside a match the state returns to PreMatch with every bypass cleared |
| `Arena.Arena.AssignTeam` | field/arena.go:936-973 | a station keeps its connection exactly when it is the same team's |
| `Arena.Arena.AdvanceMatch` | field/arena.go:694-788 | the state machine's step, and what it asks of the robots |
| `Arena.Arena.SendDsPacket` | field/arena.go:1214-1234 | every connection is told what its station may do, and the time is noted |
| `Arena.Arena.PollFieldEStop` | field/arena.go:810-823 | the panel's latch stops every station and the match, once |
| `Arena.Arena.HandlePanelInput` | field/arena.go:1339-1356 | an input touches only the half of the station it reports on |
| `Arena.Arena.PollPanels` | field/arena.go:828-843 | all inputs in order; a field stop ends the match |
| `Arena.Arena.SoundShiftChange` | field/arena.go:845-855 | the cue sounds on the tick the shift changes, and not at the first or the last |
| `Arena.Arena.UpdateTeleopHubLeds` | field/arena_leds.go:155-215 | the branches choose the modes of the lighting rule |
| `Arena.Arena.UpdateHubLeds` | field/arena_leds.go:115-133 | the mode each match state shows |
| `Arena.Arena.HandlePlcInputOutput` | field/arena.go:1249-1265 | the PLC's field stop and station stops |
| `Arena.Arena.CheckCanStartMatch` | field/arena.go:1153-1212 | exactly when a match may start |
| `Arena.Arena.ValidateTeams` | field/arena.go:913-933 | a lineup passes exactly when no team is in it twice and all are known |
| `Arena.Arena.Update` | field/arena.go:678-864 | one tick takes the arena one step of its run: hubs, match, packets, stops, cue, lamps and PLC in order; and one that reads a stop of the whole field ends the match |
| `Arena.Arena.StartMatch` | field/arena.go:438-470 | a match starts exactly when the field, with all that has happened to it, is fit; which is one step of the run |
| `Arena.Arena.AbortMatch` | field/arena.go:474-496 | a match in progress goes to PostMatch at once and loses its game data, as one step of the run; otherwise nothing changes and an error is returned |
| `Arena.Arena.LoadMatch` | field/arena.go:291-335 | a match is loaded in PreMatch only, as one step of the run: the record and the stations hold its teams, and there is no AUTO result |
| `Arena.Arena.ClearMatch` | field/arena.go:519-633 | a match is cleared in PostMatch only, as one step of the run, with bypasses and e-stops as they were |
| `Arena.Arena.ResetField` | field/arena.go:536-577 | the field is emptied outside a match only, as one step of the run |
| `Arena.Arena.ClearFieldEStop` | field/arena.go:651-664 | the panel is cleared and read again; if it then answers OK the field and every station are released, and otherwise nothing is, as one step of the run |
| `Arena.Arena.SubstituteTeams` | field/arena.go:392-435 | a lineup is taken exactly when it is allowed and passes, as one step of the run; then the record and the stations hold its teams |
| `Arena.Arena.SetAutoWinnerMode` | field/arena.go:1501-1524 | the mode changes only outside a match, as one step of the run |
| `Arena.Arena.BypassEmptyStations` | field/arena.go:983-995 | empty stations are bypassed, as one step of the run, and those that were not before are counted |
| `Arena.Arena.DisableAll` | field/arena.go:638-642 | every station is bypassed, as one step of the run |
| `Arena.Arena.ToggleBypass` | web/match_play.go:132-146 | a station's bypass is flipped, as one step of the run |
| `Arena.Arena.ToggleEStop` | web/match_play.go:147-161 | a station's e-stop is flipped, as one step of the run |
| `Arena.Arena.GetAssignedAllianceStation` | field/arena.go:1238-1246 | a station of the team is found exactly if there is one and the team is not 0 |
| `Arena.Arena.AcceptDriverStation` | field/driver_station_connection.go:362-471 | a driver station is taken in exactly at the station registered for its team, as one step of the run |
| `Arena.Arena.DropDriverStation` | field/driver_station_connection.go:533-544 | a lost connection empties its station if it is still the station's, as one step of the run |
| `Arena.Arena.ReceiveTelemetry` | field/driver_station_connection.go:118-178 | a report of the robot link reaches the connection of the station registered for the team it names, if there is one, as one step of the run |
| `Arena.Arena.ReceiveCounts` | hardware/hub_counter.go:264-300 | a datagram moves the receiver and nothing else, as one step of the run, and is reported accepted exactly when it is admitted and in order |
| `Arena.Arena.DarkenHubLeds` | field/arena_leds.go:126-131 | the lamps go out three seconds after a match, as one step of the run |
| `EthernetRequests.LastRequestWins` | field/arena.go:1123-1150 | however requests and goroutines interleave, generations reach the switch in increasing order, and once all are finished the newest was the last and, if it succeeded, the switch holds its lineup |
| `EthernetRequests.NoDeadlock` | field/arena.go:1134-1149 | while a request is pending some goroutine can move |
| `TeamSwitch.EveryHistoryReconciles` | network/switch.go:153-271 | after any history of calls and partly applied batches, a call that succeeds leaves each team's VLAN at host 4 of its network, leasing that network from host 20 to 199, those of empty stations bare, and the standing configuration in place |
| `TeamSwitch.CallReconciles` | network/switch.go:153-271 | one call: it succeeds into exactly that state, and does if nothing it sends fails, or marks what it knows untrustworthy and shows failing |
| `TeamSwitch.UnchangedStationUndisturbed` | network/switch.go:188-211 | a station whose team has not changed is named by no line, and holds its address and pool at every instant |
| `TeamSwitch.AdditionNeverOverlaps` | network/switch.go:206-255 | at no instant of adding the new networks do two stations share a subnet |
| `TeamSwitch.RemovalNeverOverlaps` | network/switch.go:193-204 | nor while removing, when the switch was in step |
| `TeamSwitch.TeamReadsBack` | network/team_network.go:54-58 | a subnet is a team's exactly if its octets, read as hundreds and units, are the team's number |
| `TeamSwitch.TeamSubnetInjective` | network/team_network.go:54-58 | two teams never have the same subnet |
| `TeamSwitch.Catalyst.RunConfigCommand` | network/switch.go:526-540 | a batch takes effect as a prefix of its lines |
| `TeamSwitch.Switch.CollectTeamIds` | network/team_network.go:18-27 | the team numbers, with 0 for an empty station |
| `TeamSwitch.Switch.ConfigureTeamEthernet` | network/switch.go:153-271 | the object's fields and the device move as the call function says, through every failure; on success the device serves every team of the lineup; and an unconfigured switch is left alone |
| `DriverStation.FrameReadsBackExactly` | field/driver_station_connection.go:508-585 | a game data message is read back whole from any stream if and only if its data is at most 253 bytes |
| `DriverStation.WireSplits` | field/driver_station_connection.go:508-531 | messages run together split back into the original strings |
| `DriverStation.MessagesAreChanges` | field/driver_station_connection.go:333-344 | a legacy station is sent exactly the changes of the game data over the ticks at which it could be reached |
| `DriverStation.StationReadsChanges` | field/driver_station_connection.go:333-355 | and that is what splitting its socket's stream gives |
| `MatchGameData.StationReadsResult` | field/driver_station_connection.go:333-355 | over any run of a match and whatever becomes of its connection, a legacy station reads the letter of the AUTO winner and then an empty string, each at most once, and exactly when a packet of teleop, and later one after it, found the connection up |
| `MatchGameData.StationReadsPromptly` | field/arena.go:743-775 | a connection that stays up has read the letter by the end of the tick that enters teleop, and both by the end of the one that ends the match |
| `DriverStation.WalkRecoversTags` | field/driver_station_connection.go:146-165 | the tag walk finds the tags of any packet, however padded, and stops at one that is cut short |
| `DriverStation.WalkUndoesWriting` | field/driver_station_connection.go:146-165 | writing fields after a header and walking from its end is a round trip |
| `DriverStation.WalkTags` | field/driver_station_connection.go:146-165 | the loop reads nothing out of bounds, and the last tag 1 with five bytes decides the statistics |
| `DriverStation.CountdownTellsTruthExactly` | field/driver_station_connection.go:285-302 | the countdown in a control packet is the seconds left of AUTO and of teleop, if and only if there is no warmup |
| `DriverStation.DriverStationConnection.CheckGameData` | field/driver_station_connection.go:333-344 | a message goes out only on a change, and a failure is left to be retried |
| `DriverStation.DriverStationConnection.SendGameDataPacket` | field/driver_station_connection.go:565-585 | the bytes written are one frame |
| `DriverStation.DriverStationConnection.EncodeControlPacket` | field/driver_station_connection.go:227-328 | the flags, station, numbers, countdown and time of day can be read back, and the tag walk recovers the first eight bytes of game data, or none |
| `HubRelays.LineShowsMode` | hardware/gpio_hub_relays.go:82-123 | after any orders, writes and failed writes, an update that succeeds leaves the line lit exactly as the mode in force wants it: off, steady, or blinking by the clock from dark, every 0.7 or 0.36 seconds; writing only if something is to change |
| `HubRelays.ModeIsInForce` | hardware/gpio_hub_relays.go:82-86 | a lamp's mode and start time are those of the unbroken run of its latest orders |
| `HubRelays.RelayLamp.SetMode` | hardware/gpio_hub_relays.go:82-86 | repeating a mode does not restart its blink |
| `HubRelays.RelayLamp.Drive` | hardware/gpio_hub_relays.go:112-123 | the line is written only when needed, and an error is returned exactly when that fails |
| `HubRelays.GpioHubRelays.Update` | hardware/gpio_hub_relays.go:99-110 | red first; a failure there leaves blue for the next call |
| `HubRelays.GpioHubRelays.Close` | hardware/gpio_hub_relays.go:130-143 | both lamps are darkened once |
| `DmxController.LayoutsAreSound` | led/fixture.go:42-89 | in both layouts every fixture fits its universe and no two share a channel; the eight of a zone follow one another, blue after red or on a universe of its own |
| `DmxController.ChannelsShowPixels` | led/controller.go:136-163 | each fixture's channels show its own zone's pixels, and every other channel is dark |
| `DmxController.FixturesShowColours` | led/controller.go:150-160 | pixel by pixel, from the fixture's address: red, green, blue |
| `DmxController.GatewayShowsLatest` | led/controller.go:166-176 | if the latest send that was tried went through, the gateway shows the latest frame, sent or suppressed |
| `DmxController.NoFailuresLanded` | led/controller.go:166-176 | without failures that is always so |
| `DmxController.FailedSendWaits` | led/controller.go:287-302 | after a failed send, any number of updates that want the same frame before the heartbeat leave the gateway as it was |
| `DmxController.WaitEndsExactly` | led/controller.go:287-302 | the next update repairs it exactly if the heartbeat has come or another frame is wanted |
| `DmxController.SequenceCountsSends` | led/controller.go:166-176 | a universe's sequence number counts the sends that were tried |
| `DmxController.Controller.PaintFixture` | led/controller.go:153-160 | the inner loop paints exactly the fixture's 24 channels |
| `DmxController.Controller.PopulateFixtureData` | led/controller.go:136-163 | every channel of every universe after a zone is painted, or an error for a bad fixture |
| `DmxController.Controller.SendAll` | led/controller.go:124-130 | in whatever order the universes come, those tried are marked and the others are as they were; what was tried lands unless its send failed; without a failure every due universe was tried, and otherwise exactly one of them failed |
| `DmxController.Controller.Update` | led/controller.go:100-133 | every universe whose latest send went through shows exactly what both zones want |
| `MatchCues.SeesItsShift` | field/arena.go:1607-1642 | the shift the arena has last seen is AUTO, the coarse clock's, the time after a match or none, as its period says |
| `ShiftCue.CoarseClockLeadsExactly` | field/arena.go:1607-1642 | the whole-second clock reads what the HUBs' clock will read at the next whole second, throughout teleop, if and only if teleop is exactly its shifts and endgame |
| `ShiftCue.OneHandoverExactly` | field/arena.go:1624-1642 | instants a gap apart never skip a handover exactly when the gap is at most one shift, or no shorter than teleop, or teleop starts after the third handover |
| `MatchCues.CueSoundsFourTimes` | field/arena.go:845-855 | in every run of any number of matches, with ticks a gap apart that fits the settings (no more than a shift, and teleop entered before Shift 2 even at its latest), a match played to its end has sounded the cue four times, once at each handover, in order |
| `MatchCueLaw.CueSoundsExactly` | field/arena.go:845-855 | over all runs of a new arena with ticks at most a gap apart, that holds of every match if and only if the gap fits the settings |
| `MatchCues.ShortTeleopNeverSounds` | field/arena.go:1624-1642 | with a teleop no longer than the endgame and three shifts, the first handover is sounded in no run, however close its ticks |
| `MatchCues.SomePaceFits` | field/arena.go:1624-1642 | some gap fits if and only if teleop is longer than that |
| `MatchCueLaw.DefaultsFitExactly` | game/match_timing.go:27-38 | with the settings the controller starts with, a gap fits if and only if it is at most eighteen and a half seconds |

## Left out

- Sockets, Telnet, HTTP, the database, logging, notifiers, sounds other than the shift cue, the web UI and the settings forms: input and output, replaced by parameters.
- Settings reloads during a run: the receiver, the panels, the switch and the match timing are fixed for a run.
- The access point, port cycling, link polling, stack lights and the PLC's own protocol: plumbing around the core.
- One clock reading per tick, plus a delay before the stop inputs are polled: the code reads the clock several times within a tick.
- Match times are exact: the code compares them as floating-point seconds.
- Accepting, dropping and hearing from a driver station are atomic steps: their goroutines do not take the arena's lock.
- Stations are values in a sequence held by the arena: that a team's record is shared by pointer is not captured.
- Database errors, which can leave a lineup half assigned, and the match-start log.
- The switch: a reply that times out counts as success in the code and here, so success means that the lines were sent and taken; the standing configuration is 74 lines, told apart by their number, that touch no team VLAN.
- The counter receiver: how JSON is parsed, the match context, the status reply, the ONLINE and OFFLINE ages and the rate limit of its log.
- Driver stations: the handshake, link timeouts and the battery reading; a failed TCP write is taken to write nothing.
- DMX: the pixels of the sequences, the E1.31 and Art-Net headers and the sequence number's meaning; a send that returns no error is taken to reach the gateway.
- The settings form takes any integer: the timing theorems are about settings that a match can be played with, none negative and with an AUTO, a transition and shifts.
- Match records: the post-match fuel log.
