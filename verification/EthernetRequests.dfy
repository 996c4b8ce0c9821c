/** field/arena.go, configureTeamEthernet: any number of requests to reconfigure the switch, each on
    its own goroutine, scheduled in any order. A request draws a generation; its goroutine takes the
    apply lock, drops out if it has been superseded, and otherwise configures the switch. */
module EthernetRequests {
  import opened Common
  import opened TeamSwitch

  /** Where a request's goroutine is. */
  datatype Phase = Waiting | Checking | Applying | Finished

  /** Generation g is at index g - 1 of `lineups` and `phases`; `generation` is how many there are.
      `applied` is the history of the generations that reached the switch. */
  datatype State = State(
    lineups: seq<Lineup>,
    phases: seq<Phase>,
    holder: Option<nat>,
    applied: seq<nat>,
    driver: Driver,
    device: Device,
    ok: bool)
  {
    function Generation(): nat { |phases| }

    predicate IsAt(g: nat, phase: Phase) { 1 <= g <= |phases| && phases[g - 1] == phase }
  }

  datatype Action =
    | Request(teams: Lineup)
    | Acquire(g: nat)
    | Check(g: nat)
    | Apply(g: nat, outcomes: Outcomes)

  predicate Enabled(s: State, a: Action) {
    match a
    case Request(_) => true
    case Acquire(g) => s.IsAt(g, Waiting) && s.holder == None
    case Check(g) => s.IsAt(g, Checking)
    case Apply(g, _) => s.IsAt(g, Applying) && g <= |s.lineups| && |s.driver.applied| == STATIONS
  }

  function Step(dns: string, s: State, a: Action): State
    requires Enabled(s, a)
  {
    match a
    case Request(teams) => s.(lineups := s.lineups + [teams], phases := s.phases + [Waiting])
    case Acquire(g) => s.(phases := s.phases[g - 1 := Checking], holder := Some(g))
    case Check(g) =>
      if g != s.Generation() then s.(phases := s.phases[g - 1 := Finished], holder := None)
      else s.(phases := s.phases[g - 1 := Applying])
    case Apply(g, o) =>
      var call := Configured(true, dns, s.driver, s.device, s.lineups[g - 1], o);
      s.(phases := s.phases[g - 1 := Finished], holder := None, applied := s.applied + [g],
         driver := call.driver, device := call.device, ok := call.ok)
  }

  function Initial(device: Device): State { State([], [], None, [], NEW_DRIVER, device, false) }

  /** The state after a run, if each action was enabled when it was taken. */
  function After(dns: string, start: Device, actions: seq<Action>): Option<State> {
    if actions == [] then Some(Initial(start))
    else
      var before := After(dns, start, actions[..|actions| - 1]);
      var a := actions[|actions| - 1];
      if before.Some? && Enabled(before.value, a) then Some(Step(dns, before.value, a)) else None
  }

  ghost predicate Increasing(gs: seq<nat>) {
    forall i, j :: 0 <= i < j < |gs| ==> gs[i] < gs[j]
  }

  /** The bookkeeping: one goroutine at a time holds the lock, only finished ones have applied, and
      each that applied was ahead of all before it. */
  ghost predicate Ordered(s: State) {
    && |s.lineups| == |s.phases|
    && (forall g: nat :: s.IsAt(g, Checking) || s.IsAt(g, Applying) ==> s.holder == Some(g))
    && (s.holder.Some? ==> s.IsAt(s.holder.value, Checking) || s.IsAt(s.holder.value, Applying))
    && (forall i :: 0 <= i < |s.applied| ==> s.IsAt(s.applied[i], Finished))
    && Increasing(s.applied)
    && (forall g: nat, i :: s.IsAt(g, Applying) && 0 <= i < |s.applied| ==> s.applied[i] < g)
  }

  /** The newest request cannot be dropped: if its goroutine is finished, it was the last to apply. */
  ghost predicate NewestApplied(s: State) {
    s.IsAt(s.Generation(), Finished) ==> s.applied != [] && s.applied[|s.applied| - 1] == s.Generation()
  }

  ghost predicate SwitchAgrees(dns: string, s: State) {
    && |s.lineups| == |s.phases|
    && (forall i :: 0 <= i < |s.applied| ==> 1 <= s.applied[i] <= |s.lineups|)
    && Trustworthy(s.driver, s.device, dns)
    && (s.applied != [] && s.ok ==> ServesAll(s.device, s.lineups[s.applied[|s.applied| - 1] - 1], dns))
  }

  ghost predicate Invariant(dns: string, s: State) {
    Ordered(s) && NewestApplied(s) && SwitchAgrees(dns, s)
  }

  lemma OrderedStep(dns: string, s: State, a: Action)
    requires Enabled(s, a) && Ordered(s)
    ensures Ordered(Step(dns, s, a))
  {
    var t := Step(dns, s, a);
    if a.Apply? {
      forall i | 0 <= i < |s.applied| ensures s.applied[i] < a.g { assert s.IsAt(a.g, Applying); }
    }
    forall g: nat ensures t.IsAt(g, Checking) || t.IsAt(g, Applying) ==> t.holder == Some(g) {
      assert s.IsAt(g, Checking) || s.IsAt(g, Applying) ==> s.holder == Some(g);
    }
    forall i | 0 <= i < |t.applied| ensures t.IsAt(t.applied[i], Finished) {
      if i < |s.applied| { assert s.IsAt(s.applied[i], Finished); }
    }
    forall g: nat, i | t.IsAt(g, Applying) && 0 <= i < |t.applied| ensures t.applied[i] < g {
      if i < |s.applied| { assert s.IsAt(s.applied[i], Finished); }
    }
  }

  /** A goroutine that reaches the switch was ahead of all that reached it before. */
  lemma NewestStaysApplied(s: State, t: State, g: nat)
    requires Ordered(s) && NewestApplied(s) && s.IsAt(g, Applying)
    requires t.phases == s.phases[g - 1 := Finished] && t.applied == s.applied + [g]
    ensures NewestApplied(t)
  {
    if s.applied != [] { assert s.applied[|s.applied| - 1] < g; }
  }

  lemma NewestAppliedStep(dns: string, s: State, a: Action)
    requires Enabled(s, a) && Ordered(s) && NewestApplied(s)
    ensures NewestApplied(Step(dns, s, a))
  {
    if a.Apply? { NewestStaysApplied(s, Step(dns, s, a), a.g); }
  }

  lemma SwitchAgreesStep(dns: string, s: State, a: Action)
    requires Enabled(s, a) && SwitchAgrees(dns, s)
    ensures SwitchAgrees(dns, Step(dns, s, a))
  {
    if a.Apply? { CallReconciles(dns, s.driver, s.device, s.lineups[a.g - 1], a.outcomes); }
  }

  lemma {:induction false} InvariantAlways(dns: string, start: Device, actions: seq<Action>)
    requires After(dns, start, actions).Some?
    ensures Invariant(dns, After(dns, start, actions).value)
  {
    if actions != [] {
      var a := actions[|actions| - 1];
      InvariantAlways(dns, start, actions[..|actions| - 1]);
      var before := After(dns, start, actions[..|actions| - 1]).value;
      OrderedStep(dns, before, a);
      NewestAppliedStep(dns, before, a);
      SwitchAgreesStep(dns, before, a);
    }
  }

  ghost predicate Quiet(s: State) { forall g: nat :: 1 <= g <= |s.phases| ==> s.IsAt(g, Finished) }

  /** The last request wins. However requests and goroutines interleave: generations reach the
      switch in strictly increasing order; once no goroutine is pending the last to have reached it
      is the newest; and if that call succeeded the switch holds exactly the newest lineup. */
  lemma LastRequestWins(dns: string, start: Device, actions: seq<Action>, s: State)
    requires After(dns, start, actions) == Some(s)
    ensures Increasing(s.applied)
    ensures Quiet(s) && s.phases != [] ==>
              && s.applied != [] && s.applied[|s.applied| - 1] == s.Generation() == |s.lineups|
              && (s.ok ==> ServesAll(s.device, s.lineups[|s.lineups| - 1], dns))
  {
    InvariantAlways(dns, start, actions);
  }

  /** And no request is stranded: while one is pending, some goroutine can move. */
  lemma NoDeadlock(dns: string, start: Device, actions: seq<Action>, s: State)
    requires After(dns, start, actions) == Some(s) && !Quiet(s)
    ensures exists a: Action :: !a.Request? && Enabled(s, a)
  {
    InvariantAlways(dns, start, actions);
    var g: nat :| 1 <= g <= |s.phases| && !s.IsAt(g, Finished);
    if s.holder == None {
      assert s.IsAt(g, Waiting) by { assert !s.IsAt(g, Checking) && !s.IsAt(g, Applying); }
      assert Enabled(s, Acquire(g));
    } else if s.IsAt(s.holder.value, Checking) {
      assert Enabled(s, Check(s.holder.value));
    } else {
      assert Enabled(s, Apply(s.holder.value, Outcomes(Done, true, Done, Done)));
    }
  }
}
