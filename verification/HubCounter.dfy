/** hardware/hub_counter.go: the receiver for the webcam FUEL counter. It turns cumulative totals,
    sent over an unreliable network by a counter that may restart, into match-relative counts. */
module HubCounter {
  import opened Common

  /** The red and blue halves of a count. */
  datatype Counts = Counts(red: int, blue: int) {
    function Plus(that: Counts): Counts { Counts(red + that.red, blue + that.blue) }
    function Minus(that: Counts): Counts { Counts(red - that.red, blue - that.blue) }
    predicate AtMost(that: Counts) { red <= that.red && blue <= that.blue }
  }

  const ZERO := Counts(0, 0)

  // ------------------------------------------------------------------------------- acceptance

  /** The wire form. A number the counter forgot is told apart from one it sent as zero. */
  datatype Packet = Packet(
    version: int,
    session: string,
    seqNum: Option<nat>,
    red: Option<int>,
    blue: Option<int>,
    ageMs: int)

  const PROTOCOL_VERSION := 1
  const MAX_SESSION_LENGTH := 32

  predicate IsSessionChar(c: char) {
    'a' <= c <= 'z' || 'A' <= c <= 'Z' || '0' <= c <= '9' || c == '_' || c == '-'
  }

  predicate IsSessionId(session: string) {
    forall i :: 0 <= i < |session| ==> IsSessionChar(session[i])
  }

  datatype PacketError =
    | WrongVersion | NoSession | LongSession | BadSession | NoSeq | NoCounts | NegativeCount | NegativeAge

  datatype Result<+T, +E> = Ok(value: T) | Err(error: E)

  /** A datagram that passed validation. */
  datatype Datagram = Datagram(session: string, seqNum: nat, counts: Counts, ageMs: nat)

  function Validate(packet: Packet): Result<Datagram, PacketError> {
    if packet.version != PROTOCOL_VERSION then Err(WrongVersion)
    else if packet.session == "" then Err(NoSession)
    else if |packet.session| > MAX_SESSION_LENGTH then Err(LongSession)
    else if !IsSessionId(packet.session) then Err(BadSession)
    else if packet.seqNum == None then Err(NoSeq)
    else if packet.red == None || packet.blue == None then Err(NoCounts)
    else if packet.red.value < 0 || packet.blue.value < 0 then Err(NegativeCount)
    else if packet.ageMs < 0 then Err(NegativeAge)
    else Ok(Datagram(packet.session, packet.seqNum.value,
                     Counts(packet.red.value, packet.blue.value), packet.ageMs))
  }

  /** A datagram that passes cannot forge a log line or report a negative count, and a zero that was
      sent is kept apart from a number that was left out. */
  lemma ValidatedIsSafe(packet: Packet)
    ensures Validate(packet).Ok? ==>
              var d := Validate(packet).value;
              && 1 <= |d.session| <= MAX_SESSION_LENGTH && '\n' !in d.session && ' ' !in d.session
              && ZERO.AtMost(d.counts)
              && Some(d.counts.red) == packet.red && Some(d.counts.blue) == packet.blue
              && Some(d.seqNum) == packet.seqNum
  {
    if Validate(packet).Ok? {
      var session := packet.session;
      forall i | 0 <= i < |session| ensures session[i] != '\n' && session[i] != ' ' {
        assert IsSessionChar(session[i]);
      }
    }
  }

  /** An ASCII digit, letter, hyphen or underscore. */
  predicate IsNameByte(n: int) { 48 <= n <= 57 || 65 <= n <= 90 || 97 <= n <= 122 || n == 45 || n == 95 }

  /** What a counter may report, and how it puts it on the wire. */
  predicate Reportable(d: Datagram) {
    && 1 <= |d.session| <= 32 && (forall i :: 0 <= i < |d.session| ==> IsNameByte(d.session[i] as int))
    && 0 <= d.counts.red && 0 <= d.counts.blue
  }

  function OnTheWire(d: Datagram): Packet {
    Packet(1, d.session, Some(d.seqNum), Some(d.counts.red), Some(d.counts.blue), d.ageMs)
  }

  /** Validation undoes sending, and accepts nothing else. */
  lemma ValidateUndoesSending(packet: Packet, d: Datagram)
    ensures Validate(packet) == Ok(d) <==> Reportable(d) && packet == OnTheWire(d)
  {
  }

  const MAX_DATAGRAM: nat := 512

  /** What comes off the socket: whether the counter sent it, how long it is, and its packet if it can be
      parsed as one. */
  datatype Message = Message(fromCounter: bool, size: nat, packet: Option<Packet>)

  function Admitted(message: Message): Option<Datagram> {
    if !message.fromCounter || message.size > MAX_DATAGRAM || message.packet == None then None
    else if Validate(message.packet.value).Err? then None
    else Some(Validate(message.packet.value).value)
  }

  // ------------------------------------------------------------------- the receiver as a value

  /** The receiver's state: the last accepted datagram, where the match started within its session,
      and what earlier sessions contributed. */
  datatype Feed = Feed(last: Option<Datagram>, baseSession: string, base: Counts, carried: Counts) {
    /** Whatever arrives, the baseline belongs to the session being heard and is not ahead of it. */
    predicate Valid() {
      && ZERO.AtMost(carried)
      && (last.Some? ==> baseSession == last.value.session && base.AtMost(last.value.counts))
      && (last.None? ==> base == ZERO && carried == ZERO)
    }

    predicate SameSession(d: Datagram) { last.Some? && last.value.session == d.session }

    /** Within a session only a later datagram with no smaller count is accepted. */
    predicate Accepts(d: Datagram) {
      SameSession(d) ==> last.value.seqNum < d.seqNum && last.value.counts.AtMost(d.counts)
    }

    /** What the open session has contributed since its baseline. */
    function Contribution(): Counts {
      if last.Some? && last.value.session == baseSession then last.value.counts.Minus(base) else ZERO
    }

    function Total(): Counts { Counts(carried.red + Contribution().red, carried.blue + Contribution().blue) }

    /** The age shown for a datagram: a heartbeat that brings no FUEL keeps the previous one. */
    function Age(d: Datagram): nat {
      if last.Some? && last.value.counts == d.counts then last.value.ageMs else d.ageMs
    }

    function Recorded(d: Datagram): Feed {
      if !Accepts(d) then this
      else
        var kept := d.(ageMs := Age(d));
        if SameSession(d) then this.(last := Some(kept))
        else Feed(Some(kept), d.session, d.counts,
                  if last.Some? then carried.Plus(last.value.counts.Minus(base)) else carried)
    }

    function Rebased(): Feed {
      if last.None? then Feed(None, "", ZERO, ZERO)
      else Feed(last, last.value.session, last.value.counts, ZERO)
    }
  }

  const SILENT := Feed(None, "", ZERO, ZERO)

  /** One datagram: the invariant survives, no count ever falls, and a restart moves the total into
      `carried` without changing it. */
  lemma RecordedKeeps(feed: Feed, d: Datagram)
    requires feed.Valid() && ZERO.AtMost(d.counts)
    ensures feed.Recorded(d).Valid()
    ensures feed.Total().AtMost(feed.Recorded(d).Total())
    ensures !feed.SameSession(d) ==> feed.Recorded(d).Total() == feed.Total()
  {
  }

  lemma RebasedIsZero(feed: Feed)
    ensures feed.Rebased().Total() == ZERO
    ensures feed.Valid() ==> feed.Rebased().Valid()
  {
  }

  // ----------------------------------------------------------------------- runs over the network

  /** Everything that has happened to a receiver, latest event outermost: datagrams, in the order
      the network delivered them, and the resets at the starts of matches. */
  datatype History = Nothing | Arrived(before: History, d: Datagram) | Reset(before: History)

  function FeedAfter(h: History): Feed {
    match h
    case Nothing => SILENT
    case Arrived(before, d) => FeedAfter(before).Recorded(d)
    case Reset(before) => FeedAfter(before).Rebased()
  }

  ghost predicate Occurs(h: History, d: Datagram) {
    match h
    case Nothing => false
    case Arrived(before, e) => e == d || Occurs(before, d)
    case Reset(before) => Occurs(before, d)
  }

  predicate Heard(h: History, session: string) {
    match h
    case Nothing => false
    case Arrived(before, d) => d.session == session || Heard(before, session)
    case Reset(before) => Heard(before, session)
  }

  /** The session of the latest datagram. */
  function OpenSession(h: History): Option<string> {
    match h
    case Nothing => None
    case Arrived(_, d) => Some(d.session)
    case Reset(before) => OpenSession(before)
  }

  /** What a working counter promises: within a session the counts follow the sequence numbers. */
  ghost predicate Monotone(h: History) {
    && (forall d :: Occurs(h, d) ==> ZERO.AtMost(d.counts))
    && (forall d, e :: Occurs(h, d) && Occurs(h, e) && d.session == e.session && d.seqNum <= e.seqNum ==>
                         d.counts.AtMost(e.counts))
  }

  /** No datagram of a session arrives once a later session has been heard. */
  predicate OneSessionAtATime(h: History) {
    match h
    case Nothing => true
    case Arrived(before, d) =>
      OneSessionAtATime(before) && (Heard(before, d.session) ==> OpenSession(before) == Some(d.session))
    case Reset(before) => OneSessionAtATime(before)
  }

  /** The datagram of a session that is furthest ahead. */
  function Highest(h: History, session: string): Option<Datagram> {
    match h
    case Nothing => None
    case Arrived(before, d) =>
      var highest := Highest(before, session);
      if d.session == session && (highest == None || highest.value.seqNum < d.seqNum) then Some(d) else highest
    case Reset(before) => Highest(before, session)
  }

  // What a match should count: for each session heard since the latest reset, how far it got beyond
  // where the match found it.

  /** Where the current match found a session: as far as it had got when the match was reset, or
      else where it was first heard. */
  function Found(h: History, session: string): Option<Counts> {
    match h
    case Nothing => None
    case Reset(before) =>
      var highest := Highest(before, session);
      if highest.Some? then Some(highest.value.counts) else None
    case Arrived(before, d) =>
      if Found(before, session) == None && d.session == session then Some(d.counts)
      else Found(before, session)
  }

  /** The sessions heard since the latest reset, latest first. */
  function Sessions(h: History): seq<string> {
    match h
    case Nothing => []
    case Reset(_) => []
    case Arrived(before, d) =>
      if d.session in Sessions(before) then Sessions(before) else [d.session] + Sessions(before)
  }

  function Gain(h: History, session: string): Counts {
    if Highest(h, session).Some? && Found(h, session).Some?
    then Highest(h, session).value.counts.Minus(Found(h, session).value)
    else ZERO
  }

  function SumOfGains(h: History, sessions: seq<string>): Counts {
    if sessions == [] then ZERO
    else Gain(h, sessions[0]).Plus(SumOfGains(h, sessions[1..]))
  }

  lemma {:induction false} HeardIsFound(h: History, session: string)
    ensures Heard(h, session) <==> Found(h, session).Some?
  {
    match h
    case Nothing =>
    case Arrived(before, d) => HeardIsFound(before, session);
    case Reset(before) => HeardIsFound(before, session); HighestIffHeard(before, session);
  }

  lemma MonotoneBefore(h: History)
    requires Monotone(h) && h != Nothing
    ensures Monotone(h.before)
  {
    forall d | Occurs(h.before, d) ensures Occurs(h, d) {}
  }

  lemma {:induction false} HighestIffHeard(h: History, session: string)
    ensures Highest(h, session).Some? <==> Heard(h, session)
  {
    match h
    case Nothing =>
    case Arrived(before, d) => HighestIffHeard(before, session);
    case Reset(before) => HighestIffHeard(before, session);
  }

  lemma GainOfOthers(before: History, d: Datagram, session: string)
    requires session != d.session
    ensures Gain(Arrived(before, d), session) == Gain(before, session)
  {
  }

  lemma {:induction false} SumOfOthers(before: History, d: Datagram, sessions: seq<string>)
    requires d.session !in sessions
    ensures SumOfGains(Arrived(before, d), sessions) == SumOfGains(before, sessions)
  {
    if sessions != [] {
      GainOfOthers(before, d, sessions[0]);
      SumOfOthers(before, d, sessions[1..]);
    }
  }

  ghost predicate Distinct(sessions: seq<string>) {
    sessions != [] ==> sessions[0] !in sessions[1..] && Distinct(sessions[1..])
  }

  /** The sum moves by the gain of the session that was heard. */
  lemma {:induction false} SumOfGainsStep(before: History, d: Datagram, sessions: seq<string>)
    requires Distinct(sessions) && d.session in sessions
    ensures SumOfGains(Arrived(before, d), sessions) ==
            SumOfGains(before, sessions).Plus(Gain(Arrived(before, d), d.session).Minus(Gain(before, d.session)))
  {
    if sessions[0] == d.session {
      SumOfOthers(before, d, sessions[1..]);
    } else {
      GainOfOthers(before, d, sessions[0]);
      SumOfGainsStep(before, d, sessions[1..]);
    }
  }

  lemma {:induction false} SessionsAreDistinct(h: History)
    ensures Distinct(Sessions(h))
  {
    match h
    case Nothing =>
    case Reset(_) =>
    case Arrived(before, d) =>
      SessionsAreDistinct(before);
      assert ([d.session] + Sessions(before))[1..] == Sessions(before);
  }

  lemma SumOfGainsFirst(before: History, d: Datagram)
    requires d.session !in Sessions(before)
    ensures var h := Arrived(before, d);
            SumOfGains(h, Sessions(h)) == Gain(h, d.session).Plus(SumOfGains(before, Sessions(before)))
  {
    SumOfOthers(before, d, Sessions(before));
    assert ([d.session] + Sessions(before))[1..] == Sessions(before);
  }

  lemma FirstGain(gain: Counts, gainBefore: Counts, sum: Counts)
    requires gainBefore.red == 0 && gainBefore.blue == 0
    ensures gain.Plus(sum) == sum.Plus(gain.Minus(gainBefore))
  {
  }

  lemma SumOfGainsArrival(before: History, d: Datagram)
    requires d.session !in Sessions(before) ==> Gain(before, d.session).red == 0 && Gain(before, d.session).blue == 0
    ensures var h := Arrived(before, d);
            SumOfGains(h, Sessions(h)) ==
            SumOfGains(before, Sessions(before)).Plus(Gain(h, d.session).Minus(Gain(before, d.session)))
  {
    if d.session in Sessions(before) {
      SessionsAreDistinct(before);
      SumOfGainsStep(before, d, Sessions(before));
    } else {
      SumOfGainsFirst(before, d);
      FirstGain(Gain(Arrived(before, d), d.session), Gain(before, d.session), SumOfGains(before, Sessions(before)));
    }
  }

  /** A session heard only before the reset has gained nothing since. */
  lemma {:induction false} UnheardGainsNothing(h: History, session: string)
    requires session !in Sessions(h)
    ensures Gain(h, session).red == 0 && Gain(h, session).blue == 0
  {
    match h
    case Nothing =>
    case Arrived(before, d) =>
      assert forall s :: s in Sessions(before) || s == d.session ==> s in Sessions(h);
      UnheardGainsNothing(before, session);
    case Reset(before) =>
  }

  // ---------------------------------------------------------------- the law, and what follows from it

  /** A maximal stretch of datagrams of one session, latest outermost. */
  datatype Stretch = First(d: Datagram) | Next(before: Stretch, d: Datagram) {
    function Start(): Datagram {
      match this
      case First(d) => d
      case Next(before, _) => before.Start()
    }

    /** The datagram that got furthest. */
    function Furthest(): Datagram {
      match this
      case First(d) => d
      case Next(before, d) => if before.Furthest().seqNum < d.seqNum then d else before.Furthest()
    }

    function Gain(): Counts { Furthest().counts.Minus(Start().counts) }
  }

  /** The visits of sessions since the latest reset, latest first. */
  datatype Visits = NoVisits | Visit(open: Stretch, earlier: Visits)

  /** A reset in the middle of a visit takes it up again from as far as it had got. */
  function VisitsOf(h: History): Visits {
    match h
    case Nothing => NoVisits
    case Arrived(before, d) =>
      var visits := VisitsOf(before);
      if visits.Visit? && visits.open.Start().session == d.session then Visit(Next(visits.open, d), visits.earlier)
      else Visit(First(d), visits)
    case Reset(before) =>
      var visits := VisitsOf(before);
      if visits.Visit? then Visit(First(visits.open.Furthest()), NoVisits) else NoVisits
  }

  function SumOfVisits(visits: Visits): Counts {
    match visits
    case NoVisits => ZERO
    case Visit(open, earlier) =>
      Counts(open.Gain().red + SumOfVisits(earlier).red, open.Gain().blue + SumOfVisits(earlier).blue)
  }

  /** The receiver's last datagram is, up to its age, the one that got furthest in the open visit; its
      baseline is where that visit started; and the earlier visits are carried. */
  ghost predicate FollowsVisits(feed: Feed, visits: Visits) {
    if visits.NoVisits? then feed.last.None? && feed.carried.red == 0 && feed.carried.blue == 0
    else
      && feed.last.Some?
      && feed.last.value.session == feed.baseSession == visits.open.Start().session
      && feed.last.value.seqNum == visits.open.Furthest().seqNum
      && feed.last.value.counts == visits.open.Furthest().counts
      && feed.base == visits.open.Start().counts
      && feed.carried == SumOfVisits(visits.earlier)
  }

  /** A visit's datagrams have occurred, and are all of its session. */
  lemma {:induction false} FurthestOccurs(h: History)
    ensures var visits := VisitsOf(h);
            visits.Visit? ==>
              Occurs(h, visits.open.Furthest()) && visits.open.Furthest().session == visits.open.Start().session
  {
    match h
    case Nothing =>
    case Arrived(before, _) => FurthestOccurs(before);
    case Reset(before) => FurthestOccurs(before);
  }

  /** In a visit a datagram is accepted exactly if it gets further. */
  lemma FollowsArrival(feed: Feed, before: History, d: Datagram)
    requires FollowsVisits(feed, VisitsOf(before)) && Monotone(Arrived(before, d))
    ensures FollowsVisits(feed.Recorded(d), VisitsOf(Arrived(before, d)))
  {
    FurthestOccurs(before);
    assert Occurs(Arrived(before, d), d);
    if feed.SameSession(d) {
      assert Occurs(Arrived(before, d), VisitsOf(before).open.Furthest());
    }
  }

  lemma {:induction false} FollowsAlways(h: History)
    requires Monotone(h)
    ensures FollowsVisits(FeedAfter(h), VisitsOf(h))
  {
    match h
    case Nothing =>
    case Arrived(before, d) =>
      MonotoneBefore(h);
      FollowsAlways(before);
      FollowsArrival(FeedAfter(before), before, d);
    case Reset(before) =>
      MonotoneBefore(h);
      FollowsAlways(before);
      FurthestOccurs(before);
  }

  /** The law of the receiver. Whatever the network loses, repeats, reorders or replays, within sessions
      and between them, the match-relative count is the sum over the visits since the latest reset of how
      far each got beyond where it started. */
  lemma CountsWhatVisitsGained(h: History)
    requires Monotone(h)
    ensures FeedAfter(h).Total() == SumOfVisits(VisitsOf(h))
  {
    FollowsAlways(h);
  }

  /** With the sessions one after another, a visit is a session. */
  lemma {:induction false} OpenVisitIsSession(h: History)
    requires OneSessionAtATime(h)
    ensures OpenSession(h).Some? <==> VisitsOf(h).Visit?
    ensures VisitsOf(h).Visit? ==>
              var open := VisitsOf(h).open;
              var session := open.Start().session;
              && OpenSession(h) == Some(session)
              && Highest(h, session) == Some(open.Furthest())
              && Found(h, session) == Some(open.Start().counts)
  {
    match h
    case Nothing =>
    case Arrived(before, d) =>
      OpenVisitIsSession(before);
      HeardIsFound(before, d.session);
      HighestIffHeard(before, d.session);
    case Reset(before) =>
      OpenVisitIsSession(before);
      FurthestOccurs(before);
  }

  lemma OpenVisitGains(h: History)
    requires OneSessionAtATime(h) && VisitsOf(h).Visit?
    ensures Gain(h, VisitsOf(h).open.Start().session) == VisitsOf(h).open.Gain()
  {
    OpenVisitIsSession(h);
  }

  lemma SameVisitAdds(open: Stretch, d: Datagram, earlier: Visits)
    ensures SumOfVisits(Visit(Next(open, d), earlier)) ==
            SumOfVisits(Visit(open, earlier)).Plus(Next(open, d).Gain().Minus(open.Gain()))
  {
  }

  lemma NewVisitAdds(visits: Visits, d: Datagram)
    ensures SumOfVisits(Visit(First(d), visits)) == SumOfVisits(visits)
  {
    assert First(d).Gain().red == 0 && First(d).Gain().blue == 0;
  }

  lemma NothingAdded(sum: Counts, gain: Counts, gainBefore: Counts)
    requires gain.red == 0 && gain.blue == 0 && gainBefore.red == 0 && gainBefore.blue == 0
    ensures sum == sum.Plus(gain.Minus(gainBefore))
  {
  }

  /** What one datagram adds to the visits is what it adds to its session. */
  lemma VisitsArrival(before: History, d: Datagram)
    requires OneSessionAtATime(Arrived(before, d))
    ensures SumOfVisits(VisitsOf(Arrived(before, d))) ==
            SumOfVisits(VisitsOf(before)).Plus(Gain(Arrived(before, d), d.session).Minus(Gain(before, d.session)))
  {
    var h, visits := Arrived(before, d), VisitsOf(before);
    OpenVisitIsSession(before);
    OpenVisitGains(h);
    if OpenSession(before) == Some(d.session) {
      OpenVisitGains(before);
      SameVisitAdds(visits.open, d, visits.earlier);
    } else {
      HighestIffHeard(before, d.session);
      NewVisitAdds(visits, d);
      NothingAdded(SumOfVisits(visits), Gain(h, d.session), Gain(before, d.session));
    }
  }

  lemma {:induction false} VisitsAreSessions(h: History)
    requires OneSessionAtATime(h)
    ensures SumOfVisits(VisitsOf(h)) == SumOfGains(h, Sessions(h))
  {
    match h
    case Nothing =>
    case Reset(before) =>
    case Arrived(before, d) =>
      VisitsAreSessions(before);
      VisitsArrival(before, d);
      if d.session !in Sessions(before) { UnheardGainsNothing(before, d.session); }
      SumOfGainsArrival(before, d);
  }

  /** The receiver under a bad network. From a working counter that restarts any number of times,
      with datagrams lost, repeated and reordered within each run of it, and over any number of
      matches, the match-relative count is the sum over the runs heard since the latest reset of how
      far each got beyond where the match found it. */
  lemma CountsWhatSessionsGained(h: History)
    requires Monotone(h) && OneSessionAtATime(h)
    ensures FeedAfter(h).Total() == SumOfGains(h, Sessions(h))
  {
    CountsWhatVisitsGained(h);
    VisitsAreSessions(h);
  }

  function Zeroth(session: string): Datagram { Datagram(session, 0, Counts(0, 0), 0) }

  function Seventh(session: string): Datagram { Datagram(session, 1, Counts(7, 0), 0) }

  /** The order between runs matters, both ways. Here a run is replayed after a later one was heard ... */
  function Replay(a: string, b: string): History {
    Arrived(Arrived(Arrived(Arrived(Arrived(Nothing, Zeroth(a)), Seventh(a)), Zeroth(b)), Zeroth(a)), Seventh(a))
  }

  /** ... and here its last datagram is overtaken by the first of the next. */
  function Overtaken(a: string, b: string): History {
    Arrived(Arrived(Arrived(Nothing, Zeroth(a)), Zeroth(b)), Seventh(a))
  }

  predicate Only(h: History, ds: set<Datagram>) {
    match h
    case Nothing => true
    case Arrived(before, d) => d in ds && Only(before, ds)
    case Reset(before) => Only(before, ds)
  }

  lemma {:induction false} OnlyOccurs(h: History, ds: set<Datagram>, d: Datagram)
    requires Only(h, ds) && Occurs(h, d)
    ensures d in ds
  {
    match h
    case Arrived(before, e) => if e != d { OnlyOccurs(before, ds, d); }
    case Reset(before) => OnlyOccurs(before, ds, d);
  }

  lemma TwoRunsAreMonotone(h: History, a: string, b: string)
    requires a != b && Only(h, {Zeroth(a), Seventh(a), Zeroth(b)})
    ensures Monotone(h)
    ensures forall d :: Occurs(h, d) ==> d.counts.AtMost(Counts(7, 0))
  {
    forall d | Occurs(h, d) ensures d in {Zeroth(a), Seventh(a), Zeroth(b)} {
      OnlyOccurs(h, {Zeroth(a), Seventh(a), Zeroth(b)}, d);
    }
  }

  /** Replayed, the seven FUEL that are the most any datagram ever reports are counted twice. */
  lemma ReplayIsCountedTwice(a: string, b: string)
    requires a != b
    ensures Monotone(Replay(a, b)) && !OneSessionAtATime(Replay(a, b))
    ensures forall d :: Occurs(Replay(a, b), d) ==> d.counts.AtMost(Counts(7, 0))
    ensures FeedAfter(Replay(a, b)).Total() == Counts(14, 0)
  {
    var h := Replay(a, b);
    var h3 := h.before.before;
    var ds := {Zeroth(a), Seventh(a), Zeroth(b)};
    assert Only(h3.before.before, ds);
    assert Only(h3, ds);
    TwoRunsAreMonotone(h, a, b);
    assert OpenSession(h3) == Some(b) && Heard(h3.before, a);
    CountsWhatVisitsGained(h);
    ReplayVisits(a, b);
  }

  lemma ReplayVisits(a: string, b: string)
    requires a != b
    ensures SumOfVisits(VisitsOf(Replay(a, b))) == Counts(14, 0)
  {
    var h := Replay(a, b);
    var start, run := First(Zeroth(a)), Next(First(Zeroth(a)), Seventh(a));
    var first := Visit(run, NoVisits);
    assert VisitsOf(h.before.before.before.before) == Visit(start, NoVisits);
    assert VisitsOf(h.before.before.before) == first;
    assert VisitsOf(h.before.before) == Visit(First(Zeroth(b)), first);
    assert VisitsOf(h.before) == Visit(start, Visit(First(Zeroth(b)), first));
    assert VisitsOf(h) == Visit(run, Visit(First(Zeroth(b)), first));
    SevenGained(a);
    NewVisitAdds(first, Zeroth(b));
    assert SumOfVisits(first).red == 7 && SumOfVisits(first).blue == 0;
  }

  lemma SevenGained(a: string)
    ensures var run := Next(First(Zeroth(a)), Seventh(a));
            run.Gain().red == 7 && run.Gain().blue == 0
  {
    assert First(Zeroth(a)).Furthest() == Zeroth(a) && First(Zeroth(a)).Start() == Zeroth(a);
  }

  /** Overtaken, the seven FUEL of the first run are never counted. */
  lemma OvertakenIsNotCounted(a: string, b: string)
    requires a != b
    ensures Monotone(Overtaken(a, b)) && !OneSessionAtATime(Overtaken(a, b))
    ensures Gain(Overtaken(a, b), a) == Counts(7, 0)
    ensures FeedAfter(Overtaken(a, b)).Total() == Counts(0, 0)
  {
    var h := Overtaken(a, b);
    var ds := {Zeroth(a), Seventh(a), Zeroth(b)};
    assert Only(h.before, ds);
    assert Only(h, ds);
    TwoRunsAreMonotone(h, a, b);
    assert OpenSession(h.before) == Some(b) && Heard(h.before, a);
    CountsWhatVisitsGained(h);
    OvertakenVisits(a, b);
    OvertakenGain(a, b);
  }

  lemma OvertakenVisits(a: string, b: string)
    requires a != b
    ensures SumOfVisits(VisitsOf(Overtaken(a, b))) == Counts(0, 0)
  {
    var h := Overtaken(a, b);
    var first := Visit(First(Zeroth(a)), NoVisits);
    assert VisitsOf(h.before.before) == first;
    assert VisitsOf(h.before) == Visit(First(Zeroth(b)), first);
    assert VisitsOf(h) == Visit(First(Seventh(a)), Visit(First(Zeroth(b)), first));
    NewVisitAdds(NoVisits, Zeroth(a));
    NewVisitAdds(first, Zeroth(b));
    NewVisitAdds(Visit(First(Zeroth(b)), first), Seventh(a));
  }

  /** A later datagram of a session moves how far it got, and nothing else. */
  lemma ArrivalMovesHighest(before: History, d: Datagram, session: string)
    requires Highest(before, session).Some? && Highest(before, session).value.seqNum < d.seqNum
    requires Found(before, session).Some?
    ensures Highest(Arrived(before, d), session) == (if d.session == session then Some(d) else Highest(before, session))
    ensures Found(Arrived(before, d), session) == Found(before, session)
  {
  }

  lemma AnotherArrival(before: History, d: Datagram, session: string)
    requires d.session != session
    ensures Highest(Arrived(before, d), session) == Highest(before, session)
    ensures Found(Arrived(before, d), session) == Found(before, session)
  {
  }

  lemma OvertakenGain(a: string, b: string)
    requires a != b
    ensures Gain(Overtaken(a, b), a) == Counts(7, 0)
  {
    var started := Arrived(Nothing, Zeroth(a));
    assert Highest(started, a) == Some(Zeroth(a)) && Found(started, a) == Some(Counts(0, 0));
    AnotherArrival(started, Zeroth(b), a);
    ArrivalMovesHighest(Arrived(started, Zeroth(b)), Seventh(a), a);
  }

  /** While a session is being heard, a datagram of it that is repeated or overtaken is refused. */
  lemma {:induction false} TakenAtMostOnce(h: History, d: Datagram)
    requires FeedAfter(h).last.Some? && FeedAfter(h).last.value.session == d.session
    requires d.seqNum <= FeedAfter(h).last.value.seqNum || !FeedAfter(h).last.value.counts.AtMost(d.counts)
    ensures FeedAfter(Arrived(h, d)) == FeedAfter(h) && !FeedAfter(h).Accepts(d)
  {
  }

  // ---------------------------------------------------------------------------------- the age shown

  /** The datagrams that were accepted, latest last, as they came. */
  function Taken(h: History): seq<Datagram> {
    match h
    case Nothing => []
    case Arrived(before, d) => if FeedAfter(before).Accepts(d) then Taken(before) + [d] else Taken(before)
    case Reset(before) => Taken(before)
  }

  /** From datagram i on every count has been the same, and before it it was another. */
  ghost predicate SteadyFrom(taken: seq<Datagram>, i: int) {
    && 0 <= i < |taken|
    && (forall j :: i <= j < |taken| ==> taken[j].counts == taken[i].counts)
    && (0 < i ==> taken[i - 1].counts != taken[i].counts)
  }

  ghost predicate ShowsAgeOf(last: Option<Datagram>, taken: seq<Datagram>) {
    if last == None then taken == []
    else
      && taken != [] && last.value.counts == taken[|taken| - 1].counts
      && exists i :: SteadyFrom(taken, i) && last.value.ageMs == taken[i].ageMs
  }

  lemma TakenOnce(feed: Feed, d: Datagram, taken: seq<Datagram>)
    requires ShowsAgeOf(feed.last, taken) && feed.Accepts(d)
    ensures ShowsAgeOf(feed.Recorded(d).last, taken + [d])
  {
    var all := taken + [d];
    if feed.last.Some? && feed.last.value.counts == d.counts {
      var i :| SteadyFrom(taken, i) && feed.last.value.ageMs == taken[i].ageMs;
      assert taken[|taken| - 1].counts == taken[i].counts;
      assert SteadyFrom(all, i);
    } else {
      assert SteadyFrom(all, |taken|);
    }
  }

  /** A heartbeat that brings no FUEL does not make the counter look fresher: the age shown is that of the datagram
      that last changed the counts. */
  lemma {:induction false} AgeIsOfLastChange(h: History)
    ensures ShowsAgeOf(FeedAfter(h).last, Taken(h))
  {
    match h
    case Nothing =>
    case Arrived(before, d) =>
      AgeIsOfLastChange(before);
      if FeedAfter(before).Accepts(d) { TakenOnce(FeedAfter(before), d, Taken(before)); }
    case Reset(before) => AgeIsOfLastChange(before);
  }

  // ------------------------------------------------------------------------- the receiver object

  class HubCounterReceiver {
    var last: Option<Datagram>
    var baseSession: string
    var base: Counts
    var carried: Counts

    ghost function View(): Feed
      reads this
    {
      Feed(last, baseSession, base, carried)
    }

    constructor ()
      ensures View() == SILENT
    {
      last, baseSession, base, carried := None, "", ZERO, ZERO;
    }

    /** One datagram off the network: dropped unless it is the counter's and validates, and otherwise
        recorded. */
    method HandleDatagram(message: Message) returns (accepted: bool)
      modifies this
      ensures var d := Admitted(message);
              && accepted == (d.Some? && old(View()).Accepts(d.value))
              && View() == (if d.Some? then old(View()).Recorded(d.value) else old(View()))
      ensures accepted ==> message.fromCounter && message.size <= 512 && message.packet.Some?
      ensures !accepted ==> View() == old(View())
    {
      if !message.fromCounter {
        return false;
      }
      if message.size > MAX_DATAGRAM {
        return false;
      }
      if message.packet == None {
        return false;
      }
      var valid := Validate(message.packet.value);
      if valid.Err? {
        return false;
      }
      accepted := Record(valid.value);
    }

    /** Applies the ordering and monotonicity rules, and folds an accepted datagram in. */
    method Record(packet: Datagram) returns (accepted: bool)
      modifies this
      ensures accepted == old(View()).Accepts(packet)
      ensures View() == old(View()).Recorded(packet)
    {
      var previous := last;
      var sameSession := previous.Some? && previous.value.session == packet.session;
      if sameSession {
        if packet.seqNum <= previous.value.seqNum {
          return false;
        }
        if packet.counts.red < previous.value.counts.red || packet.counts.blue < previous.value.counts.blue {
          return false;
        }
      }
      if !sameSession {
        if previous.Some? {
          carried := Counts(carried.red + (previous.value.counts.red - base.red),
                            carried.blue + (previous.value.counts.blue - base.blue));
        }
        baseSession := packet.session;
        base := packet.counts;
      }
      var ageMs := packet.ageMs;
      if previous.Some? && packet.counts.red == previous.value.counts.red
         && packet.counts.blue == previous.value.counts.blue {
        ageMs := previous.value.ageMs;
      }
      last := Some(Datagram(packet.session, packet.seqNum, packet.counts, ageMs));
      return true;
    }

    method GetHubCounts() returns (red: int, blue: int)
      ensures Counts(red, blue) == View().Total()
    {
      red, blue := carried.red, carried.blue;
      if last.Some? && last.value.session == baseSession {
        red := red + last.value.counts.red - base.red;
        blue := blue + last.value.counts.blue - base.blue;
      }
    }

    /** Makes the counts read zero from here. The counter itself is never reset. */
    method ResetMatch()
      modifies this
      ensures View() == old(View()).Rebased()
    {
      carried := ZERO;
      if last.None? {
        baseSession := "";
        base := ZERO;
        return;
      }
      baseSession := last.value.session;
      base := last.value.counts;
    }
  }
}
