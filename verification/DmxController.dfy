/** led/controller.go and led/fixture.go: the HUB lighting over DMX. Every tick paints both zones into
    one frame per universe, and a frame is sent only if it has changed or has not been sent for a while. */
module DmxController {
  import opened Common
  import opened Timing

  const UNIVERSE_CHANNELS: nat := 512
  const PIXELS_PER_FIXTURE: nat := 8
  const CHANNELS_PER_PIXEL: nat := 3
  const CHANNELS_PER_FIXTURE: nat := 24
  const FIXTURES: nat := 8
  const HEARTBEAT: int := SECOND

  function DarkChannels(n: nat): (channels: seq<Byte>)
    ensures |channels| == n && forall i :: 0 <= i < n ==> channels[i] == 0
  {
    seq(n, i => 0)
  }

  type Frame = f: seq<Byte> | |f| == UNIVERSE_CHANNELS witness DarkChannels(UNIVERSE_CHANNELS)

  const DARK: Frame := DarkChannels(UNIVERSE_CHANNELS)

  datatype Color = Color(r: Byte, g: Byte, b: Byte) {
    function Component(k: nat): Byte { if k == 0 then r else if k == 1 then g else b }
  }

  /** One zone's pixels, however the current sequence has coloured them. */
  type Pixels = p: seq<Color> | |p| == FIXTURES * PIXELS_PER_FIXTURE witness seq(64, i => Color(0, 0, 0))

  // ------------------------------------------------------------------------------ the layouts

  /** Where a fixture's 24 channels are; addresses count from 1. */
  datatype Fixture = Fixture(universe: int, startAddress: int) {
    predicate Valid() {
      0 < universe && 0 <= startAddress - 1 && startAddress - 1 + CHANNELS_PER_FIXTURE <= UNIVERSE_CHANNELS
    }

    predicate Covers(u: int, c: int) {
      universe == u && startAddress - 1 <= c < startAddress - 1 + CHANNELS_PER_FIXTURE
    }
  }

  type Fixtures = f: seq<Fixture> | |f| <= FIXTURES witness []

  datatype Layout = Layout(red: Fixtures, blue: Fixtures) {
    function Universes(): set<int> {
      (set i | 0 <= i < |red| :: red[i].universe) + (set i | 0 <= i < |blue| :: blue[i].universe)
    }
  }

  const RED_FIXTURES: Fixtures := [
    Fixture(1, 1), Fixture(1, 25), Fixture(1, 49), Fixture(1, 73),
    Fixture(1, 97), Fixture(1, 121), Fixture(1, 145), Fixture(1, 169)]

  const SINGLE_UNIVERSE := Layout(RED_FIXTURES, [
    Fixture(1, 193), Fixture(1, 217), Fixture(1, 241), Fixture(1, 265),
    Fixture(1, 289), Fixture(1, 313), Fixture(1, 337), Fixture(1, 361)])

  const TWO_UNIVERSES := Layout(RED_FIXTURES, [
    Fixture(2, 1), Fixture(2, 25), Fixture(2, 49), Fixture(2, 73),
    Fixture(2, 97), Fixture(2, 121), Fixture(2, 145), Fixture(2, 169)])

  ghost predicate Disjoint(f: Fixture, g: Fixture) { forall u, c :: f.Covers(u, c) ==> !g.Covers(u, c) }

  /** Every fixture fits its universe, and no two share a channel. */
  ghost predicate Sound(layout: Layout) {
    && (forall i :: 0 <= i < |layout.red| ==> layout.red[i].Valid())
    && (forall i :: 0 <= i < |layout.blue| ==> layout.blue[i].Valid())
    && (forall i, j :: 0 <= i < j < |layout.red| ==> Disjoint(layout.red[i], layout.red[j]))
    && (forall i, j :: 0 <= i < j < |layout.blue| ==> Disjoint(layout.blue[i], layout.blue[j]))
    && (forall i, j :: 0 <= i < |layout.red| && 0 <= j < |layout.blue| ==> Disjoint(layout.red[i], layout.blue[j]))
  }

  /** In both layouts fixture i of a zone starts 24 channels after fixture i - 1. */
  predicate Evenly(fixtures: Fixtures, universe: int, start: int) {
    forall i :: 0 <= i < |fixtures| ==> fixtures[i] == Fixture(universe, start + 24 * i)
  }

  lemma EvenIsSound(layout: Layout, blueUniverse: int, blueStart: int)
    requires Evenly(layout.red, 1, 1) && Evenly(layout.blue, blueUniverse, blueStart)
    requires (blueUniverse == 2 && blueStart == 1) || (blueUniverse == 1 && blueStart == 193)
    ensures Sound(layout)
  {
  }

  lemma LayoutsAreSound()
    ensures Sound(SINGLE_UNIVERSE) && Sound(TWO_UNIVERSES)
    ensures forall layout :: layout in {SINGLE_UNIVERSE, TWO_UNIVERSES} ==>
              |layout.red| == 8 && |layout.blue| == 8 && Evenly(layout.red, 1, 1)
    ensures Evenly(SINGLE_UNIVERSE.blue, 1, 193) && Evenly(TWO_UNIVERSES.blue, 2, 1)
  {
    EvenIsSound(SINGLE_UNIVERSE, 1, 193);
    EvenIsSound(TWO_UNIVERSES, 2, 1);
  }

  // -------------------------------------------------------------------------------- the frames

  /** Channel d of fixture i shows one component of one of its pixels. */
  function FixtureChannel(pixels: Pixels, i: nat, d: nat): Byte
    requires i < FIXTURES && d < CHANNELS_PER_FIXTURE
  {
    pixels[i * PIXELS_PER_FIXTURE + d / CHANNELS_PER_PIXEL].Component(d % CHANNELS_PER_PIXEL)
  }

  /** A channel after the first n fixtures of a zone have been painted over what was there. */
  function Painted(fixtures: Fixtures, n: nat, pixels: Pixels, u: int, c: nat, under: Byte): Byte
    requires n <= |fixtures|
  {
    if n == 0 then under
    else if fixtures[n - 1].Covers(u, c) then FixtureChannel(pixels, n - 1, c - (fixtures[n - 1].startAddress - 1))
    else Painted(fixtures, n - 1, pixels, u, c, under)
  }

  /** What a universe should show. */
  function Shown(layout: Layout, red: Pixels, blue: Pixels, u: int, c: nat): Byte {
    Painted(layout.blue, |layout.blue|, blue, u, c, Painted(layout.red, |layout.red|, red, u, c, 0))
  }

  lemma {:induction false} PaintedWhereUncovered(fixtures: Fixtures, n: nat, pixels: Pixels, u: int, c: nat, under: Byte)
    requires n <= |fixtures| && forall i :: 0 <= i < n ==> !fixtures[i].Covers(u, c)
    ensures Painted(fixtures, n, pixels, u, c, under) == under
  {
    if n > 0 { PaintedWhereUncovered(fixtures, n - 1, pixels, u, c, under); }
  }

  lemma {:induction false} PaintedWhereCovered(fixtures: Fixtures, n: nat, pixels: Pixels, u: int, c: nat, under: Byte, i: nat)
    requires i < n <= |fixtures| && fixtures[i].Covers(u, c)
    requires forall j, k :: 0 <= j < k < |fixtures| ==> Disjoint(fixtures[j], fixtures[k])
    ensures Painted(fixtures, n, pixels, u, c, under) == FixtureChannel(pixels, i, c - (fixtures[i].startAddress - 1))
  {
    if i < n - 1 {
      assert Disjoint(fixtures[i], fixtures[n - 1]);
      PaintedWhereCovered(fixtures, n - 1, pixels, u, c, under, i);
    }
  }

  /** In a sound layout the 24 channels of each fixture show that fixture's eight pixels of its own
      zone, neither zone hides the other, and every other channel is dark. */
  lemma ChannelsShowPixels(layout: Layout, red: Pixels, blue: Pixels, u: int, c: nat)
    requires Sound(layout)
    ensures forall i :: 0 <= i < |layout.red| && layout.red[i].Covers(u, c) ==>
              Shown(layout, red, blue, u, c) == FixtureChannel(red, i, c - (layout.red[i].startAddress - 1))
    ensures forall i :: 0 <= i < |layout.blue| && layout.blue[i].Covers(u, c) ==>
              Shown(layout, red, blue, u, c) == FixtureChannel(blue, i, c - (layout.blue[i].startAddress - 1))
    ensures (forall i :: 0 <= i < |layout.red| ==> !layout.red[i].Covers(u, c)) &&
            (forall i :: 0 <= i < |layout.blue| ==> !layout.blue[i].Covers(u, c)) ==>
              Shown(layout, red, blue, u, c) == 0
  {
    var under := Painted(layout.red, |layout.red|, red, u, c, 0);
    forall i | 0 <= i < |layout.red| && layout.red[i].Covers(u, c)
      ensures Shown(layout, red, blue, u, c) == FixtureChannel(red, i, c - (layout.red[i].startAddress - 1))
    {
      PaintedWhereCovered(layout.red, |layout.red|, red, u, c, 0, i);
      forall j | 0 <= j < |layout.blue| ensures !layout.blue[j].Covers(u, c) {
        assert Disjoint(layout.red[i], layout.blue[j]);
      }
      PaintedWhereUncovered(layout.blue, |layout.blue|, blue, u, c, under);
    }
    forall i | 0 <= i < |layout.blue| && layout.blue[i].Covers(u, c)
      ensures Shown(layout, red, blue, u, c) == FixtureChannel(blue, i, c - (layout.blue[i].startAddress - 1))
    {
      PaintedWhereCovered(layout.blue, |layout.blue|, blue, u, c, under, i);
    }
    if (forall i :: 0 <= i < |layout.red| ==> !layout.red[i].Covers(u, c)) &&
       (forall i :: 0 <= i < |layout.blue| ==> !layout.blue[i].Covers(u, c)) {
      PaintedWhereUncovered(layout.red, |layout.red|, red, u, c, 0);
      PaintedWhereUncovered(layout.blue, |layout.blue|, blue, u, c, under);
    }
  }

  /** Three channels from here show one pixel: its red, its green and its blue, in that order. */
  predicate ShowsPixel(layout: Layout, red: Pixels, blue: Pixels, u: int, c: nat, pixel: Color) {
    && Shown(layout, red, blue, u, c) == pixel.r
    && Shown(layout, red, blue, u, c + 1) == pixel.g
    && Shown(layout, red, blue, u, c + 2) == pixel.b
  }

  /** Pixel j of fixture i is where the fixture's address says, on either zone. */
  lemma FixturesShowColours(layout: Layout, red: Pixels, blue: Pixels, i: nat, j: nat)
    requires Sound(layout) && j < 8
    ensures i < |layout.red| ==>
              ShowsPixel(layout, red, blue, layout.red[i].universe, layout.red[i].startAddress - 1 + 3 * j, red[8 * i + j])
    ensures i < |layout.blue| ==>
              ShowsPixel(layout, red, blue, layout.blue[i].universe, layout.blue[i].startAddress - 1 + 3 * j, blue[8 * i + j])
  {
    if i < |layout.red| { RedComponents(layout, red, blue, i, j); }
    if i < |layout.blue| { BlueComponents(layout, red, blue, i, j); }
  }

  lemma RedComponents(layout: Layout, red: Pixels, blue: Pixels, i: nat, j: nat)
    requires Sound(layout) && j < 8 && i < |layout.red|
    ensures ShowsPixel(layout, red, blue, layout.red[i].universe, layout.red[i].startAddress - 1 + 3 * j, red[8 * i + j])
  {
    var f := layout.red[i];
    var c := f.startAddress - 1 + 3 * j;
    for k := 0 to 3
      invariant 0 < k ==> Shown(layout, red, blue, f.universe, c) == red[8 * i + j].r
      invariant 1 < k ==> Shown(layout, red, blue, f.universe, c + 1) == red[8 * i + j].g
      invariant 2 < k ==> Shown(layout, red, blue, f.universe, c + 2) == red[8 * i + j].b
    {
      assert f.Covers(f.universe, c + k);
      ChannelsShowPixels(layout, red, blue, f.universe, c + k);
      PixelComponent(red, i, j, k);
    }
  }

  lemma BlueComponents(layout: Layout, red: Pixels, blue: Pixels, i: nat, j: nat)
    requires Sound(layout) && j < 8 && i < |layout.blue|
    ensures ShowsPixel(layout, red, blue, layout.blue[i].universe, layout.blue[i].startAddress - 1 + 3 * j, blue[8 * i + j])
  {
    var f := layout.blue[i];
    var c := f.startAddress - 1 + 3 * j;
    for k := 0 to 3
      invariant 0 < k ==> Shown(layout, red, blue, f.universe, c) == blue[8 * i + j].r
      invariant 1 < k ==> Shown(layout, red, blue, f.universe, c + 1) == blue[8 * i + j].g
      invariant 2 < k ==> Shown(layout, red, blue, f.universe, c + 2) == blue[8 * i + j].b
    {
      assert f.Covers(f.universe, c + k);
      ChannelsShowPixels(layout, red, blue, f.universe, c + k);
      PixelComponent(blue, i, j, k);
    }
  }

  lemma PixelComponent(pixels: Pixels, i: nat, j: nat, k: nat)
    requires i < 8 && j < 8 && k < 3
    ensures FixtureChannel(pixels, i, 3 * j + k) == pixels[8 * i + j].Component(k)
  {
  }

  // --------------------------------------------------------------------- sending one universe

  /** What a universe has been told to show and last tried to send. */
  datatype Universe = Universe(currentData: Frame, oldData: Frame, lastPacketTime: Option<int>, sequence: Byte)

  const NEW_UNIVERSE := Universe(DARK, DARK, None, 0)

  predicate ShouldSend(universe: Universe, now: int) {
    || universe.lastPacketTime == None
    || now - universe.lastPacketTime.value >= HEARTBEAT
    || universe.currentData != universe.oldData
  }

  /** A send is marked as made whether or not it went through. */
  function Marked(universe: Universe, now: int): Universe {
    Universe(universe.currentData, universe.currentData, Some(now), (universe.sequence + 1) % 256)
  }

  /** One universe's updates, latest outermost: the frame wanted, and whether a send would go through. */
  datatype History = Created | Updated(before: History, frame: Frame, now: int, up: bool)

  function Wanted(universe: Universe, frame: Frame): Universe { universe.(currentData := frame) }

  function After(h: History): Universe {
    match h
    case Created => NEW_UNIVERSE
    case Updated(before, frame, now, _) =>
      var wanted := Wanted(After(before), frame);
      if ShouldSend(wanted, now) then Marked(wanted, now) else wanted
  }

  /** A send is tried at this update. */
  predicate Tried(before: History, frame: Frame, now: int) { ShouldSend(Wanted(After(before), frame), now) }

  /** The last frame the gateway received. */
  function Received(h: History): Option<Frame> {
    match h
    case Created => None
    case Updated(before, frame, now, up) => if Tried(before, frame, now) && up then Some(frame) else Received(before)
  }

  /** The latest send that was tried went through. */
  predicate LatestLanded(h: History) {
    match h
    case Created => false
    case Updated(before, frame, now, up) => if Tried(before, frame, now) then up else LatestLanded(before)
  }

  lemma {:induction false} LandedIsOld(h: History)
    ensures LatestLanded(h) ==> Received(h) == Some(After(h).oldData)
    ensures h.Updated? ==> After(h).currentData == After(h).oldData == h.frame && After(h).lastPacketTime.Some?
  {
    match h
    case Created =>
    case Updated(before, frame, now, up) => LandedIsOld(before);
  }

  /** Suppressed sends cannot be seen: after any updates, if the latest send that was tried went
      through, then the gateway shows the frame of the latest update, sent at it or not. */
  lemma {:induction false} GatewayShowsLatest(h: History)
    requires h.Updated? && LatestLanded(h)
    ensures Received(h) == Some(h.frame)
  {
    LandedIsOld(h);
  }

  /** No send that was tried has failed. */
  predicate NoFailures(h: History) {
    match h
    case Created => true
    case Updated(before, frame, now, up) => NoFailures(before) && (Tried(before, frame, now) ==> up)
  }

  lemma {:induction false} NoFailuresLanded(h: History)
    requires NoFailures(h) && h.Updated?
    ensures LatestLanded(h)
  {
    if h.before.Updated? { NoFailuresLanded(h.before); }
  }

  /** How many sends have been tried. */
  function TriedSends(h: History): nat {
    match h
    case Created => 0
    case Updated(before, frame, now, _) => TriedSends(before) + if Tried(before, frame, now) then 1 else 0
  }

  /** The sequence number of a universe counts the sends that were tried, whether or not they went through. */
  lemma {:induction false} SequenceCountsSends(h: History)
    ensures After(h).sequence == TriedSends(h) % 256
  {
    match h
    case Created =>
    case Updated(before, _, _, _) => SequenceCountsSends(before);
  }

  /** A send of this frame failed at time t, and every update since has wanted the same frame and come
      before the heartbeat. */
  predicate WaitingSince(h: History, before: History, frame: Frame, t: int) {
    && h.Updated? && h.frame == frame
    && if h.before == before && h.now == t && !h.up then Tried(before, frame, t)
       else h.now < t + HEARTBEAT && WaitingSince(h.before, before, frame, t)
  }

  /** A failed send is not retried for its own sake: through any number of updates that want the same
      frame before the heartbeat, whether or not a send would get through, the gateway is left as it was. */
  lemma {:induction false} FailedSendWaits(h: History, before: History, frame: Frame, t: int)
    requires WaitingSince(h, before, frame, t)
    ensures Received(h) == Received(before)
    ensures After(h) == Marked(Wanted(After(before), frame), t)
  {
    if !(h.before == before && h.now == t && !h.up) {
      FailedSendWaits(h.before, before, frame, t);
    }
  }

  /** What ends the wait is the heartbeat, or another frame, and nothing else. */
  lemma WaitEndsExactly(h: History, before: History, frame: Frame, t: int, next: Frame, now: int)
    requires WaitingSince(h, before, frame, t)
    ensures Tried(h, next, now) <==> t + HEARTBEAT <= now || next != frame
    ensures Received(Updated(h, next, now, true)) ==
            if t + HEARTBEAT <= now || next != frame then Some(next) else Received(before)
  {
    FailedSendWaits(h, before, frame, t);
  }

  // ------------------------------------------------------------------------------- the objects

  /** The DMX gateway, holding the last frame of each universe. */
  class Gateway {
    var frames: map<int, Frame>

    constructor ()
      ensures frames == map[]
    {
      frames := map[];
    }

    method Write(universe: int, frame: Frame, up: bool) returns (ok: bool)
      modifies this
      ensures ok == up && frames == if up then old(frames)[universe := frame] else old(frames)
    {
      if up {
        frames := frames[universe := frame];
      }
      return up;
    }
  }

  /** A channel of a universe; one that has no frame yet is dark. */
  function Channel(universes: map<int, Universe>, u: int, c: nat): Byte
    requires c < UNIVERSE_CHANNELS
  {
    if u in universes then universes[u].currentData[c] else 0
  }

  /** Only the frames being prepared differ, and new universes have not been sent. */
  ghost predicate SameSends(before: map<int, Universe>, after: map<int, Universe>) {
    && before.Keys <= after.Keys
    && (forall u :: u in before ==> after[u] == before[u].(currentData := after[u].currentData))
    && (forall u :: u in after && u !in before ==> after[u].lastPacketTime == None)
  }

  /** The universes that a tick would send. */
  function Due(universes: map<int, Universe>, now: int): set<int> {
    set u | u in universes && ShouldSend(universes[u], now)
  }

  /** Some universes have been sent, and the others are as they were. */
  ghost predicate AfterSends(before: map<int, Universe>, after: map<int, Universe>, tried: set<int>, now: int) {
    && after.Keys == before.Keys
    && forall u :: u in after ==> after[u] == if u in tried then Marked(before[u], now) else before[u]
  }

  lemma OneMoreTried(universes: map<int, Universe>, now: int, pending: set<int>, u: int)
    requires u in pending && pending <= universes.Keys
    ensures Due(universes, now) - (pending - {u}) ==
            Due(universes, now) - pending + if ShouldSend(universes[u], now) then {u} else {}
  {
  }

  /** What a tick's sends have done to the universes, and to those whose latest send landed: those tried have
      been marked, and have landed unless their send failed. */
  ghost predicate Sends(before: map<int, Universe>, after: map<int, Universe>, was: set<int>, landed: set<int>,
                        tried: set<int>, down: set<int>, now: int)
  {
    && AfterSends(before, after, tried, now)
    && tried <= Due(before, now)
    && landed == was + tried - tried * down
  }

  lemma OneMoreSent(before: map<int, Universe>, after: map<int, Universe>, was: set<int>, landed: set<int>,
                    tried: set<int>, down: set<int>, now: int, u: int)
    requires Sends(before, after, was, landed, tried, down, now) && tried * down == {}
    requires u in Due(before, now) && u !in tried
    ensures var marked := after[u := Marked(after[u], now)];
            Sends(before, marked, was, if u in down then landed - {u} else landed + {u}, tried + {u}, down, now)
    ensures (tried + {u}) * down == if u in down then {u} else {}
  {
  }

  /** All the universes but the pending ones have had their turn, and no send has failed. */
  ghost predicate SoFar(before: map<int, Universe>, after: map<int, Universe>, was: set<int>, landed: set<int>,
                        tried: set<int>, down: set<int>, now: int, pending: set<int>)
  {
    && Sends(before, after, was, landed, tried, down, now)
    && pending <= before.Keys && tried == Due(before, now) - pending && tried * down == {}
  }

  lemma SkipsOne(before: map<int, Universe>, after: map<int, Universe>, was: set<int>, landed: set<int>,
                 tried: set<int>, down: set<int>, now: int, pending: set<int>, u: int)
    requires SoFar(before, after, was, landed, tried, down, now, pending) && u in pending
    requires !ShouldSend(after[u], now)
    ensures SoFar(before, after, was, landed, tried, down, now, pending - {u})
  {
    OneMoreTried(before, now, pending, u);
  }

  lemma SendsOne(before: map<int, Universe>, after: map<int, Universe>, was: set<int>, landed: set<int>,
                 tried: set<int>, down: set<int>, now: int, pending: set<int>, u: int)
    requires SoFar(before, after, was, landed, tried, down, now, pending) && u in pending
    requires ShouldSend(after[u], now)
    ensures var marked := after[u := Marked(after[u], now)];
            if u in down then
              Sends(before, marked, was, landed - {u}, tried + {u}, down, now) && (tried + {u}) * down == {u}
            else SoFar(before, marked, was, landed + {u}, tried + {u}, down, now, pending - {u})
  {
    OneMoreTried(before, now, pending, u);
    OneMoreSent(before, after, was, landed, tried, down, now, u);
  }

  lemma NonEmpty(s: set<int>)
    requires s != {}
    ensures exists u :: u in s
  {
    if forall u :: u !in s { assert false; }
  }

  class Controller {
    const gateway: Gateway
    /** Whether an address has been set. */
    const connected: bool
    var fixtures: Layout
    var universes: map<int, Universe>
    /** The universes whose latest send went through. */
    ghost var landed: set<int>

    ghost predicate Valid()
      reads this, gateway
    {
      && landed <= universes.Keys
      && (forall u :: u in universes ==> (universes[u].lastPacketTime == None ==> u !in landed))
      && (forall u :: u in landed ==> u in gateway.frames && gateway.frames[u] == universes[u].oldData)
    }

    constructor (gateway: Gateway, connected: bool)
      requires gateway.frames == map[]
      ensures Valid() && this.gateway == gateway && this.connected == connected
      ensures universes == map[] && fixtures == SINGLE_UNIVERSE
    {
      this.gateway, this.connected := gateway, connected;
      fixtures, universes, landed := SINGLE_UNIVERSE, map[], {};
    }

    method SetUniverseMode(two: bool)
      requires Valid()
      modifies `fixtures
      ensures Valid() && fixtures == if two then TWO_UNIVERSES else SINGLE_UNIVERSE
    {
      fixtures := if two then TWO_UNIVERSES else SINGLE_UNIVERSE;
    }

    /** Copies one fixture's pixels into its channels. */
    method PaintFixture(data: Frame, pixels: Pixels, i: nat, startIndex: nat) returns (painted: Frame)
      requires i < FIXTURES && startIndex + CHANNELS_PER_FIXTURE <= UNIVERSE_CHANNELS
      ensures forall c :: 0 <= c < UNIVERSE_CHANNELS ==>
                painted[c] == if startIndex <= c < startIndex + CHANNELS_PER_FIXTURE
                              then FixtureChannel(pixels, i, c - startIndex) else data[c]
    {
      painted := data;
      var pixelStart := i * PIXELS_PER_FIXTURE;
      for j := 0 to PIXELS_PER_FIXTURE
        invariant forall c :: 0 <= c < UNIVERSE_CHANNELS ==>
                    painted[c] == if startIndex <= c < startIndex + j * CHANNELS_PER_PIXEL
                                  then FixtureChannel(pixels, i, c - startIndex) else data[c]
      {
        var pixel := pixels[pixelStart + j];
        var channelStart := startIndex + j * CHANNELS_PER_PIXEL;
        painted := painted[channelStart := pixel.r][channelStart + 1 := pixel.g][channelStart + 2 := pixel.b];
      }
    }

    method PopulateFixtureData(pixels: Pixels, zone: Fixtures) returns (ok: bool)
      modifies `universes
      ensures ok <==> forall i :: 0 <= i < |zone| ==> 1 <= zone[i].universe && 1 <= zone[i].startAddress <= 489
      ensures SameSends(old(universes), universes)
      ensures ok ==> forall i :: 0 <= i < |zone| ==> zone[i].universe in universes
      ensures ok ==> forall u, c :: 0 <= c < UNIVERSE_CHANNELS ==>
                Channel(universes, u, c) == Painted(zone, |zone|, pixels, u, c, Channel(old(universes), u, c))
    {
      for i := 0 to |zone|
        invariant forall j :: 0 <= j < i ==> zone[j].Valid() && zone[j].universe in universes
        invariant SameSends(old(universes), universes)
        invariant forall u, c :: 0 <= c < UNIVERSE_CHANNELS ==>
                    Channel(universes, u, c) == Painted(zone, i, pixels, u, c, Channel(old(universes), u, c))
      {
        var fixture := zone[i];
        var startIndex := fixture.startAddress - 1;
        if fixture.universe <= 0 || startIndex < 0 || startIndex + CHANNELS_PER_FIXTURE > UNIVERSE_CHANNELS {
          return false;
        }
        ghost var was := universes;
        var universe := if fixture.universe in universes then universes[fixture.universe] else NEW_UNIVERSE;
        var painted := PaintFixture(universe.currentData, pixels, i, startIndex);
        universes := universes[fixture.universe := universe.(currentData := painted)];
        forall u, c | 0 <= c < UNIVERSE_CHANNELS
          ensures Channel(universes, u, c) == Painted(zone, i + 1, pixels, u, c, Channel(old(universes), u, c))
        {
          assert Channel(was, u, c) == Painted(zone, i, pixels, u, c, Channel(old(universes), u, c));
        }
      }
      return true;
    }

    method ClearFrames()
      modifies `universes
      ensures SameSends(old(universes), universes) && universes.Keys == old(universes.Keys)
      ensures forall u :: u in universes ==> universes[u].currentData == DARK
    {
      universes := map u | u in universes :: universes[u].(currentData := DARK);
    }

    /** Paints both zones. */
    method Render(red: Pixels, blue: Pixels) returns (ok: bool)
      modifies `universes
      ensures Sound(fixtures) ==> ok
      ensures SameSends(old(universes), universes)
      ensures ok ==> fixtures.Universes() <= universes.Keys
      ensures ok ==> forall u, c :: 0 <= c < UNIVERSE_CHANNELS ==>
                Channel(universes, u, c) == Shown(fixtures, red, blue, u, c)
    {
      ClearFrames();
      ok := PopulateFixtureData(red, fixtures.red);
      if ok {
        ok := PopulateFixtureData(blue, fixtures.blue);
      }
    }

    /** Sends one universe if it has changed or is due a heartbeat, and marks it sent either way. */
    method SendOne(u: int, now: int, up: bool) returns (ok: bool)
      requires Valid() && u in universes
      modifies gateway, `universes, `landed
      ensures Valid()
      ensures universes == if ShouldSend(old(universes)[u], now) then old(universes)[u := Marked(old(universes)[u], now)]
                           else old(universes)
      ensures ok <==> (ShouldSend(old(universes)[u], now) ==> up)
      ensures landed == if !ShouldSend(old(universes)[u], now) then old(landed)
                        else if up then old(landed) + {u} else old(landed) - {u}
    {
      var universe := universes[u];
      if !ShouldSend(universe, now) {
        return true;
      }
      ok := gateway.Write(u, universe.currentData, up);
      universes := universes[u := Marked(universe, now)];
      landed := if ok then landed + {u} else landed - {u};
    }

    /** Sends every universe that has changed or is due a heartbeat, in no particular order, until one
        fails. `down` is the universes whose sends fail, and `tried` those whose turn came. */
    method SendAll(now: int, down: set<int>) returns (ok: bool, ghost tried: set<int>)
      requires Valid()
      modifies gateway, `universes, `landed
      ensures Valid() && Sends(old(universes), universes, old(landed), landed, tried, down, now)
      ensures if ok then tried == Due(old(universes), now) && tried * down == {} else |tried * down| == 1
    {
      var pending := universes.Keys;
      tried := {};
      while pending != {}
        invariant Valid()
        invariant SoFar(old(universes), universes, old(landed), landed, tried, down, now, pending)
        decreases |pending|
      {
        NonEmpty(pending);
        var u :| u in pending;
        if ShouldSend(universes[u], now) {
          SendsOne(old(universes), universes, old(landed), landed, tried, down, now, pending, u);
          tried := tried + {u};
        } else {
          SkipsOne(old(universes), universes, old(landed), landed, tried, down, now, pending, u);
        }
        ok := SendOne(u, now, u !in down);
        if !ok {
          return;
        }
        pending := pending - {u};
      }
      return true, tried;
    }

    /** When nothing due was missed, what landed is what is wanted. */
    lemma LandedShow(before: map<int, Universe>, tried: set<int>, now: int)
      requires Valid() && AfterSends(before, universes, tried, now) && tried == Due(before, now)
      ensures forall u :: u in landed ==> gateway.frames[u] == universes[u].currentData
    {
    }

    /** One tick, if the gateway's address has been set. Every universe of the layout is there, and one
        whose latest send went through shows exactly what both zones want; without failures all do. */
    method Update(red: Pixels, blue: Pixels, now: int, down: set<int>) returns (ok: bool)
      requires Valid() && Sound(fixtures)
      modifies gateway, `universes, `landed
      ensures Valid()
      ensures !connected ==> ok && universes == old(universes) && gateway.frames == old(gateway.frames)
      ensures connected ==> fixtures.Universes() <= universes.Keys
      ensures connected && ok ==> forall u, c :: u in landed && 0 <= c < UNIVERSE_CHANNELS ==>
                gateway.frames[u][c] == Shown(fixtures, red, blue, u, c)
      ensures connected && ok && old(landed) == old(universes.Keys) ==> landed == universes.Keys
      ensures down == {} ==> ok
    {
      if !connected {
        return true;
      }
      ok := Render(red, blue);
      ghost var rendered := universes;
      ghost var tried;
      ok, tried := SendAll(now, down);
      if ok {
        if old(landed) == old(universes.Keys) {
          forall u | u in universes ensures u in landed {
            assert u in old(universes) || ShouldSend(rendered[u], now);
          }
        }
        LandedShow(rendered, tried, now);
        forall u, c | u in landed && 0 <= c < UNIVERSE_CHANNELS
          ensures gateway.frames[u][c] == Shown(fixtures, red, blue, u, c)
        {
          assert gateway.frames[u][c] == Channel(universes, u, c);
        }
      }
    }
  }
}
