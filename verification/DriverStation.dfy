/** field/driver_station_connection.go: the bytes exchanged with a driver station. Game data reaches a
    legacy station in framed TCP messages, and a newer one in tags at the end of the control packet. */
module DriverStation {
  import opened Common
  import opened Timing
  import opened MatchState
  import opened ShiftCue

  type Bytes = seq<Byte>

  function High(n: int): Byte { n / 256 % 256 }

  function Low(n: int): Byte { n % 256 }

  /** Go's byte conversions wrap, so a number read back from two bytes is the number modulo 65536. */
  function FromBytes(high: Byte, low: Byte): int { high * 256 + low }

  lemma BytesRoundTrip(n: int)
    ensures FromBytes(High(n), Low(n)) == n % 65536
  {
  }

  // ------------------------------------------------------------------------ framed TCP messages

  const GAME_DATA_TYPE: Byte := 28
  const MAX_TCP_PACKET: nat := 65537
  const MAX_FRAMED: nat := 253

  /** The message that carries game data. Only the low byte of its length is written. */
  function Frame(data: Bytes): Bytes { [0, Low(|data| + 2), GAME_DATA_TYPE, Low(|data|)] + data }

  /** The first message of a stream: a two-byte length and that many bytes. */
  function ReadTagged(stream: Bytes, capacity: nat): Option<Bytes> {
    if capacity < 2 || |stream| < 2 then None
    else
      var length := FromBytes(stream[0], stream[1]);
      if capacity < 2 + length || |stream| < 2 + length then None else Some(stream[..2 + length])
  }

  /** A message can be read back from the front of a stream exactly when its data fits the length byte. */
  lemma FrameReadsBackExactly(data: Bytes)
    ensures (forall rest: Bytes :: ReadTagged(Frame(data) + rest, MAX_TCP_PACKET) == Some(Frame(data))) <==>
            |data| <= MAX_FRAMED
    ensures Frame(data)[2] == 28 && Frame(data)[4..] == data && (|data| <= MAX_FRAMED ==> Frame(data)[3] == |data|)
  {
    if |data| <= MAX_FRAMED {
      forall rest: Bytes ensures ReadTagged(Frame(data) + rest, MAX_TCP_PACKET) == Some(Frame(data)) {
        assert (Frame(data) + rest)[..|Frame(data)|] == Frame(data);
      }
    } else {
      var rest: Bytes := [];
      var stream := Frame(data) + rest;
      assert FromBytes(stream[0], stream[1]) < |data| + 2;
      assert ReadTagged(stream, MAX_TCP_PACKET) != Some(Frame(data));
    }
  }

  /** The game data of the messages of a stream, or nothing if it does not split into such messages. */
  function Split(stream: Bytes): Option<seq<Bytes>> {
    if stream == [] then Some([])
    else
      var first := ReadTagged(stream, MAX_TCP_PACKET);
      if first == None || |first.value| < 4 then None
      else
        var rest := Split(stream[|first.value|..]);
        if rest == None then None else Some([first.value[4..]] + rest.value)
  }

  function Wire(messages: seq<Bytes>): Bytes {
    if messages == [] then [] else Frame(messages[0]) + Wire(messages[1..])
  }

  predicate AllFramed(messages: seq<Bytes>) {
    forall i :: 0 <= i < |messages| ==> |messages[i]| <= MAX_FRAMED
  }

  lemma FrontSplits(data: Bytes, rest: Bytes)
    requires |data| <= MAX_FRAMED && Split(rest).Some?
    ensures Split(Frame(data) + rest) == Some([data] + Split(rest).value)
  {
    var stream := Frame(data) + rest;
    FrameReadsBackExactly(data);
    assert ReadTagged(stream, MAX_TCP_PACKET) == Some(Frame(data));
    assert stream[|Frame(data)|..] == rest && Frame(data)[4..] == data;
  }

  /** Messages run together on the wire split back into the strings they were made from. */
  lemma {:induction false} WireSplits(messages: seq<Bytes>)
    requires AllFramed(messages)
    ensures Split(Wire(messages)) == Some(messages)
  {
    if messages != [] {
      WireSplits(messages[1..]);
      FrontSplits(messages[0], Wire(messages[1..]));
      assert [messages[0]] + messages[1..] == messages;
    }
  }

  lemma {:induction false} WireAppend(messages: seq<Bytes>, last: Bytes)
    ensures Wire(messages + [last]) == Wire(messages) + Frame(last)
  {
    if messages == [] {
      assert [last][1..] == [];
    } else {
      assert (messages + [last])[1..] == messages[1..] + [last];
      WireAppend(messages[1..], last);
    }
  }

  // ------------------------------------------------------------- game data to a legacy station

  /** The packet ticks of one connection, latest outermost: what the game data was, and whether a
      message sent then would get through. */
  datatype Ticks = NoTicks | At(before: Ticks, gameData: Bytes, up: bool)

  /** A legacy connection: the value last sent, and every message that went out. */
  datatype Channel = Channel(sent: Bytes, messages: seq<Bytes>)

  function Checked(channel: Channel, gameData: Bytes, up: bool): Channel {
    if channel.sent == gameData || !up then channel else Channel(gameData, channel.messages + [gameData])
  }

  function ChannelAfter(ticks: Ticks): Channel {
    match ticks
    case NoTicks => Channel([], [])
    case At(before, gameData, up) => Checked(ChannelAfter(before), gameData, up)
  }

  /** The values held at the ticks at which the connection was up. */
  function ValuesWhenUp(ticks: Ticks): seq<Bytes> {
    match ticks
    case NoTicks => []
    case At(before, gameData, up) => ValuesWhenUp(before) + if up then [gameData] else []
  }

  function LastOr(values: seq<Bytes>, start: Bytes): Bytes {
    if values == [] then start else values[|values| - 1]
  }

  /** The values that differ from the one before them; the first differs from the start. */
  function Changes(values: seq<Bytes>, start: Bytes): seq<Bytes> {
    if values == [] then []
    else (if values[0] == start then [] else [values[0]]) + Changes(values[1..], values[0])
  }

  lemma {:induction false} ChangesAppend(values: seq<Bytes>, start: Bytes, next: Bytes)
    ensures Changes(values + [next], start) ==
            Changes(values, start) + if next == LastOr(values, start) then [] else [next]
  {
    if values == [] {
      assert [next][1..] == [];
    } else {
      var rest := values[1..];
      assert (values + [next])[0] == values[0] && (values + [next])[1..] == rest + [next];
      ChangesAppend(rest, values[0], next);
      assert LastOr(values, start) == LastOr(rest, values[0]);
    }
  }

  /** A legacy driver station is sent exactly the changes of the game data, as though the ticks at which
      it could not be reached had not happened: nothing twice, and what failed is retried. */
  lemma {:induction false} MessagesAreChanges(ticks: Ticks)
    ensures ChannelAfter(ticks).messages == Changes(ValuesWhenUp(ticks), [])
    ensures ChannelAfter(ticks).sent == LastOr(ValuesWhenUp(ticks), [])
  {
    match ticks
    case NoTicks =>
    case At(before, gameData, up) =>
      MessagesAreChanges(before);
      if up {
        ChangesAppend(ValuesWhenUp(before), [], gameData);
      } else {
        assert ValuesWhenUp(before) + [] == ValuesWhenUp(before);
      }
  }

  predicate FramedThroughout(ticks: Ticks) {
    match ticks
    case NoTicks => true
    case At(before, gameData, _) => FramedThroughout(before) && |gameData| <= MAX_FRAMED
  }

  lemma {:induction false} FramedMessages(ticks: Ticks)
    requires FramedThroughout(ticks)
    ensures AllFramed(ChannelAfter(ticks).messages)
  {
    match ticks
    case NoTicks =>
    case At(before, _, _) => FramedMessages(before);
  }

  /** From the game data at the arena's packet ticks to what the station reads off its socket. */
  lemma StationReadsChanges(ticks: Ticks)
    requires FramedThroughout(ticks)
    ensures Split(Wire(ChannelAfter(ticks).messages)) == Some(Changes(ValuesWhenUp(ticks), []))
  {
    FramedMessages(ticks);
    MessagesAreChanges(ticks);
    WireSplits(ChannelAfter(ticks).messages);
  }

  // -------------------------------------------------------------------------------------- tags

  /** A tag in a UDP packet; on the wire a length byte, which counts the tag itself, comes first. */
  datatype Tag = Tag(id: Byte, body: Bytes)

  /** The tags from an index on. A zero length is padding, and a tag cut short ends the walk. */
  function Tags(data: Bytes, index: nat): seq<Tag>
    decreases |data| - index
  {
    if index >= |data| then []
    else
      var length := data[index];
      if length == 0 then Tags(data, index + 1)
      else if index + 1 + length > |data| then []
      else [Tag(data[index + 1], data[index + 2..index + 1 + length])] + Tags(data, index + 1 + length)
  }

  const MAX_BODY: nat := 254

  datatype Field = Padding | Tagged(tag: Tag)

  /** What a packet holds after its header: padding and tags in any order. */
  datatype Fields = NoFields | Next(field: Field, rest: Fields)

  function FieldBytes(f: Field): Bytes {
    match f
    case Padding => [0]
    case Tagged(tag) => [Low(|tag.body| + 1), tag.id] + tag.body
  }

  function FieldsBytes(fields: Fields, tail: Bytes): Bytes {
    match fields
    case NoFields => tail
    case Next(f, rest) => FieldBytes(f) + FieldsBytes(rest, tail)
  }

  function TagOf(f: Field): seq<Tag> { if f.Tagged? then [f.tag] else [] }

  function TagsOf(fields: Fields): seq<Tag> {
    match fields
    case NoFields => []
    case Next(f, rest) => TagOf(f) + TagsOf(rest)
  }

  predicate FieldFits(f: Field) { f.Tagged? ==> |f.tag.body| <= MAX_BODY }

  predicate Fits(fields: Fields) {
    match fields
    case NoFields => true
    case Next(f, rest) => FieldFits(f) && Fits(rest)
  }

  /** What follows the last whole field: nothing, or a tag that the packet does not hold all of. */
  predicate CutShort(rest: Bytes) { rest == [] || (rest[0] != 0 && 1 + rest[0] > |rest|) }

  lemma WalkOneField(data: Bytes, index: nat, f: Field)
    requires FieldFits(f) && index + |FieldBytes(f)| <= |data|
    requires data[index..index + |FieldBytes(f)|] == FieldBytes(f)
    ensures Tags(data, index) == TagOf(f) + Tags(data, index + |FieldBytes(f)|)
  {
    var bytes := FieldBytes(f);
    assert data[index] == bytes[0];
    if f.Tagged? {
      assert data[index + 1] == bytes[1];
      assert data[index + 2..index + |bytes|] == bytes[2..];
    }
  }

  lemma WalkEnds(data: Bytes, index: nat)
    requires index <= |data| && CutShort(data[index..])
    ensures Tags(data, index) == []
  {
    if index < |data| { assert data[index] == data[index..][0]; }
  }

  /** From the index on the packet holds these fields, and then ends or is cut short. */
  predicate Holds(data: Bytes, index: nat, fields: Fields)
    decreases fields
  {
    && index <= |data|
    && match fields
       case NoFields => CutShort(data[index..])
       case Next(f, rest) =>
         var end := index + |FieldBytes(f)|;
         end <= |data| && data[index..end] == FieldBytes(f) && Holds(data, end, rest)
  }

  /** The walk recovers the tags of any packet, however they are padded, and even when the packet is
      cut short in the middle of one more. */
  lemma {:induction false} WalkRecoversTags(data: Bytes, index: nat, fields: Fields)
    requires Fits(fields) && Holds(data, index, fields)
    ensures Tags(data, index) == TagsOf(fields)
    decreases fields
  {
    match fields
    case NoFields => WalkEnds(data, index);
    case Next(f, rest) =>
      WalkRecoversTags(data, index + |FieldBytes(f)|, rest);
      WalkOneField(data, index, f);
  }

  lemma HoldsFirst(header: Bytes, f: Bytes, after: Bytes)
    ensures var data := header + (f + after);
            |header| + |f| <= |data| && data[|header|..|header| + |f|] == f && data == (header + f) + after
  {
  }

  lemma {:induction false} WrittenIsHeld(header: Bytes, fields: Fields, tail: Bytes)
    requires CutShort(tail)
    ensures Holds(header + FieldsBytes(fields, tail), |header|, fields)
    decreases fields
  {
    var data := header + FieldsBytes(fields, tail);
    match fields
    case NoFields => assert data[|header|..] == tail;
    case Next(f, rest) =>
      HoldsFirst(header, FieldBytes(f), FieldsBytes(rest, tail));
      WrittenIsHeld(header + FieldBytes(f), rest, tail);
  }

  /** Writing fields after any header and walking from the end of the header is a round trip. */
  lemma WalkUndoesWriting(header: Bytes, fields: Fields, tail: Bytes)
    requires Fits(fields) && CutShort(tail)
    ensures Tags(header + FieldsBytes(fields, tail), |header|) == TagsOf(fields)
  {
    WrittenIsHeld(header, fields, tail);
    WalkRecoversTags(header + FieldsBytes(fields, tail), |header|, fields);
  }

  datatype Statistics = Statistics(missedPackets: int, tripTimeMs: int)

  const STATISTICS_TAG: Byte := 1

  function AfterTag(tag: Tag, before: Statistics): Statistics {
    if tag.id == STATISTICS_TAG && |tag.body| == 5
    then Statistics(FromBytes(tag.body[0], tag.body[1]), tag.body[4]) else before
  }

  /** What the tags of a packet leave the statistics at. */
  function Reported(tags: seq<Tag>, before: Statistics): Statistics {
    if tags == [] then before else Reported(tags[1..], AfterTag(tags[0], before))
  }

  predicate IsStatistics(tag: Tag) { tag.id == 1 && |tag.body| == 5 }

  /** The last tag 1 with five bytes decides, with two bytes of lost packets and the last of round trip; without
      one, nothing changes. */
  ghost predicate LatestDecides(tags: seq<Tag>, before: Statistics, after: Statistics) {
    || (after == before && forall k :: 0 <= k < |tags| ==> !IsStatistics(tags[k]))
    || exists k :: DecidedBy(tags, after, k)
  }

  predicate DecidedBy(tags: seq<Tag>, after: Statistics, k: int) {
    && 0 <= k < |tags| && IsStatistics(tags[k])
    && (forall j :: k < j < |tags| ==> !IsStatistics(tags[j]))
    && (var high: int, low: int := tags[k].body[0], tags[k].body[1]; after.missedPackets == 256 * high + low)
    && after.tripTimeMs == tags[k].body[4]
  }

  lemma {:induction false} ReportedIsLatest(tags: seq<Tag>, before: Statistics)
    ensures LatestDecides(tags, before, Reported(tags, before))
    decreases |tags|
  {
    if tags != [] {
      var rest, first := tags[1..], AfterTag(tags[0], before);
      var last := Reported(tags, before);
      assert last == Reported(rest, first);
      ReportedIsLatest(rest, first);
      assert forall j :: 0 < j < |tags| ==> tags[j] == rest[j - 1];
      if k :| DecidedBy(rest, last, k) {
        assert DecidedBy(tags, last, k + 1);
      } else if IsStatistics(tags[0]) {
        assert DecidedBy(tags, last, 0);
      }
    }
  }

  /** The walk of listenForDsUdpPackets. No read is out of bounds, whatever the packet holds. */
  method WalkTags(data: Bytes, before: Statistics) returns (after: Statistics)
    requires 8 <= |data|
    ensures after == Reported(Tags(data, 8), before) && LatestDecides(Tags(data, 8), before, after)
  {
    ReportedIsLatest(Tags(data, 8), before);
    after := before;
    var index := 8;
    while index < |data|
      invariant 8 <= index <= |data|
      invariant Reported(Tags(data, index), after) == Reported(Tags(data, 8), before)
    {
      var length := data[index];
      index := index + 1;
      if length == 0 {
        continue;
      }
      if index + length > |data| {
        break;
      }
      var tag := data[index];
      if tag == STATISTICS_TAG && length == 6 {
        after := Statistics(FromBytes(data[index + 1], data[index + 2]), data[index + 5]);
      }
      index := index + length;
    }
  }

  // ---------------------------------------------------------------------------- control packets

  const BASE_CONTROL_PACKET: nat := 22
  const MAX_GAME_DATA: nat := 8
  const MAX_CONTROL_PACKET: nat := 32
  const GAME_DATA_TAG: Byte := 32

  datatype Clock = Clock(nanosecond: nat, second: nat, minute: nat, hour: nat, day: nat, month: nat, year: nat)

  datatype MatchInfo = MatchInfo(kind: Byte, order: int, tm: MatchTiming, phase: Phase, matchTime: int) {
    /** The countdown a packet carries. It does without the warmup. */
    function SecondsRemaining(): int {
      match phase
      case PreMatch => tm.autoSec
      case StartMatch | AutoPeriod => tm.autoSec - WholeSeconds(matchTime)
      case PausePeriod => tm.teleopSec
      case TeleopPeriod => tm.autoSec + tm.teleopSec + tm.pauseSec - WholeSeconds(matchTime)
      case _ => 0
    }
  }

  /** The seconds left of a period, the one that has begun included. */
  predicate SecondsLeft(time: int, end: int, seconds: int) { Seconds(seconds - 1) < end - time <= Seconds(seconds) }

  /** The countdown tells the truth throughout AUTO and teleop exactly when there is no warmup. */
  lemma CountdownTellsTruthExactly(tm: MatchTiming, kind: Byte, order: int)
    requires tm.Valid() && 0 < tm.autoSec
    ensures (forall time :: Seconds(tm.warmupSec) <= time < tm.AutoEnd() ==>
               SecondsLeft(time, tm.AutoEnd(), MatchInfo(kind, order, tm, AutoPeriod, time).SecondsRemaining())) &&
            (forall time :: InTeleop(tm, time) ==>
               SecondsLeft(time, tm.TeleopEnd(), MatchInfo(kind, order, tm, TeleopPeriod, time).SecondsRemaining())) <==>
            tm.warmupSec == 0
    ensures MatchInfo(kind, order, tm, PreMatch, 0).SecondsRemaining() == tm.autoSec
    ensures forall time ::
              MatchInfo(kind, order, tm, PausePeriod, time).SecondsRemaining() == tm.teleopSec &&
              MatchInfo(kind, order, tm, PostMatch, time).SecondsRemaining() == 0
  {
    if tm.warmupSec != 0 {
      var time := Seconds(tm.warmupSec);
      assert WholeSeconds(time) == tm.warmupSec;
      assert !SecondsLeft(time, tm.AutoEnd(), MatchInfo(kind, order, tm, AutoPeriod, time).SecondsRemaining());
    }
  }

  datatype Robot = Robot(auto: bool, enabled: bool, eStop: bool, aStop: bool)

  function Truncated(gameData: Bytes): Bytes {
    if |gameData| > MAX_GAME_DATA then gameData[..MAX_GAME_DATA] else gameData
  }

  /** What a driver station can read out of a control packet. */
  predicate Tells(packet: Bytes, count: int, robot: Robot, station: StationId, info: MatchInfo) {
    && BASE_CONTROL_PACKET <= |packet|
    && FromBytes(packet[0], packet[1]) == count % 65536
    && (packet[3] / 2 % 2 == 1 <==> robot.auto)
    && (packet[3] / 4 % 2 == 1 <==> robot.enabled)
    && (packet[3] / 64 % 2 == 1 <==> robot.aStop)
    && (packet[3] / 128 % 2 == 1 <==> robot.eStop)
    && packet[5] == station && packet[6] == info.kind
    && FromBytes(packet[7], packet[8]) == info.order % 65536
    && packet[9] == 1 && packet[2] == 0 && packet[4] == 0
    && FromBytes(packet[20], packet[21]) == info.SecondsRemaining() % 65536
  }

  /** The time of day, to the microsecond. */
  predicate TellsTime(packet: Bytes, clock: Clock) {
    && BASE_CONTROL_PACKET <= |packet|
    && 65536 * FromBytes(packet[10], packet[11]) + FromBytes(packet[12], packet[13]) ==
       clock.nanosecond / 1000 % 0x1_0000_0000
    && packet[14] == clock.second % 256 && packet[15] == clock.minute % 256 && packet[16] == clock.hour % 256
    && packet[17] == clock.day % 256 && packet[18] == clock.month % 256
    && packet[19] == (clock.year - 1900) % 256
  }

  lemma FourBytes(n: nat)
    ensures 65536 * FromBytes(n / 0x100_0000 % 256, n / 0x1_0000 % 256) + FromBytes(n / 256 % 256, n % 256) ==
            n % 0x1_0000_0000
  {
    var a, b, c := n / 256, n / 256 / 256, n / 256 / 256 / 256;
    var d := c / 256;
    assert n / 0x1_0000 == b && n / 0x100_0000 == c;
    var low := n % 256 + 256 * (a % 256) + 0x1_0000 * (b % 256) + 0x100_0000 * (c % 256);
    assert n == 0x1_0000_0000 * d + low && 0 <= low < 0x1_0000_0000;
    RemainderIs(n, d, low);
  }

  lemma RemainderIs(n: int, d: int, low: int)
    requires n == 0x1_0000_0000 * d + low && 0 <= low < 0x1_0000_0000
    ensures n % 0x1_0000_0000 == low
  {
  }

  lemma TellsTheSame(packet: Bytes, other: Bytes, count: int, robot: Robot, station: StationId, info: MatchInfo)
    requires Tells(packet, count, robot, station, info)
    requires BASE_CONTROL_PACKET <= |other| && other[..10] == packet[..10] && other[20..22] == packet[20..22]
    ensures Tells(other, count, robot, station, info)
  {
    assert forall i :: 0 <= i < 10 ==> other[..10][i] == other[i] && packet[..10][i] == packet[i];
    assert forall i :: 0 <= i < 2 ==> other[20..22][i] == other[20 + i] && packet[20..22][i] == packet[20 + i];
  }

  function Status(robot: Robot): Byte {
    (if robot.auto then 0x02 else 0) + (if robot.enabled then 0x04 else 0)
    + (if robot.aStop then 0x40 else 0) + (if robot.eStop then 0x80 else 0)
  }

  lemma StatusTells(robot: Robot)
    ensures Status(robot) / 2 % 2 == 1 <==> robot.auto
    ensures Status(robot) / 4 % 2 == 1 <==> robot.enabled
    ensures Status(robot) / 64 % 2 == 1 <==> robot.aStop
    ensures Status(robot) / 128 % 2 == 1 <==> robot.eStop
  {
  }

  lemma LastTag(packet: Bytes, index: nat, tag: Tag)
    requires |packet| == index + 2 + |tag.body|
    requires packet[index] == |tag.body| + 1 && packet[index + 1] == tag.id
    requires packet[index + 2..|packet|] == tag.body
    ensures Tags(packet, index) == [tag]
  {
    assert Tags(packet, |packet|) == [];
  }

  // -------------------------------------------------------------------------------- the objects

  /** The TCP connection to a driver station, as far as it is written to. */
  class TcpConn {
    var written: Bytes

    constructor ()
      ensures written == []
    {
      written := [];
    }

    method Write(packet: array<Byte>, up: bool) returns (ok: bool)
      modifies this
      ensures ok == up && written == old(written) + if up then packet[..] else []
    {
      if up {
        written := written + packet[..];
      }
      return up;
    }
  }

  class DriverStationConnection {
    const newDs: bool
    const station: StationId
    const tcpConn: TcpConn
    var sentGameData: Bytes
    var packetCount: int
    ghost var messages: seq<Bytes>

    /** The socket has been given the messages sent so far, one frame each. */
    ghost predicate Valid()
      reads this, tcpConn
    {
      tcpConn.written == Wire(messages)
    }

    ghost function View(): Channel
      reads this
    {
      Channel(sentGameData, messages)
    }

    constructor (newDs: bool, station: StationId, tcpConn: TcpConn)
      requires tcpConn.written == []
      ensures Valid() && View() == ChannelAfter(NoTicks)
      ensures this.newDs == newDs && this.station == station && this.tcpConn == tcpConn
    {
      this.newDs, this.station, this.tcpConn := newDs, station, tcpConn;
      sentGameData, packetCount, messages := [], 0, [];
    }

    method GameDataPacket(gameData: Bytes) returns (packet: array<Byte>)
      ensures fresh(packet) && packet[..] == Frame(gameData)
    {
      var size := |gameData|;
      packet := new Byte[size + 4];
      packet[0] := 0;
      packet[1] := (size + 2) % 256;
      packet[2] := GAME_DATA_TYPE;
      packet[3] := size % 256;
      ghost var frame := Frame(gameData);
      for i := 0 to size
        invariant packet[..i + 4] == frame[..i + 4]
      {
        packet[i + 4] := gameData[i];
      }
      assert packet[..] == packet[..size + 4] && frame == frame[..size + 4];
    }

    method SendGameDataPacket(gameData: Bytes, up: bool) returns (ok: bool)
      modifies tcpConn
      ensures ok == up
      ensures tcpConn.written == old(tcpConn.written) + if up then Frame(gameData) else []
    {
      var packet := GameDataPacket(gameData);
      ok := tcpConn.Write(packet, up);
    }

    /** Sends the game data to a legacy station if it has changed; on a failure it will be tried again. */
    method CheckGameData(gameData: Bytes, up: bool) returns (ok: bool)
      requires Valid()
      modifies this, tcpConn
      ensures Valid() && packetCount == old(packetCount)
      ensures View() == if newDs then old(View()) else Checked(old(View()), gameData, up)
      ensures ok <==> up || newDs || old(sentGameData) == gameData
    {
      if newDs || sentGameData == gameData {
        return true;
      }
      ok := SendGameDataPacket(gameData, up);
      if !ok {
        return;
      }
      WireAppend(messages, gameData);
      sentGameData := gameData;
      messages := messages + [gameData];
    }

    /** Fills a fresh packet buffer, and says how much of it to send. */
    method EncodeControlPacket(robot: Robot, info: MatchInfo, clock: Clock, gameData: Bytes)
      returns (packet: array<Byte>, length: nat)
      modifies `packetCount
      ensures fresh(packet) && packet.Length == MAX_CONTROL_PACKET && BASE_CONTROL_PACKET <= length <= packet.Length
      ensures packetCount == old(packetCount) + 1
      ensures Tells(packet[..length], old(packetCount), robot, station, info)
      ensures TellsTime(packet[..length], clock)
      ensures Tags(packet[..length], BASE_CONTROL_PACKET) ==
              if newDs && gameData != [] then [Tag(32, if |gameData| > 8 then gameData[..8] else gameData)] else []
    {
      packet := new Byte[MAX_CONTROL_PACKET](_ => 0);
      FillHeader(packet, robot, info);
      ghost var header := packet[..BASE_CONTROL_PACKET];
      FillClock(packet, clock);
      assert TellsTime(packet[..BASE_CONTROL_PACKET], clock);
      assert packet[..10] == header[..10] && packet[20..22] == header[20..22];
      packetCount := packetCount + 1;
      length := BASE_CONTROL_PACKET;
      ghost var base := packet[..BASE_CONTROL_PACKET];
      if newDs {
        length := AppendGameData(packet, gameData);
      }
      ghost var sent := packet[..length];
      assert sent[..BASE_CONTROL_PACKET] == base;
      assert forall i :: 10 <= i < 20 ==> sent[i] == base[i];
      assert sent[..10] == base[..10] == header[..10] && sent[20..22] == base[20..22] == header[20..22];
      TellsTheSame(header, sent, old(packetCount), robot, station, info);
    }

    method AppendGameData(packet: array<Byte>, gameData: Bytes) returns (length: nat)
      requires packet.Length == MAX_CONTROL_PACKET
      modifies packet
      ensures BASE_CONTROL_PACKET <= length <= packet.Length
      ensures packet[..BASE_CONTROL_PACKET] == old(packet[..BASE_CONTROL_PACKET])
      ensures Tags(packet[..length], BASE_CONTROL_PACKET) ==
              if gameData != [] then [Tag(GAME_DATA_TAG, Truncated(gameData))] else []
    {
      length := BASE_CONTROL_PACKET;
      var data := if |gameData| > MAX_GAME_DATA then gameData[..MAX_GAME_DATA] else gameData;
      if |data| > 0 {
        ghost var base := packet[..BASE_CONTROL_PACKET];
        ghost var whole := base + [|data| + 1, GAME_DATA_TAG] + data;
        packet[22] := |data| + 1;
        packet[23] := GAME_DATA_TAG;
        for i := 0 to |data|
          invariant packet[..24 + i] == whole[..24 + i]
        {
          packet[24 + i] := data[i];
        }
        length := length + 2 + |data|;
        assert packet[..length] == whole && packet[..BASE_CONTROL_PACKET] == packet[..length][..BASE_CONTROL_PACKET];
        assert whole[24..|whole|] == data;
        LastTag(whole, BASE_CONTROL_PACKET, Tag(GAME_DATA_TAG, data));
      }
    }

    method FillHeader(packet: array<Byte>, robot: Robot, info: MatchInfo)
      requires packet.Length == MAX_CONTROL_PACKET
      modifies packet
      ensures Tells(packet[..BASE_CONTROL_PACKET], packetCount, robot, station, info)
    {
      packet[0] := packetCount / 256 % 256;
      packet[1] := packetCount % 256;
      packet[2] := 0;
      packet[3] := Status(robot);
      packet[4] := 0;
      packet[5] := station;
      packet[6] := info.kind;
      packet[7] := info.order / 256 % 256;
      packet[8] := info.order % 256;
      packet[9] := 1;
      var secondsRemaining := info.SecondsRemaining();
      packet[20] := secondsRemaining / 256 % 256;
      packet[21] := secondsRemaining % 256;
      StatusTells(robot);
      BytesRoundTrip(packetCount);
      BytesRoundTrip(info.order);
      BytesRoundTrip(secondsRemaining);
    }

    method FillClock(packet: array<Byte>, clock: Clock)
      requires packet.Length == MAX_CONTROL_PACKET
      modifies packet
      ensures packet[..10] == old(packet[..10]) && packet[20..22] == old(packet[20..22])
      ensures TellsTime(packet[..BASE_CONTROL_PACKET], clock)
    {
      var microsecond := clock.nanosecond / 1000;
      FourBytes(microsecond);
      packet[10] := microsecond / 0x100_0000 % 256;
      packet[11] := microsecond / 0x1_0000 % 256;
      packet[12] := microsecond / 256 % 256;
      packet[13] := microsecond % 256;
      packet[14] := clock.second % 256;
      packet[15] := clock.minute % 256;
      packet[16] := clock.hour % 256;
      packet[17] := clock.day % 256;
      packet[18] := clock.month % 256;
      packet[19] := (clock.year - 1900) % 256;
    }
  }
}
