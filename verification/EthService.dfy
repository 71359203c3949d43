/**
 * The UDP side of the sensor boards: datagrams are routed by source address to
 * boards, from there to the sensors that registered a handler, and silent boards
 * are reported.  The manager's invariant ties all state to the history of arrivals.
 */
module EthService {
  import opened Wrappers
  import opened BaseTypeEncoding
  import opened MultitorqueCodec
  import opened MultitorqueMessages
  import opened MultitorqueProtocol
  import opened EthHistory

  /** Size of the buffer structure: its content and its length field. */
  const SIZEOF_CHARBUFF := PACKET_MAX_SIZE + 8
  const EMPTY_WAIT_CODE := 99

  /** A count of received bytes as the buffer's unsigned 64-bit size. */
  function AsSize(bytesReceived: int): int {
    if bytesReceived < 0 then bytesReceived + 0x1_0000_0000_0000_0000 else bytesReceived
  }

  class CharBuff {
    const content: array<Byte>
    var size: int

    constructor ()
      ensures fresh(content) && content[..] == ContentAt([])
    {
      content := new Byte[PACKET_MAX_SIZE](_ => 0);
      size := 0;
    }
  }

  /** The decoding of a broadcast message finds its twelve words at fixed places. */
  lemma BroadcastWords(content: seq<Byte>, oldFields: seq<Value>, k: nat)
    requires |content| == PACKET_MAX_SIZE && |oldFields| == 12 && k < 12
    ensures MessageSize(Fields(BCastSensorData)) == 52 && Fitting(Fields(BCastSensorData), SIZEOF_CHARBUFF) == 12
    ensures Decoded(content, Fields(BCastSensorData), oldFields, 12)[k] == V32(SensorWord(content, k))
  {
    hide Word32, Decoded, Fitting, Offset;
    var kinds := Fields(BCastSensorData);
    FourEach(BCastSensorData);
    AllFit(kinds, SIZEOF_CHARBUFF);
    FourBytesPerField(kinds, k);
    DecodedAt(content, kinds, oldFields, 12, k);
  }

  /**
   * From the board's encoder to the sensor's values: the words a board puts into a
   * broadcast message are the words its datagram shows.
   */
  lemma BroadcastArrives(buffer: seq<Byte>, vals: seq<Value>, k: nat)
    requires KindsOf(vals) == Fields(BCastSensorData) && |buffer| >= 52 && k < 12
    ensures MessageSize(Fields(BCastSensorData)) == 52 && vals[k].V32?
    ensures SensorWord(Encoded(buffer, Id(BCastSensorData), vals)[..52], k) == vals[k].w
  {
    hide Word32, Encoded, Decoded, Offset, DecodedHeader, Named, Id;
    var kinds := Fields(BCastSensorData);
    FourEach(BCastSensorData);
    var r := Encoded(buffer, Id(BCastSensorData), vals);
    EveryMessageRoundTrips(BCastSensorData, buffer, vals, vals);
    FourBytesPerField(kinds, k);
    DecodedAt(r, kinds, vals, 12, k);
    assert FieldBytes(r, kinds, k) == r[4 + 4 * k..8 + 4 * k];
    SliceOfPrefix(r[..52], r, 52, 4 + 4 * k, 8 + 4 * k);
  }

  lemma ValuesAreBytes(c: seq<Byte>, six: seq<bv32>, raw: seq<bv32>)
    requires |c| >= 52 && six == Leading(c) && raw == Trailing(c)
    ensures |six| == 6
    ensures Bytes32(six[0]) == c[4..8] && Bytes32(six[1]) == c[8..12] && Bytes32(six[2]) == c[12..16]
    ensures Bytes32(six[3]) == c[16..20] && Bytes32(six[4]) == c[20..24] && Bytes32(six[5]) == c[24..28]
    ensures |raw| == 6 && forall k | 0 <= k < 6 :: Bytes32(raw[k]) == c[28 + 4 * k..32 + 4 * k]
  {
    hide Bytes32, SensorWord;
    LeadingBytes(c);
    forall k: nat | k < 6
      ensures |raw| == 6 && Bytes32(raw[k]) == c[28 + 4 * k..32 + 4 * k]
    {
      TrailingBytes(c, k);
    }
  }

  /** Words behind which the datagram reaches are its own bytes. */
  lemma ValuesAreData(before: seq<Byte>, data: seq<Byte>, six: seq<bv32>, raw: seq<bv32>)
    requires |before| == PACKET_MAX_SIZE
    requires var c := Overlay(before, 0, Truncated(data)); six == Leading(c) && raw == Trailing(c)
    ensures |six| == 6 && |raw| == 6
    ensures |data| >= 28 ==>
              && Bytes32(six[0]) == data[4..8] && Bytes32(six[1]) == data[8..12] && Bytes32(six[2]) == data[12..16]
              && Bytes32(six[3]) == data[16..20] && Bytes32(six[4]) == data[20..24] && Bytes32(six[5]) == data[24..28]
    ensures |data| >= 52 ==> forall k | 0 <= k < 6 :: Bytes32(raw[k]) == data[28 + 4 * k..32 + 4 * k]
  {
    hide Bytes32, Leading, Trailing, Overlay, Truncated;
    ValuesAreBytes(Overlay(before, 0, Truncated(data)), six, raw);
    forall from, to | 0 <= from <= to <= |data| && to <= 256
      ensures Overlay(before, 0, Truncated(data))[from..to] == data[from..to]
    {
      FrontOfBuffer(before, data, from, to);
    }
  }

  lemma FrontOfBuffer(before: seq<Byte>, data: seq<Byte>, from: nat, to: nat)
    requires |before| == PACKET_MAX_SIZE && from <= to <= |data| && to <= 256
    ensures Overlay(before, 0, Truncated(data))[from..to] == data[from..to]
  {
  }

  /** Six words with the bytes of a broadcast are the words the board has encoded. */
  lemma BroadcastBytes(buffer: seq<Byte>, vals: seq<Value>, six: seq<bv32>)
    requires KindsOf(vals) == Fields(BCastSensorData) && |buffer| >= 52 && |six| == 6
    requires MessageSize(KindsOf(vals)) <= |buffer|
    requires var b := Encoded(buffer, Id(BCastSensorData), vals);
             && Bytes32(six[0]) == b[4..8] && Bytes32(six[1]) == b[8..12] && Bytes32(six[2]) == b[12..16]
             && Bytes32(six[3]) == b[16..20] && Bytes32(six[4]) == b[20..24] && Bytes32(six[5]) == b[24..28]
    ensures |vals| == 12 && forall k | 0 <= k < 6 :: vals[k].V32? && vals[k].w == six[k]
  {
    hide Encoded, Bytes32, Id, Fields, KindsOf, MessageSize;
    MessageSizes(BCastSensorData);
    var b := Encoded(buffer, Id(BCastSensorData), vals);
    forall k: nat | k < 6
      ensures vals[k].V32? && vals[k].w == six[k]
    {
      assert Bytes32(six[k]) == b[4 + 4 * k..8 + 4 * k];
      BroadcastField(buffer, vals, k, six[k]);
    }
  }

  lemma BroadcastField(buffer: seq<Byte>, vals: seq<Value>, k: nat, w: bv32)
    requires KindsOf(vals) == Fields(BCastSensorData) && |buffer| >= 52 && k < |vals| == 12
    requires MessageSize(KindsOf(vals)) <= |buffer|
    requires Encoded(buffer, Id(BCastSensorData), vals)[4 + 4 * k..8 + 4 * k] == Bytes32(w)
    ensures vals[k] == V32(w)
  {
    hide Encoded, Bytes32, Word32, Id, Fields;
    MessageSizes(BCastSensorData);
    assert KindsOf(vals)[k] == KindOf(vals[k]);
    FieldPosition(BCastSensorData, buffer, vals, k);
    WordsAndBytes32(w, [0, 0, 0, 0]);
    WordsAndBytes32(vals[k].w, [0, 0, 0, 0]);
  }

  /** The fields of a reply with calibration offsets, as they are before decoding. */
  function NoOffsets(): (vals: seq<Value>)
    ensures |vals| == 6
  {
    AllV32([0, 0, 0, 0, 0, 0])
  }

  lemma OffsetsSchema()
    ensures var kinds := Fields(ReplyGetCalibrationOffsets);
            |kinds| == 6 && MessageSize(kinds) == 28 && KindsOf(NoOffsets()) == kinds
  {
    MessageSizes(ReplyGetCalibrationOffsets);
    WordKinds(ReplyGetCalibrationOffsets, [0, 0, 0, 0, 0, 0]);
  }

  ghost predicate AreOffsets(b: seq<Byte>, size: nat, fields: seq<Value>)
    requires size <= |b| || 28 <= |b|
  {
    && |fields| == 6 && (forall k | 0 <= k < 6 :: fields[k].V32?)
    && forall k | 0 <= k < 6 ::
         if 8 + 4 * k <= size then Bytes32(fields[k].w) == b[4 + 4 * k..8 + 4 * k] else fields[k].w == 0
  }

  lemma OffsetsAreWords(b: seq<Byte>, size: nat, f: seq<Value>)
    requires (size <= |b| || 28 <= |b|) && AreOffsets(b, size, f)
    ensures |f| == 6 && forall k | 0 <= k < 6 :: f[k].V32?
  {
  }

  lemma OffsetsAre(b: seq<Byte>, size: nat, f: seq<Value>, offsets: seq<bv32>)
    requires (size <= |b| || 28 <= |b|) && AreOffsets(b, size, f)
    requires |offsets| == 6 && forall k | 0 <= k < 6 :: offsets[k] == f[k].w
    ensures forall k | 0 <= k < 6 && 8 + 4 * k <= size :: Bytes32(offsets[k]) == b[4 + 4 * k..8 + 4 * k]
    ensures forall k | 0 <= k < 6 && 8 + 4 * k > size :: offsets[k] == 0
  {
    hide Bytes32;
  }

  /** What a decoded reply holds. */
  lemma OffsetsRead(b: seq<Byte>, size: nat, kinds: seq<Kind>, fields: seq<Value>)
    requires kinds == Fields(ReplyGetCalibrationOffsets) && |kinds| == 6
    requires size <= |b| || 28 <= |b|
    requires size >= 4 ==> Offset(kinds, Fitting(kinds, size)) <= |b|
    requires fields == if size < 4 then NoOffsets() else Decoded(b, kinds, NoOffsets(), Fitting(kinds, size))
    ensures AreOffsets(b, size, fields)
  {
    hide Fields, Bytes32, Fitting, Decoded, Offset;
    forall k: nat | k < 6
      ensures fields[k].V32?
      ensures if 8 + 4 * k <= size then Bytes32(fields[k].w) == b[4 + 4 * k..8 + 4 * k] else fields[k].w == 0
    {
      if size >= 4 {
        FieldRead(ReplyGetCalibrationOffsets, b, NoOffsets(), size, k);
      }
    }
  }

  class FtSensor {
    var fx: bv32
    var fy: bv32
    var fz: bv32
    var tx: bv32
    var ty: bv32
    var tz: bv32
    var raw: seq<bv32>
    const bdid: int
    ghost const joined: nat      // length of the history when the sensor registered

    function Six(): seq<bv32>
      reads this
    {
      [fx, fy, fz, tx, ty, tz]
    }

    /** The values the sensor should hold after the history, for a board at address ip. */
    ghost predicate Follows(h: History, ip: bv32)
      reads this
    {
      joined <= |h| && Six() == SensorValues(h, ip, joined)
    }

    /** A sensor of board bdid: it registers itself for that board's datagrams. */
    constructor (bdm: EthInterfaceManager, bdid: int)
      requires bdm.Valid()
      modifies bdm.boards
      ensures bdm.Valid() && this.bdid == bdid && Six() == [0, 0, 0, 0, 0, 0]
      ensures bdm.boards == old(bdm.boards) && joined == |bdm.history|
      ensures forall i | 0 <= i < |bdm.boards| ::
                bdm.boards[i].msgh == old(bdm.boards[i].msgh) + (if i == bdid % 0x1_0000 then [this] else [])
    {
      fx, fy, fz, tx, ty, tz, raw := 0, 0, 0, 0, 0, 0, [];
      this.bdid := bdid;
      joined := |bdm.history|;
      new;
      NothingHeard(bdm.history);
      bdm.InstallUdpDatagramHandler(bdid % 0x1_0000, this);
    }

    /** Takes the values of a broadcast out of the receive buffer; bcast is the scratch message all sensors share. */
    method AnalyzePacketSensor(packet: CharBuff, bcast: Message)
      requires packet.content.Length == PACKET_MAX_SIZE
      requires bcast.Valid() && bcast.kinds == Fields(BCastSensorData)
      modifies this, bcast
      ensures bcast.Valid()
      ensures Six() == Leading(packet.content[..]) && raw == Trailing(packet.content[..])
      ensures var c := packet.content[..];
              && Bytes32(fx) == c[4..8] && Bytes32(fy) == c[8..12] && Bytes32(fz) == c[12..16]
              && Bytes32(tx) == c[16..20] && Bytes32(ty) == c[20..24] && Bytes32(tz) == c[24..28]
              && |raw| == 6 && forall k | 0 <= k < 6 :: Bytes32(raw[k]) == c[28 + 4 * k..32 + 4 * k]
    {
      hide Word32, Decoded, Fitting, Offset, DecodedHeader, SensorWord;
      ghost var content, before := packet.content[..], bcast.fields;
      BroadcastWords(content, before, 0);
      forall k | 0 <= k < 12
        ensures Decoded(content, Fields(BCastSensorData), before, 12)[k] == V32(SensorWord(content, k))
      {
        BroadcastWords(content, before, k);
      }
      var rc := Decode(bcast, packet.content, SIZEOF_CHARBUFF);
      var f := bcast.fields;
      fx, fy, fz := f[0].w, f[1].w, f[2].w;
      tx, ty, tz := f[3].w, f[4].w, f[5].w;
      raw := [f[6].w, f[7].w, f[8].w, f[9].w, f[10].w, f[11].w];
      ValuesAreBytes(content, Six(), raw);
    }

    /**
     * The calibration offsets out of a board's reply of size bytes, whose header is
     * not looked at.  Offsets the reply does not reach are zero.
     */
    static method GetCalibrationOffsets(reply: array<Byte>, size: nat) returns (calibrationOffsets: seq<bv32>)
      requires (size <= reply.Length || 28 <= reply.Length) && size < 0x1_0000_0000_0000_0000
      ensures |calibrationOffsets| == 6
      ensures var b := reply[..];
              forall k | 0 <= k < 6 && 8 + 4 * k <= size :: Bytes32(calibrationOffsets[k]) == b[4 + 4 * k..8 + 4 * k]
      ensures forall k | 0 <= k < 6 && 8 + 4 * k > size :: calibrationOffsets[k] == 0
    {
      hide *;
      OffsetsSchema();
      var rb := new Message(Id(ReplyGetCalibrationOffsets), NoOffsets());
      var rc := Decode(rb, reply, size);
      ghost var b := reply[..];
      OffsetsRead(b, size, rb.kinds, rb.fields);
      var f := rb.fields;
      assert |f| == 6 && forall k | 0 <= k < 6 :: f[k].V32? by { OffsetsAreWords(b, size, f); }
      calibrationOffsets := seq(6, k requires 0 <= k < 6 => f[k].w);
      OffsetsAre(b, size, f, calibrationOffsets);
    }

    /** The caller's view: newtons and newton metres, value being the meaning of a float's word. */
    method GetFTData(value: bv32 -> real) returns (ftData: seq<real>)
      ensures |ftData| == 6 && forall k | 0 <= k < 6 :: ftData[k] * 1000.0 == value(Six()[k])
      ensures ftData[0] * 1000.0 == value(fx) && ftData[1] * 1000.0 == value(fy) && ftData[2] * 1000.0 == value(fz)
      ensures ftData[3] * 1000.0 == value(tx) && ftData[4] * 1000.0 == value(ty) && ftData[5] * 1000.0 == value(tz)
    {
      ftData := [value(fx) / 1000.0, value(fy) / 1000.0, value(fz) / 1000.0,
                 value(tx) / 1000.0, value(ty) / 1000.0, value(tz) / 1000.0];
    }
  }

  lemma NothingHeard(h: History)
    ensures forall ip :: SensorValues(h, ip, |h|) == [0, 0, 0, 0, 0, 0]
  {
  }

  class Board {
    var msgh: seq<FtSensor>

    constructor ()
      ensures msgh == []
    {
      msgh := [];
    }

    /** Gives the datagram to every handler. */
    method OnUdpDatagram(datagram: CharBuff, bcast: Message)
      requires datagram.content.Length == PACKET_MAX_SIZE
      requires bcast.Valid() && bcast.kinds == Fields(BCastSensorData)
      modifies msgh, bcast
      ensures bcast.Valid()
      ensures forall s <- msgh :: s.Six() == Leading(datagram.content[..]) && s.raw == Trailing(datagram.content[..])
    {
      hide Leading, Trailing, Fields, KindsOf;
      for k := 0 to |msgh|
        invariant bcast.Valid()
        invariant forall j | 0 <= j < k ::
                    msgh[j].Six() == Leading(datagram.content[..]) && msgh[j].raw == Trailing(datagram.content[..])
      {
        msgh[k].AnalyzePacketSensor(datagram, bcast);
      }
    }
  }

  class EthInterfaceManager {
    var boards: seq<Board>
    var boardNumIp: seq<bv32>
    var lastTimePoint: seq<int>
    var timeoutHandler: bool
    const timeout: nat
    const cbUdpRec: CharBuff
    const bcast: Message
    var reported: seq<int>       // the codes given to the timeout handler, in order

    ghost var history: History
    ghost var since: seq<nat>    // length of the history when each board was added

    /** No board is listed twice and no sensor is registered twice. */
    ghost predicate Shape()
      reads this`boards, this`boardNumIp, this`lastTimePoint, this`since, boards
    {
      && |boards| == |boardNumIp| == |since| <= MAX_NUM_BOARDS == |lastTimePoint|
      && (forall i, j | 0 <= i < j < |boards| :: boards[i] != boards[j])
      && (forall i, j, s | 0 <= i < |boards| && 0 <= j < |boards| && s in boards[i].msgh && s in boards[j].msgh :: i == j)
    }

    ghost function Sensors(): set<FtSensor>
      reads this`boards, boards
    {
      set b, s | b in boards && s in b.msgh :: s
    }

    /** Board j is one that the datagram being dispatched is for and has not reached yet. */
    ghost predicate Waits(j: nat, k: nat, source: bv32)
      requires j < |boardNumIp|
      reads this`boardNumIp
    {
      j >= k && source == boardNumIp[j]
    }

    ghost predicate TimesBelow(h: History, k: nat, source: bv32, stamps: seq<int>)
      requires Shape() && |stamps| == MAX_NUM_BOARDS
      reads this`boards, this`boardNumIp, this`lastTimePoint, this`since, boards
    {
      && (forall j | 0 <= j < |boards| ::
            LastHeard(h, j, boardNumIp[j], since[j]) == if Waits(j, k, source) then stamps[j] else lastTimePoint[j])
      && (forall j | |boards| <= j < MAX_NUM_BOARDS :: lastTimePoint[j] == InstalledAt(h))
      && (forall j | 0 <= j < |boards| :: since[j] <= |h|)
    }

    ghost predicate ReadingsBelow(h: History, k: nat, source: bv32)
      requires Shape()
      reads this`boards, this`boardNumIp, this`lastTimePoint, this`since, boards, Sensors()
    {
      forall j, s | 0 <= j < |boards| && s in boards[j].msgh ::
        && s.joined <= |h|
        && SensorValues(h, boardNumIp[j], s.joined) == if Waits(j, k, source) then Leading(ContentAt(h)) else s.Six()
    }

    /**
     * Boards and sensors know all of history h, except that the datagram it ends
     * with, from the given source, has still to reach the boards from number k on.
     */
    ghost predicate TracksBelow(h: History, k: nat, source: bv32, stamps: seq<int>)
      requires Shape() && |stamps| == MAX_NUM_BOARDS
      reads this`boards, this`boardNumIp, this`lastTimePoint, this`since, boards, Sensors()
    {
      TimesBelow(h, k, source, stamps) && ReadingsBelow(h, k, source)
    }

    ghost predicate TimesTrack(h: History)
      requires Shape()
      reads this`boards, this`boardNumIp, this`lastTimePoint, this`since, boards
    {
      && (forall j | 0 <= j < |boards| ::
            since[j] <= |h| && lastTimePoint[j] == LastHeard(h, j, boardNumIp[j], since[j]))
      && (forall j | |boards| <= j < MAX_NUM_BOARDS :: lastTimePoint[j] == InstalledAt(h))
    }

    ghost predicate ReadingsTrack(h: History)
      requires Shape()
      reads this`boards, this`boardNumIp, this`lastTimePoint, this`since, boards, Sensors()
    {
      forall j, s | 0 <= j < |boards| && s in boards[j].msgh :: s.Follows(h, boardNumIp[j])
    }

    /** Every board knows when it was last heard, every sensor shows its board's latest datagram. */
    ghost predicate Tracks(h: History)
      requires Shape()
      reads this`boards, this`boardNumIp, this`lastTimePoint, this`since, boards, Sensors()
    {
      TimesTrack(h) && ReadingsTrack(h)
    }

    /** All state follows the history of arrivals. */
    ghost predicate Valid()
      reads this, boards, Sensors(), cbUdpRec, cbUdpRec.content, bcast
    {
      && Shape() && Tracks(history)
      && bcast.Valid() && bcast.kinds == Fields(BCastSensorData)
      && cbUdpRec.content[..] == ContentAt(history)
    }

    constructor (timeout: nat)
      ensures Valid() && this.timeout == timeout && boards == [] && history == [] && reported == [] && !timeoutHandler
      ensures fresh(cbUdpRec) && fresh(cbUdpRec.content) && fresh(bcast)
    {
      boards, boardNumIp, since, reported, history := [], [], [], [], [];
      lastTimePoint := seq(MAX_NUM_BOARDS, _ => 0);
      timeoutHandler := false;
      this.timeout := timeout;
      cbUdpRec := new CharBuff();
      bcast := new Message(Id(BCastSensorData), seq(12, _ => V32(0)));
    }

    /** The new board's number, or -1 when all places are taken. */
    method AddBoard(address: bv32) returns (id: int)
      requires Valid()
      modifies this`boards, this`boardNumIp, this`since
      ensures Valid()
      ensures id == if old(|boards|) >= 4 then -1 else old(|boards|)
      ensures id < 0 ==> boards == old(boards) && boardNumIp == old(boardNumIp)
      ensures id >= 0 ==>
                && |boards| == id + 1 && boards[..id] == old(boards) && boards[id].msgh == [] && fresh(boards[id])
                && boardNumIp == old(boardNumIp) + [address] && since == old(since) + [|history|]
    {
      hide LastHeard, InstalledAt, ContentAt, FtSensor.Follows;
      if |boards| >= MAX_NUM_BOARDS {
        return -1;
      }
      id := |boards|;
      var board := new Board();
      NotYetAdded(history, id, address, |history|);
      boards, boardNumIp, since := boards + [board], boardNumIp + [address], since + [|history|];
      assert Shape() by {
        hide FtSensor.Follows, TimesTrack, ReadingsTrack;
      }
      assert TimesTrack(history) by {
        hide FtSensor.Follows, ReadingsTrack, Shape;
      }
    }

    /**
     * Adds a sensor to a board; a number that is no configured board is ignored.  The
     * invariant survives when the sensor is new and still shows nothing but zeros.
     */
    method InstallUdpDatagramHandler(boardId: nat, sensor: FtSensor)
      requires Valid()
      modifies boards
      ensures boards == old(boards)
      ensures old(sensor !in Sensors() && forall ip :: sensor.Follows(history, ip)) ==> Valid()
      ensures forall i | 0 <= i < |boards| ::
                boards[i].msgh == old(boards[i].msgh) + (if i == boardId then [sensor] else [])
    {
      hide LastHeard, InstalledAt, ContentAt, FtSensor.Follows;
      if boardId < |boards| {
        boards[boardId].msgh := boards[boardId].msgh + [sensor];
      }
    }

    method InstallTimeoutHandler(now: int)
      requires Valid()
      modifies this`lastTimePoint, this`timeoutHandler, this`history
      ensures Valid() && timeoutHandler && history == old(history) + [HandlerInstalled(now)]
    {
      hide LastHeard, InstalledAt, ContentAt, FtSensor.Follows;
      ghost var e := HandlerInstalled(now);
      HandlerHappens(e);
      lastTimePoint := seq(MAX_NUM_BOARDS, _ => now);
      timeoutHandler := true;
      history := history + [e];
      assert Shape() by {
        hide FtSensor.Follows, TimesTrack, ReadingsTrack;
      }
      assert TimesTrack(history) by {
        hide FtSensor.Follows, ReadingsTrack, Shape;
      }
    }

    lemma HandlerHappens(e: Event)
      requires Valid() && e.HandlerInstalled?
      ensures ContentAt(history + [e]) == ContentAt(history) && InstalledAt(history + [e]) == e.now
      ensures forall j | 0 <= j < |boards| :: LastHeard(history + [e], j, boardNumIp[j], since[j]) == e.now
      ensures ReadingsTrack(history + [e])
    {
      hide LastHeard, InstalledAt, ContentAt, SensorValues, Leading, Overlay;
      InstalledAfter(history, e);
      ContentAfter(history, e);
      forall j | 0 <= j < |boards| {
        HeardAfter(history, e, j, boardNumIp[j], since[j]);
      }
      forall j, s | 0 <= j < |boards| && s in boards[j].msgh {
        SensorAfter(history, e, boardNumIp[j], s.joined);
      }
    }

    /** A datagram has arrived and no board knows of it yet. */
    lemma DatagramHappens(e: Event)
      requires Valid() && ValidEvent(e) && e.Datagram?
      ensures ContentAt(history + [e]) == Overlay(ContentAt(history), 0, e.payload)
      ensures TracksBelow(history + [e], 0, e.source, e.stamps)
    {
      hide LastHeard, InstalledAt, ContentAt, SensorValues, Leading, Overlay;
      InstalledAfter(history, e);
      ContentAfter(history, e);
      forall j | 0 <= j < |boards| {
        HeardAfter(history, e, j, boardNumIp[j], since[j]);
      }
      forall j, s | 0 <= j < |boards| && s in boards[j].msgh {
        SensorAfter(history, e, boardNumIp[j], s.joined);
      }
    }

    /** The sensors of the boards below number k that the datagram is for show all twelve words of the buffer. */
    ghost predicate ShownBelow(k: nat, source: bv32)
      requires Shape() && cbUdpRec.content.Length == PACKET_MAX_SIZE
      reads this`boards, this`boardNumIp, this`lastTimePoint, this`since, boards, Sensors(), cbUdpRec.content
    {
      forall j, s | 0 <= j < k && j < |boards| && boardNumIp[j] == source && s in boards[j].msgh ::
        s.Six() == Leading(cbUdpRec.content[..]) && s.raw == Trailing(cbUdpRec.content[..])
    }

    /** One board's turn in the dispatching loop. */
    method DispatchTo(i: nat, source: bv32, stamps: seq<int>, ghost h: History)
      requires Shape() && i < |boards| && |stamps| == MAX_NUM_BOARDS && TracksBelow(h, i, source, stamps)
      requires bcast.Valid() && bcast.kinds == Fields(BCastSensorData)
      requires cbUdpRec.content[..] == ContentAt(h) && ShownBelow(i, source)
      modifies this`lastTimePoint, bcast, boards[i].msgh
      ensures bcast.Valid() && Shape() && TracksBelow(h, i + 1, source, stamps) && ShownBelow(i + 1, source)
    {
      hide LastHeard, InstalledAt, ContentAt, SensorValues, Leading, Trailing, FtSensor.Six, Fields, KindsOf;
      if source == boardNumIp[i] {
        lastTimePoint := lastTimePoint[i := stamps[i]];
        boards[i].OnUdpDatagram(cbUdpRec, bcast);
      }
      assert Shape();
      assert TimesBelow(h, i + 1, source, stamps) by {
        hide ReadingsBelow, Shape, ShownBelow;
      }
      assert ReadingsBelow(h, i + 1, source) by {
        hide TimesBelow, ShownBelow;
      }
      assert ShownBelow(i + 1, source) by {
        hide TimesBelow, ReadingsBelow;
      }
    }

    /** Hands the datagram in the buffer to every board at its source address, and notes the time. */
    method Dispatch(source: bv32, stamps: seq<int>, ghost h: History)
      requires Shape() && |stamps| == MAX_NUM_BOARDS && TracksBelow(h, 0, source, stamps)
      requires bcast.Valid() && bcast.kinds == Fields(BCastSensorData)
      requires cbUdpRec.content[..] == ContentAt(h)
      modifies this`lastTimePoint, bcast, Sensors()
      ensures bcast.Valid() && Shape() && Tracks(h) && ShownBelow(|boards|, source)
    {
      hide TracksBelow, LastHeard, InstalledAt, ContentAt, SensorValues, Leading, Trailing, ShownBelow;
      assert ShownBelow(0, source) by { NoneBelow(source); }
      for i := 0 to |boards|
        invariant bcast.Valid() && Shape() && TracksBelow(h, i, source, stamps) && ShownBelow(i, source)
      {
        assert forall s <- boards[i].msgh :: s in old(Sensors());
        DispatchTo(i, source, stamps, h);
      }
      AllReached(h, source, stamps);
    }

    lemma NoneBelow(source: bv32)
      requires Shape() && cbUdpRec.content.Length == PACKET_MAX_SIZE
      ensures ShownBelow(0, source)
    {
    }

    lemma AllReached(h: History, source: bv32, stamps: seq<int>)
      requires Shape() && |stamps| == MAX_NUM_BOARDS && TracksBelow(h, |boards|, source, stamps)
      ensures Tracks(h)
    {
      hide LastHeard, InstalledAt, ContentAt, SensorValues, Leading;
    }

    /** Calls the handler for every board that has been silent too long. */
    method ReportSilent(now: int)
      requires |boards| <= MAX_NUM_BOARDS == |lastTimePoint|
      modifies this`reported
      ensures reported == old(reported) + if timeoutHandler then Overdue(lastTimePoint, |boards|, now, timeout) else []
    {
      for i := 0 to |boards|
        invariant reported == old(reported) + if timeoutHandler then Overdue(lastTimePoint, i, now, timeout) else []
      {
        if Silent(lastTimePoint[i], now, timeout) && timeoutHandler {
          reported := reported + [i];
        }
      }
    }

    /** A received datagram: into the buffer, and to the boards it is for. */
    method Accept(source: bv32, payload: seq<Byte>, bytesReceived: int, stamps: seq<int>)
      requires Valid() && |payload| <= PACKET_MAX_SIZE && |stamps| == MAX_NUM_BOARDS
      requires bytesReceived >= -1
      modifies this`lastTimePoint, this`history, cbUdpRec, cbUdpRec.content, bcast, Sensors()
      ensures Valid() && history == old(history) + [Datagram(source, payload, stamps)]
      ensures cbUdpRec.size == AsSize(bytesReceived) && boards == old(boards)
      ensures cbUdpRec.content[..] == Overlay(old(cbUdpRec.content[..]), 0, payload)
      ensures ShownBelow(|boards|, source)
    {
      hide Shape, TracksBelow, Tracks, ContentAt, Overlay, ShownBelow;
      ghost var e := Datagram(source, payload, stamps);
      DatagramHappens(e);
      CopyBytes(cbUdpRec.content, 0, payload);
      cbUdpRec.size := AsSize(bytesReceived);
      Dispatch(source, stamps, history + [e]);
      history := history + [e];
    }

    /**
     * One wait for a datagram.  An empty wait reports code 99 and touches nothing
     * else; a datagram updates exactly the boards at its source address and their
     * sensors, and then every board silent for too long is reported.  So does a
     * receive call that fails, with the source address it left behind.
     */
    method RecvUdp(arrival: Arrival, stamps: seq<int>, now: int) returns (rc: int)
      requires Valid() && |stamps| == MAX_NUM_BOARDS
      modifies this`lastTimePoint, this`history, this`reported, cbUdpRec, cbUdpRec.content, bcast, Sensors()
      ensures Valid()
      ensures arrival.Nothing? ==>
                && rc == -1 && history == old(history) && lastTimePoint == old(lastTimePoint)
                && reported == old(reported) + if timeoutHandler then [99] else []
      ensures arrival.Failed? ==>
                && rc == -1 && cbUdpRec.size == 0xffff_ffff_ffff_ffff
                && history == old(history) + [Datagram(arrival.source, [], stamps)]
      ensures arrival.Arrived? ==>
                && cbUdpRec.size == rc == (if |arrival.data| <= 256 then |arrival.data| else 256)
                && history == old(history) + [Datagram(arrival.source, arrival.data[..rc], stamps)]
      ensures !arrival.Nothing? ==>
                reported == old(reported) + if timeoutHandler then Overdue(lastTimePoint, |boards|, now, timeout) else []
      ensures arrival.Arrived? && |arrival.data| >= 28 ==>
                forall i, s | 0 <= i < |boards| && boardNumIp[i] == arrival.source && s in boards[i].msgh ::
                  && Bytes32(s.fx) == arrival.data[4..8] && Bytes32(s.fy) == arrival.data[8..12]
                  && Bytes32(s.fz) == arrival.data[12..16] && Bytes32(s.tx) == arrival.data[16..20]
                  && Bytes32(s.ty) == arrival.data[20..24] && Bytes32(s.tz) == arrival.data[24..28]
      ensures arrival.Arrived? && |arrival.data| >= 52 ==>
                forall i, s | 0 <= i < |boards| && boardNumIp[i] == arrival.source && s in boards[i].msgh ::
                  |s.raw| == 6 && forall k | 0 <= k < 6 :: Bytes32(s.raw[k]) == arrival.data[28 + 4 * k..32 + 4 * k]
    {
      hide TracksBelow, Tracks, ContentAt, Overdue, Bytes32, ShownBelow, Overlay;
      if arrival.Nothing? {
        if timeoutHandler {
          reported := reported + [EMPTY_WAIT_CODE];
        }
        return -1;
      }
      var payload := if arrival.Failed? then [] else Truncated(arrival.data);
      rc := if arrival.Failed? then -1 else |payload|;
      assert arrival.Arrived? ==> payload == arrival.data[..rc];
      ghost var before := cbUdpRec.content[..];
      Accept(arrival.source, payload, rc, stamps);
      ReportSilent(now);
      if arrival.Arrived? {
        SensorsShowData(arrival.source, before, arrival.data);
      }
    }

    /** What the dispatched sensors show, in bytes of the data that arrived. */
    lemma SensorsShowData(source: bv32, before: seq<Byte>, data: seq<Byte>)
      requires Shape() && cbUdpRec.content.Length == PACKET_MAX_SIZE == |before| && ShownBelow(|boards|, source)
      requires cbUdpRec.content[..] == Overlay(before, 0, Truncated(data))
      ensures |data| >= 28 ==>
                forall i, s | 0 <= i < |boards| && boardNumIp[i] == source && s in boards[i].msgh ::
                  && Bytes32(s.fx) == data[4..8] && Bytes32(s.fy) == data[8..12] && Bytes32(s.fz) == data[12..16]
                  && Bytes32(s.tx) == data[16..20] && Bytes32(s.ty) == data[20..24] && Bytes32(s.tz) == data[24..28]
      ensures |data| >= 52 ==>
                forall i, s | 0 <= i < |boards| && boardNumIp[i] == source && s in boards[i].msgh ::
                  |s.raw| == 6 && forall k | 0 <= k < 6 :: Bytes32(s.raw[k]) == data[28 + 4 * k..32 + 4 * k]
    {
      hide Bytes32, Leading, Trailing, Overlay;
      var c := cbUdpRec.content[..];
      ValuesAreData(before, data, Leading(c), Trailing(c));
      forall i, s | 0 <= i < |boards| && boardNumIp[i] == source && s in boards[i].msgh
        ensures Leading(c) == [s.fx, s.fy, s.fz, s.tx, s.ty, s.tz] && s.raw == Trailing(c)
      {
        assert s.Six() == Leading(c);
      }
    }

    /**
     * From the board's encoder to the caller of the sensor: when a broadcast that
     * board i has encoded arrives, a sensor of that board gives a thousandth of what
     * the first six words mean, in their order.
     */
    method ReadAfterBroadcast(i: nat, s: FtSensor, buffer: seq<Byte>, vals: seq<Value>, stamps: seq<int>, now: int,
                              value: bv32 -> real)
      returns (ftData: seq<real>)
      requires Valid() && i < |boards| && s in boards[i].msgh && |stamps| == MAX_NUM_BOARDS
      requires KindsOf(vals) == Fields(BCastSensorData) && 52 <= |buffer| <= 256
      modifies this`lastTimePoint, this`history, this`reported, cbUdpRec, cbUdpRec.content, bcast, Sensors()
      ensures Valid() && |ftData| == 6 && |vals| == 12
      ensures forall k | 0 <= k < 6 :: vals[k].V32? && ftData[k] * 1000.0 == value(vals[k].w)
    {
      hide Encoded, Bytes32, Fields, Id, Tracks, Truncated, ContentAt, Overdue;
      FourEach(BCastSensorData);
      var data := Encoded(buffer, Id(BCastSensorData), vals);
      var rc := RecvUdp(Arrived(boardNumIp[i], data), stamps, now);
      assert s in boards[i].msgh && Bytes32(s.fx) == data[4..8];
      ftData := s.GetFTData(value);
      BroadcastBytes(buffer, vals, [s.fx, s.fy, s.fz, s.tx, s.ty, s.tz]);
    }

    /**
     * End to end: a registered sensor shows zeros until its board's first datagram,
     * and then the six leading words of the board's most recent one, provided that
     * one has 28 bytes; no traffic of other boards matters.
     */
    lemma SensorShowsLatestDatagram(i: nat, s: FtSensor)
      requires Valid() && i < |boards| && s in boards[i].msgh
      ensures LastFrom(history, boardNumIp[i], s.joined).None? ==> s.Six() == [0, 0, 0, 0, 0, 0]
      ensures forall j | LastFrom(history, boardNumIp[i], s.joined) == Some(j) && |history[j].payload| >= 28 ::
                s.Six() == Leading(history[j].payload)
    {
      hide LastFrom, Leading, ContentAt, LastHeard, InstalledAt, SensorValues;
      assert s.Follows(history, boardNumIp[i]);
      ValuesOfLatest(history, boardNumIp[i], s.joined);
      var r := LastFrom(history, boardNumIp[i], s.joined);
      if r.Some? && |history[r.value].payload| >= 28 {
        SensorShowsItsOwnDatagram(history, boardNumIp[i], s.joined, r.value);
      }
    }

    /** What ReportSilent reports, told from the history: board i unless heard, or the handler installed, recently enough. */
    lemma ReportsFollowHistory(now: int, i: nat)
      requires Valid() && i < |boards|
      ensures i in Overdue(lastTimePoint, |boards|, now, timeout)
         <==> now - LastHeard(history, i, boardNumIp[i], since[i]) >= (timeout + 1) * 1_000_000
    {
      hide LastHeard, InstalledAt, ContentAt, SensorValues, Overdue;
      OverdueIsExact(lastTimePoint, |boards|, now, timeout);
    }
  }
}
