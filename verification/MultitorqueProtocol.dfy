/**
 * Where each field of the forty messages lies on the wire, in plain byte numbers:
 * a header of four bytes, then four bytes per field in the order of the encoders.
 * Enumerations, signed numbers and floats are given by their 32-bit words.
 */
module MultitorqueProtocol {
  import opened BaseTypeEncoding
  import opened MultitorqueCodec
  import opened MultitorqueMessages

  // ---- every message ----

  /** The buffer after a message of type t with these values has been encoded over it. */
  function Sent(t: MessageType, buffer: seq<Byte>, vals: seq<Value>): (b: seq<Byte>)
    requires KindsOf(vals) == Fields(t) && |buffer| >= 4 + 4 * |vals|
    ensures |b| == |buffer|
  {
    FourEach(t);
    Encoded(buffer, Id(t), vals)
  }

  /**
   * Field k stands at position 4 + 4 * k.  A one-byte field leaves the three bytes
   * behind it, and nothing is written behind the last field.
   */
  lemma FieldPosition(t: MessageType, buffer: seq<Byte>, vals: seq<Value>, k: nat)
    requires KindsOf(vals) == Fields(t) && |buffer| >= 4 + 4 * |vals| && k < |vals|
    ensures vals[k].V32? ==> Sent(t, buffer, vals)[4 + 4 * k..8 + 4 * k] == Bytes32(vals[k].w)
    ensures vals[k].V8? ==> Sent(t, buffer, vals)[4 + 4 * k] == vals[k].b
    ensures vals[k].V8? ==> Sent(t, buffer, vals)[5 + 4 * k..8 + 4 * k] == buffer[5 + 4 * k..8 + 4 * k]
    ensures Sent(t, buffer, vals)[4 + 4 * |vals|..] == buffer[4 + 4 * |vals|..]
  {
    hide Fields, Id, Written, ToBytes, Overlay, FieldBytes, Encoded, Unwritten, Bytes32, Offset;
    var kinds, b := KindsOf(vals), Sent(t, buffer, vals);
    FourEach(t);
    FourBytesPerField(kinds, k);
    OffsetsGrow(kinds, k, |kinds|);
    WrittenFields(buffer, vals, |vals|);
    HeaderKeepsFields(buffer, Id(t), vals, k);
    assert kinds[k] == KindOf(vals[k]);
    FieldIs(b, vals, k);
    forall p | (4 + 4 * |vals| <= p < |b|) || (vals[k].V8? && 5 + 4 * k <= p < 8 + 4 * k)
      ensures b[p] == buffer[p]
    {
      NotInAField(vals, k, p);
      PaddingKeepsItsBytes(buffer, Id(t), vals, p);
    }
  }

  lemma FieldIs(b: seq<Byte>, vals: seq<Value>, k: nat)
    requires k < |vals| && Offset(KindsOf(vals), k) == 4 + 4 * k && |b| >= 8 + 4 * k && !vals[k].V64?
    requires FieldBytes(b, KindsOf(vals), k) == ToBytes(vals[k])
    ensures vals[k].V32? ==> b[4 + 4 * k..8 + 4 * k] == Bytes32(vals[k].w)
    ensures vals[k].V8? ==> b[4 + 4 * k] == vals[k].b
  {
    hide Offset, Bytes32, KindsOf;
    assert KindsOf(vals)[k] == KindOf(vals[k]);
    assert FieldBytes(b, KindsOf(vals), k)[0] == b[4 + 4 * k];
  }

  lemma NotInAField(vals: seq<Value>, k: nat, p: nat)
    requires k < |vals| && K64 !in KindsOf(vals)
    requires 4 + 4 * |vals| <= p || (vals[k].V8? && 5 + 4 * k <= p < 8 + 4 * k)
    ensures Unwritten(KindsOf(vals), |vals|, p)
  {
    hide Offset, KindsOf;
    var kinds := KindsOf(vals);
    forall i | 0 <= i < |vals|
      ensures !(Offset(kinds, i) <= p < Offset(kinds, i) + Width(kinds[i]))
    {
      FourBytesPerField(kinds, i);
      assert kinds[i] == KindOf(vals[i]) && kinds[i] in kinds;
    }
  }

  lemma HeaderPosition(t: MessageType, buffer: seq<Byte>, vals: seq<Value>)
    requires KindsOf(vals) == Fields(t) && |buffer| >= 4 + 4 * |vals|
    ensures |vals| <= 12
    ensures Sent(t, buffer, vals)[..4]
         == [(4 + 4 * |vals|) as Byte, 0, (((Id(t) & 0x0f) as Byte) << 4) | 1, ((Id(t) >> 4) & 0xff) as Byte]
  {
    hide Fields, Id, Encoded, Bytes32, Pack, Offset, HeaderFor, MessageSize, KindsOf;
    FourEach(t);
    EncodedHeader(buffer, Id(t), vals);
    HeaderLiteral(Id(t), 4 + 4 * |vals|);
  }

  lemma EncodedHeader(buffer: seq<Byte>, id: bv16, vals: seq<Value>)
    requires MessageSize(KindsOf(vals)) <= |buffer|
    ensures Encoded(buffer, id, vals)[..4] == Bytes32(Pack(HeaderFor(id, MessageSize(KindsOf(vals)))))
  {
    hide Written, Overlay, Bytes32, Pack, HeaderFor, Offset;
    var b := Encoded(buffer, id, vals);
    assert b[..4] == b[0..4];
  }

  lemma HeaderLiteral(id: bv16, n: nat)
    requires n < 256
    ensures Bytes32(Pack(HeaderFor(id, n)))
         == [n as Byte, 0, (((id & 0x0f) as Byte) << 4) | 1, ((id >> 4) & 0xff) as Byte]
  {
    hide Bytes32, Pack;
    var h := HeaderFor(id, n);
    HeaderBytes(h);
    HeaderIs(h, n, Bytes32(Pack(h)));
  }

  lemma HeaderIs(h: Header, n: nat, b: seq<Byte>)
    requires |b| == 4 && n < 256 && h.size == n as bv16 && h.encoding == 1
    requires b[0] == (h.size & 0xff) as Byte && b[1] == (h.size >> 8) as Byte && b[3] == ((h.id >> 4) & 0xff) as Byte
    requires b[2] & 0x0f == h.encoding & 0x0f && b[2] >> 4 == (h.id & 0x0f) as Byte
    ensures b == [n as Byte, 0, (((h.id & 0x0f) as Byte) << 4) | 1, ((h.id >> 4) & 0xff) as Byte]
  {
  }

  // ---- messages of words, messages of bytes ----

  /** The two messages with a hardware address have one-byte fields, all others words. */
  predicate HasMac(t: MessageType) { t == SetMacAddress || t == ReplyGetMacAddress }

  function AllV32(ws: seq<bv32>): (vals: seq<Value>)
    ensures |vals| == |ws| && forall k | 0 <= k < |ws| :: vals[k] == V32(ws[k])
  {
    seq(|ws|, k requires 0 <= k < |ws| => V32(ws[k]))
  }

  function AllV8(bs: seq<Byte>): (vals: seq<Value>)
    ensures |vals| == |bs| && forall k | 0 <= k < |bs| :: vals[k] == V8(bs[k])
  {
    seq(|bs|, k requires 0 <= k < |bs| => V8(bs[k]))
  }

  lemma WordKinds(t: MessageType, ws: seq<bv32>)
    requires !HasMac(t) && |ws| == |Fields(t)|
    ensures KindsOf(AllV32(ws)) == Fields(t)
  {
    hide Fields, KindsOf, AllV32;
    MessageSizes(t);
    var kinds := KindsOf(AllV32(ws));
    assert forall k | 0 <= k < |ws| :: kinds[k] == Fields(t)[k];
  }

  lemma OctetKinds(t: MessageType, bs: seq<Byte>)
    requires HasMac(t) && |bs| == |Fields(t)|
    ensures KindsOf(AllV8(bs)) == Fields(t)
  {
    hide Fields, KindsOf, AllV8;
    MessageSizes(t);
    var kinds := KindsOf(AllV8(bs));
    assert forall k | 0 <= k < |bs| :: kinds[k] == Fields(t)[k];
  }

  function SentWords(t: MessageType, buffer: seq<Byte>, ws: seq<bv32>): (b: seq<Byte>)
    requires !HasMac(t) && |ws| == |Fields(t)| && |buffer| >= 4 + 4 * |ws|
    ensures |b| == |buffer|
  {
    WordKinds(t, ws);
    Sent(t, buffer, AllV32(ws))
  }

  function SentOctets(t: MessageType, buffer: seq<Byte>, bs: seq<Byte>): (b: seq<Byte>)
    requires HasMac(t) && |bs| == |Fields(t)| && |buffer| >= 4 + 4 * |bs|
    ensures |b| == |buffer|
  {
    OctetKinds(t, bs);
    Sent(t, buffer, AllV8(bs))
  }

  lemma WordAt(t: MessageType, buffer: seq<Byte>, ws: seq<bv32>, k: nat)
    requires !HasMac(t) && |ws| == |Fields(t)| && |buffer| >= 4 + 4 * |ws| && k < |ws|
    ensures SentWords(t, buffer, ws)[4 + 4 * k..8 + 4 * k] == Bytes32(ws[k])
  {
    hide Fields, Sent, AllV32, Bytes32;
    WordKinds(t, ws);
    FieldPosition(t, buffer, AllV32(ws), k);
  }

  lemma OctetAt(t: MessageType, buffer: seq<Byte>, bs: seq<Byte>, k: nat, at: nat)
    requires HasMac(t) && |bs| == |Fields(t)| && |buffer| >= 4 + 4 * |bs| && k < |bs| && at == 4 + 4 * k
    ensures SentOctets(t, buffer, bs)[at] == bs[k]
  {
    hide Fields, Sent, AllV8;
    OctetKinds(t, bs);
    FieldPosition(t, buffer, AllV8(bs), k);
  }

  lemma MacMessages(t: MessageType)
    ensures HasMac(t) <==> t == SetMacAddress || t == ReplyGetMacAddress
  {
  }

  /**
   * Bytes 2 and 3 of every header, message by message: the low four bits of the
   * identifier over the encoding, then the high eight.
   */
  lemma IdBytes(t: MessageType)
    ensures [(((Id(t) & 0x0f) as Byte) << 4) | 1, ((Id(t) >> 4) & 0xff) as Byte] ==
              (match t
               case GetBoardInfo => [0x11, 0x00]
               case ReplyBoardInfo => [0x21, 0x00]
               case CalibrateOffsets => [0x31, 0x00]
               case ReplyCalibrateOffsets => [0x41, 0x00]
               case GetFault => [0x51, 0x00]
               case ReplyFault => [0x61, 0x00]
               case ClearFault => [0x71, 0x00]
               case ReplyClearFault => [0x81, 0x00]
               case SetSampleStreamPolicy => [0x91, 0x00]
               case ReplySetSampleStreamPolicy => [0xa1, 0x00]
               case GetSampleStreamPolicy => [0xb1, 0x00]
               case ReplyGetSampleStreamPolicy => [0xc1, 0x00]
               case SetTempFactors => [0xd1, 0x00]
               case ReplySetTempFactors => [0xe1, 0x00]
               case GetCalibrationTemp => [0xf1, 0x00]
               case ReplyGetCalibrationTemp => [0x01, 0x01]
               case SetCalibrationMatrixRow => [0x11, 0x01]
               case ReplySetCalibrationMatrixRow => [0x21, 0x01]
               case GetCalibrationMatrixRow => [0x31, 0x01]
               case ReplyGetCalibrationMatrixRow => [0x41, 0x01]
               case GetCalibrationOffsets => [0x51, 0x01]
               case ReplyGetCalibrationOffsets => [0x61, 0x01]
               case BCastSensorData => [0x71, 0x01]
               case SaveParamsOnFlash => [0x81, 0x01]
               case SetIpAddress => [0x91, 0x01]
               case GetIpAddress => [0xa1, 0x01]
               case ReplyGetIpAddress => [0xb1, 0x01]
               case SetMacAddress => [0xc1, 0x01]
               case ReplySetMacAddress => [0xd1, 0x01]
               case GetMacAddress => [0xe1, 0x01]
               case ReplyGetMacAddress => [0xf1, 0x01]
               case SetNetmask => [0x01, 0x02]
               case GetNetmask => [0x11, 0x02]
               case ReplyGetNetmask => [0x21, 0x02]
               case SetGateway => [0x31, 0x02]
               case GetGateway => [0x41, 0x02]
               case ReplyGetGateway => [0x51, 0x02]
               case SaveInventoryDataOnFlash => [0x61, 0x02]
               case LoadInventoryDataFromFlash => [0x71, 0x02]
               case ReplyLoadInventoryDataFromFlash => [0x81, 0x02])
  {
  }

  /** The places of all words, four bytes each behind the header. */
  lemma WordsPlaced(t: MessageType, buffer: seq<Byte>, ws: seq<bv32>)
    requires !HasMac(t) && |ws| == |Fields(t)| && |buffer| >= 4 + 4 * |ws|
    ensures |ws| > 0 ==> SentWords(t, buffer, ws)[4..8] == Bytes32(ws[0])
    ensures |ws| > 1 ==> SentWords(t, buffer, ws)[8..12] == Bytes32(ws[1])
    ensures |ws| > 2 ==> SentWords(t, buffer, ws)[12..16] == Bytes32(ws[2])
    ensures |ws| > 3 ==> SentWords(t, buffer, ws)[16..20] == Bytes32(ws[3])
    ensures |ws| > 4 ==> SentWords(t, buffer, ws)[20..24] == Bytes32(ws[4])
    ensures |ws| > 5 ==> SentWords(t, buffer, ws)[24..28] == Bytes32(ws[5])
    ensures |ws| > 6 ==> SentWords(t, buffer, ws)[28..32] == Bytes32(ws[6])
    ensures |ws| > 7 ==> SentWords(t, buffer, ws)[32..36] == Bytes32(ws[7])
    ensures |ws| > 8 ==> SentWords(t, buffer, ws)[36..40] == Bytes32(ws[8])
    ensures |ws| > 9 ==> SentWords(t, buffer, ws)[40..44] == Bytes32(ws[9])
    ensures |ws| > 10 ==> SentWords(t, buffer, ws)[44..48] == Bytes32(ws[10])
    ensures |ws| > 11 ==> SentWords(t, buffer, ws)[48..52] == Bytes32(ws[11])
  {
    hide *;
    forall k: nat | k < |ws|
      ensures SentWords(t, buffer, ws)[4 + 4 * k..8 + 4 * k] == Bytes32(ws[k])
    {
      WordAt(t, buffer, ws, k);
    }
  }

  // ---- the messages with one word ----

  /** These messages carry a single word, right behind the header, and are eight bytes long. */
  lemma OneWordMessages(t: MessageType, buffer: seq<Byte>, w: bv32)
    requires |buffer| >= 8
    requires t == ReplyBoardInfo || t == ReplyCalibrateOffsets || t == ReplyFault
          || t == ClearFault || t == ReplyClearFault || t == ReplySetSampleStreamPolicy
          || t == ReplyGetSampleStreamPolicy || t == ReplySetTempFactors || t == ReplyGetCalibrationTemp
          || t == ReplySetCalibrationMatrixRow || t == GetCalibrationMatrixRow || t == SetIpAddress
          || t == ReplyGetIpAddress || t == ReplySetMacAddress || t == SetNetmask
          || t == ReplyGetNetmask || t == SetGateway || t == ReplyGetGateway
    ensures !HasMac(t) && |Fields(t)| == 1
    ensures SentWords(t, buffer, [w])[4..8] == Bytes32(w)
  {
    hide SentWords, Fields, Bytes32, Id;
    MessageSizes(t);
    WordsPlaced(t, buffer, [w]);
  }

  // ---- the messages with several fields, field by field ----

  lemma SetSampleStreamPolicyOnWire(buffer: seq<Byte>, policy: bv32, rate: bv32)
    requires |buffer| >= 12
    ensures !HasMac(SetSampleStreamPolicy) && |Fields(SetSampleStreamPolicy)| == 2
    ensures var b := SentWords(SetSampleStreamPolicy, buffer, [policy, rate]);
            && b[4..8] == Bytes32(policy) && b[8..12] == Bytes32(rate)
  {
    hide *;
    var v := [policy, rate];
    MessageSizes(SetSampleStreamPolicy);
    MacMessages(SetSampleStreamPolicy);
    WordsPlaced(SetSampleStreamPolicy, buffer, v);
  }

  lemma SetTempFactorsOnWire(buffer: seq<Byte>, t0: bv32, t1: bv32, t2: bv32, t3: bv32, t4: bv32, t5: bv32)
    requires |buffer| >= 28
    ensures !HasMac(SetTempFactors) && |Fields(SetTempFactors)| == 6
    ensures var b := SentWords(SetTempFactors, buffer, [t0, t1, t2, t3, t4, t5]);
            && b[4..8] == Bytes32(t0) && b[8..12] == Bytes32(t1) && b[12..16] == Bytes32(t2)
            && b[16..20] == Bytes32(t3) && b[20..24] == Bytes32(t4) && b[24..28] == Bytes32(t5)
  {
    hide *;
    var v := [t0, t1, t2, t3, t4, t5];
    MessageSizes(SetTempFactors);
    MacMessages(SetTempFactors);
    WordsPlaced(SetTempFactors, buffer, v);
  }

  lemma SetCalibrationMatrixRowOnWire(buffer: seq<Byte>, row: bv32, c0: bv32, c1: bv32, c2: bv32, c3: bv32, c4: bv32,
                                      c5: bv32)
    requires |buffer| >= 32
    ensures !HasMac(SetCalibrationMatrixRow) && |Fields(SetCalibrationMatrixRow)| == 7
    ensures var b := SentWords(SetCalibrationMatrixRow, buffer, [row, c0, c1, c2, c3, c4, c5]);
            && b[4..8] == Bytes32(row) && b[8..12] == Bytes32(c0) && b[12..16] == Bytes32(c1)
            && b[16..20] == Bytes32(c2) && b[20..24] == Bytes32(c3) && b[24..28] == Bytes32(c4)
            && b[28..32] == Bytes32(c5)
  {
    hide *;
    var v := [row, c0, c1, c2, c3, c4, c5];
    MessageSizes(SetCalibrationMatrixRow);
    MacMessages(SetCalibrationMatrixRow);
    WordsPlaced(SetCalibrationMatrixRow, buffer, v);
  }

  lemma ReplyGetCalibrationMatrixRowOnWire(buffer: seq<Byte>, row: bv32, c0: bv32, c1: bv32, c2: bv32, c3: bv32,
                                           c4: bv32, c5: bv32)
    requires |buffer| >= 32
    ensures !HasMac(ReplyGetCalibrationMatrixRow) && |Fields(ReplyGetCalibrationMatrixRow)| == 7
    ensures var b := SentWords(ReplyGetCalibrationMatrixRow, buffer, [row, c0, c1, c2, c3, c4, c5]);
            && b[4..8] == Bytes32(row) && b[8..12] == Bytes32(c0) && b[12..16] == Bytes32(c1)
            && b[16..20] == Bytes32(c2) && b[20..24] == Bytes32(c3) && b[24..28] == Bytes32(c4)
            && b[28..32] == Bytes32(c5)
  {
    hide *;
    var v := [row, c0, c1, c2, c3, c4, c5];
    MessageSizes(ReplyGetCalibrationMatrixRow);
    MacMessages(ReplyGetCalibrationMatrixRow);
    WordsPlaced(ReplyGetCalibrationMatrixRow, buffer, v);
  }

  lemma ReplyGetCalibrationOffsetsOnWire(buffer: seq<Byte>, c0: bv32, c1: bv32, c2: bv32, c3: bv32, c4: bv32,
                                         c5: bv32)
    requires |buffer| >= 28
    ensures !HasMac(ReplyGetCalibrationOffsets) && |Fields(ReplyGetCalibrationOffsets)| == 6
    ensures var b := SentWords(ReplyGetCalibrationOffsets, buffer, [c0, c1, c2, c3, c4, c5]);
            && b[4..8] == Bytes32(c0) && b[8..12] == Bytes32(c1) && b[12..16] == Bytes32(c2)
            && b[16..20] == Bytes32(c3) && b[20..24] == Bytes32(c4) && b[24..28] == Bytes32(c5)
  {
    hide *;
    var v := [c0, c1, c2, c3, c4, c5];
    MessageSizes(ReplyGetCalibrationOffsets);
    MacMessages(ReplyGetCalibrationOffsets);
    WordsPlaced(ReplyGetCalibrationOffsets, buffer, v);
  }

  lemma BCastSensorDataOnWire(buffer: seq<Byte>, fx: bv32, fy: bv32, fz: bv32, tx: bv32, ty: bv32, tz: bv32,
                              raw0: bv32, raw1: bv32, raw2: bv32, raw3: bv32, raw4: bv32, raw5: bv32)
    requires |buffer| >= 52
    ensures !HasMac(BCastSensorData) && |Fields(BCastSensorData)| == 12
    ensures var b := SentWords(BCastSensorData, buffer,
                              [fx, fy, fz, tx, ty, tz, raw0, raw1, raw2, raw3, raw4, raw5]);
            && b[4..8] == Bytes32(fx) && b[8..12] == Bytes32(fy) && b[12..16] == Bytes32(fz)
            && b[16..20] == Bytes32(tx) && b[20..24] == Bytes32(ty) && b[24..28] == Bytes32(tz)
            && b[28..32] == Bytes32(raw0) && b[32..36] == Bytes32(raw1) && b[36..40] == Bytes32(raw2)
            && b[40..44] == Bytes32(raw3) && b[44..48] == Bytes32(raw4) && b[48..52] == Bytes32(raw5)
  {
    hide *;
    var v := [fx, fy, fz, tx, ty, tz, raw0, raw1, raw2, raw3, raw4, raw5];
    MessageSizes(BCastSensorData);
    MacMessages(BCastSensorData);
    WordsPlaced(BCastSensorData, buffer, v);
  }

  lemma SetMacAddressOnWire(buffer: seq<Byte>, m0: Byte, m1: Byte, m2: Byte, m3: Byte, m4: Byte, m5: Byte, m6: Byte,
                            m7: Byte)
    requires |buffer| >= 36
    ensures HasMac(SetMacAddress) && |Fields(SetMacAddress)| == 8
    ensures var b := SentOctets(SetMacAddress, buffer, [m0, m1, m2, m3, m4, m5, m6, m7]);
            && b[4] == m0 && b[8] == m1 && b[12] == m2 && b[16] == m3
            && b[20] == m4 && b[24] == m5 && b[28] == m6 && b[32] == m7
  {
    hide *;
    var v := [m0, m1, m2, m3, m4, m5, m6, m7];
    MessageSizes(SetMacAddress);
    MacMessages(SetMacAddress);
    OctetAt(SetMacAddress, buffer, v, 0, 4);
    OctetAt(SetMacAddress, buffer, v, 1, 8);
    OctetAt(SetMacAddress, buffer, v, 2, 12);
    OctetAt(SetMacAddress, buffer, v, 3, 16);
    OctetAt(SetMacAddress, buffer, v, 4, 20);
    OctetAt(SetMacAddress, buffer, v, 5, 24);
    OctetAt(SetMacAddress, buffer, v, 6, 28);
    OctetAt(SetMacAddress, buffer, v, 7, 32);
  }

  lemma ReplyGetMacAddressOnWire(buffer: seq<Byte>, m0: Byte, m1: Byte, m2: Byte, m3: Byte, m4: Byte, m5: Byte,
                                 m6: Byte, m7: Byte)
    requires |buffer| >= 36
    ensures HasMac(ReplyGetMacAddress) && |Fields(ReplyGetMacAddress)| == 8
    ensures var b := SentOctets(ReplyGetMacAddress, buffer, [m0, m1, m2, m3, m4, m5, m6, m7]);
            && b[4] == m0 && b[8] == m1 && b[12] == m2 && b[16] == m3
            && b[20] == m4 && b[24] == m5 && b[28] == m6 && b[32] == m7
  {
    hide *;
    var v := [m0, m1, m2, m3, m4, m5, m6, m7];
    MessageSizes(ReplyGetMacAddress);
    MacMessages(ReplyGetMacAddress);
    OctetAt(ReplyGetMacAddress, buffer, v, 0, 4);
    OctetAt(ReplyGetMacAddress, buffer, v, 1, 8);
    OctetAt(ReplyGetMacAddress, buffer, v, 2, 12);
    OctetAt(ReplyGetMacAddress, buffer, v, 3, 16);
    OctetAt(ReplyGetMacAddress, buffer, v, 4, 20);
    OctetAt(ReplyGetMacAddress, buffer, v, 5, 24);
    OctetAt(ReplyGetMacAddress, buffer, v, 6, 28);
    OctetAt(ReplyGetMacAddress, buffer, v, 7, 32);
  }

  lemma SaveInventoryDataOnFlashOnWire(buffer: seq<Byte>, designCode: bv32, boardVer: bv32, boardRev: bv32,
                                       serialNumber: bv32, dateTime: bv32)
    requires |buffer| >= 24
    ensures !HasMac(SaveInventoryDataOnFlash) && |Fields(SaveInventoryDataOnFlash)| == 5
    ensures var b := SentWords(SaveInventoryDataOnFlash, buffer,
                              [designCode, boardVer, boardRev, serialNumber, dateTime]);
            && b[4..8] == Bytes32(designCode) && b[8..12] == Bytes32(boardVer) && b[12..16] == Bytes32(boardRev)
            && b[16..20] == Bytes32(serialNumber) && b[20..24] == Bytes32(dateTime)
  {
    hide *;
    var v := [designCode, boardVer, boardRev, serialNumber, dateTime];
    MessageSizes(SaveInventoryDataOnFlash);
    MacMessages(SaveInventoryDataOnFlash);
    WordsPlaced(SaveInventoryDataOnFlash, buffer, v);
  }

  lemma ReplyLoadInventoryDataFromFlashOnWire(buffer: seq<Byte>, designCode: bv32, boardVer: bv32, boardRev: bv32,
                                              serialNumber: bv32, dateTime: bv32)
    requires |buffer| >= 24
    ensures !HasMac(ReplyLoadInventoryDataFromFlash) && |Fields(ReplyLoadInventoryDataFromFlash)| == 5
    ensures var b := SentWords(ReplyLoadInventoryDataFromFlash, buffer,
                              [designCode, boardVer, boardRev, serialNumber, dateTime]);
            && b[4..8] == Bytes32(designCode) && b[8..12] == Bytes32(boardVer) && b[12..16] == Bytes32(boardRev)
            && b[16..20] == Bytes32(serialNumber) && b[20..24] == Bytes32(dateTime)
  {
    hide *;
    var v := [designCode, boardVer, boardRev, serialNumber, dateTime];
    MessageSizes(ReplyLoadInventoryDataFromFlash);
    MacMessages(ReplyLoadInventoryDataFromFlash);
    WordsPlaced(ReplyLoadInventoryDataFromFlash, buffer, v);
  }

  // ---- and back ----

  /**
   * Decoding size bytes takes each field that ends within them from the same place,
   * a whole word or the first byte of its four, and leaves the other fields alone.
   */
  lemma FieldRead(t: MessageType, b: seq<Byte>, oldFields: seq<Value>, size: nat, k: nat)
    requires |oldFields| == |Fields(t)| && k < |Fields(t)|
    requires 4 <= size && (size <= |b| || 4 + 4 * |Fields(t)| <= |b|)
    ensures Offset(Fields(t), Fitting(Fields(t), size)) <= |b|
    ensures var v := Decoded(b, Fields(t), oldFields, Fitting(Fields(t), size))[k];
            if 8 + 4 * k > size then v == oldFields[k]
            else if HasMac(t) then v == V8(b[4 + 4 * k])
            else v.V32? && Bytes32(v.w) == b[4 + 4 * k..8 + 4 * k]
  {
    hide Fields, Offset, Fitting, Decoded, Bytes32, Word32;
    var n := Fitting(Fields(t), size);
    MessageSizes(t);
    FourEach(t);
    FourBytesPerField(Fields(t), k);
    FourBytesPerField(Fields(t), n);
    FittingIsExact(Fields(t), size, k);
    FittingWithin(Fields(t), size);
    if k < n {
      DecodedAt(b, Fields(t), oldFields, n, k);
      WordsAndBytes32(0, b[4 + 4 * k..8 + 4 * k]);
    } else {
      DecodedBehind(b, Fields(t), oldFields, n, k);
    }
  }

  lemma FittingWithin(kinds: seq<Kind>, limit: nat)
    requires limit >= 4
    ensures Offset(kinds, Fitting(kinds, limit)) <= limit
  {
    hide FittingFrom;
    OffsetSteps(kinds, 0);
    FittingFromIs(kinds, limit, 0);
  }

  lemma DecodedBehind(b: seq<Byte>, kinds: seq<Kind>, oldFields: seq<Value>, n: nat, k: nat)
    requires n <= k < |kinds| == |oldFields| && Offset(kinds, n) <= |b|
    ensures Decoded(b, kinds, oldFields, n)[k] == oldFields[k]
  {
    hide FromBytes, FieldBytes;
  }
}
