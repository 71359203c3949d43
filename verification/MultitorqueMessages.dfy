/** The forty messages of the sensor protocol, as instances of the codec. */
module MultitorqueMessages {
  import opened Wrappers
  import opened BaseTypeEncoding
  import opened MultitorqueCodec

  datatype MessageType =
    | GetBoardInfo
    | ReplyBoardInfo
    | CalibrateOffsets
    | ReplyCalibrateOffsets
    | GetFault
    | ReplyFault
    | ClearFault
    | ReplyClearFault
    | SetSampleStreamPolicy
    | ReplySetSampleStreamPolicy
    | GetSampleStreamPolicy
    | ReplyGetSampleStreamPolicy
    | SetTempFactors
    | ReplySetTempFactors
    | GetCalibrationTemp
    | ReplyGetCalibrationTemp
    | SetCalibrationMatrixRow
    | ReplySetCalibrationMatrixRow
    | GetCalibrationMatrixRow
    | ReplyGetCalibrationMatrixRow
    | GetCalibrationOffsets
    | ReplyGetCalibrationOffsets
    | BCastSensorData
    | SaveParamsOnFlash
    | SetIpAddress
    | GetIpAddress
    | ReplyGetIpAddress
    | SetMacAddress
    | ReplySetMacAddress
    | GetMacAddress
    | ReplyGetMacAddress
    | SetNetmask
    | GetNetmask
    | ReplyGetNetmask
    | SetGateway
    | GetGateway
    | ReplyGetGateway
    | SaveInventoryDataOnFlash
    | LoadInventoryDataFromFlash
    | ReplyLoadInventoryDataFromFlash

  function Id(t: MessageType): bv16 {
    match t
    case GetBoardInfo => 1
    case ReplyBoardInfo => 2
    case CalibrateOffsets => 3
    case ReplyCalibrateOffsets => 4
    case GetFault => 5
    case ReplyFault => 6
    case ClearFault => 7
    case ReplyClearFault => 8
    case SetSampleStreamPolicy => 9
    case ReplySetSampleStreamPolicy => 10
    case GetSampleStreamPolicy => 11
    case ReplyGetSampleStreamPolicy => 12
    case SetTempFactors => 13
    case ReplySetTempFactors => 14
    case GetCalibrationTemp => 15
    case ReplyGetCalibrationTemp => 16
    case SetCalibrationMatrixRow => 17
    case ReplySetCalibrationMatrixRow => 18
    case GetCalibrationMatrixRow => 19
    case ReplyGetCalibrationMatrixRow => 20
    case GetCalibrationOffsets => 21
    case ReplyGetCalibrationOffsets => 22
    case BCastSensorData => 23
    case SaveParamsOnFlash => 24
    case SetIpAddress => 25
    case GetIpAddress => 26
    case ReplyGetIpAddress => 27
    case SetMacAddress => 28
    case ReplySetMacAddress => 29
    case GetMacAddress => 30
    case ReplyGetMacAddress => 31
    case SetNetmask => 32
    case GetNetmask => 33
    case ReplyGetNetmask => 34
    case SetGateway => 35
    case GetGateway => 36
    case ReplyGetGateway => 37
    case SaveInventoryDataOnFlash => 38
    case LoadInventoryDataFromFlash => 39
    case ReplyLoadInventoryDataFromFlash => 40
  }

  function Words(n: nat): (kinds: seq<Kind>)
    ensures |kinds| == n && forall k | 0 <= k < n :: kinds[k] == K32
  {
    seq(n, _ => K32)
  }

  function Octets(n: nat): (kinds: seq<Kind>)
    ensures |kinds| == n && forall k | 0 <= k < n :: kinds[k] == K8
  {
    seq(n, _ => K8)
  }

  /** Field kinds in wire order; enumerations and floats take a 32-bit word. */
  function Fields(t: MessageType): seq<Kind> {
    match t
    case ReplyBoardInfo => Words(1)
    case ReplyCalibrateOffsets => Words(1)
    case ReplyFault => Words(1)
    case ClearFault => Words(1)
    case ReplyClearFault => Words(1)
    case SetSampleStreamPolicy => Words(2)
    case ReplySetSampleStreamPolicy => Words(1)
    case ReplyGetSampleStreamPolicy => Words(1)
    case SetTempFactors => Words(6)
    case ReplySetTempFactors => Words(1)
    case ReplyGetCalibrationTemp => Words(1)
    case SetCalibrationMatrixRow => Words(7)
    case ReplySetCalibrationMatrixRow => Words(1)
    case GetCalibrationMatrixRow => Words(1)
    case ReplyGetCalibrationMatrixRow => Words(7)
    case ReplyGetCalibrationOffsets => Words(6)
    case BCastSensorData => Words(12)
    case SetIpAddress => Words(1)
    case ReplyGetIpAddress => Words(1)
    case SetMacAddress => Octets(8)
    case ReplySetMacAddress => Words(1)
    case ReplyGetMacAddress => Octets(8)
    case SetNetmask => Words(1)
    case ReplyGetNetmask => Words(1)
    case SetGateway => Words(1)
    case ReplyGetGateway => Words(1)
    case SaveInventoryDataOnFlash => Words(5)
    case ReplyLoadInventoryDataFromFlash => Words(5)
    case _ => []
  }

  /** The message a header identifier names. */
  function Named(id: bv16): Option<MessageType> {
    if id <= 20 then LowNamed(id) else HighNamed(id)
  }

  function LowNamed(id: bv16): Option<MessageType> {
    match id
    case 1 => Some(GetBoardInfo)
    case 2 => Some(ReplyBoardInfo)
    case 3 => Some(CalibrateOffsets)
    case 4 => Some(ReplyCalibrateOffsets)
    case 5 => Some(GetFault)
    case 6 => Some(ReplyFault)
    case 7 => Some(ClearFault)
    case 8 => Some(ReplyClearFault)
    case 9 => Some(SetSampleStreamPolicy)
    case 10 => Some(ReplySetSampleStreamPolicy)
    case 11 => Some(GetSampleStreamPolicy)
    case 12 => Some(ReplyGetSampleStreamPolicy)
    case 13 => Some(SetTempFactors)
    case 14 => Some(ReplySetTempFactors)
    case 15 => Some(GetCalibrationTemp)
    case 16 => Some(ReplyGetCalibrationTemp)
    case 17 => Some(SetCalibrationMatrixRow)
    case 18 => Some(ReplySetCalibrationMatrixRow)
    case 19 => Some(GetCalibrationMatrixRow)
    case 20 => Some(ReplyGetCalibrationMatrixRow)
    case _ => None
  }

  function HighNamed(id: bv16): Option<MessageType> {
    match id
    case 21 => Some(GetCalibrationOffsets)
    case 22 => Some(ReplyGetCalibrationOffsets)
    case 23 => Some(BCastSensorData)
    case 24 => Some(SaveParamsOnFlash)
    case 25 => Some(SetIpAddress)
    case 26 => Some(GetIpAddress)
    case 27 => Some(ReplyGetIpAddress)
    case 28 => Some(SetMacAddress)
    case 29 => Some(ReplySetMacAddress)
    case 30 => Some(GetMacAddress)
    case 31 => Some(ReplyGetMacAddress)
    case 32 => Some(SetNetmask)
    case 33 => Some(GetNetmask)
    case 34 => Some(ReplyGetNetmask)
    case 35 => Some(SetGateway)
    case 36 => Some(GetGateway)
    case 37 => Some(ReplyGetGateway)
    case 38 => Some(SaveInventoryDataOnFlash)
    case 39 => Some(LoadInventoryDataFromFlash)
    case 40 => Some(ReplyLoadInventoryDataFromFlash)
    case _ => None
  }

  lemma IdNamesMessage(t: MessageType)
    ensures Named(Id(t)) == Some(t) && Id(t) & 0x0fff == Id(t)
  {
    hide Id, LowNamed, HighNamed;
    if Id(t) <= 20 {
      LowIds(t);
    } else {
      HighIds(t);
    }
    IdIsSmall(t);
  }

  lemma LowIds(t: MessageType)
    requires Id(t) <= 20
    ensures LowNamed(Id(t)) == Some(t)
  {
  }

  lemma HighIds(t: MessageType)
    requires Id(t) > 20
    ensures HighNamed(Id(t)) == Some(t)
  {
  }

  lemma IdIsSmall(t: MessageType)
    ensures Id(t) & 0x0fff == Id(t)
  {
  }

  lemma {:induction false} FourBytesPerField(kinds: seq<Kind>, i: nat)
    requires i <= |kinds| && K64 !in kinds
    ensures Offset(kinds, i) == 4 + 4 * i
  {
    if i > 0 {
      FourBytesPerField(kinds, i - 1);
    }
  }

  /** The bytes of each message on the wire.  Only the two messages with a hardware address have fields of one byte. */
  lemma MessageSizes(t: MessageType)
    ensures MessageSize(Fields(t)) == 4 + 4 * |Fields(t)| ==
              (match t
               case GetBoardInfo | CalibrateOffsets | GetFault | GetSampleStreamPolicy | GetCalibrationTemp => 4
               case GetCalibrationOffsets | SaveParamsOnFlash | GetIpAddress | GetMacAddress | GetNetmask => 4
               case GetGateway | LoadInventoryDataFromFlash => 4
               case SetSampleStreamPolicy => 12
               case SaveInventoryDataOnFlash | ReplyLoadInventoryDataFromFlash => 24
               case SetTempFactors | ReplyGetCalibrationOffsets => 28
               case SetCalibrationMatrixRow | ReplyGetCalibrationMatrixRow => 32
               case SetMacAddress | ReplyGetMacAddress => 36
               case BCastSensorData => 52
               case _ => 8)
    ensures forall k | 0 <= k < |Fields(t)| ::
              Fields(t)[k] == if t == SetMacAddress || t == ReplyGetMacAddress then K8 else K32
  {
    NoWideField(t);
    FieldCounts(t);
    FourEach(t);
  }

  lemma FourEach(t: MessageType)
    ensures K64 !in Fields(t) && |Fields(t)| <= 12
    ensures MessageSize(Fields(t)) == 4 + 4 * |Fields(t)| <= 52
  {
    NoWideField(t);
    FourBytesPerField(Fields(t), |Fields(t)|);
  }

  lemma FieldCounts(t: MessageType)
    ensures |Fields(t)| ==
              (match t
               case GetBoardInfo | CalibrateOffsets | GetFault | GetSampleStreamPolicy | GetCalibrationTemp => 0
               case GetCalibrationOffsets | SaveParamsOnFlash | GetIpAddress | GetMacAddress | GetNetmask => 0
               case GetGateway | LoadInventoryDataFromFlash => 0
               case SetSampleStreamPolicy => 2
               case SaveInventoryDataOnFlash | ReplyLoadInventoryDataFromFlash => 5
               case SetTempFactors | ReplyGetCalibrationOffsets => 6
               case SetCalibrationMatrixRow | ReplyGetCalibrationMatrixRow => 7
               case SetMacAddress | ReplyGetMacAddress => 8
               case BCastSensorData => 12
               case _ => 1)
  {
  }

  lemma NoWideField(t: MessageType)
    ensures K64 !in Fields(t) && |Fields(t)| <= 12
    ensures forall k | 0 <= k < |Fields(t)| ::
              Fields(t)[k] == if t == SetMacAddress || t == ReplyGetMacAddress then K8 else K32
  {
  }

  /**
   * Every message of the protocol, into any buffer with room for four bytes and
   * four more per field: the bytes decode to the same fields, and the header
   * alone tells which message it is and how long.
   */
  lemma EveryMessageRoundTrips(t: MessageType, buffer: seq<Byte>, vals: seq<Value>, oldFields: seq<Value>)
    requires KindsOf(vals) == Fields(t) && |buffer| >= 4 + 4 * |vals| && |oldFields| == |vals|
    ensures MessageSize(Fields(t)) == 4 + 4 * |vals|
    ensures Decoded(Encoded(buffer, Id(t), vals), Fields(t), oldFields, |vals|) == vals
    ensures var h := DecodedHeader(Encoded(buffer, Id(t), vals));
            Named(h.id) == Some(t) && h.size == (4 + 4 * |vals|) as bv16 && h.encoding == 1
  {
    hide Id, Named, Fields, Decoded, Encoded, DecodedHeader;
    FourEach(t);
    IdNamesMessage(t);
    RoundTrip(buffer, Id(t), vals, oldFields);
  }

  /** So no two different messages share an encoding: neither type nor any field is ever ambiguous. */
  lemma EncodingsAreDistinct(t: MessageType, u: MessageType, a: seq<Byte>, b: seq<Byte>, vals: seq<Value>, wals: seq<Value>)
    requires KindsOf(vals) == Fields(t) && KindsOf(wals) == Fields(u) && |a| >= 52 && |b| >= 52
    requires MessageSize(Fields(t)) <= 52 && MessageSize(Fields(u)) <= 52
    requires Encoded(a, Id(t), vals)[..52] == Encoded(b, Id(u), wals)[..52]
    ensures t == u && vals == wals
  {
    hide Id, Named, Fields, Decoded, Encoded, DecodedHeader, Offset;
    FourEach(t);
    FourEach(u);
    var p, q := Encoded(a, Id(t), vals), Encoded(b, Id(u), wals);
    EveryMessageRoundTrips(t, a, vals, vals);
    EveryMessageRoundTrips(u, b, wals, wals);
    SameHeader(p, q);
    PrefixDecodesAlike(p, q, Fields(t), vals);
    EveryMessageRoundTrips(t, b, wals, vals);
  }

  lemma SameHeader(p: seq<Byte>, q: seq<Byte>)
    requires |p| >= 52 && |q| >= 52 && p[..52] == q[..52]
    ensures DecodedHeader(p) == DecodedHeader(q)
  {
    hide Unpack, Word32;
    assert p[..4] == p[..52][..4] && q[..4] == q[..52][..4];
  }

  lemma PrefixDecodesAlike(p: seq<Byte>, q: seq<Byte>, kinds: seq<Kind>, fields: seq<Value>)
    requires |p| >= 52 && |q| >= 52 && p[..52] == q[..52] && |kinds| == |fields| && MessageSize(kinds) <= 52
    ensures Decoded(p, kinds, fields, |kinds|) == Decoded(q, kinds, fields, |kinds|)
  {
    hide Decoded, FromBytes, Offset;
    forall i | 0 <= i < |kinds|
      ensures Decoded(p, kinds, fields, |kinds|)[i] == Decoded(q, kinds, fields, |kinds|)[i]
    {
      DecodedAt(p, kinds, fields, |kinds|, i);
      DecodedAt(q, kinds, fields, |kinds|, i);
      OffsetsGrow(kinds, i, |kinds|);
      SliceOfPrefix(p, q, 52, Offset(kinds, i), Offset(kinds, i) + Width(kinds[i]));
    }
  }

  lemma SliceOfPrefix(p: seq<Byte>, q: seq<Byte>, n: nat, from: nat, to: nat)
    requires from <= to <= n <= |p| && n <= |q| && p[..n] == q[..n]
    ensures p[from..to] == q[from..to]
  {
    assert p[from..to] == p[..n][from..to] && q[from..to] == q[..n][from..to];
  }
}
