/**
 * The message codec: a four-byte header word, filled in last, and then the fields
 * in the order of the message's schema.  Every message type of the protocol is an
 * instance (see MultitorqueMessages).
 */
module MultitorqueCodec {
  import opened BaseTypeEncoding

  const ENCODING_TYPE: bv8 := 1

  // ---- the header word ----

  datatype Header = Header(id: bv16, size: bv16, encoding: bv8)

  /** Identifier in the top 12 bits, then 4 bits of encoding, then 16 bits of size. */
  function Pack(h: Header): bv32 {
    (((h.id & 0x0fff) as bv32) << 20) | (h.size as bv32) | (((h.encoding & 0x0f) as bv32) << 16)
  }

  function Unpack(value: bv32): Header {
    Header(((value & 0xfff0_0000) >> 20) as bv16, (value & 0x0000_ffff) as bv16, ((value & 0x000f_0000) >> 16) as bv8)
  }

  /** Packing keeps identifiers modulo 4096, sizes whole and encodings modulo 16; nothing else is in the word. */
  lemma HeaderBijection(h: Header, value: bv32)
    ensures Unpack(Pack(h)) == Header(h.id & 0x0fff, h.size, h.encoding & 0x0f)
    ensures Pack(Unpack(value)) == value
    ensures Unpack(value).id <= 0x0fff && Unpack(value).encoding <= 0x0f
  {
  }

  /** The header on the wire: two size bytes, then the encoding beside the low id bits, then the high id bits. */
  lemma HeaderBytes(h: Header)
    ensures Bytes32(Pack(h))[0] == (h.size & 0xff) as Byte && Bytes32(Pack(h))[1] == (h.size >> 8) as Byte
    ensures Bytes32(Pack(h))[2] & 0x0f == h.encoding & 0x0f && Bytes32(Pack(h))[2] >> 4 == (h.id & 0x0f) as Byte
    ensures Bytes32(Pack(h))[3] == ((h.id >> 4) & 0xff) as Byte
  {
    HeaderBits(h, Pack(h));
  }

  lemma HeaderBits(h: Header, v: bv32)
    requires v == Pack(h)
    ensures (v & 0xff) as Byte == (h.size & 0xff) as Byte && ((v >> 8) & 0xff) as Byte == (h.size >> 8) as Byte
    ensures ((v >> 16) & 0xff) as Byte & 0x0f == h.encoding & 0x0f
    ensures ((v >> 16) & 0xff) as Byte >> 4 == (h.id & 0x0f) as Byte
    ensures (v >> 24) as Byte == ((h.id >> 4) & 0xff) as Byte
  {
  }

  /** No two distinct headers within range share a word. */
  lemma PackInjective(g: Header, h: Header)
    requires g.id <= 0x0fff && h.id <= 0x0fff && g.encoding <= 0x0f && h.encoding <= 0x0f
    ensures Pack(g) == Pack(h) ==> g == h
  {
    hide Pack;
    HeaderBijection(g, 0);
    HeaderBijection(h, 0);
    SmallMasks(g);
    SmallMasks(h);
  }

  lemma SmallMasks(h: Header)
    requires h.id <= 0x0fff && h.encoding <= 0x0f
    ensures h.id & 0x0fff == h.id && h.encoding & 0x0f == h.encoding
  {
  }

  function HeaderFor(id: bv16, size: nat): Header {
    Header(id, (size % 0x1_0000) as bv16, ENCODING_TYPE)
  }

  method PackHeaderInfo(id: bv16, size: nat, encoding: bv8, binary: array<Byte>) returns (rc: int)
    requires binary.Length >= 4
    modifies binary
    ensures rc == 4
    ensures binary[..] == Overlay(old(binary[..]), 0, Bytes32(Pack(Header(id, (size % 0x1_0000) as bv16, encoding))))
  {
    var value: bv32 := 0;
    value := value | (((id & 0x0fff) as bv32) << 20);
    value := value | ((size % 0x1_0000) as bv16 as bv32);
    value := value | (((encoding & 0x0f) as bv32) << 16);
    assert value == Pack(Header(id, (size % 0x1_0000) as bv16, encoding));
    CopyBytes(binary, 0, Bytes32(value));
    rc := 4;
  }

  // ---- layout of a message ----

  /** Where field i starts; the header takes the first four bytes. */
  function Offset(kinds: seq<Kind>, i: nat): (n: nat)
    requires i <= |kinds|
    ensures n >= 4
  {
    if i == 0 then 4 else Offset(kinds, i - 1) + Slot(kinds[i - 1])
  }

  function MessageSize(kinds: seq<Kind>): nat { Offset(kinds, |kinds|) }

  lemma {:induction false} OffsetsGrow(kinds: seq<Kind>, i: nat, j: nat)
    requires i < j <= |kinds|
    ensures Offset(kinds, i) + Slot(kinds[i]) <= Offset(kinds, j)
    decreases j
  {
    if i < j - 1 {
      OffsetsGrow(kinds, i, j - 1);
    }
  }

  /** How many leading fields fit into limit bytes. */
  function Fitting(kinds: seq<Kind>, limit: nat): (n: nat)
    ensures n <= |kinds|
  {
    FittingFrom(kinds, limit, 0)
  }

  function FittingFrom(kinds: seq<Kind>, limit: nat, i: nat): (n: nat)
    requires i <= |kinds|
    ensures i <= n <= |kinds|
    decreases |kinds| - i
  {
    if i == |kinds| || Offset(kinds, i + 1) > limit then i else FittingFrom(kinds, limit, i + 1)
  }

  lemma {:induction false} FittingFromIs(kinds: seq<Kind>, limit: nat, i: nat)
    requires i <= |kinds| && Offset(kinds, i) <= limit
    ensures var n := FittingFrom(kinds, limit, i);
            Offset(kinds, n) <= limit && forall j | n < j <= |kinds| :: Offset(kinds, j) > limit
    decreases |kinds| - i
  {
    if i < |kinds| {
      if Offset(kinds, i + 1) <= limit {
        FittingFromIs(kinds, limit, i + 1);
      } else {
        forall j | i < j <= |kinds|
          ensures Offset(kinds, j) > limit
        {
          if j > i + 1 {
            OffsetsGrow(kinds, i + 1, j);
          }
        }
      }
    }
  }

  lemma OffsetSteps(kinds: seq<Kind>, i: nat)
    requires i <= |kinds|
    ensures i == 0 ==> Offset(kinds, i) == 4
    ensures i < |kinds| ==> Offset(kinds, i + 1) == Offset(kinds, i) + Slot(kinds[i])
    ensures Offset(kinds, i) <= MessageSize(kinds)
  {
    if i < |kinds| {
      OffsetsGrow(kinds, i, |kinds|);
    }
  }

  /** The fields that fit are exactly those that end within the limit; all do when the message does. */
  lemma FittingIsExact(kinds: seq<Kind>, limit: nat, i: nat)
    requires limit >= 4 && i < |kinds|
    ensures i < Fitting(kinds, limit) <==> Offset(kinds, i) + Slot(kinds[i]) <= limit
    ensures Fitting(kinds, limit) == |kinds| <==> MessageSize(kinds) <= limit
  {
    hide Offset, FittingFrom, Slot;
    OffsetSteps(kinds, 0);
    OffsetSteps(kinds, i);
    FittingFromIs(kinds, limit, 0);
    var n := Fitting(kinds, limit);
    if i + 1 < n {
      OffsetsGrow(kinds, i + 1, n);
    }
  }

  // ---- what encoding writes ----

  function KindsOf(vals: seq<Value>): (kinds: seq<Kind>)
    ensures |kinds| == |vals|
    ensures forall i | 0 <= i < |vals| :: kinds[i] == KindOf(vals[i])
  {
    seq(|vals|, i requires 0 <= i < |vals| => KindOf(vals[i]))
  }

  /** The buffer after the first n values are written. */
  function Written(buffer: seq<Byte>, vals: seq<Value>, n: nat): (r: seq<Byte>)
    requires n <= |vals| && Offset(KindsOf(vals), n) <= |buffer|
    ensures |r| == |buffer|
  {
    if n == 0 then buffer
    else Overlay(Written(buffer, vals, n - 1), Offset(KindsOf(vals), n - 1), ToBytes(vals[n - 1]))
  }

  /** The bytes of field i. */
  function FieldBytes(buffer: seq<Byte>, kinds: seq<Kind>, i: nat): (b: seq<Byte>)
    requires i < |kinds| && Offset(kinds, i) + Slot(kinds[i]) <= |buffer|
    ensures |b| == Width(kinds[i])
  {
    buffer[Offset(kinds, i)..Offset(kinds, i) + Width(kinds[i])]
  }

  /** Position p carries no byte of the first n fields: header, padding, or beyond them. */
  ghost predicate Unwritten(kinds: seq<Kind>, n: nat, p: nat)
    requires n <= |kinds|
  {
    forall i | 0 <= i < n :: !(Offset(kinds, i) <= p < Offset(kinds, i) + Width(kinds[i]))
  }

  /** Each field holds its own value's bytes; every byte between and around the fields keeps its old value. */
  lemma {:induction false} WrittenFields(buffer: seq<Byte>, vals: seq<Value>, n: nat)
    requires n <= |vals| && Offset(KindsOf(vals), n) <= |buffer|
    ensures forall i | 0 <= i < n ::
              && Offset(KindsOf(vals), i) + Slot(KindOf(vals[i])) <= |buffer|
              && FieldBytes(Written(buffer, vals, n), KindsOf(vals), i) == ToBytes(vals[i])
    ensures forall p | 0 <= p < |buffer| && Unwritten(KindsOf(vals), n, p) :: Written(buffer, vals, n)[p] == buffer[p]
  {
    hide ToBytes, Written, FieldBytes, Unwritten, Offset;
    var kinds := KindsOf(vals);
    if n == 0 {
      WrittenNothing(buffer, vals);
    } else {
      OffsetSteps(kinds, n - 1);
      WrittenFields(buffer, vals, n - 1);
      WrittenOneMore(buffer, vals, n - 1);
      var before := Written(buffer, vals, n - 1);
      forall i | 0 <= i < n
        ensures Offset(kinds, i) + Slot(kinds[i]) <= |buffer|
        ensures FieldBytes(Written(buffer, vals, n), kinds, i) == ToBytes(vals[i])
      {
        FieldAfterOverlay(before, kinds, n - 1, ToBytes(vals[n - 1]), i);
      }
      forall p | 0 <= p < |buffer| && Unwritten(kinds, n, p)
        ensures Written(buffer, vals, n)[p] == buffer[p]
      {
        UnwrittenSteps(kinds, n, p);
      }
    }
  }

  lemma UnwrittenSteps(kinds: seq<Kind>, n: nat, p: nat)
    requires 0 < n <= |kinds| && Unwritten(kinds, n, p)
    ensures Unwritten(kinds, n - 1, p) && !(Offset(kinds, n - 1) <= p < Offset(kinds, n - 1) + Width(kinds[n - 1]))
  {
    hide Offset, Width;
  }

  /** Overlaying field j sets that field and leaves the earlier ones alone. */
  lemma FieldAfterOverlay(buffer: seq<Byte>, kinds: seq<Kind>, j: nat, b: seq<Byte>, i: nat)
    requires i <= j < |kinds| && |b| == Width(kinds[j]) && Offset(kinds, j) + Slot(kinds[j]) <= |buffer|
    ensures Offset(kinds, i) + Slot(kinds[i]) <= |buffer|
    ensures FieldBytes(Overlay(buffer, Offset(kinds, j), b), kinds, i) == if i == j then b else FieldBytes(buffer, kinds, i)
  {
    hide Overlay, Offset, Width;
    if i < j {
      OffsetsGrow(kinds, i, j);
    }
  }

  lemma WrittenNothing(buffer: seq<Byte>, vals: seq<Value>)
    requires 4 <= |buffer|
    ensures Written(buffer, vals, 0) == buffer
  {
  }

  lemma WrittenOneMore(buffer: seq<Byte>, vals: seq<Value>, i: nat)
    requires i < |vals| && Offset(KindsOf(vals), i + 1) <= |buffer|
    ensures Written(buffer, vals, i + 1)
         == Overlay(Written(buffer, vals, i), Offset(KindsOf(vals), i), ToBytes(vals[i]))
  {
    hide Overlay, ToBytes;
  }

  /** The complete encoding, over whatever the buffer held before. */
  function Encoded(buffer: seq<Byte>, id: bv16, vals: seq<Value>): (r: seq<Byte>)
    requires MessageSize(KindsOf(vals)) <= |buffer|
    ensures |r| == |buffer|
  {
    var n := MessageSize(KindsOf(vals));
    Overlay(Written(buffer, vals, |vals|), 0, Bytes32(Pack(HeaderFor(id, n))))
  }

  // ---- what decoding reads ----

  /** The old fields with the first n replaced by what the buffer holds. */
  function Decoded(buffer: seq<Byte>, kinds: seq<Kind>, oldFields: seq<Value>, n: nat): (vals: seq<Value>)
    requires n <= |kinds| == |oldFields| && Offset(kinds, n) <= |buffer|
    ensures |vals| == |kinds|
  {
    seq(|kinds|, i requires 0 <= i < |kinds| =>
      if i < n then (OffsetsGrow(kinds, i, n); FromBytes(kinds[i], FieldBytes(buffer, kinds, i))) else oldFields[i])
  }

  function DecodedHeader(buffer: seq<Byte>): Header
    requires |buffer| >= 4
  {
    Unpack(Word32(buffer[..4]))
  }

  // ---- the methods ----

  class Message {
    const id: bv16
    const kinds: seq<Kind>
    var header: Header
    var fields: seq<Value>

    predicate Valid()
      reads this
    {
      KindsOf(fields) == kinds
    }

    constructor (id: bv16, fields: seq<Value>)
      ensures this.id == id && this.fields == fields && kinds == KindsOf(fields) && Valid()
    {
      this.id, this.kinds := id, KindsOf(fields);
      this.header, this.fields := Header(id, 0, 0), fields;
    }

    method Set(i: nat, v: Value)
      requires Valid() && i < |fields| && KindOf(v) == kinds[i]
      modifies this`fields
      ensures Valid() && fields == old(fields)[i := v]
    {
      fields := fields[i := v];
      assert forall j | 0 <= j < |fields| :: KindsOf(fields)[j] == kinds[j];
    }
  }

  /** Unsigned 64-bit difference, as the encoder computes the space that is left. */
  function Remaining(maxSize: nat, bytes: nat): nat {
    (maxSize - bytes) % 0x1_0000_0000_0000_0000
  }

  /**
   * The space the encoder acts on.  Its header step does not check for space, so a
   * buffer announced with less than four bytes wraps around to an endless one.
   */
  function EncodeLimit(maxSize: nat): nat {
    if maxSize < 4 then maxSize + 0x1_0000_0000_0000_0000 else maxSize
  }

  lemma RemainingIs(maxSize: nat, bytes: nat)
    requires maxSize < 0x1_0000_0000_0000_0000 && 4 <= bytes <= EncodeLimit(maxSize)
    ensures Remaining(maxSize, bytes) == EncodeLimit(maxSize) - bytes
  {
  }

  /**
   * Encodes a message.  The caller provides room for the whole message, or for at
   * least the maxSize bytes it announces (and a header).
   */
  method Encode(msg: Message, binary: array<Byte>, maxSize: nat) returns (rc: int)
    requires msg.Valid() && MessageSize(msg.kinds) < 0x8000_0000 && maxSize < 0x1_0000_0000_0000_0000
    requires MessageSize(msg.kinds) <= binary.Length || 4 <= maxSize <= binary.Length
    modifies binary
    ensures rc == if MessageSize(msg.kinds) <= EncodeLimit(maxSize) then MessageSize(msg.kinds) else -1
    ensures rc >= 0 ==> binary[..] == Encoded(old(binary[..]), msg.id, msg.fields)
    ensures rc < 0 ==> Offset(msg.kinds, Fitting(msg.kinds, maxSize)) <= binary.Length
    ensures rc < 0 ==> binary[..] == Written(old(binary[..]), msg.fields, Fitting(msg.kinds, maxSize))
  {
    hide Overlay, Fitting, Written, FittingFrom, Pack, HeaderFor, ToBytes, Offset, Remaining, Encoded, Bytes32;
    var kinds := msg.kinds;
    ghost var limit, before := EncodeLimit(maxSize), binary[..];
    var bytes := 4;
    var i := 0;
    OffsetSteps(kinds, 0);
    WrittenNothing(before, msg.fields);
    while i < |msg.fields|
      invariant 0 <= i <= |kinds| && bytes == Offset(kinds, i) <= limit && bytes <= binary.Length
      invariant binary[..] == Written(before, msg.fields, i)
    {
      RemainingIs(maxSize, bytes);
      OffsetSteps(kinds, i);
      OffsetSteps(kinds, i + 1);
      rc := EncodeValue(msg.fields[i], binary, bytes, Remaining(maxSize, bytes));
      if rc < 0 {
        StopsHere(kinds, limit, i);
        return;
      }
      WrittenOneMore(before, msg.fields, i);
      bytes, i := bytes + rc, i + 1;
    }
    var ignored := PackHeaderInfo(msg.id, bytes, ENCODING_TYPE, binary);
    EncodedIs(before, msg.id, msg.fields);
    rc := bytes;
  }

  lemma EncodedIs(buffer: seq<Byte>, id: bv16, vals: seq<Value>)
    requires MessageSize(KindsOf(vals)) <= |buffer|
    ensures Encoded(buffer, id, vals)
         == Overlay(Written(buffer, vals, |vals|), 0,
                    Bytes32(Pack(Header(id, (MessageSize(KindsOf(vals)) % 0x1_0000) as bv16, ENCODING_TYPE))))
  {
    hide Overlay, Written, Bytes32, Pack, MessageSize;
  }

  /** The first field that does not fit is where the count of fitting fields stops. */
  lemma StopsHere(kinds: seq<Kind>, limit: nat, i: nat)
    requires i < |kinds| && Offset(kinds, i) <= limit < Offset(kinds, i + 1)
    ensures Fitting(kinds, limit) == i && MessageSize(kinds) > limit
  {
    FittingIsExact(kinds, limit, i);
    if i > 0 {
      FittingIsExact(kinds, limit, i - 1);
    }
    if i + 1 < |kinds| {
      OffsetsGrow(kinds, i + 1, |kinds|);
    }
  }

  lemma AllFit(kinds: seq<Kind>, limit: nat)
    requires MessageSize(kinds) <= limit
    ensures Fitting(kinds, limit) == |kinds|
  {
    OffsetSteps(kinds, 0);
    FittingFromIs(kinds, limit, 0);
  }

  /** Decodes into msg; on a short buffer the leading fields that fit are still set. */
  method Decode(msg: Message, binary: array<Byte>, maxSize: nat) returns (rc: int)
    requires msg.Valid() && MessageSize(msg.kinds) < 0x8000_0000 && maxSize < 0x1_0000_0000_0000_0000
    requires MessageSize(msg.kinds) <= binary.Length || maxSize <= binary.Length
    modifies msg
    ensures msg.Valid()
    ensures rc == if MessageSize(msg.kinds) <= maxSize then MessageSize(msg.kinds) else -1
    ensures maxSize < 4 ==> msg.header == old(msg.header) && msg.fields == old(msg.fields)
    ensures maxSize >= 4 ==>
              && Offset(msg.kinds, Fitting(msg.kinds, maxSize)) <= binary.Length
              && msg.header == DecodedHeader(binary[..])
              && msg.fields == Decoded(binary[..], msg.kinds, old(msg.fields), Fitting(msg.kinds, maxSize))
  {
    hide Fitting, FittingFrom, Decoded, Unpack, FromBytes, ToBytes, Word32, Bytes32, Offset, Remaining, KindsOf, Width;
    OffsetSteps(msg.kinds, 0);
    if maxSize < 4 {
      return -1;
    }
    ghost var before := msg.fields;
    msg.header := Unpack(Word32(binary[..4]));
    assert binary[..][..4] == binary[..4];
    var bytes := 4;
    var i := 0;
    DecodedNothing(binary[..], msg.kinds, before);
    while i < |msg.kinds|
      invariant 0 <= i <= |msg.kinds| && bytes == Offset(msg.kinds, i) <= maxSize && bytes <= binary.Length
      invariant msg.Valid() && msg.header == DecodedHeader(binary[..])
      invariant msg.fields == Decoded(binary[..], msg.kinds, before, i)
    {
      assert EncodeLimit(maxSize) == maxSize;
      RemainingIs(maxSize, bytes);
      OffsetSteps(msg.kinds, i);
      OffsetSteps(msg.kinds, i + 1);
      var v;
      rc, v := DecodeValue(msg.kinds[i], binary, bytes, Remaining(maxSize, bytes));
      if rc < 0 {
        StopsHere(msg.kinds, maxSize, i);
        return;
      }
      assert binary[..][bytes..bytes + Width(msg.kinds[i])] == binary[bytes..bytes + Width(msg.kinds[i])];
      DecodedOneMore(binary[..], msg.kinds, before, i, v.value);
      msg.Set(i, v.value);
      bytes, i := bytes + rc, i + 1;
    }
    AllFit(msg.kinds, maxSize);
    rc := bytes;
  }

  lemma DecodedNothing(buffer: seq<Byte>, kinds: seq<Kind>, fields: seq<Value>)
    requires 4 <= |buffer| && |kinds| == |fields|
    ensures Decoded(buffer, kinds, fields, 0) == fields
  {
  }

  lemma DecodedOneMore(buffer: seq<Byte>, kinds: seq<Kind>, fields: seq<Value>, i: nat, v: Value)
    requires i < |kinds| == |fields| && Offset(kinds, i + 1) <= |buffer|
    requires KindOf(v) == kinds[i] && ToBytes(v) == FieldBytes(buffer, kinds, i)
    ensures Decoded(buffer, kinds, fields, i + 1) == Decoded(buffer, kinds, fields, i)[i := v]
  {
    hide FromBytes, ToBytes, FieldBytes;
    ValuesAndBytes(v, ToBytes(v));
  }

  // ---- round trips ----

  /**
   * Round trip: for every schema and all values, into any buffer with any prior
   * contents, decoding an encoded message gives back the values and a header with
   * the message's identifier, its size and encoding 1.
   */
  lemma RoundTrip(buffer: seq<Byte>, id: bv16, vals: seq<Value>, oldFields: seq<Value>)
    requires MessageSize(KindsOf(vals)) <= |buffer| && |oldFields| == |vals|
    ensures var r := Encoded(buffer, id, vals);
            && Decoded(r, KindsOf(vals), oldFields, |vals|) == vals
            && DecodedHeader(r) == Header(id & 0x0fff, (MessageSize(KindsOf(vals)) % 0x1_0000) as bv16, 1)
  {
    RoundTripFields(buffer, id, vals, oldFields);
    RoundTripHeader(buffer, id, vals);
  }

  lemma RoundTripFields(buffer: seq<Byte>, id: bv16, vals: seq<Value>, oldFields: seq<Value>)
    requires MessageSize(KindsOf(vals)) <= |buffer| && |oldFields| == |vals|
    ensures Decoded(Encoded(buffer, id, vals), KindsOf(vals), oldFields, |vals|) == vals
  {
    hide FromBytes, ToBytes, Decoded, Encoded, FieldBytes;
    var kinds, r := KindsOf(vals), Encoded(buffer, id, vals);
    WrittenFields(buffer, vals, |vals|);
    forall i | 0 <= i < |vals|
      ensures Decoded(r, kinds, oldFields, |vals|)[i] == vals[i]
    {
      OffsetsGrow(kinds, i, |vals|);
      DecodedAt(r, kinds, oldFields, |vals|, i);
      HeaderKeepsFields(buffer, id, vals, i);
      ValuesAndBytes(vals[i], ToBytes(vals[i]));
    }
  }

  lemma DecodedAt(buffer: seq<Byte>, kinds: seq<Kind>, fields: seq<Value>, n: nat, i: nat)
    requires i < n <= |kinds| == |fields| && Offset(kinds, n) <= |buffer|
    ensures Offset(kinds, i) + Slot(kinds[i]) <= |buffer|
    ensures Decoded(buffer, kinds, fields, n)[i] == FromBytes(kinds[i], FieldBytes(buffer, kinds, i))
  {
    hide FromBytes, FieldBytes;
    OffsetsGrow(kinds, i, n);
  }

  lemma HeaderKeepsFields(buffer: seq<Byte>, id: bv16, vals: seq<Value>, i: nat)
    requires MessageSize(KindsOf(vals)) <= |buffer| && i < |vals|
    requires Offset(KindsOf(vals), i) + Slot(KindOf(vals[i])) <= |buffer|
    ensures FieldBytes(Encoded(buffer, id, vals), KindsOf(vals), i)
         == FieldBytes(Written(buffer, vals, |vals|), KindsOf(vals), i)
  {
    hide Pack, Bytes32, HeaderFor, Overlay, Written;
  }

  lemma RoundTripHeader(buffer: seq<Byte>, id: bv16, vals: seq<Value>)
    requires MessageSize(KindsOf(vals)) <= |buffer|
    ensures DecodedHeader(Encoded(buffer, id, vals))
         == Header(id & 0x0fff, (MessageSize(KindsOf(vals)) % 0x1_0000) as bv16, 1)
  {
    hide Pack, Unpack, Word32, Bytes32, Overlay, Written;
    var r, h := Encoded(buffer, id, vals), HeaderFor(id, MessageSize(KindsOf(vals)));
    WordsAndBytes32(Pack(h), Bytes32(Pack(h)));
    assert r[..4] == r[0..4] == Bytes32(Pack(h));
    HeaderBijection(h, 0);
    EncodingSurvives();
  }

  lemma EncodingSurvives()
    ensures ENCODING_TYPE & 0x0f == 1
  {
  }

  /** Encoding leaves the padding of narrow fields, and all beyond the message, as they were. */
  lemma PaddingKeepsItsBytes(buffer: seq<Byte>, id: bv16, vals: seq<Value>, p: nat)
    requires MessageSize(KindsOf(vals)) <= |buffer| && 4 <= p < |buffer|
    requires Unwritten(KindsOf(vals), |vals|, p)
    ensures Encoded(buffer, id, vals)[p] == buffer[p]
  {
    WrittenFields(buffer, vals, |vals|);
  }

  /** A truncated encoding has not touched the header word. */
  lemma TruncatedKeepsHeader(buffer: seq<Byte>, vals: seq<Value>, n: nat)
    requires n <= |vals| && Offset(KindsOf(vals), n) <= |buffer|
    ensures Written(buffer, vals, n)[..4] == buffer[..4]
  {
    WrittenFields(buffer, vals, n);
    forall p: nat | p < 4
      ensures Unwritten(KindsOf(vals), n, p)
    {
    }
  }

  /** Decoding sees the header word and the fields' own bytes, never the padding. */
  lemma PaddingIsNotRead(a: seq<Byte>, b: seq<Byte>, kinds: seq<Kind>, fields: seq<Value>, n: nat)
    requires n <= |kinds| == |fields| && |a| == |b| && Offset(kinds, n) <= |a|
    requires forall p | 4 <= p < |a| && !Unwritten(kinds, n, p) :: a[p] == b[p]
    ensures Decoded(a, kinds, fields, n) == Decoded(b, kinds, fields, n)
  {
    hide FromBytes, FieldBytes;
    forall i | 0 <= i < n
      ensures Decoded(a, kinds, fields, n)[i] == Decoded(b, kinds, fields, n)[i]
    {
      OffsetsGrow(kinds, i, n);
      SameFieldBytes(a, b, kinds, n, i);
    }
  }

  lemma SameFieldBytes(a: seq<Byte>, b: seq<Byte>, kinds: seq<Kind>, n: nat, i: nat)
    requires i < n <= |kinds| && |a| == |b| && Offset(kinds, i) + Slot(kinds[i]) <= |a|
    requires forall p | 4 <= p < |a| && !Unwritten(kinds, n, p) :: a[p] == b[p]
    ensures FieldBytes(a, kinds, i) == FieldBytes(b, kinds, i)
  {
    forall p | Offset(kinds, i) <= p < Offset(kinds, i) + Width(kinds[i])
      ensures a[p] == b[p]
    {
      assert !Unwritten(kinds, n, p);
    }
  }

  /** The other way round: writing back what was decoded changes no byte behind the header. */
  lemma {:induction false} ReencodeIsIdentity(buffer: seq<Byte>, kinds: seq<Kind>, fields: seq<Value>, n: nat)
    requires n <= |kinds| == |fields| && MessageSize(kinds) <= |buffer|
    requires KindsOf(fields) == kinds
    ensures KindsOf(Decoded(buffer, kinds, fields, |kinds|)) == kinds && Offset(kinds, n) <= |buffer|
    ensures Written(buffer, Decoded(buffer, kinds, fields, |kinds|), n) == buffer
  {
    hide FromBytes, ToBytes, Decoded, Overlay;
    DecodedKinds(buffer, kinds, fields);
    if n < |kinds| {
      OffsetsGrow(kinds, n, |kinds|);
    }
    if n > 0 {
      ReencodeIsIdentity(buffer, kinds, fields, n - 1);
      WriteBackOne(buffer, kinds, fields, n - 1);
    }
  }

  lemma DecodedKinds(buffer: seq<Byte>, kinds: seq<Kind>, fields: seq<Value>)
    requires |kinds| == |fields| && MessageSize(kinds) <= |buffer|
    ensures KindsOf(Decoded(buffer, kinds, fields, |kinds|)) == kinds
  {
    hide FromBytes;
    var vals := Decoded(buffer, kinds, fields, |kinds|);
    assert forall i | 0 <= i < |kinds| :: KindsOf(vals)[i] == kinds[i];
  }

  lemma WriteBackOne(buffer: seq<Byte>, kinds: seq<Kind>, fields: seq<Value>, i: nat)
    requires i < |kinds| == |fields| && MessageSize(kinds) <= |buffer| && Offset(kinds, i) + Slot(kinds[i]) <= |buffer|
    ensures KindOf(Decoded(buffer, kinds, fields, |kinds|)[i]) == kinds[i]
    ensures Overlay(buffer, Offset(kinds, i), ToBytes(Decoded(buffer, kinds, fields, |kinds|)[i])) == buffer
  {
    hide FromBytes, ToBytes, Decoded, Overlay;
    var v, b := Decoded(buffer, kinds, fields, |kinds|)[i], FieldBytes(buffer, kinds, i);
    DecodedAt(buffer, kinds, fields, |kinds|, i);
    ValuesAndBytes(v, b);
    OverlaySame(buffer, Offset(kinds, i), b);
  }

  lemma OverlaySame(buffer: seq<Byte>, at: nat, b: seq<Byte>)
    requires at + |b| <= |buffer| && buffer[at..at + |b|] == b
    ensures Overlay(buffer, at, b) == buffer
  {
  }

  /** The space check is exact for every announced size, except below four bytes, where it never fails. */
  lemma WhenEncodeReportsTooShort(kinds: seq<Kind>, maxSize: nat)
    requires MessageSize(kinds) < 0x8000_0000
    ensures (MessageSize(kinds) <= EncodeLimit(maxSize) <==> MessageSize(kinds) <= maxSize) <==> maxSize >= 4
  {
  }
}
