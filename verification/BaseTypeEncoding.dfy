/**
 * The wire form of single values: little-endian, in slots that are a multiple of
 * four bytes, of which the narrow types write only the first one or two.
 * Floating-point values travel as the 32- or 64-bit words of their representation.
 */
module BaseTypeEncoding {
  import opened Wrappers

  type Byte = bv8

  /** The widths of the encodable types: bool/char/int8, int16, int32/float/enums, int64/double. */
  datatype Kind = K8 | K16 | K32 | K64

  datatype Value = V8(b: bv8) | V16(h: bv16) | V32(w: bv32) | V64(d: bv64)

  function KindOf(v: Value): Kind {
    match v
    case V8(_) => K8
    case V16(_) => K16
    case V32(_) => K32
    case V64(_) => K64
  }

  /** Bytes the cursor moves. */
  function Slot(k: Kind): nat { if k == K64 then 8 else 4 }

  /** Bytes that are written and read. */
  function Width(k: Kind): (n: nat)
    ensures n <= Slot(k)
  {
    match k
    case K8 => 1
    case K16 => 2
    case K32 => 4
    case K64 => 8
  }

  function Bytes16(h: bv16): (b: seq<Byte>)
    ensures |b| == 2
  {
    [(h & 0xff) as Byte, (h >> 8) as Byte]
  }

  function Bytes32(w: bv32): (b: seq<Byte>)
    ensures |b| == 4
  {
    [(w & 0xff) as Byte, ((w >> 8) & 0xff) as Byte, ((w >> 16) & 0xff) as Byte, (w >> 24) as Byte]
  }

  function Word16(b: seq<Byte>): bv16
    requires |b| == 2
  {
    (b[0] as bv16) | ((b[1] as bv16) << 8)
  }

  function Word32(b: seq<Byte>): bv32
    requires |b| == 4
  {
    (b[0] as bv32) | ((b[1] as bv32) << 8) | ((b[2] as bv32) << 16) | ((b[3] as bv32) << 24)
  }

  function Low(d: bv64): bv32 { (d & 0xffff_ffff) as bv32 }

  function High(d: bv64): bv32 { (d >> 32) as bv32 }

  function Pair64(low: bv32, high: bv32): bv64 { (low as bv64) | ((high as bv64) << 32) }

  function ToBytes(v: Value): (b: seq<Byte>)
    ensures |b| == Width(KindOf(v))
  {
    match v
    case V8(b) => [b]
    case V16(h) => Bytes16(h)
    case V32(w) => Bytes32(w)
    case V64(d) => Bytes32(Low(d)) + Bytes32(High(d))
  }

  function FromBytes(k: Kind, b: seq<Byte>): (v: Value)
    requires |b| == Width(k)
    ensures KindOf(v) == k
  {
    match k
    case K8 => V8(b[0])
    case K16 => V16(Word16(b))
    case K32 => V32(Word32(b))
    case K64 => V64(Pair64(Word32(b[..4]), Word32(b[4..])))
  }

  lemma WordsAndBytes32(w: bv32, b: seq<Byte>)
    requires |b| == 4
    ensures Word32(Bytes32(w)) == w && Bytes32(Word32(b)) == b
  {
  }

  lemma WordsAndBytes16(h: bv16, b: seq<Byte>)
    requires |b| == 2
    ensures Word16(Bytes16(h)) == h && Bytes16(Word16(b)) == b
  {
  }

  lemma Halves64(d: bv64, low: bv32, high: bv32)
    ensures Pair64(Low(d), High(d)) == d && Low(Pair64(low, high)) == low && High(Pair64(low, high)) == high
  {
  }

  /** The byte order on the wire: least significant byte first. */
  lemma LittleEndian(c: bv8, h: bv16, w: bv32, d: bv64)
    ensures ToBytes(V8(c)) == [c] && ToBytes(V16(h)) == Bytes16(h) && ToBytes(V32(w)) == Bytes32(w)
    ensures var b := Bytes16(h); h == (b[0] as bv16) + 0x100 * (b[1] as bv16)
    ensures var b := Bytes32(w);
            w == (b[0] as bv32) + 0x100 * (b[1] as bv32) + 0x1_0000 * (b[2] as bv32) + 0x100_0000 * (b[3] as bv32)
    ensures d == (Low(d) as bv64) + 0x1_0000_0000 * (High(d) as bv64)
    ensures ToBytes(V64(d))[..4] == Bytes32(Low(d)) && ToBytes(V64(d))[4..] == Bytes32(High(d))
  {
    Split8(Low(d), High(d));
  }

  /** Writing and reading one value undo each other, on values and on bytes. */
  lemma ValuesAndBytes(v: Value, b: seq<Byte>)
    requires |b| == Width(KindOf(v))
    ensures FromBytes(KindOf(v), ToBytes(v)) == v
    ensures ToBytes(FromBytes(KindOf(v), b)) == b
  {
    hide Word16, Word32, Bytes16, Bytes32, Low, High, Pair64;
    match v
    case V8(_) =>
    case V16(h) => WordsAndBytes16(h, b);
    case V32(w) => WordsAndBytes32(w, b);
    case V64(d) =>
      WordsAndBytes32(Low(d), b[..4]);
      WordsAndBytes32(High(d), b[4..]);
      Halves64(d, Word32(b[..4]), Word32(b[4..]));
      Split8(Low(d), High(d));
      assert b == b[..4] + b[4..];
  }

  lemma Split8(low: bv32, high: bv32)
    ensures |Bytes32(low)| == |Bytes32(high)| == 4
    ensures (Bytes32(low) + Bytes32(high))[..4] == Bytes32(low) && (Bytes32(low) + Bytes32(high))[4..] == Bytes32(high)
  {
  }

  /** The buffer with the bytes b put at position at. */
  function Overlay(buffer: seq<Byte>, at: nat, b: seq<Byte>): (r: seq<Byte>)
    requires at + |b| <= |buffer|
    ensures |r| == |buffer| && r[at..at + |b|] == b
    ensures forall p | 0 <= p < |buffer| && !(at <= p < at + |b|) :: r[p] == buffer[p]
  {
    buffer[..at] + b + buffer[at + |b|..]
  }

  method CopyBytes(binary: array<Byte>, at: nat, b: seq<Byte>)
    requires at + |b| <= binary.Length
    modifies binary
    ensures binary[..] == Overlay(old(binary[..]), at, b)
  {
    for i := 0 to |b|
      invariant forall p | 0 <= p < binary.Length ::
                  binary[p] == if at <= p < at + i then b[p - at] else old(binary[p])
    {
      binary[at + i] := b[i];
    }
    OverlayIs(old(binary[..]), at, b, binary[..]);
  }

  lemma OverlayIs(buffer: seq<Byte>, at: nat, b: seq<Byte>, r: seq<Byte>)
    requires at + |b| <= |buffer| == |r|
    requires forall p | 0 <= p < |r| :: r[p] == if at <= p < at + |b| then b[p - at] else buffer[p]
    ensures r == Overlay(buffer, at, b)
  {
  }

  /** One value at the cursor, with the space check on what is left of the buffer. */
  method EncodeValue(v: Value, binary: array<Byte>, at: nat, remaining: nat) returns (rc: int)
    requires remaining >= Slot(KindOf(v)) ==> at + Slot(KindOf(v)) <= binary.Length
    modifies binary
    ensures rc == if remaining < Slot(KindOf(v)) then -1 else Slot(KindOf(v))
    ensures rc >= 0 ==> rc == if v.V64? then 8 else 4
    ensures binary[..] == if rc < 0 then old(binary[..]) else Overlay(old(binary[..]), at, ToBytes(v))
  {
    if remaining < Slot(KindOf(v)) {
      return -1;
    }
    CopyBytes(binary, at, ToBytes(v));
    rc := Slot(KindOf(v));
  }

  /** Reads back what a slot holds: the one value whose bytes stand at the cursor. */
  method DecodeValue(k: Kind, binary: array<Byte>, at: nat, remaining: nat) returns (rc: int, v: Option<Value>)
    requires remaining >= Slot(k) ==> at + Slot(k) <= binary.Length
    ensures remaining < Slot(k) <==> v == None
    ensures v == None ==> rc == -1
    ensures v.Some? ==>
              && rc == Slot(k) == (if k == K64 then 8 else 4) && KindOf(v.value) == k && ToBytes(v.value) == binary[at..at + Width(k)]
              && forall w | KindOf(w) == k && ToBytes(w) == binary[at..at + Width(k)] :: w == v.value
  {
    if remaining < Slot(k) {
      return -1, None;
    }
    var b := binary[at..at + Width(k)];
    rc, v := Slot(k), Some(FromBytes(k, b));
    assert ToBytes(v.value) == b by { ValuesAndBytes(v.value, b); }
    forall w | KindOf(w) == k && ToBytes(w) == b
      ensures w == v.value
    {
      ValuesAndBytes(w, b);
    }
  }
}
