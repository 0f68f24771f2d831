/** The integer family: the most compact encoding, the checked readers and the unchecked one. */
module Integers {
  import opened Bytes
  import opened Types
  import opened Results

  type int64 = i: int | -0x8000_0000_0000_0000 <= i < 0x8000_0000_0000_0000

  type uint64 = u: int | 0 <= u < 0x1_0000_0000_0000_0000

  /** Go's conversion from uint64 to int64. */
  function ToInt64(u: uint64): int64 {
    if u < 0x8000_0000_0000_0000 then u else u - 0x1_0000_0000_0000_0000
  }

  /** Go's conversion from int64 to uint64. */
  function ToUint64(i: int64): uint64 {
    if i >= 0 then i else i + 0x1_0000_0000_0000_0000
  }

  predicate WordSize(n: nat) {
    n == 1 || n == 2 || n == 4 || n == 8
  }

  lemma WordBounds(s: bytes)
    requires WordSize(|s|)
    ensures 0 <= UintOf(s) < Pow256(|s|) <= 0x1_0000_0000_0000_0000
    ensures -Pow256(|s|) <= 2 * IntOf(s) < Pow256(|s|)
  {
    PowValues();
    BigEndianOfUint(s);
    TopBit(s);
  }

  function IntFromBuf(buf: bytes): int64 {
    if WordSize(|buf|) then WordBounds(buf); IntOf(buf) else 0
  }

  function UintFromBuf(buf: bytes): uint64 {
    if WordSize(|buf|) then WordBounds(buf); UintOf(buf) else 0
  }

  /** The bytes AppendUint appends. */
  function UintBytes(value: uint64): bytes {
    if value <= 127 then [value]
    else if value <= 255 then [0xcc] + BigEndian(1, value)
    else if value <= 65535 then [0xcd] + BigEndian(2, value)
    else if value <= 4294967295 then [0xce] + BigEndian(4, value)
    else [0xcf] + BigEndian(8, value)
  }

  /** The bytes AppendInt appends. */
  function IntBytes(value: int64): bytes {
    if value >= 0 then UintBytes(value)
    else if value >= -32 then [value + 256]
    else if value >= -128 then [0xd0] + BigEndian(1, value)
    else if value >= -32768 then [0xd1] + BigEndian(2, value)
    else if value >= -2147483648 then [0xd2] + BigEndian(4, value)
    else [0xd3] + BigEndian(8, value)
  }

  /** The integer formats of the MessagePack specification: a number below 128 is its own byte, one from -32
      on the byte 256 above it; heads 0xcc to 0xcf spell 1, 2, 4 or 8 unsigned bytes and 0xd0 to 0xd3 as many
      in two's complement. */
  function Spells(e: bytes): int
    requires e != []
  {
    if e[0] <= 0x7f then e[0]
    else if e[0] >= 0xe0 then e[0] - 0x100
    else if 0xcc <= e[0] <= 0xcf then UintOf(e[1..])
    else IntOf(e[1..])
  }

  predicate WordAfter(e: bytes) {
    && e != []
    && (if e[0] == 0xcc || e[0] == 0xd0 then |e| == 2
        else if e[0] == 0xcd || e[0] == 0xd1 then |e| == 3
        else if e[0] == 0xce || e[0] == 0xd2 then |e| == 5
        else if e[0] == 0xcf || e[0] == 0xd3 then |e| == 9
        else (e[0] <= 0x7f || e[0] >= 0xe0) && |e| == 1)
  }

  /** What is appended is in one of these formats, and spells the number. */
  lemma {:induction false} UintStandard(value: uint64)
    ensures WordAfter(UintBytes(value)) && Spells(UintBytes(value)) == value
  {
    PowValues();
    var e := UintBytes(value);
    hide BigEndian, UintOf, Pow256;
    if value > 127 {
      var n := |e| - 1;
      assert e[1..] == BigEndian(n, value);
      UintOfBigEndian(n, value);
      ModUnique(value, Pow256(n), 0, value);
    }
  }

  lemma {:induction false} IntStandard(value: int64)
    ensures WordAfter(IntBytes(value)) && Spells(IntBytes(value)) == value
  {
    PowValues();
    if value >= 0 {
      UintStandard(value);
    } else if value < -32 {
      var e := IntBytes(value);
      var n := |e| - 1;
      hide BigEndian, UintOf, IntOf, Pow256;
      assert e[1..] == BigEndian(n, value);
      IntOfBigEndian(n, value);
    }
  }

  function AppendUint(buf: bytes, value: uint64): bytes {
    buf + UintBytes(value)
  }

  function AppendInt(buf: bytes, value: int64): bytes {
    buf + IntBytes(value)
  }

  function ReadInt(src: bytes, offset: nat): Read<int64> {
    if offset >= |src| then Err(ShortBuffer) else
    var c := src[offset];
    var h := Get(c);
    var o := offset + 1;
    if h.typ == Type.Int then
      if h.isValueLength && h.length == 0 then
        if c >= 0xe0 then Ok(IntFromBuf([c]), o) else Err(InvalidHeaderByte)
      else if o + h.length > |src| then Err(ShortBuffer)
      else Ok(IntFromBuf(src[o..o + h.length]), o + h.length)
    else if h.typ == Type.Uint then
      if h.isValueLength && h.length == 0 then
        if c <= 0x7f then Ok(IntFromBuf([c]), o) else Err(InvalidHeaderByte)
      else if o + h.length > |src| then Err(ShortBuffer)
      else
        var u := UintFromBuf(src[o..o + h.length]);
        if u > 0x7fff_ffff_ffff_ffff then Err(Overflow) else Ok(u, o + h.length)
    else Err(InvalidHeaderByte)
  }

  function ReadUint(src: bytes, offset: nat): Read<uint64> {
    if offset >= |src| then Err(ShortBuffer) else
    var c := src[offset];
    var h := Get(c);
    var o := offset + 1;
    if h.typ != Type.Uint then Err(InvalidHeaderByte)
    else if h.isValueLength && h.length == 0 then
      if c <= 0x7f then Ok(UintFromBuf([c]), o) else Err(InvalidHeaderByte)
    else if o + h.length > |src| then Err(ShortBuffer)
    else Ok(UintFromBuf(src[o..o + h.length]), o + h.length)
  }

  /** readIntUnsafe at int64, on a head byte and its payload. */
  function ReadIntUnsafe(c: byte, src: bytes): int64 {
    match Get(c).typ
    case Int => if c >= 0xe0 then c - 256 else IntFromBuf(src)
    case Uint => if c <= 0x7f then c else ToInt64(UintFromBuf(src))
    case _ => 0
  }

  /** readIntUnsafe at uint64: a negative number wraps. */
  function ReadUintUnsafe(c: byte, src: bytes): uint64 {
    match Get(c).typ
    case Int => ToUint64(if c >= 0xe0 then c - 256 else IntFromBuf(src))
    case Uint => if c <= 0x7f then c else UintFromBuf(src)
    case _ => 0
  }

  lemma OneByte(b: byte)
    ensures UintOf([b]) == b
    ensures IntOf([b]) == if b >= 128 then b - 256 else b
  {
    assert [b][..0] == [];
    PowValues();
  }

  lemma UintWord(n: nat, value: uint64)
    requires WordSize(n) && value < Pow256(n)
    ensures UintFromBuf(BigEndian(n, value)) == value
  {
    UintOfBigEndian(n, value);
    ModUnique(value, Pow256(n), 0, value);
  }

  lemma IntWord(n: nat, value: int64)
    requires WordSize(n) && -Pow256(n) <= 2 * value < Pow256(n)
    ensures IntFromBuf(BigEndian(n, value)) == value
  {
    IntOfBigEndian(n, value);
  }

  /** The word behind a head of n payload bytes. */
  lemma WordAt(src: bytes, o: nat, c: byte, n: nat, value: int)
    requires At(src, o, [c] + BigEndian(n, value))
    ensures o + 1 + n <= |src| && src[o] == c && src[o + 1..o + 1 + n] == BigEndian(n, value)
  {
    AtConcat(src, o, [c], BigEndian(n, value));
    assert src[o] == src[o..o + 1][0];
  }

  /** The payload size of AppendUint's encoding; 0 for a fixint. */
  function UintWidth(value: uint64): nat {
    if value <= 127 then 0 else if value <= 255 then 1 else if value <= 65535 then 2
    else if value <= 4294967295 then 4 else 8
  }

  function IntWidth(value: int64): nat {
    if value >= 0 then UintWidth(value) else if value >= -32 then 0 else if value >= -128 then 1
    else if value >= -32768 then 2 else if value >= -2147483648 then 4 else 8
  }

  /** ReadUint inverts AppendUint wherever the encoding stands. */
  lemma {:induction false} UintRoundTrip(src: bytes, o: nat, value: uint64)
    requires At(src, o, UintBytes(value))
    ensures ReadUint(src, o) == Ok(value, o + |UintBytes(value)|)
  {
    PowValues();
    var n := UintWidth(value);
    if n == 0 {
      OneByteAt(src, o, value);
    } else {
      UintAt(src, o, UintBytes(value)[0], n, value);
    }
    hide BigEndian, At, ReadUint, Pow256;
  }

  lemma {:induction false} OneByteAt(src: bytes, o: nat, b: byte)
    requires At(src, o, [b])
    ensures b <= 0x7f ==> ReadUint(src, o) == Ok(b, o + 1) && ReadInt(src, o) == Ok(b, o + 1)
    ensures b >= 0xe0 ==> ReadInt(src, o) == Ok(b - 256, o + 1)
  {
    assert src[o] == src[o..o + 1][0];
    OneByte(b);
    assert b <= 0x7f ==> Get(b) == Head(Uint, 0, true);
    assert b >= 0xe0 ==> Get(b) == Head(Int, 0, true);
    hide Get, UintOf, IntOf;
  }

  /** An unsigned word behind its head, to both readers. */
  lemma {:induction false} UintAt(src: bytes, o: nat, c: byte, n: nat, value: uint64)
    requires (c == 0xcc && n == 1) || (c == 0xcd && n == 2) || (c == 0xce && n == 4) || (c == 0xcf && n == 8)
    requires At(src, o, [c] + BigEndian(n, value)) && value < Pow256(n)
    ensures ReadUint(src, o) == Ok(value, o + 1 + n)
    ensures value <= 0x7fff_ffff_ffff_ffff ==> ReadInt(src, o) == Ok(value, o + 1 + n)
  {
    assert Get(c) == Head(Uint, n, true);
    hide Get, BigEndian, Pow256, At, UintFromBuf;
    WordAt(src, o, c, n, value);
    UintWord(n, value);
  }

  lemma {:induction false} IntAt(src: bytes, o: nat, c: byte, n: nat, value: int64)
    requires (c == 0xd0 && n == 1) || (c == 0xd1 && n == 2) || (c == 0xd2 && n == 4) || (c == 0xd3 && n == 8)
    requires At(src, o, [c] + BigEndian(n, value)) && -Pow256(n) <= 2 * value < Pow256(n)
    ensures ReadInt(src, o) == Ok(value, o + 1 + n)
  {
    assert Get(c) == Head(Int, n, true);
    hide Get, BigEndian, Pow256, At, IntFromBuf;
    WordAt(src, o, c, n, value);
    IntWord(n, value);
  }

  /** ReadInt inverts AppendInt wherever the encoding stands. */
  lemma {:induction false} IntRoundTrip(src: bytes, o: nat, value: int64)
    requires At(src, o, IntBytes(value))
    ensures ReadInt(src, o) == Ok(value, o + |IntBytes(value)|)
  {
    PowValues();
    var n, c := IntWidth(value), IntBytes(value)[0];
    if n == 0 {
      OneByteAt(src, o, c);
    } else if value >= 0 {
      UintAt(src, o, c, n, value);
    } else {
      IntAt(src, o, c, n, value);
    }
    hide BigEndian, At, ReadInt, Pow256;
  }

  /** No byte string that ReadInt accepts for a value is shorter than the one AppendInt writes. */
  lemma IntCanonical(src: bytes, offset: nat)
    ensures var r := ReadInt(src, offset);
      r.Ok? ==> r.next - offset >= |AppendInt([], r.value)|
  {
    var r := ReadInt(src, offset);
    if r.Ok? {
      PowValues();
      var buf := src[offset + 1..r.next];
      if buf == [] {
        OneByte(src[offset]);
      } else {
        WordBounds(buf);
      }
    }
  }

  lemma UintCanonical(src: bytes, offset: nat)
    ensures var r := ReadUint(src, offset);
      r.Ok? ==> r.next - offset >= |AppendUint([], r.value)|
  {
    var r := ReadUint(src, offset);
    if r.Ok? {
      PowValues();
      var buf := src[offset + 1..r.next];
      if buf == [] {
        OneByte(src[offset]);
      } else {
        WordBounds(buf);
      }
    }
  }

  /** On the payload the iterator hands it, the unchecked reader agrees with the checked one. */
  lemma {:induction false} UnsafeIntAgrees(src: bytes, offset: nat)
    ensures var r := ReadInt(src, offset);
      r.Ok? ==> ReadIntUnsafe(src[offset], src[offset + 1..r.next]) == r.value
  {
    if offset < |src| {
      OneByte(src[offset]);
    }
  }

  /** The same at uint64, against both checked readers: a negative number comes out modulo 2^64. */
  lemma {:induction false} UnsafeUintAgrees(src: bytes, offset: nat)
    ensures var r := ReadUint(src, offset);
      r.Ok? ==> ReadUintUnsafe(src[offset], src[offset + 1..r.next]) == r.value
    ensures var r := ReadInt(src, offset);
      r.Ok? ==> ReadUintUnsafe(src[offset], src[offset + 1..r.next]) == ToUint64(r.value)
  {
    if offset < |src| {
      OneByte(src[offset]);
    }
  }
}
