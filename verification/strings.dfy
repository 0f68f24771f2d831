/** Strings and binaries: headers chosen by length, built up front or patched in afterwards. */
module Strings {
  import opened Bytes
  import opened Types
  import opened Results
  import opened Integers

  /** The header AppendString writes for a string of l bytes. */
  function StringHeader(l: nat): bytes {
    if l <= 31 then [0xa0 + l]
    else if l <= 0xff then [0xd9] + BigEndian(1, l)
    else if l <= 0xffff then [0xda] + BigEndian(2, l)
    else [0xdb] + BigEndian(4, l)
  }

  function AppendString(dst: bytes, s: bytes): bytes {
    dst + (StringHeader(|s|) + s)
  }

  /** appendBinaryHeader. */
  function BinaryHeader(l: nat): bytes {
    if l <= 0xff then [0xc4] + BigEndian(1, l)
    else if l <= 0xffff then [0xc5] + BigEndian(2, l)
    else [0xc6] + BigEndian(4, l)
  }

  function AppendBinary(dst: bytes, data: bytes): bytes {
    dst + (BinaryHeader(|data|) + data)
  }

  /** The rest of a reader once the payload is known to start at p and to have a length. */
  function Slice(src: bytes, p: nat, length: int): Read<bytes> {
    if p + length > |src| then Err(ShortBuffer)
    else if length < 0 then Panic
    else Ok(src[p..p + length], p + length)
  }

  /** ReadString on a str head: the length is unsigned. */
  function ReadStr(src: bytes, offset: nat): Read<bytes>
    requires offset < |src|
  {
    var h := Get(src[offset]);
    if h.isValueLength then Slice(src, offset + 1, h.length)
    else if offset + 1 + h.length > |src| then Err(ShortBuffer)
    else Slice(src, offset + 1 + h.length, UintFromBuf(src[offset + 1..offset + 1 + h.length]))
  }

  /** ReadBinary on a bin head: the length is signed. */
  function ReadBin(src: bytes, offset: nat): Read<bytes>
    requires offset < |src|
  {
    var h := Get(src[offset]);
    if h.isValueLength then Slice(src, offset + 1, h.length)
    else if offset + 1 + h.length > |src| then Err(ShortBuffer)
    else Slice(src, offset + 1 + h.length, IntFromBuf(src[offset + 1..offset + 1 + h.length]))
  }

  /** ReadString and ReadBinary each hand the other's type over to it. */
  function ReadString(src: bytes, offset: nat): Read<bytes> {
    if offset >= |src| then Err(ShortBuffer)
    else if Get(src[offset]).typ == Type.Bin then ReadBin(src, offset)
    else if Get(src[offset]).typ == Type.Str then ReadStr(src, offset)
    else Err(InvalidHeaderByte)
  }

  function ReadBinary(src: bytes, offset: nat): Read<bytes> {
    ReadString(src, offset)
  }

  /** A payload behind a counted header of n length bytes. */
  lemma CountedAt(src: bytes, o: nat, c: byte, n: nat, body: bytes)
    requires At(src, o, [c] + BigEndian(n, |body|) + body)
    ensures o + 1 + n + |body| <= |src| && src[o] == c
    ensures src[o + 1..o + 1 + n] == BigEndian(n, |body|)
    ensures src[o + 1 + n..o + 1 + n + |body|] == body
  {
    AtConcat(src, o, [c] + BigEndian(n, |body|), body);
    WordAt(src, o, c, n, |body|);
  }

  /** A prefix is the whole exactly when it is as long. */
  lemma PrefixIsAll(src: bytes, p: nat, body: bytes, n: int)
    requires p + |body| <= |src| && src[p..p + |body|] == body && n <= |body|
    ensures Slice(src, p, n) == Ok(body, p + |body|) <==> n == |body|
  {
  }

  /** Behind a counted header, an unsigned reader sees the length modulo 256^n. */
  lemma {:induction false} StrAt(src: bytes, o: nat, c: byte, n: nat, s: bytes)
    requires (c == 0xd9 && n == 1) || (c == 0xda && n == 2) || (c == 0xdb && n == 4)
    requires At(src, o, [c] + BigEndian(n, |s|) + s)
    ensures ReadString(src, o) == Ok(s, o + 1 + n + |s|) <==> |s| < Pow256(n)
  {
    hide BigEndian, UintOf, At, Pow256;
    assert Get(c) == Head(Type.Str, n, false);
    hide Get;
    CountedAt(src, o, c, n, s);
    UintOfBigEndian(n, |s|);
    LowPart(|s|, Pow256(n));
    PrefixIsAll(src, o + 1 + n, s, |s| % Pow256(n));
  }

  lemma LowPart(l: nat, m: int)
    requires m > 0
    ensures 0 <= l % m <= l && (l % m == l <==> l < m)
  {
  }

  lemma {:induction false} Str32At(src: bytes, o: nat, s: bytes)
    requires At(src, o, [0xdb] + BigEndian(4, |s|) + s)
    ensures ReadString(src, o) == Ok(s, o + 5 + |s|) <==> |s| < 0x1_0000_0000
  {
    hide BigEndian, ReadString, At, Pow256;
    PowValues();
    StrAt(src, o, 0xdb, 4, s);
  }

  /** A string of up to 31 bytes. */
  lemma {:induction false} ShortStrAt(src: bytes, o: nat, s: bytes)
    requires |s| <= 31 && At(src, o, [0xa0 + |s|] + s)
    ensures ReadString(src, o) == Ok(s, o + 1 + |s|)
  {
    AtConcat(src, o, [0xa0 + |s|], s);
    assert src[o] == src[o..o + 1][0];
    assert Get(0xa0 + |s|) == Head(Type.Str, |s|, true);
    hide Get;
  }

  /** ReadString gives back what AppendString wrote, and the end of it, exactly below 2^32 bytes. */
  lemma {:induction false} StringExact(src: bytes, o: nat, s: bytes)
    requires At(src, o, StringHeader(|s|) + s)
    ensures ReadString(src, o) == Ok(s, o + |StringHeader(|s|)| + |s|) <==> |s| < 0x1_0000_0000
  {
    PowValues();
    hide BigEndian, ReadString, At, Pow256;
    if |s| <= 31 {
      ShortStrAt(src, o, s);
    } else if |s| <= 0xff {
      StrAt(src, o, 0xd9, 1, s);
    } else if |s| <= 0xffff {
      StrAt(src, o, 0xda, 2, s);
    } else {
      Str32At(src, o, s);
    }
  }

  /** The lengths a signed reader gets right behind AppendBinary's headers. */
  predicate SignedLength(l: nat) {
    l <= 127 || 256 <= l <= 32767 || 65536 <= l <= 0x7fff_ffff
  }

  /** A signed n-byte length field spells l exactly when its sign bit is clear. */
  lemma SignedField(n: nat, l: nat)
    requires n == 1 || n == 2 || n == 4
    ensures IntFromBuf(BigEndian(n, l)) == l <==> 2 * l < Pow256(n)
    ensures IntFromBuf(BigEndian(n, l)) <= l
  {
    PowValues();
    var s := BigEndian(n, l);
    if 2 * l < Pow256(n) {
      IntWord(n, l);
    } else {
      WordBounds(s);
      UintOfBigEndian(n, l);
      assert UintOf(s) <= l by {
        assert l % Pow256(n) <= l;
      }
    }
  }

  lemma {:induction false} BinAt(src: bytes, o: nat, c: byte, n: nat, d: bytes)
    requires (c == 0xc4 && n == 1) || (c == 0xc5 && n == 2) || (c == 0xc6 && n == 4)
    requires At(src, o, [c] + BigEndian(n, |d|) + d)
    ensures ReadBinary(src, o) == Ok(d, o + 1 + n + |d|) <==> 2 * |d| < Pow256(n)
  {
    hide BigEndian, IntOf, Pow256, At;
    assert Get(c) == Head(Type.Bin, n, false);
    hide Get;
    CountedAt(src, o, c, n, d);
    SignedField(n, |d|);
    PrefixIsAll(src, o + 1 + n, d, IntFromBuf(BigEndian(n, |d|)));
  }

  /** ReadBinary gives back what AppendBinary wrote exactly when the length's sign bit is clear. */
  lemma BinaryExact(src: bytes, o: nat, d: bytes)
    requires At(src, o, BinaryHeader(|d|) + d)
    ensures ReadBinary(src, o) == Ok(d, o + |BinaryHeader(|d|)| + |d|) <==> SignedLength(|d|)
  {
    PowValues();
    if |d| <= 0xff {
      BinAt(src, o, 0xc4, 1, d);
    } else if |d| <= 0xffff {
      BinAt(src, o, 0xc5, 2, d);
    } else {
      BinAt(src, o, 0xc6, 4, d);
    }
  }

  /** AppendStringUnknownLength, the callback appending s: the header is patched afterwards. */
  method AppendStringUnknownLength(dst: bytes, s: bytes) returns (r: bytes)
    ensures r == dst + ([0xdb] + BigEndian(4, |s|) + s)
  {
    r := AppendReserved(dst, 0xdb, s);
  }

  /** AppendBinaryUnknownLength, the callback appending data. */
  method AppendBinaryUnknownLength(dst: bytes, data: bytes) returns (r: bytes)
    ensures r == dst + ([0xc6] + BigEndian(4, |data|) + data)
  {
    r := AppendReserved(dst, 0xc6, data);
  }

  /** Five reserved bytes, the payload, and then the four length bytes set in place. */
  method AppendReserved(dst: bytes, head: byte, payload: bytes) returns (r: bytes)
    ensures r == dst + ([head] + BigEndian(4, |payload|) + payload)
  {
    var start := |dst|;
    r := dst + [head, 0, 0, 0, 0];
    var sizeFrom := |r|;
    r := r + payload;
    var l := |r| - sizeFrom;
    r := r[start + 1 := (l / 0x100_0000) % 256];
    r := r[start + 2 := (l / 0x1_0000) % 256];
    r := r[start + 3 := (l / 0x100) % 256];
    r := r[start + 4 := l % 256];
    FourBytes(l);
    assert r == dst + ([head] + BigEndian(4, l) + payload);
  }

  lemma FourBytes(l: nat)
    ensures BigEndian(4, l) == [(l / 0x100_0000) % 256, (l / 0x1_0000) % 256, (l / 0x100) % 256, l % 256]
  {
    assert l / 256 / 256 == l / 0x1_0000 && l / 256 / 256 / 256 == l / 0x100_0000;
    assert BigEndian(1, l / 256 / 256 / 256) == [(l / 256 / 256 / 256) % 256];
    assert BigEndian(2, l / 256 / 256) == BigEndian(1, l / 256 / 256 / 256) + [(l / 256 / 256) % 256];
    assert BigEndian(3, l / 256) == BigEndian(2, l / 256 / 256) + [(l / 256) % 256];
    assert BigEndian(4, l) == BigEndian(3, l / 256) + [l % 256];
  }

  function Max255(s: bytes): bytes {
    if |s| > 255 then s[..255] else s
  }

  /** AppendStringMax255: the payload is cut to 255 bytes and its length patched in. */
  method AppendStringMax255(dst: bytes, s: bytes) returns (r: bytes)
    ensures r == dst + ([0xd9] + BigEndian(1, |Max255(s)|) + Max255(s))
  {
    var start := |dst|;
    r := dst + [0xd9, 0];
    var sizeFrom := |r|;
    r := r + s;
    var l := |r| - sizeFrom;
    if l > 255 {
      l := 255;
      r := r[..sizeFrom + l];
    }
    r := r[start + 1 := l];
    assert BigEndian(1, l) == [l];
    assert r == dst + ([0xd9] + [l] + Max255(s));
  }

  /** ReadString gives back the first 255 bytes. */
  lemma {:induction false} Max255Reads(src: bytes, o: nat, s: bytes)
    requires At(src, o, [0xd9] + BigEndian(1, |Max255(s)|) + Max255(s))
    ensures ReadString(src, o) == Ok(Max255(s), o + 2 + |Max255(s)|)
  {
    PowValues();
    hide BigEndian, ReadString, At, Pow256;
    StrAt(src, o, 0xd9, 1, Max255(s));
  }

  /** AppendStringDynamic, the callback appending s: five bytes are reserved, the payload is moved left
      over those the shortest header does not need, and the header is patched in. The result is
      AppendString's, and dst is its prefix untouched. */
  method AppendStringDynamic(dst: bytes, s: bytes) returns (r: bytes)
    ensures r == AppendString(dst, s)
  {
    var start, l := |dst|, |s|;
    var reserved := dst + [0xdb, 0, 0, 0, 0] + s;
    var buf := new byte[|reserved|](i requires 0 <= i < |reserved| => reserved[i]);
    var headerLen := if l <= 31 then 1 else if l <= 255 then 2 else if l <= 65535 then 3 else 5;
    assert buf[..] == reserved;
    ShiftLeft(buf, start + headerLen, start + 5, l);
    ghost var tail := reserved[start + headerLen + l..];
    assert reserved[start + 5..start + 5 + l] == s;
    assert buf[..] == reserved[..start + headerLen] + s + tail;
    PatchHeader(buf, start, headerLen, l);
    Patched(dst, reserved[..start + headerLen], StringHeader(l), s, tail);
    assert buf[..] == AppendString(dst, s) + tail;
    r := buf[..start + headerLen + l];
    assert r == buf[..][..start + headerLen + l];
  }

  lemma Patched(dst: bytes, front: bytes, header: bytes, s: bytes, tail: bytes)
    requires |front| == |dst| + |header| && front[..|dst|] == dst
    ensures var was := front + s + tail;
      was[..|dst|] + header + was[|dst| + |header|..] == dst + (header + s) + tail
  {
    var was := front + s + tail;
    assert was[..|dst|] == dst && was[|front|..] == s + tail;
    Assoc(dst, header, s + tail);
    Assoc(header, s, tail);
    Assoc(dst, header + s, tail);
  }

  /** The overlapping copy: n bytes from position from to a position at or before it. */
  method ShiftLeft(buf: array<byte>, to: nat, from: nat, n: nat)
    requires to <= from && from + n <= buf.Length
    modifies buf
    ensures buf[..] == old(buf[..])[..to] + old(buf[..])[from..from + n] + old(buf[..])[to + n..]
  {
    ghost var was, gap := buf[..], from - to;
    for i := 0 to n
      invariant forall k :: 0 <= k < to ==> buf[k] == was[k]
      invariant forall k :: to <= k < to + i ==> buf[k] == was[k + gap]
      invariant forall k :: to + i <= k < buf.Length ==> buf[k] == was[k]
    {
      buf[to + i] := buf[from + i];
    }
    assert buf[to..to + n] == was[from..from + n];
    assert buf[..] == buf[..to] + buf[to..to + n] + buf[to + n..];
  }

  /** The header for l bytes, written in place. */
  method PatchHeader(buf: array<byte>, start: nat, headerLen: nat, l: nat)
    requires headerLen == (if l <= 31 then 1 else if l <= 255 then 2 else if l <= 65535 then 3 else 5)
    requires start + headerLen <= buf.Length
    modifies buf
    ensures buf[..] == old(buf[..])[..start] + StringHeader(l) + old(buf[..])[start + headerLen..]
  {
    hide BigEndian;
    ShortHeaders(l);
    FourBytes(l);
    if headerLen == 1 {
      buf[start] := 0xa0 + l;
    } else if headerLen == 2 {
      buf[start] := 0xd9;
      buf[start + 1] := l;
    } else if headerLen == 3 {
      buf[start] := 0xda;
      buf[start + 1] := (l / 0x100) % 256;
      buf[start + 2] := l % 256;
    } else {
      buf[start] := 0xdb;
      buf[start + 1] := (l / 0x100_0000) % 256;
      buf[start + 2] := (l / 0x1_0000) % 256;
      buf[start + 3] := (l / 0x100) % 256;
      buf[start + 4] := l % 256;
    }
  }

  lemma ShortHeaders(l: nat)
    ensures BigEndian(1, l) == [l % 256]
    ensures BigEndian(2, l) == [(l / 0x100) % 256, l % 256]
  {
    assert BigEndian(1, l / 256) == [(l / 256) % 256];
  }
}
