/** Bytes and the big-endian integers every MessagePack head is made of. */
module Bytes {

  type byte = b: int | 0 <= b < 256

  type bytes = seq<byte>

  /** The bytes of an ASCII text. */
  function Ascii(s: string): bytes {
    seq(|s|, i requires 0 <= i < |s| => (s[i] as int) % 0x80)
  }

  /** 256 to the power n. */
  function Pow256(n: nat): (p: int)
    ensures p > 0
  {
    if n == 0 then 1 else 256 * Pow256(n - 1)
  }

  /** The n low bytes of v, most significant first. The division rounds down, like Go's arithmetic shift. */
  function BigEndian(n: nat, v: int): (s: bytes)
    ensures |s| == n
  {
    if n == 0 then [] else BigEndian(n - 1, v / 256) + [v % 256]
  }

  /** The unsigned number a byte string spells, most significant byte first. */
  function UintOf(s: bytes): nat {
    if s == [] then 0 else 256 * UintOf(s[..|s| - 1]) + s[|s| - 1]
  }

  /** The two's complement number a byte string spells. */
  function IntOf(s: bytes): int {
    if s != [] && s[0] >= 128 then UintOf(s) - Pow256(|s|) else UintOf(s)
  }

  /** Whether e stands in src at position p. */
  predicate At(src: bytes, p: int, e: bytes) {
    0 <= p && p + |e| <= |src| && src[p..p + |e|] == e
  }

  lemma Assoc(a: bytes, b: bytes, c: bytes)
    ensures (a + b) + c == a + (b + c)
  {
  }

  lemma AtConcat(src: bytes, p: nat, a: bytes, b: bytes)
    ensures At(src, p, a + b) <==> At(src, p, a) && At(src, p + |a|, b)
  {
    var e := a + b;
    if At(src, p, e) {
      assert a == e[..|a|] == src[p..p + |a|];
      assert b == e[|a|..] == src[p + |a|..p + |e|];
    }
    if At(src, p, a) && At(src, p + |a|, b) {
      assert src[p..p + |e|] == src[p..p + |a|] + src[p + |a|..p + |e|];
    }
  }

  lemma DivModSplit(v: int, m: int)
    requires m > 0
    ensures v % (256 * m) == 256 * ((v / 256) % m) + v % 256
  {
    var q, r := (v / 256) / m, (v / 256) % m;
    var low := 256 * r + v % 256;
    assert v == q * (256 * m) + low by {
      assert v == 256 * (v / 256) + v % 256;
      assert v / 256 == q * m + r;
      assert 256 * (q * m) == q * (256 * m);
    }
    assert low < 256 * m by {
      assert r <= m - 1;
    }
    ModUnique(v, 256 * m, q, low);
  }

  lemma ModUnique(v: int, m: int, q: int, r: int)
    requires 0 <= r < m && v == q * m + r
    ensures v % m == r && v / m == q
  {
    var d := v / m - q;
    assert v == (v / m) * m + v % m;
    assert d * m == r - v % m by {
      assert d * m == (v / m) * m - q * m;
    }
    MulAtLeast(d, m);
  }

  lemma MulAtLeast(d: int, m: int)
    requires m > 0
    ensures d >= 1 ==> d * m >= m
    ensures d <= -1 ==> d * m <= -m
  {
    if d >= 1 {
      assert (d - 1) * m >= 0;
    } else if d <= -1 {
      assert (-d - 1) * m >= 0;
    }
  }

  lemma {:induction false} UintOfBigEndian(n: nat, v: int)
    ensures UintOf(BigEndian(n, v)) == v % Pow256(n)
  {
    if n > 0 {
      UintOfBigEndian(n - 1, v / 256);
      DivModSplit(v, Pow256(n - 1));
      assert BigEndian(n, v)[..n - 1] == BigEndian(n - 1, v / 256);
    }
  }

  lemma {:induction false} BigEndianOfUint(s: bytes)
    ensures BigEndian(|s|, UintOf(s)) == s
    ensures UintOf(s) < Pow256(|s|)
  {
    if s != [] {
      BigEndianOfUint(s[..|s| - 1]);
    }
  }

  lemma {:induction false} UintOfConcat(a: bytes, b: bytes)
    ensures UintOf(a + b) == UintOf(a) * Pow256(|b|) + UintOf(b)
  {
    if b == [] {
      assert a + b == a;
    } else {
      var b' := b[..|b| - 1];
      UintOfConcat(a, b');
      assert (a + b)[..|a + b| - 1] == a + b';
      assert 256 * (UintOf(a) * Pow256(|b'|)) == UintOf(a) * Pow256(|b|);
    }
  }

  lemma PowValues()
    ensures Pow256(0) == 1 && Pow256(1) == 0x100 && Pow256(2) == 0x1_0000
    ensures Pow256(3) == 0x100_0000 && Pow256(4) == 0x1_0000_0000 && Pow256(8) == 0x1_0000_0000_0000_0000
  {
    assert Pow256(5) == 256 * Pow256(4);
    assert Pow256(6) == 256 * Pow256(5);
    assert Pow256(7) == 256 * Pow256(6);
  }

  lemma UintOfCons(s: bytes)
    requires s != []
    ensures UintOf(s) == s[0] * Pow256(|s| - 1) + UintOf(s[1..])
  {
    UintOfConcat([s[0]], s[1..]);
    assert s == [s[0]] + s[1..];
    assert UintOf([s[0]]) == s[0];
  }

  lemma UpperHalf(h: byte, m: int, r: int)
    requires 0 <= r < m
    ensures h >= 128 <==> 2 * (h * m + r) >= 256 * m
  {
    if h >= 128 {
      assert (h - 128) * m >= 0;
    } else {
      assert (127 - h) * m >= 0;
    }
  }

  /** The first byte carries the sign: its top bit is set exactly in the upper half of the range. */
  lemma TopBit(s: bytes)
    requires s != []
    ensures s[0] >= 128 <==> 2 * UintOf(s) >= Pow256(|s|)
  {
    UintOfCons(s);
    BigEndianOfUint(s[1..]);
    UpperHalf(s[0], Pow256(|s| - 1), UintOf(s[1..]));
  }

  /** Two's complement: n bytes spell every number of [-256^n/2, 256^n/2) back. */
  lemma IntOfBigEndian(n: nat, v: int)
    requires n > 0 && -Pow256(n) <= 2 * v < Pow256(n)
    ensures IntOf(BigEndian(n, v)) == v
  {
    var s := BigEndian(n, v);
    UintOfBigEndian(n, v);
    TopBit(s);
    if v >= 0 {
      ModUnique(v, Pow256(n), 0, v);
    } else {
      ModUnique(v, Pow256(n), -1, v + Pow256(n));
    }
  }
}
