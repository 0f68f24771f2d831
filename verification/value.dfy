/** Container headers, and the second walker: a value read from its own byte slice. */
module Values {
  import opened Bytes
  import opened Types
  import opened Results
  import opened Integers
  import opened Wires
  import opened Iterators
  import opened Lookahead
  import opened Strings

  function ArrayHeader(n: nat): bytes {
    if n <= 15 then [0x90 + n] else if n <= 0xffff then [0xdc] + BigEndian(2, n) else [0xdd] + BigEndian(4, n)
  }

  function MapHeader(n: nat): bytes {
    if n <= 15 then [0x80 + n] else if n <= 0xffff then [0xde] + BigEndian(2, n) else [0xdf] + BigEndian(4, n)
  }

  /** The headers are those of the standard: an array of n items, and a map of n pairs. */
  lemma {:induction false} HeadersStandard(n: nat)
    requires n < 0x1_0000_0000
    ensures var h := ArrayHeader(n);
      IsArrayHead(h[0]) && |h| == 1 + LengthSize(h[0]) && ItemCount(h[0], UintOf(h[1..])) == n
    ensures var h := MapHeader(n);
      IsMapHead(h[0]) && |h| == 1 + LengthSize(h[0]) && ItemCount(h[0], UintOf(h[1..])) == 2 * n
  {
    PowValues();
    var a, m := ArrayHeader(n), MapHeader(n);
    hide BigEndian, UintOf, Pow256;
    if n > 15 {
      var k := |a| - 1;
      assert a[1..] == BigEndian(k, n) && m[1..] == BigEndian(k, n);
      UintOfBigEndian(k, n);
      ModUnique(n, Pow256(k), 0, n);
    }
  }

  function AppendArrayHeader(dst: bytes, n: nat): bytes {
    dst + ArrayHeader(n)
  }

  function AppendMapHeader(dst: bytes, n: nat): bytes {
    dst + MapHeader(n)
  }

  /** ReadArrayHeader and ReadMapHeader differ in the type they expect; both read signed counts. */
  function ReadHeader(src: bytes, offset: nat, typ: Type): Read<int> {
    if offset >= |src| then Err(ShortBuffer) else
    var h := Get(src[offset]);
    if h.typ != typ then Err(InvalidHeaderByte)
    else if h.isValueLength then Ok(h.length, offset + 1)
    else if offset + 1 + h.length > |src| then Err(ShortBuffer)
    else Ok(IntFromBuf(src[offset + 1..offset + 1 + h.length]), offset + 1 + h.length)
  }

  /** The counts whose 16- or 32-bit field has a clear sign bit. */
  predicate SignedCount(n: nat) {
    n <= 0x7fff || 0x1_0000 <= n <= 0x7fff_ffff
  }

  lemma CountAt(src: bytes, o: nat, c: byte, n: nat, typ: Type, count: nat)
    requires (n == 2 || n == 4) && Get(c) == Head(typ, n, false)
    requires At(src, o, [c] + BigEndian(n, count))
    ensures ReadHeader(src, o, typ) == Ok(count, o + 1 + n) <==> 2 * count < Pow256(n)
  {
    hide BigEndian, IntOf, Pow256, At, Get;
    WordAt(src, o, c, n, count);
    SignedField(n, count);
  }

  /** A container header reads back as its count exactly when the count's sign bit is clear. */
  lemma ArrayHeaderExact(src: bytes, o: nat, n: nat)
    requires At(src, o, ArrayHeader(n))
    ensures ReadHeader(src, o, Type.Array) == Ok(n, o + |ArrayHeader(n)|) <==> SignedCount(n)
  {
    PowValues();
    if n <= 15 {
      assert src[o] == src[o..o + 1][0];
    } else if n <= 0xffff {
      CountAt(src, o, 0xdc, 2, Type.Array, n);
    } else {
      CountAt(src, o, 0xdd, 4, Type.Array, n);
    }
  }

  lemma MapHeaderExact(src: bytes, o: nat, n: nat)
    requires At(src, o, MapHeader(n))
    ensures ReadHeader(src, o, Type.Map) == Ok(n, o + |MapHeader(n)|) <==> SignedCount(n)
  {
    PowValues();
    if n <= 15 {
      assert src[o] == src[o..o + 1][0];
    } else if n <= 0xffff {
      CountAt(src, o, 0xde, 2, Type.Map, n);
    } else {
      CountAt(src, o, 0xdf, 4, Type.Map, n);
    }
  }

  /** The head, the length field and, for scalars, the body of a value; a panic where the field is cut. */
  function BytesLen(v: bytes): Read<int> {
    if v == [] then Ok(0, 0) else
    var h := Get(v[0]);
    if !h.isValueLength && 1 + h.length > |v| then Panic else
    var length := if h.isValueLength then h.length else IntFromBuf(v[1..1 + h.length]);
    var offset := if h.isValueLength then 1 else 1 + h.length;
    Ok(if h.typ == Type.Array || h.typ == Type.Map then offset else offset + length, 0)
  }

  /** v[:v.BytesLen()], and the offset behind it. */
  function Cut(v: bytes): (r: Read<bytes>)
    ensures r.Ok? ==> 0 <= r.next <= |v|
  {
    var n := BytesLen(v);
    if n.Ok? && 0 <= n.value <= |v| then Ok(v[..n.value], n.value) else Panic
  }

  /** n cuts in a row; a negative n is none. */
  function Cuts(v: bytes, n: int): (r: Read<seq<bytes>>)
    ensures !r.Err? && (r.Ok? ==> r.next == 0)
    decreases n
  {
    if n <= 0 then Ok([], 0) else
    var first := Cut(v);
    if !first.Ok? then Panic else
    var more := Cuts(v[first.next..], n - 1);
    if !more.Ok? then Panic else Ok([first.value] + more.value, 0)
  }

  /** Everything Value.Array yields, when no one stops it. */
  function ArrayOf(v: bytes): Read<seq<bytes>> {
    if v == [] || Get(v[0]).typ != Type.Array then Ok([], 0) else
    var h := ReadHeader(v, 0, Type.Array);
    if h.Ok? then Cuts(v[h.next..], h.value) else Panic
  }

  /** What Value.Array yields to a loop that ends itself at its wants-th value, if it comes to that. */
  function ArrayUpTo(v: bytes, wants: nat): Read<seq<bytes>> {
    if v == [] || Get(v[0]).typ != Type.Array then Ok([], 0) else
    var h := ReadHeader(v, 0, Type.Array);
    if h.Ok? then Cuts(v[h.next..], if h.value < wants then h.value else wants) else Panic
  }

  lemma {:induction false} CutsPrefix(v: bytes, n: int, k: nat)
    requires k <= n && Cuts(v, n).Ok?
    ensures Cuts(v, k).Ok? && k <= |Cuts(v, n).value| && Cuts(v, k).value == Cuts(v, n).value[..k]
    decreases k
  {
    hide Cuts, Cut;
    if k > 0 {
      CutsStep(v, n);
      CutsStep(v, k);
      CutsPrefix(v[Cut(v).next..], n - 1, k - 1);
    } else {
      CutsNone(v, 0);
    }
  }

  /** The first of some cuts. */
  lemma {:induction false} CutsStep(v: bytes, n: int)
    requires n > 0
    ensures Cuts(v, n).Ok? <==> Cut(v).Ok? && Cuts(v[Cut(v).next..], n - 1).Ok?
    ensures Cuts(v, n).Ok? ==>
              var more := Cuts(v[Cut(v).next..], n - 1).value;
              Cuts(v, n).value == [Cut(v).value] + more && |Cuts(v, n).value| == 1 + |more|
  {
    hide Cut;
  }

  /** A loop that ends itself sees the first values of those it would have seen. */
  lemma {:induction false} ArrayPrefix(v: bytes, wants: nat)
    requires ArrayOf(v).Ok?
    ensures ArrayUpTo(v, wants).Ok? && ArrayUpTo(v, wants).value <= ArrayOf(v).value
    ensures |ArrayOf(v).value| <= wants ==> ArrayUpTo(v, wants) == ArrayOf(v)
    ensures |ArrayUpTo(v, wants).value| == if |ArrayOf(v).value| < wants then |ArrayOf(v).value| else wants
  {
    if v != [] && Get(v[0]).typ == Type.Array {
      var h := ReadHeader(v, 0, Type.Array);
      CutsCount(v[h.next..], h.value);
      if wants < h.value {
        CutsPrefix(v[h.next..], h.value, wants);
      }
      hide Get, ReadHeader, Cuts;
    }
  }

  lemma {:induction false} CutsCount(v: bytes, n: int)
    requires Cuts(v, n).Ok?
    ensures |Cuts(v, n).value| == if n < 0 then 0 else n
    decreases n
  {
    hide Cuts, Cut;
    if n > 0 {
      CutsStep(v, n);
      CutsCount(v[Cut(v).next..], n - 1);
    } else {
      CutsNone(v, n);
    }
  }

  lemma CutsNone(v: bytes, n: int)
    requires n <= 0
    ensures Cuts(v, n) == Ok([], 0)
  {
  }

  /** Everything Value.Map yields, keys and values in turn. */
  function MapOf(v: bytes): Read<seq<bytes>> {
    if v == [] || Get(v[0]).typ != Type.Map then Ok([], 0) else
    var h := ReadHeader(v, 0, Type.Map);
    if h.Ok? then Cuts(v[h.next..], 2 * h.value) else Panic
  }

  function After(yielded: seq<bytes>, rest: Read<seq<bytes>>): Read<seq<bytes>> {
    if rest.Ok? then Ok(yielded + rest.value, 0) else Panic
  }

  lemma AfterNone(rest: Read<seq<bytes>>)
    requires rest.Panic? || (rest.Ok? && rest.next == 0)
    ensures After([], rest) == rest
  {
    if rest.Ok? {
      assert [] + rest.value == rest.value;
    }
  }

  lemma StopsAt(yielded: seq<bytes>, v: bytes, n: int)
    requires n > 0 && !Cut(v).Ok?
    ensures After(yielded, Cuts(v, n)) == Panic
  {
  }

  lemma EndsWith(yielded: seq<bytes>, v: bytes, n: int)
    requires n <= 0
    ensures After(yielded, Cuts(v, n)) == Ok(yielded, 0)
  {
    assert yielded + [] == yielded;
  }

  lemma AfterOne(yielded: seq<bytes>, v: bytes, n: int)
    requires n > 0 && Cut(v).Ok?
    ensures After(yielded, Cuts(v, n)) == After(yielded + [Cut(v).value], Cuts(v[Cut(v).next..], n - 1))
  {
    var more := Cuts(v[Cut(v).next..], n - 1);
    if more.Ok? {
      assert yielded + ([Cut(v).value] + more.value) == (yielded + [Cut(v).value]) + more.value;
    }
  }

  /** The loop of Value.Array, over a value that is re-sliced as it is consumed. */
  method Array(value: bytes, wants: nat) returns (r: Read<seq<bytes>>)
    requires wants > 0
    ensures r == ArrayUpTo(value, wants)
  {
    hide Get, Cut, Cuts, After;
    if value == [] {
      return Ok([], 0);
    }
    var head := Get(value[0]);
    if head.typ != Type.Array {
      return Ok([], 0);
    }
    var offset, length: int := 1, head.length;
    if !head.isValueLength {
      if offset + length > |value| {
        return Panic;
      }
      length, offset := IntFromBuf(value[offset..offset + length]), offset + length;
    }
    var v := value[offset..];
    var yielded := [];
    ghost var n := if length < wants then length else wants;
    AfterNone(Cuts(v, n));
    for i := 0 to if length < 0 then 0 else length
      invariant Cuts(value[offset..], n) == After(yielded, Cuts(v, n - i)) && |yielded| == i && (n < 0 || i <= n)
      invariant i < wants || i == 0
    {
      var next := Cut(v);
      if !next.Ok? {
        StopsAt(yielded, v, n - i);
        return Panic;
      }
      AfterOne(yielded, v, n - i);
      yielded := yielded + [next.value];
      if |yielded| == wants {
        EndsWith(yielded, v[next.next..], 0);
        return Ok(yielded, 0);
      }
      v := v[next.next..];
    }
    EndsWith(yielded, v, if length < 0 then length else 0);
    return Ok(yielded, 0);
  }

  /** A scalar or a container head whose length field has a clear sign bit. */
  predicate ClearSign(w: Wire) {
    w.len != [] ==> w.len[0] < 128
  }

  /** A value the second walker measures rightly. */
  predicate Measurable(w: Wire) {
    Plain(w) && w.Leaf? && ClearSign(w)
  }

  predicate AllMeasurable(ws: seq<Wire>) {
    forall k :: 0 <= k < |ws| ==> Measurable(ws[k])
  }

  /** The encodings of some values, one by one. */
  function Slices(ws: seq<Wire>): seq<bytes> {
    if ws == [] then [] else [Enc(ws[0])] + Slices(ws[1..])
  }

  lemma SignedAgrees(len: bytes)
    requires (len != [] ==> len[0] < 128) && (|len| == 1 || |len| == 2 || |len| == 4)
    ensures IntFromBuf(len) == UintOf(len)
  {
  }

  lemma HeadOf(w: Wire, rest: bytes)
    requires WellFormed(w)
    ensures (Enc(w) + rest)[0] == w.head && 1 + |w.len| <= |Enc(w) + rest|
    ensures (Enc(w) + rest)[1..1 + |w.len|] == w.len && (Enc(w) + rest)[1 + |w.len|..] == Inside(w) + rest
  {
    var v := Enc(w) + rest;
    assert v == [w.head] + w.len + (Inside(w) + rest);
  }

  lemma CutsValue(w: Wire, rest: bytes)
    requires Measurable(w)
    ensures Cut(Enc(w) + rest) == Ok(Enc(w), |Enc(w)|) && (Enc(w) + rest)[|Enc(w)|..] == rest
  {
    hide Get, Enc;
    HeadOf(w, rest);
    TableAgrees(w.head, UintOf(w.len));
    if w.len != [] {
      SignedAgrees(w.len);
    }
    assert |Enc(w)| == 1 + |w.len| + |w.body| by { EncSize(w); }
  }

  lemma EncSize(w: Wire)
    ensures |Enc(w)| == 1 + |w.len| + |Inside(w)|
  {
  }

  lemma {:induction false} CutsValues(ws: seq<Wire>, rest: bytes)
    requires AllMeasurable(ws)
    ensures Cuts(EncAll(ws) + rest, |ws|) == Ok(Slices(ws), 0)
    decreases ws
  {
    if ws != [] {
      var more := EncAll(ws[1..]) + rest;
      Assoc(Enc(ws[0]), EncAll(ws[1..]), rest);
      assert EncAll(ws) + rest == Enc(ws[0]) + more;
      assert AllMeasurable(ws[1..]) && Measurable(ws[0]);
      hide Enc, EncAll, Cut, Measurable;
      CutsValue(ws[0], more);
      CutsValues(ws[1..], rest);
    } else {
      CutsNone(rest, 0);
    }
  }

  /** The slices Iterator.Next and Skip traverse in n turns from a cursor on. */
  function Traversed(c: Cursor, n: nat): seq<bytes>
    decreases n
  {
    if n == 0 || !NextToken(c).0 then [] else
    var c1 := Skipped(NextToken(c).1);
    [c.src[c.pos..c1.pos]] + Traversed(c1, n - 1)
  }

  lemma {:induction false} TraversesValues(c: Cursor, ws: seq<Wire>, rest: bytes)
    requires AllPlain(ws) && Ahead(c, EncAll(ws) + rest)
    ensures Traversed(c, |ws|) == Slices(ws)
    decreases ws
  {
    hide NextToken, Skipped, Enc;
    if ws != [] {
      var more := EncAll(ws[1..]) + rest;
      Assoc(Enc(ws[0]), EncAll(ws[1..]), rest);
      assert EncAll(ws) + rest == Enc(ws[0]) + more;
      assert Plain(ws[0]) && AllPlain(ws[1..]);
      hide EncAll, Plain, Ahead, At;
      AheadSkip(c, ws[0], more);
      AheadAt(c, Enc(ws[0]), more);
      SkipConsumes(c, ws[0]);
      TraversesValues(Skipped(NextToken(c).1), ws[1..], rest);
    }
  }

  lemma AheadAt(c: Cursor, a: bytes, b: bytes)
    requires Ahead(c, a + b)
    ensures At(c.src, c.pos, a) && c.src[c.pos..c.pos + |a|] == a
  {
    SplitAhead(c, a, b);
  }

  /** On an array of scalars, no length field having its sign bit set, the two walkers yield the same
      slices: each item's encoding. */
  lemma {:induction false} ArrayWalkersAgree(w: Wire, c: Cursor, rest: bytes)
    requires Plain(w) && IsArray(w) && ClearSign(w) && AllMeasurable(w.items)
    requires Ahead(c, EncAll(w.items) + rest)
    ensures ArrayOf(Enc(w)) == Ok(Slices(w.items), 0)
    ensures Traversed(c, |w.items|) == Slices(w.items)
  {
    hide Get, Enc, EncAll, NextToken, Skipped;
    TraversesValues(c, w.items, rest);
    TableAgrees(w.head, UintOf(w.len));
    OpensContainer(w, Type.Array);
    CutsValues(w.items, []);
    assert EncAll(w.items) + [] == EncAll(w.items);
  }

  /** The same for the keys and values of a map. */
  lemma {:induction false} MapWalkersAgree(w: Wire, c: Cursor, rest: bytes)
    requires Plain(w) && IsMap(w) && ClearSign(w) && AllMeasurable(w.items)
    requires Ahead(c, EncAll(w.items) + rest)
    ensures MapOf(Enc(w)) == Ok(Slices(w.items), 0)
    ensures Traversed(c, |w.items|) == Slices(w.items)
  {
    hide Get, Enc, EncAll, NextToken, Skipped;
    TraversesValues(c, w.items, rest);
    TableAgrees(w.head, UintOf(w.len));
    OpensContainer(w, Type.Map);
    CutsValues(w.items, []);
    assert EncAll(w.items) + [] == EncAll(w.items);
  }

  /** A container's header, read by the second walker. */
  lemma OpensContainer(w: Wire, typ: Type)
    requires Plain(w) && w.Node? && ClearSign(w) && typ == Get(w.head).typ
    ensures Enc(w)[0] == w.head
    ensures var h := ReadHeader(Enc(w), 0, typ);
      && h.Ok? && 0 <= h.next <= |Enc(w)| && Enc(w)[h.next..] == EncAll(w.items)
      && |w.items| == if IsMapHead(w.head) then 2 * h.value else h.value
  {
    hide Get, Enc;
    HeadOf(w, []);
    assert Enc(w) + [] == Enc(w);
    assert Inside(w) + [] == Inside(w);
    TableAgrees(w.head, UintOf(w.len));
    if w.len != [] {
      SignedAgrees(w.len);
    }
  }
}
