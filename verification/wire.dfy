/** MessagePack values as the "Formats" section of the MessagePack specification lays them out,
    in every width a writer may choose. Nothing here rests on the package's own tables. */
module Wires {
  import opened Bytes

  /** A scalar with its head, the bytes spelling its length and its body (an extension's body starts
      with the type byte), or a container; a map's items are its keys and values in turn. */
  datatype Wire =
    | Leaf(head: byte, len: bytes, body: bytes)
    | Node(head: byte, len: bytes, items: seq<Wire>)

  predicate IsArrayHead(h: byte) {
    0x90 <= h <= 0x9f || h == 0xdc || h == 0xdd
  }

  predicate IsMapHead(h: byte) {
    0x80 <= h <= 0x8f || h == 0xde || h == 0xdf
  }

  predicate IsStrHead(h: byte) {
    0xa0 <= h <= 0xbf || 0xd9 <= h <= 0xdb
  }

  predicate IsBinHead(h: byte) {
    0xc4 <= h <= 0xc6
  }

  predicate IsIntHead(h: byte) {
    h <= 0x7f || h >= 0xe0 || 0xcc <= h <= 0xd3
  }

  /** ext 8, ext 16 and ext 32: the extensions that spell their length. */
  predicate IsLongExtHead(h: byte) {
    0xc7 <= h <= 0xc9
  }

  predicate IsFixExtHead(h: byte) {
    0xd4 <= h <= 0xd8
  }

  /** How many bytes behind the head spell the length. */
  function LengthSize(h: byte): nat {
    if h == 0xc4 || h == 0xc7 || h == 0xd9 then 1
    else if h == 0xc5 || h == 0xc8 || h == 0xda || h == 0xdc || h == 0xde then 2
    else if h == 0xc6 || h == 0xc9 || h == 0xdb || h == 0xdd || h == 0xdf then 4
    else 0
  }

  /** The body size of a scalar whose length bytes spell n. */
  function BodySize(h: byte, n: nat): nat {
    if IsStrHead(h) then if h <= 0xbf then h - 0xa0 else n
    else if IsBinHead(h) then n
    else if IsLongExtHead(h) then n + 1
    else if h == 0xcc || h == 0xd0 then 1
    else if h == 0xcd || h == 0xd1 || h == 0xd4 then 2
    else if h == 0xd5 then 3
    else if h == 0xca || h == 0xce || h == 0xd2 then 4
    else if h == 0xd6 then 5
    else if h == 0xcb || h == 0xcf || h == 0xd3 then 8
    else if h == 0xd7 then 9
    else if h == 0xd8 then 17
    else 0
  }

  /** The number of items of a container whose length bytes spell n. */
  function ItemCount(h: byte, n: nat): nat {
    if h <= 0x8f then 2 * (h % 16) else if h <= 0x9f then h % 16 else if h <= 0xdd then n else 2 * n
  }

  predicate WellFormed(w: Wire) {
    && |w.len| == LengthSize(w.head)
    && match w
       case Leaf(h, len, body) =>
         !IsArrayHead(h) && !IsMapHead(h) && h != 0xc1 && |body| == BodySize(h, UintOf(len))
       case Node(h, len, items) =>
         && (IsArrayHead(h) || IsMapHead(h))
         && |items| == ItemCount(h, UintOf(len))
         && forall k :: 0 <= k < |items| ==> WellFormed(items[k])
  }

  /** No ext 8, ext 16 or ext 32 anywhere inside. */
  predicate NoLongExt(w: Wire) {
    match w
    case Leaf(h, _, _) => !IsLongExtHead(h)
    case Node(_, _, items) => forall k :: 0 <= k < |items| ==> NoLongExt(items[k])
  }

  predicate Plain(w: Wire) {
    WellFormed(w) && NoLongExt(w)
  }

  predicate AllPlain(ws: seq<Wire>) {
    forall k :: 0 <= k < |ws| ==> Plain(ws[k])
  }

  predicate IsMap(w: Wire) {
    w.Node? && IsMapHead(w.head)
  }

  predicate IsArray(w: Wire) {
    w.Node? && IsArrayHead(w.head)
  }

  predicate IsStr(w: Wire) {
    w.Leaf? && IsStrHead(w.head)
  }

  function Enc(w: Wire): (e: bytes)
    ensures e != [] && e[0] == w.head
    decreases w, 1
  {
    [w.head] + w.len + Inside(w)
  }

  /** What follows the head and the length. */
  function Inside(w: Wire): bytes
    decreases w, 0
  {
    match w
    case Leaf(_, _, body) => body
    case Node(_, _, items) => EncAll(items)
  }

  function EncAll(ws: seq<Wire>): bytes
    decreases ws, 2
  {
    if ws == [] then [] else Enc(ws[0]) + EncAll(ws[1..])
  }

  lemma {:induction false} EncAllConcat(a: seq<Wire>, b: seq<Wire>)
    ensures EncAll(a + b) == EncAll(a) + EncAll(b)
  {
    if a == [] {
      assert a + b == b;
    } else {
      assert (a + b)[1..] == a[1..] + b;
      EncAllConcat(a[1..], b);
    }
  }

  lemma EncAllOne(w: Wire)
    ensures EncAll([w]) == Enc(w)
  {
    assert [w][1..] == [];
  }

  /** Each item takes at least one byte. */
  lemma {:induction false} EncAllSize(ws: seq<Wire>)
    ensures |EncAll(ws)| >= |ws|
  {
    if ws != [] {
      EncAllSize(ws[1..]);
    }
  }

  lemma SplitEnc(head: byte, len: bytes, inside: bytes, rest: bytes)
    ensures var s := [head] + len + inside + rest;
      s[0] == head && s[1..1 + |len|] == len && s[1 + |len|..] == inside + rest
  {
  }

  lemma SplitBody(body: bytes, rest: bytes)
    ensures (body + rest)[..|body|] == body && (body + rest)[|body|..] == rest
  {
  }

  /** No two values share an encoding, even with other bytes behind them. */
  lemma {:induction false} EncUnique(a: Wire, b: Wire, x: bytes, y: bytes)
    requires WellFormed(a) && WellFormed(b) && Enc(a) + x == Enc(b) + y
    ensures a == b && x == y
    decreases a, 1
  {
    var s := Enc(a) + x;
    SplitEnc(a.head, a.len, Inside(a), x);
    SplitEnc(b.head, b.len, Inside(b), y);
    assert s[0] == a.head == b.head;
    var n := 1 + LengthSize(a.head);
    assert a.len == s[1..n] && b.len == s[1..n];
    assert s[n..] == Inside(a) + x && s[n..] == Inside(b) + y;
    match a
    case Leaf(_, _, body) =>
      SplitBody(body, x);
      SplitBody(b.body, y);
      assert body == s[n..][..|body|] == b.body;
      assert x == s[n..][|body|..] == y;
    case Node(_, _, items) =>
      EncAllUnique(items, b.items, x, y);
  }

  lemma {:induction false} EncAllUnique(a: seq<Wire>, b: seq<Wire>, x: bytes, y: bytes)
    requires |a| == |b| && EncAll(a) + x == EncAll(b) + y
    requires forall k :: 0 <= k < |a| ==> WellFormed(a[k]) && WellFormed(b[k])
    ensures a == b && x == y
    decreases a, 0
  {
    if a == [] {
      assert [] + x == x && [] + y == y;
    } else {
      var u, v := EncAll(a[1..]) + x, EncAll(b[1..]) + y;
      assert EncAll(a) + x == Enc(a[0]) + u;
      assert EncAll(b) + y == Enc(b[0]) + v;
      EncUnique(a[0], b[0], u, v);
      EncAllUnique(a[1..], b[1..], x, y);
      assert a == [a[0]] + a[1..] && b == [b[0]] + b[1..];
    }
  }
}
