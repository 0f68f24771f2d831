/** The token cursor over a MessagePack stream, and the recursive skip. */
module Iterators {
  import opened Bytes
  import opened Types
  import opened Results
  import opened Integers
  import opened Timestamps
  import opened Wires

  /** An iterator's state: what its reader delivers and the error it then ends with, the position of
      the reader, and the fields that describe the current token. */
  datatype State = Cursor(src: bytes, end: Error, pos: nat, err: Option<Error>,
                          length: nat, items: nat, byt: byte, typ: Type)

  type Cursor = c: State | c.pos <= |c.src|
    witness Cursor([], EOF, 0, None, 0, 0, 0, Invalid)

  /** A new iterator over a reader. */
  function Fresh(src: bytes, end: Error): Cursor {
    Cursor(src, end, 0, None, 0, 0, 0, Invalid)
  }

  /** What a read that wants more bytes than there are reports, in the manner of io.ReadFull. */
  function ShortRead(c: Cursor): Error {
    if c.end == EOF && c.pos < |c.src| then UnexpectedEOF else c.end
  }

  function Sized(c: Cursor, length: nat): (r: Cursor)
    ensures r == c.(length := r.length, items := r.items)
  {
    if c.typ == Array || c.typ == Map then c.(length := 0, items := length)
    else c.(length := length, items := 0)
  }

  /** Iterator.Next: the head byte and, for counted heads, the bytes that spell the length. */
  function NextToken(c: Cursor): (r: (bool, Cursor))
    ensures r.1.src == c.src && r.1.end == c.end
    ensures c.pos <= r.1.pos && (r.0 ==> c.pos < r.1.pos)
    ensures r.0 <==> r.1.err == None
  {
    if c.pos == |c.src| then (false, c.(err := Some(c.end), byt := 0))
    else
      var h := Get(c.src[c.pos]);
      var c1 := c.(pos := c.pos + 1, err := None, byt := c.src[c.pos], typ := h.typ);
      if h.isValueLength then (true, Sized(c1, h.length))
      else if c1.pos + h.length > |c.src| then (false, c1.(err := Some(ShortRead(c1))))
      else
        var c2 := c1.(pos := c1.pos + h.length);
        (true, Sized(c2, UintFromBuf(c.src[c1.pos..c2.pos])))
  }

  /** Iterator.NextExpectedType. */
  function Expect(c: Cursor, types: set<Type>): (r: (Option<Error>, Cursor))
    ensures r.1.src == c.src && r.1.end == c.end && c.pos <= r.1.pos
    ensures r.0 == None ==> c.pos < r.1.pos
  {
    var (ok, c1) := NextToken(c);
    if !ok then (c1.err, c1)
    else if c1.typ in types then (None, c1)
    else (Some(InvalidHeaderByte), c1)
  }

  /** Iterator.raw: the token's payload; on a short read nothing, with the error kept in the iterator. */
  function Raw(c: Cursor): (r: (bytes, Cursor))
    ensures r.1.src == c.src && r.1.end == c.end && c.pos <= r.1.pos
  {
    if c.pos + c.length <= |c.src| then
      (c.src[c.pos..c.pos + c.length], c.(pos := c.pos + c.length, err := None))
    else ([], c.(err := Some(ShortRead(c))))
  }

  /** The payload of the current token, as the limited reader over it delivers it. */
  function Payload(c: Cursor): bytes {
    c.src[c.pos..PayloadEnd(c)]
  }

  function PayloadEnd(c: Cursor): (p: nat)
    ensures c.pos <= p <= |c.src|
  {
    if c.pos + c.length <= |c.src| then c.pos + c.length else |c.src|
  }

  /** How that reader ends: at its limit, or with the connection. */
  function PayloadError(c: Cursor): Error {
    if c.pos + c.length <= |c.src| then EOF else c.end
  }

  /** Iterator.Time. */
  function TimeOf(c: Cursor): (r: (Time, Cursor))
    ensures r.1.src == c.src && r.1.end == c.end && c.pos <= r.1.pos
  {
    var (b, c1) := Raw(c);
    (if c1.err == None then ReadTimeUnsafe(c.byt, b) else ZERO_TIME, c1)
  }

  /** Iterator.Skip. */
  function Skipped(c: Cursor): (r: Cursor)
    ensures r.src == c.src && r.end == c.end && c.pos <= r.pos
    decreases |c.src| - c.pos, 1
  {
    SkippedItems(Discarded(c), if c.typ == Map then 2 * c.items else c.items)
  }

  /** The part of Skip before its loop: a scalar's payload is discarded. */
  function Discarded(c: Cursor): (r: Cursor)
    ensures r == c.(pos := r.pos) && c.pos <= r.pos
  {
    if c.typ == Array || c.typ == Map then c
    else c.(pos := if c.pos + c.length <= |c.src| then c.pos + c.length else |c.src|)
  }

  /** The loop of Skip: n times Next and Skip, or until Next fails. */
  function SkippedItems(c: Cursor, n: nat): (r: Cursor)
    ensures r.src == c.src && r.end == c.end && c.pos <= r.pos
    decreases |c.src| - c.pos, 0, n
  {
    if n == 0 then c else
    var (ok, c1) := NextToken(c);
    if ok then SkippedItems(Skipped(c1), n - 1) else c1
  }

  /** The package's table agrees with the standard on every head but ext 8, ext 16 and ext 32. */
  lemma TableAgrees(h: byte, n: nat)
    requires h != 0xc1
    ensures Get(h).isValueLength <==> LengthSize(h) == 0
    ensures !Get(h).isValueLength ==> Get(h).length == LengthSize(h)
    ensures Get(h).typ == Array <==> IsArrayHead(h)
    ensures Get(h).typ == Map <==> IsMapHead(h)
    ensures Get(h).typ == Str <==> IsStrHead(h)
    ensures Get(h).typ == Type.Bin <==> IsBinHead(h)
    ensures Get(h).typ == Type.Int || Get(h).typ == Uint <==> IsIntHead(h)
    ensures Get(h).typ == Ext <==> IsLongExtHead(h) || IsFixExtHead(h)
    ensures Get(h).typ == Type.Int <==> h >= 0xe0 || 0xd0 <= h <= 0xd3
    ensures (Get(h).typ == Nil <==> h == 0xc0) && (Get(h).typ == Bool <==> h == 0xc2 || h == 0xc3)
    ensures Get(h).typ == Float <==> h == 0xca || h == 0xcb
    ensures var count := if Get(h).isValueLength then Get(h).length else n;
      && (IsArrayHead(h) ==> ItemCount(h, n) == count)
      && (IsMapHead(h) ==> ItemCount(h, n) == 2 * count)
      && (!IsArrayHead(h) && !IsMapHead(h) ==> BodySize(h, n) == count + if IsLongExtHead(h) then 1 else 0)
  {
  }

  /** The cursor after Next, from the start of a value to its inside. */
  function Entered(c: Cursor, w: Wire): State
    requires WellFormed(w)
  {
    var size := match w case Leaf(h, _, body) => |body| - (if IsLongExtHead(h) then 1 else 0)
                        case Node(h, _, items) => if IsMapHead(h) then |items| / 2 else |items|;
    c.(pos := c.pos + 1 + |w.len|, err := None, byt := w.head, typ := Get(w.head).typ,
       length := if w.Leaf? then size else 0, items := if w.Leaf? then 0 else size)
  }

  /** The number a length field spells, on the code's side and on the standard's. */
  lemma LengthField(h: byte, len: bytes)
    requires |len| == LengthSize(h) && h != 0xc1
    ensures !Get(h).isValueLength ==> UintFromBuf(len) == UintOf(len)
  {
    TableAgrees(h, 0);
  }

  lemma NextReads(c: Cursor, h: Head, len: bytes)
    requires c.pos < |c.src| && Get(c.src[c.pos]) == h && At(c.src, c.pos + 1, len)
    requires |len| == if h.isValueLength then 0 else h.length
    ensures var count := if h.isValueLength then h.length else UintFromBuf(len);
      var c1 := c.(pos := c.pos + 1 + |len|, err := None, byt := c.src[c.pos], typ := h.typ);
      NextToken(c) == (true, Sized(c1, count))
  {
  }

  /** Next on the head and the length of a value, whether its inside follows or not. */
  lemma {:induction false} NextHead(c: Cursor, w: Wire)
    requires WellFormed(w) && At(c.src, c.pos, [w.head] + w.len)
    ensures c.pos + 1 + |w.len| <= |c.src| && NextToken(c) == (true, Entered(c, w))
  {
    AtConcat(c.src, c.pos, [w.head], w.len);
    assert c.src[c.pos] == c.src[c.pos..c.pos + 1][0];
    LengthField(w.head, w.len);
    TableAgrees(w.head, 0);
    SizedEnters(c, w);
    hide Get, NextToken, LengthSize, BodySize, ItemCount, At, UintOf, Sized, WellFormed, IsMapHead;
    NextReads(c, Get(w.head), w.len);
  }

  lemma {:induction false} NextEnters(c: Cursor, w: Wire)
    requires WellFormed(w) && At(c.src, c.pos, Enc(w))
    ensures NextToken(c) == (true, Entered(c, w))
    ensures At(c.src, c.pos + 1 + |w.len|, Inside(w))
    ensures IsMap(w) ==> |w.items| == 2 * (|w.items| / 2)
  {
    assert Enc(w) == ([w.head] + w.len) + Inside(w);
    hide Enc, Inside, At, NextToken;
    AtConcat(c.src, c.pos, [w.head] + w.len, Inside(w));
    NextHead(c, w);
    SizedEnters(c, w);
  }

  lemma SizedEnters(c: Cursor, w: Wire)
    requires WellFormed(w) && c.pos + 1 + |w.len| <= |c.src|
    ensures var h := Get(w.head);
      var count := if h.isValueLength then h.length else UintOf(w.len);
      Sized(c.(pos := c.pos + 1 + |w.len|, err := None, byt := w.head, typ := h.typ), count) == Entered(c, w)
    ensures IsMap(w) ==> |w.items| == 2 * (|w.items| / 2)
  {
    TableAgrees(w.head, UintOf(w.len));
    hide Get, LengthSize, BodySize, ItemCount, UintOf;
  }

  /** Next and then Skip move the cursor from the start of a value to exactly its end. */
  lemma {:induction false} SkipConsumes(c: Cursor, w: Wire)
    requires Plain(w) && At(c.src, c.pos, Enc(w))
    ensures NextToken(c).0 && Skipped(NextToken(c).1).pos == c.pos + |Enc(w)|
    decreases w, 1
  {
    NextEnters(c, w);
    HeadBefore(c, w);
    if w.Node? {
      EnteredSkips(c, w);
      SkipItemsConsumes(Entered(c, w), w.items);
    } else {
      ScalarSkips(c, w);
    }
    hide NextToken, Get, Skipped, SkippedItems, At, WellFormed, EncAll, NoLongExt;
  }

  lemma {:induction false} ScalarSkips(c: Cursor, w: Wire)
    requires Plain(w) && w.Leaf? && At(c.src, c.pos, Enc(w))
    ensures c.pos + 1 + |w.len| <= |c.src| && Skipped(Entered(c, w)).pos == c.pos + |Enc(w)|
  {
    TableAgrees(w.head, 0);
    hide Get, WellFormed, IsArrayHead, IsMapHead;
  }

  lemma {:induction false} SkipItemsConsumes(c: Cursor, ws: seq<Wire>)
    requires AllPlain(ws) && At(c.src, c.pos, EncAll(ws))
    ensures SkippedItems(c, |ws|).pos == c.pos + |EncAll(ws)|
    decreases ws, 0
  {
    hide NextToken, Skipped, SkippedItems, At, Enc, EncAll, Plain;
    if ws != [] {
      ItemsAt(c, ws);
      SkipConsumes(c, ws[0]);
      ItemsStep(c, |ws|);
      SkipItemsConsumes(Skipped(NextToken(c).1), ws[1..]);
    } else {
      NoItems(c);
    }
  }

  lemma {:induction false} ItemsAt(c: Cursor, ws: seq<Wire>)
    requires ws != [] && AllPlain(ws) && At(c.src, c.pos, EncAll(ws))
    ensures Plain(ws[0]) && AllPlain(ws[1..]) && |EncAll(ws)| == |Enc(ws[0])| + |EncAll(ws[1..])|
    ensures At(c.src, c.pos, Enc(ws[0])) && At(c.src, c.pos + |Enc(ws[0])|, EncAll(ws[1..]))
  {
    assert EncAll(ws) == Enc(ws[0]) + EncAll(ws[1..]) && Plain(ws[0]) && AllPlain(ws[1..]);
    hide Enc, EncAll, At, Plain, AllPlain;
    AtConcat(c.src, c.pos, Enc(ws[0]), EncAll(ws[1..]));
  }

  /** One turn of Skip's loop. */
  lemma ItemsStep(c: Cursor, n: nat)
    requires n > 0 && NextToken(c).0
    ensures SkippedItems(c, n) == SkippedItems(Skipped(NextToken(c).1), n - 1)
  {
    hide NextToken, Skipped;
  }

  lemma NoItems(c: Cursor)
    ensures SkippedItems(c, 0) == c && EncAll([]) == []
  {
  }

  /** The body size of the last scalar token of a value. */
  function Tail(w: Wire): nat {
    match w
    case Leaf(_, _, body) => |body|
    case Node(_, _, items) => if items == [] then 0 else Tail(items[|items| - 1])
  }

  /** The cursor's fields describe a token that is over and had n bytes of payload, or an empty container. */
  predicate Settled(c: Cursor, n: nat) {
    c.items == 0 && c.length == n && (c.typ == Array || c.typ == Map ==> n == 0)
  }

  /** After Next and Skip the fields are still those of the value's last token. */
  lemma {:induction false} SkipSettles(c: Cursor, w: Wire)
    requires Plain(w) && At(c.src, c.pos, Enc(w))
    ensures NextToken(c).0 && Settled(Skipped(NextToken(c).1), Tail(w))
    decreases w, 1
  {
    NextEnters(c, w);
    HeadBefore(c, w);
    if w.Node? {
      EnteredSkips(c, w);
      SkipItemsSettle(Entered(c, w), w.items);
    } else {
      ScalarSettles(c, w);
    }
    hide NextToken, Entered, Skipped, SkippedItems, Enc, Inside, At, WellFormed, Settled;
  }

  lemma HeadBefore(c: Cursor, w: Wire)
    requires At(c.src, c.pos, Enc(w))
    ensures c.pos + 1 + |w.len| <= |c.src|
  {
  }

  lemma {:induction false} EnteredSkips(c: Cursor, w: Wire)
    requires WellFormed(w) && w.Node? && c.pos + 1 + |w.len| <= |c.src|
    ensures Skipped(Entered(c, w)) == SkippedItems(Entered(c, w), |w.items|)
    ensures w.items == [] ==> Settled(Entered(c, w), 0)
  {
    TableAgrees(w.head, 0);
    SizedEnters(c, w);
    assert !IsMapHead(w.head) ==> IsArrayHead(w.head);
    hide Get, SkippedItems, WellFormed, IsMapHead, IsArrayHead;
  }

  lemma {:induction false} ScalarSettles(c: Cursor, w: Wire)
    requires Plain(w) && w.Leaf? && c.pos + 1 + |w.len| <= |c.src|
    ensures Settled(Skipped(Entered(c, w)), |w.body|)
  {
    TableAgrees(w.head, UintOf(w.len));
    hide Get, LengthSize, BodySize, ItemCount;
  }

  lemma {:induction false} SkipItemsSettle(c: Cursor, ws: seq<Wire>)
    requires AllPlain(ws) && At(c.src, c.pos, EncAll(ws))
    ensures if ws == [] then SkippedItems(c, 0) == c else Settled(SkippedItems(c, |ws|), Tail(ws[|ws| - 1]))
    decreases ws, 0
  {
    hide NextToken, Skipped, SkippedItems, At, Enc, EncAll, Plain, Settled, Tail;
    if ws != [] {
      ItemsAt(c, ws);
      SkipConsumes(c, ws[0]);
      SkipSettles(c, ws[0]);
      ItemsStep(c, |ws|);
      SkipItemsSettle(Skipped(NextToken(c).1), ws[1..]);
      if |ws| == 1 {
        NoItems(Skipped(NextToken(c).1));
      }
    } else {
      NoItems(c);
    }
  }

  /** Skipping once more passes over as many bytes again as that token had, or over all that is left. */
  lemma SkipsAgain(c: Cursor, n: nat)
    requires Settled(c, n)
    ensures Skipped(c) == c.(pos := if c.pos + n <= |c.src| then c.pos + n else |c.src|)
  {
  }

  /** A scalar is skipped whole exactly when it is no ext 8, ext 16 or ext 32; those come out one byte short. */
  lemma SkipScalarExact(c: Cursor, w: Wire)
    requires WellFormed(w) && w.Leaf? && At(c.src, c.pos, Enc(w))
    ensures NextToken(c).0
    ensures Skipped(NextToken(c).1).pos == c.pos + |Enc(w)| - if IsLongExtHead(w.head) then 1 else 0
  {
    NextEnters(c, w);
    TableAgrees(w.head, UintOf(w.len));
  }

  // The three ways Next ends

  lemma NextNothing(c: Cursor)
    requires c.pos == |c.src|
    ensures NextToken(c) == (false, c.(err := Some(c.end), byt := 0))
  {
  }

  /** The cursor behind the head byte. */
  function BehindHead(c: Cursor): Cursor
    requires c.pos < |c.src|
  {
    c.(pos := c.pos + 1, err := None, byt := c.src[c.pos], typ := Get(c.src[c.pos]).typ)
  }

  lemma NextShort(c: Cursor)
    requires c.pos < |c.src| && !Get(c.src[c.pos]).isValueLength && c.pos + 1 + Get(c.src[c.pos]).length > |c.src|
    ensures NextToken(c) == (false, BehindHead(c).(err := Some(ShortRead(BehindHead(c)))))
  {
    hide Get;
  }

  lemma NextSized(c: Cursor, p: nat)
    requires c.pos < |c.src| && p <= |c.src|
    requires p == c.pos + 1 + if Get(c.src[c.pos]).isValueLength then 0 else Get(c.src[c.pos]).length
    ensures var h := Get(c.src[c.pos]);
      var n := if h.isValueLength then h.length else UintFromBuf(c.src[c.pos + 1..p]);
      NextToken(c) == (true, Sized(BehindHead(c).(pos := p), n))
  {
    hide Get, UintFromBuf;
  }

  /** The iterator itself. The ring buffer behind it is what it delivers and a position in that. */
  class Iterator {
    var src: bytes
    var end: Error
    var pos: nat
    var err: Option<Error>
    var length: nat
    var items: nat
    var byt: byte
    var typ: Type

    ghost predicate Valid()
      reads this
    {
      pos <= |src|
    }

    ghost function View(): Cursor
      requires Valid()
      reads this
    {
      Cursor(src, end, pos, err, length, items, byt, typ)
    }

    constructor (src: bytes, end: Error)
      ensures Valid() && View() == Fresh(src, end)
    {
      this.src, this.end, pos, err := src, end, 0, None;
      length, items, byt, typ := 0, 0, 0, Invalid;
    }

    method Next() returns (ok: bool)
      requires Valid()
      modifies this
      ensures Valid() && (ok, View()) == NextToken(old(View()))
    {
      hide NextToken, Get, UintFromBuf, Sized;
      ghost var c := View();
      err := None;
      if pos == |src| {
        NextNothing(c);
        byt, err := 0, Some(end);
        return false;
      }
      byt := src[pos];
      pos := pos + 1;
      var head := Get(byt);
      typ := head.typ;
      var n := head.length;
      assert View() == BehindHead(c);
      if !head.isValueLength {
        if pos + n > |src| {
          NextShort(c);
          err := Some(if end == EOF && pos < |src| then UnexpectedEOF else end);
          return false;
        }
        var buf := src[pos..pos + n];
        pos := pos + n;
        n := UintFromBuf(buf);
      }
      NextSized(c, pos);
      SetLength(n);
      return true;
    }

    /** The last part of Next. */
    method SetLength(n: nat)
      requires Valid()
      modifies this`length, this`items
      ensures Valid() && View() == Sized(old(View()), n)
    {
      if typ == Array || typ == Map {
        length, items := 0, n;
      } else {
        length, items := n, 0;
      }
    }

    method NextExpectedType(expected: set<Type>) returns (e: Option<Error>)
      requires Valid()
      modifies this
      ensures Valid() && (e, View()) == Expect(old(View()), expected)
    {
      var ok := Next();
      if !ok {
        return err;
      }
      if typ in expected {
        return None;
      }
      return Some(InvalidHeaderByte);
    }

    /** The payload of the current token; Bin and Str return it as it is. */
    method Str() returns (b: bytes)
      requires Valid()
      modifies this
      ensures Valid() && (b, View()) == Raw(old(View()))
    {
      if pos + length <= |src| {
        b, err := src[pos..pos + length], None;
        pos := pos + length;
      } else {
        b, err := [], Some(if end == EOF && pos < |src| then UnexpectedEOF else end);
      }
    }

    /** The limited reader over the payload: what it delivers, and how it ends. */
    method Reader() returns (payload: bytes, limit: Error)
      requires Valid()
      ensures payload == Payload(View()) && limit == PayloadError(View())
    {
      if pos + length <= |src| {
        payload, limit := src[pos..pos + length], EOF;
      } else {
        payload, limit := src[pos..], end;
      }
    }

    method Time() returns (t: Time)
      requires Valid()
      modifies this
      ensures Valid() && (t, View()) == TimeOf(old(View()))
    {
      var b := Str();
      t := if err == None then ReadTimeUnsafe(byt, b) else ZERO_TIME;
    }

    method Discard()
      requires Valid()
      modifies this`pos
      ensures Valid() && View() == Discarded(old(View()))
    {
      if typ != Array && typ != Map {
        pos := if pos + length <= |src| then pos + length else |src|;
      }
    }

    method Skip()
      requires Valid()
      modifies this
      ensures Valid() && View() == Skipped(old(View()))
      decreases |src| - pos, 1
    {
      var n := if typ == Map then 2 * items else items;
      Discard();
      SkipItems(n);
    }

    /** The loop of Skip. */
    method SkipItems(n: nat)
      requires Valid()
      modifies this
      ensures Valid() && View() == SkippedItems(old(View()), n)
      decreases |src| - pos, 0
    {
      hide Skipped, NextToken;
      for i := 0 to n
        invariant Valid() && src == old(src) && end == old(end) && old(pos) <= pos
        invariant SkippedItems(View(), n - i) == SkippedItems(old(View()), n)
      {
        var ok := Next();
        if !ok {
          break;
        }
        Skip();
      }
    }
  }
}
