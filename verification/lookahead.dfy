/** What the cursor operations do to the bytes that lie ahead of the cursor. */
module Lookahead {
  import opened Bytes
  import opened Types
  import opened Results
  import opened Timestamps
  import opened Wires
  import opened Iterators

  /** Exactly e lies between the cursor and the end of what its reader delivers. */
  predicate Ahead(c: Cursor, e: bytes) {
    c.src[c.pos..] == e
  }

  lemma SplitAhead(c: Cursor, a: bytes, b: bytes)
    requires Ahead(c, a + b)
    ensures c.pos + |a| <= |c.src| && c.src[c.pos..c.pos + |a|] == a && c.src[c.pos + |a|..] == b
  {
    var s := c.src[c.pos..];
    assert s[..|a|] == a && s[|a|..] == b;
  }

  /** The next token is the head of a value; what follows need not be its inside. */
  lemma {:induction false} AheadHead(c: Cursor, w: Wire, rest: bytes)
    requires WellFormed(w) && Ahead(c, ([w.head] + w.len) + rest)
    ensures c.pos + 1 + |w.len| <= |c.src| && NextToken(c) == (true, Entered(c, w)) && Ahead(Entered(c, w), rest)
  {
    hide NextToken, Get, LengthSize, WellFormed;
    SplitAhead(c, [w.head] + w.len, rest);
    NextHead(c, w);
  }

  lemma {:induction false} ExpectHead(c: Cursor, w: Wire, rest: bytes, types: set<Type>)
    requires WellFormed(w) && Ahead(c, ([w.head] + w.len) + rest) && Get(w.head).typ in types
    ensures c.pos + 1 + |w.len| <= |c.src| && Expect(c, types) == (None, Entered(c, w)) && Ahead(Entered(c, w), rest)
  {
    hide NextToken, Get, WellFormed;
    AheadHead(c, w, rest);
  }

  lemma {:induction false} AheadNext(c: Cursor, w: Wire, rest: bytes)
    requires WellFormed(w) && Ahead(c, Enc(w) + rest)
    ensures NextToken(c) == (true, Entered(c, w))
    ensures Ahead(Entered(c, w), Inside(w) + rest)
  {
    hide NextToken, Get, LengthSize, WellFormed;
    assert Enc(w) + rest == ([w.head] + w.len) + (Inside(w) + rest);
    AheadHead(c, w, Inside(w) + rest);
  }

  lemma AheadExpect(c: Cursor, w: Wire, rest: bytes, types: set<Type>)
    requires WellFormed(w) && Ahead(c, Enc(w) + rest) && Get(w.head).typ in types
    ensures Expect(c, types) == (None, Entered(c, w))
    ensures Ahead(Entered(c, w), Inside(w) + rest)
  {
    hide NextToken, Get;
    AheadNext(c, w, rest);
  }

  /** A cursor moved over n bytes. */
  function Over(c: Cursor, n: nat): Cursor
    requires c.pos + n <= |c.src|
  {
    c.(pos := c.pos + n, err := None)
  }

  lemma AheadRaw(c: Cursor, body: bytes, rest: bytes)
    requires c.length == |body| && Ahead(c, body + rest)
    ensures c.pos + |body| <= |c.src| && Raw(c) == (body, Over(c, |body|))
    ensures Ahead(Over(c, |body|), rest)
  {
    SplitAhead(c, body, rest);
  }

  lemma AheadTime(c: Cursor, body: bytes, rest: bytes)
    requires c.length == |body| && Ahead(c, body + rest)
    ensures c.pos + |body| <= |c.src| && TimeOf(c) == (ReadTimeUnsafe(c.byt, body), Over(c, |body|))
    ensures Ahead(Over(c, |body|), rest)
  {
    AheadRaw(c, body, rest);
  }

  lemma AheadSkip(c: Cursor, w: Wire, rest: bytes)
    requires Plain(w) && Ahead(c, Enc(w) + rest)
    ensures NextToken(c).0 && Ahead(Skipped(NextToken(c).1), rest)
  {
    hide NextToken, Skipped, Get;
    SplitAhead(c, Enc(w), rest);
    SkipConsumes(c, w);
  }

  /** Skip from inside a map that has just been entered. */
  lemma {:induction false} AheadSkipMap(c: Cursor, items: seq<Wire>, rest: bytes)
    requires AllPlain(items) && c.typ == Type.Map && 2 * c.items == |items|
    requires Ahead(c, EncAll(items) + rest)
    ensures Skipped(c).pos == c.pos + |EncAll(items)|
    ensures c.src[c.pos..Skipped(c).pos] == EncAll(items) && Ahead(Skipped(c), rest)
  {
    SplitAhead(c, EncAll(items), rest);
    SkipItemsConsumes(c, items);
    EndsAhead(c, EncAll(items), rest);
    hide SkippedItems, EncAll, AllPlain;
  }

  lemma EndsAhead(c: Cursor, e: bytes, rest: bytes)
    requires Ahead(c, e + rest)
    ensures c.pos + |e| <= |c.src| && c.src[c.pos + |e|..] == rest
  {
    SplitAhead(c, e, rest);
  }
}
