/** Log records read back: what their bytes say, by readers that know nothing of the writer. */
module ReadBack {
  import opened Bytes
  import opened Types
  import opened Results
  import opened Integers
  import opened Strings
  import opened Wires
  import opened Iterators
  import opened Lookahead
  import opened Records

  /** The token at p is of that type, has that payload and ends at q. */
  predicate TokenReads(src: bytes, p: nat, typ: Type, payload: bytes, q: int)
    requires p <= |src|
  {
    var (ok, c) := NextToken(Fresh(src, EOF).(pos := p));
    ok && c.typ == typ && Raw(c).0 == payload && Raw(c).1.err == None && Raw(c).1.pos == q
  }

  /** The value between p and q is that of the argument. */
  predicate ValueReads(src: bytes, p: nat, arg: Arg, q: int)
    requires !arg.Appending?
  {
    && p < |src|
    && match arg
       case Text(s) => Get(src[p]).typ == Str && ReadString(src, p) == Ok(s, q)
       case Appender(s) => Get(src[p]).typ == Str && ReadString(src, p) == Ok(s, q)
       case Printed(s) => Get(src[p]).typ == Str && ReadString(src, p) == Ok(s, q)
       case Blob(data) => TokenReads(src, p, Type.Bin, data, q)
       case Json(data) => TokenReads(src, p, Type.Bin, data, q)
       case Boolean(b) => q == p + 1 && (if b then src[p] == 0xc3 else src[p] == 0xc2)
       case Float(raw) =>
         q == p + 1 + |raw| <= |src| && src[p + 1..q] == raw && src[p] == if |raw| == 4 then 0xca else 0xcb
       case Signed(i) => ReadInt(src, p) == Ok(i, q)
       case Unsigned(u) => ReadUint(src, p) == Ok(u, q)
  }

  lemma {:induction false} ReadsStrWire(src: bytes, p: nat, s: bytes)
    requires |s| < LIMIT && At(src, p, Enc(StrWire(s)))
    ensures p < |src| && Get(src[p]).typ == Str && ReadString(src, p) == Ok(s, p + |Enc(StrWire(s))|)
  {
    StrEnc(s);
    StringExact(src, p, s);
    StrHead(|s|);
    hide StringHeader, ReadString;
    HeadAt(src, p, Enc(StrWire(s)));
  }

  lemma StrHead(l: nat)
    ensures Get(StringHeader(l)[0]).typ == Str
  {
  }

  lemma HeadAt(src: bytes, p: nat, e: bytes)
    requires e != [] && At(src, p, e)
    ensures p < |src| && src[p] == e[0]
  {
    assert src[p] == src[p..p + |e|][0];
  }

  lemma {:induction false} ReadsAppender(src: bytes, p: nat, s: bytes)
    requires |s| < LIMIT && At(src, p, Enc(Leaf(0xdb, BigEndian(4, |s|), s)))
    ensures p < |src| && Get(src[p]).typ == Str && ReadString(src, p) == Ok(s, p + 5 + |s|)
  {
    assert Enc(Leaf(0xdb, BigEndian(4, |s|), s)) == [0xdb] + BigEndian(4, |s|) + s;
    hide ReadString, BigEndian;
    Str32At(src, p, s);
    HeadAt(src, p, [0xdb] + BigEndian(4, |s|) + s);
  }

  lemma {:induction false} ReadsBin(src: bytes, p: nat, w: Wire)
    requires WellFormed(w) && w.Leaf? && IsBinHead(w.head) && At(src, p, Enc(w))
    ensures p < |src| && TokenReads(src, p, Type.Bin, w.body, p + |Enc(w)|)
  {
    var c := Fresh(src, EOF).(pos := p);
    var rest := src[p + |Enc(w)|..];
    assert src[p..] == Enc(w) + rest;
    TableAgrees(w.head, UintOf(w.len));
    assert |Enc(w)| == 1 + |w.len| + |w.body|;
    hide NextToken, Get, Enc, Raw;
    AheadNext(c, w, rest);
    AheadRaw(Entered(c, w), w.body, rest);
  }

  /** What is written for an argument reads back as the argument. */
  lemma {:induction false} ArgReads(src: bytes, p: nat, arg: Arg)
    requires Records.Sized(arg) && !arg.Appending? && At(src, p, Enc(ArgWire(arg)))
    ensures ValueReads(src, p, arg, p + |Enc(ArgWire(arg))|)
  {
    hide StrWire, BinWire, IntWire, UintWire, Enc, At, ReadString, ReadInt, ReadUint, TokenReads, BigEndian;
    match arg
    case Text(s) => ReadsStrWire(src, p, s);
    case Printed(s) => ReadsStrWire(src, p, s);
    case Appender(s) =>
      CountedSize(0xdb, s);
      ReadsAppender(src, p, s);
    case Blob(data) =>
      BinPlain(data);
      ReadsBin(src, p, BinWire(data));
    case Json(data) =>
      CountedPlain(0xc6, 4, data);
      ReadsBin(src, p, ArgWire(arg));
    case Boolean(b) => ScalarAt(src, p, if b then 0xc3 else 0xc2, []);
    case Float(raw) => ScalarAt(src, p, if |raw| == 4 then 0xca else 0xcb, raw);
    case Signed(i) =>
      IntEnc(i);
      HeadAt(src, p, Enc(IntWire(i)));
      IntRoundTrip(src, p, i);
    case Unsigned(u) =>
      UintEnc(u);
      HeadAt(src, p, Enc(UintWire(u)));
      UintRoundTrip(src, p, u);
  }

  lemma CountedSize(h: byte, s: bytes)
    ensures |Enc(Leaf(h, BigEndian(4, |s|), s))| == 5 + |s|
  {
  }

  lemma BinPlain(data: bytes)
    requires |data| < LIMIT
    ensures WellFormed(BinWire(data)) && BinWire(data).Leaf? && IsBinHead(BinWire(data).head)
    ensures BinWire(data).body == data
  {
    BinEnc(data);
  }

  lemma ScalarAt(src: bytes, p: nat, h: byte, body: bytes)
    requires At(src, p, Enc(Leaf(h, [], body)))
    ensures |Enc(Leaf(h, [], body))| == 1 + |body|
    ensures p + 1 + |body| <= |src| && src[p] == h && src[p + 1..p + 1 + |body|] == body
  {
    assert Enc(Leaf(h, [], body)) == [h] + body;
    AtConcat(src, p, [h], body);
    HeadAt(src, p, [h]);
  }

  /** What a list of arguments is made of: a key with its value, a value where a key was wanted, or an empty
      string there. */
  datatype Field = Keyed(key: bytes, value: Arg) | Keyless(value: Arg) | Nothing

  predicate ValidField(f: Field) {
    match f
    case Keyed(key, arg) => key != [] && |key| < LIMIT && Records.Sized(arg)
    case Keyless(arg) => !arg.Text? && Records.Sized(arg)
    case Nothing => true
  }

  predicate ValidFields(fs: seq<Field>) {
    forall k :: 0 <= k < |fs| ==> ValidField(fs[k])
  }

  function Spelt(f: Field): seq<Arg> {
    match f
    case Keyed(key, arg) => [Text(key), arg]
    case Keyless(arg) => [arg]
    case Nothing => [Text([])]
  }

  /** The arguments; a key may stand alone at the end. */
  function SpeltAll(fs: seq<Field>, last: Option<bytes>): seq<Arg> {
    if fs == [] then if last.None? then [] else [Text(last.value)] else Spelt(fs[0]) + SpeltAll(fs[1..], last)
  }

  /** Every argument list is made of these. */
  lemma {:induction false} EveryArgs(args: seq<Arg>) returns (fs: seq<Field>, last: Option<bytes>)
    requires AllSized(args)
    ensures ValidFields(fs) && args == SpeltAll(fs, last) && (last.Some? ==> last.value != [])
    decreases |args|
  {
    fs, last := [], None;
    if args != [] {
      var first: Field;
      if args[0] == Text([]) {
        first := Nothing;
      } else if !args[0].Text? {
        first := Keyless(args[0]);
      } else if |args| > 1 {
        first := Keyed(args[0].s, args[1]);
      } else {
        last := Some(args[0].s);
        return;
      }
      var n := |Spelt(first)|;
      assert args[..n] == Spelt(first);
      fs, last := EveryArgs(args[n..]);
      assert args == args[..n] + args[n..];
      var more := fs;
      fs := [first] + more;
      assert fs[1..] == more;
    }
  }

  /** How many pairs a field makes. A value that appends pairs itself brings its own. */
  function FieldPairs(f: Field): nat {
    match f
    case Keyed(_, arg) => if arg.Appending? then |arg.pairs| else 1
    case Keyless(arg) => if arg.Appending? then |arg.pairs| else 1
    case Nothing => 0
  }

  function FieldsPairs(fs: seq<Field>): nat {
    if fs == [] then 0 else FieldPairs(fs[0]) + FieldsPairs(fs[1..])
  }

  /** Between p and q stand the key and then the value, or the value's own pairs. */
  predicate PairReads(src: bytes, p: nat, key: bytes, arg: Arg, q: int) {
    if arg.Appending? then q == p + |PairBytes(arg.pairs)| && At(src, p, PairBytes(arg.pairs))
    else
      var r := ReadString(src, p);
      r.Ok? && r.value == key && r.next >= 0 && ValueReads(src, r.next, arg, q)
  }

  predicate FieldReads(src: bytes, p: nat, f: Field, q: int) {
    match f
    case Keyed(key, arg) => PairReads(src, p, key, arg, q)
    case Keyless(arg) => PairReads(src, p, [], arg, q)
    case Nothing => q == p
  }

  /** The fields stand between p and q, one behind the other. */
  ghost predicate FieldsRead(src: bytes, p: nat, fs: seq<Field>, q: nat)
    decreases fs
  {
    if fs == [] then q == p
    else exists m: nat :: FieldReads(src, p, fs[0], m) && FieldsRead(src, m, fs[1..], q)
  }

  /** The pairs of one field. */
  function PairsOf(f: Field): seq<Pair> {
    match f
    case Keyed(key, arg) => ArgPairs(key, arg)
    case Keyless(arg) => ArgPairs([], arg)
    case Nothing => []
  }

  function PairsOfAll(fs: seq<Field>): seq<Pair> {
    if fs == [] then [] else PairsOf(fs[0]) + PairsOfAll(fs[1..])
  }

  /** The pairs an argument list stands for are those of its fields. */
  lemma {:induction false} PairsOfArgs(fs: seq<Field>, last: Option<bytes>)
    requires ValidFields(fs) && (last.Some? ==> last.value != [])
    ensures Pairs([], SpeltAll(fs, last)) == PairsOfAll(fs)
    decreases fs
  {
    hide Pairs, PairsOf;
    if fs == [] {
      LastKeyDropped(last);
    } else {
      PairsOfArgs(fs[1..], last);
      PairsAhead(fs[0], SpeltAll(fs[1..], last));
    }
  }

  lemma {:induction false} PairsAhead(f: Field, more: seq<Arg>)
    requires ValidField(f)
    ensures Pairs([], Spelt(f) + more) == PairsOf(f) + Pairs([], more)
  {
    hide ArgPairs;
    match f
    case Keyed(key, arg) =>
      assert (Spelt(f) + more)[1..] == [arg] + more && ([arg] + more)[1..] == more;
    case Keyless(arg) =>
      assert (Spelt(f) + more)[1..] == more;
    case Nothing =>
      assert (Spelt(f) + more)[1..] == more;
  }

  lemma {:induction false} LastKeyDropped(last: Option<bytes>)
    requires last.Some? ==> last.value != []
    ensures Pairs([], SpeltAll([], last)) == []
  {
    if last.Some? {
      assert [Text(last.value)][1..] == [];
    }
  }

  lemma {:induction false} PairRead(src: bytes, p: nat, key: bytes, arg: Arg)
    requires |key| < LIMIT && Records.Sized(arg) && At(src, p, PairBytes(ArgPairs(key, arg)))
    ensures PairReads(src, p, key, arg, p + |PairBytes(ArgPairs(key, arg))|)
    ensures |ArgPairs(key, arg)| == if arg.Appending? then |arg.pairs| else 1
  {
    hide Enc, PairBytes, ArgWire, StrWire, At, ReadString, ValueReads;
    if !arg.Appending? {
      PairBytesOne(key, ArgWire(arg));
      AtConcat(src, p, Enc(StrWire(key)), Enc(ArgWire(arg)));
      ReadsStrWire(src, p, key);
      ArgReads(src, p + |Enc(StrWire(key))|, arg);
    }
  }

  lemma {:induction false} FieldRead(src: bytes, p: nat, f: Field)
    requires ValidField(f) && At(src, p, PairBytes(PairsOf(f)))
    ensures FieldReads(src, p, f, p + |PairBytes(PairsOf(f))|) && |PairsOf(f)| == FieldPairs(f)
  {
    hide PairBytes, ArgPairs, At, PairReads;
    match f
    case Keyed(key, arg) => PairRead(src, p, key, arg);
    case Keyless(arg) => PairRead(src, p, [], arg);
    case Nothing => PairBytesMore([], []);
  }

  lemma {:induction false} AllRead(src: bytes, p: nat, fs: seq<Field>)
    requires ValidFields(fs) && At(src, p, PairBytes(PairsOfAll(fs)))
    ensures FieldsRead(src, p, fs, p + |PairBytes(PairsOfAll(fs))|) && |PairsOfAll(fs)| == FieldsPairs(fs)
    decreases fs
  {
    hide PairBytes, PairsOf, At, FieldReads;
    if fs == [] {
      PairBytesMore([], []);
    } else {
      var now, later := PairBytes(PairsOf(fs[0])), PairBytes(PairsOfAll(fs[1..]));
      PairBytesMore(PairsOf(fs[0]), PairsOfAll(fs[1..]));
      AtConcat(src, p, now, later);
      FieldRead(src, p, fs[0]);
      AllRead(src, p + |now|, fs[1..]);
    }
  }

  /** The arguments read back: the bytes written for them hold, one behind the other, each key with its
      value, each value without a key behind an empty one, and nothing for an empty string or for a key at
      the end. */
  lemma {:induction false} ArgsRead(src: bytes, p: nat, fs: seq<Field>, last: Option<bytes>)
    requires ValidFields(fs) && (last.Some? ==> last.value != [])
    requires At(src, p, PairBytes(Pairs([], SpeltAll(fs, last))))
    ensures FieldsRead(src, p, fs, p + |PairBytes(Pairs([], SpeltAll(fs, last)))|)
    ensures |Pairs([], SpeltAll(fs, last))| == FieldsPairs(fs)
  {
    hide PairBytes, Pairs, PairsOfAll, SpeltAll, FieldsRead, FieldsPairs, At, ValidFields;
    PairsOfArgs(fs, last);
    AllRead(src, p, fs);
  }
}
