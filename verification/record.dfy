/** Arguments, pairs and the values the logger writes for them. */
module Records {
  import opened Bytes
  import opened Integers
  import opened Strings
  import opened Wires

  /** A value by the case of appendKeyValue it takes. A text appender and a value for JSON come with what
      they append, a Stringer and an error with their text, a float with its 4 or 8 bytes, and a
      KeyValueAppender with the pairs it appends for its key and counts. */
  datatype Arg =
    | Appending(pairs: seq<Pair>)
    | Text(s: bytes)
    | Appender(s: bytes)
    | Printed(s: bytes)
    | Blob(data: bytes)
    | Boolean(b: bool)
    | Float(raw: bytes)
    | Signed(i: int64)
    | Unsigned(u: uint64)
    | Json(data: bytes)

  datatype Pair = Pair(key: bytes, value: Wire)

  const LIMIT := 0x1_0000_0000

  /** Addition of uint8, which wraps around. */
  function Add8(a: byte, b: byte): byte {
    var sum: int := a + b;
    sum % 256
  }

  lemma Add8Sum(a: nat, b: nat)
    ensures Add8(a % 256, b % 256) == (a + b) % 256
  {
    var sum := a % 256 + b % 256;
    var q, r := sum / 256, sum % 256;
    ModUnique(a + b, 256, a / 256 + b / 256 + q, r);
  }

  /** The sizes Go's strings and slices in a log call have in practice, and a float's two. */
  predicate Sized(arg: Arg) {
    match arg
    case Appending(pairs) => PlainPairs(pairs)
    case Text(s) => |s| < LIMIT
    case Appender(s) => |s| < LIMIT
    case Printed(s) => |s| < LIMIT
    case Blob(data) => |data| < LIMIT
    case Json(data) => |data| < LIMIT
    case Float(raw) => |raw| == 4 || |raw| == 8
    case _ => true
  }

  predicate AllSized(args: seq<Arg>) {
    forall k :: 0 <= k < |args| ==> Sized(args[k])
  }

  function StrWire(s: bytes): Wire {
    Leaf(StringHeader(|s|)[0], StringHeader(|s|)[1..], s)
  }

  function BinWire(data: bytes): Wire {
    Leaf(BinaryHeader(|data|)[0], BinaryHeader(|data|)[1..], data)
  }

  function UintWire(u: uint64): Wire {
    Leaf(UintBytes(u)[0], [], UintBytes(u)[1..])
  }

  function IntWire(i: int64): Wire {
    Leaf(IntBytes(i)[0], [], IntBytes(i)[1..])
  }

  /** The value appendKeyValue writes for an argument. */
  function ArgWire(arg: Arg): Wire
    requires !arg.Appending?
  {
    match arg
    case Text(s) => StrWire(s)
    case Appender(s) => Leaf(0xdb, BigEndian(4, |s|), s)
    case Printed(s) => StrWire(s)
    case Blob(data) => BinWire(data)
    case Boolean(b) => Leaf(if b then 0xc3 else 0xc2, [], [])
    case Float(raw) => Leaf(if |raw| == 4 then 0xca else 0xcb, [], raw)
    case Signed(i) => IntWire(i)
    case Unsigned(u) => UintWire(u)
    case Json(data) => Leaf(0xc6, BigEndian(4, |data|), data)
  }

  /** The pairs of one call of appendKeyValue. */
  function ArgPairs(key: bytes, arg: Arg): seq<Pair> {
    if arg.Appending? then arg.pairs else [Pair(key, ArgWire(arg))]
  }

  /** The pairs an argument list stands for: where a key is wanted a non-empty string becomes one, an empty
      string is passed over and anything else is a value without key; a key at the end is dropped. */
  function Pairs(key: bytes, args: seq<Arg>): seq<Pair>
    decreases args
  {
    if args == [] then []
    else if key == [] && args[0].Text? then Pairs(args[0].s, args[1..])
    else ArgPairs(key, args[0]) + Pairs([], args[1..])
  }

  /** Keys and values in turn. */
  function Items(pairs: seq<Pair>): seq<Wire> {
    if pairs == [] then [] else [StrWire(pairs[0].key), pairs[0].value] + Items(pairs[1..])
  }

  /** The bytes of a map's pairs. */
  function PairBytes(pairs: seq<Pair>): bytes {
    EncAll(Items(pairs))
  }

  predicate PlainPairs(pairs: seq<Pair>) {
    forall k :: 0 <= k < |pairs| ==> |pairs[k].key| < LIMIT && Plain(pairs[k].value)
  }

  // Encodings

  lemma StrEnc(s: bytes)
    ensures Enc(StrWire(s)) == StringHeader(|s|) + s && IsStr(StrWire(s))
    ensures |s| < LIMIT ==> Plain(StrWire(s))
  {
    HeadAndLength(StringHeader(|s|), s);
    PowValues();
    hide BigEndian, UintOf, Enc;
    if 31 < |s| <= 0xff {
      CountedPlain(0xd9, 1, s);
    } else if 0xff < |s| <= 0xffff {
      CountedPlain(0xda, 2, s);
    } else if 0xffff < |s| < LIMIT {
      CountedPlain(0xdb, 4, s);
    }
  }

  lemma {:induction false} CountedPlain(h: byte, n: nat, body: bytes)
    requires n == LengthSize(h) > 0 && ((IsStrHead(h) && h > 0xbf) || IsBinHead(h)) && |body| < Pow256(n)
    ensures Plain(Leaf(h, BigEndian(n, |body|), body))
    ensures ([h] + BigEndian(n, |body|))[1..] == BigEndian(n, |body|)
  {
    LengthSpelt(n, |body|);
    BehindHead(h, BigEndian(n, |body|));
    CountedHead(h, |body|);
    hide BigEndian, UintOf, Pow256, LengthSize, BodySize, IsArrayHead, IsMapHead, IsLongExtHead, IsStrHead, IsBinHead;
  }

  lemma CountedHead(h: byte, l: nat)
    requires (IsStrHead(h) && h > 0xbf) || IsBinHead(h)
    ensures BodySize(h, l) == l && !IsArrayHead(h) && !IsMapHead(h) && !IsLongExtHead(h) && h != 0xc1
  {
  }

  lemma BehindHead(h: byte, rest: bytes)
    ensures ([h] + rest)[1..] == rest
  {
  }

  lemma HeadAndLength(header: bytes, body: bytes)
    requires header != []
    ensures Enc(Leaf(header[0], header[1..], body)) == header + body
  {
    assert header == [header[0]] + header[1..];
  }

  lemma LengthSpelt(n: nat, l: nat)
    ensures l < Pow256(n) ==> UintOf(BigEndian(n, l)) == l
  {
    UintOfBigEndian(n, l);
    if l < Pow256(n) {
      ModUnique(l, Pow256(n), 0, l);
    }
  }

  lemma BinEnc(data: bytes)
    ensures Enc(BinWire(data)) == BinaryHeader(|data|) + data
    ensures |data| < LIMIT ==> Plain(BinWire(data))
  {
    HeadAndLength(BinaryHeader(|data|), data);
    PowValues();
    hide BigEndian, UintOf, Enc;
    if |data| <= 0xff {
      CountedPlain(0xc4, 1, data);
    } else if |data| <= 0xffff {
      CountedPlain(0xc5, 2, data);
    } else if |data| < LIMIT {
      CountedPlain(0xc6, 4, data);
    }
  }

  lemma UintEnc(u: uint64)
    ensures Enc(UintWire(u)) == UintBytes(u) && Plain(UintWire(u))
  {
    hide BigEndian;
    HeadOnly(UintBytes(u));
  }

  lemma IntEnc(i: int64)
    ensures Enc(IntWire(i)) == IntBytes(i) && Plain(IntWire(i))
  {
    hide BigEndian;
    HeadOnly(IntBytes(i));
  }

  lemma HeadOnly(e: bytes)
    requires e != []
    ensures Enc(Leaf(e[0], [], e[1..])) == e
  {
    assert [e[0]] + [] == [e[0]];
  }

  lemma ArgPlain(arg: Arg)
    requires Sized(arg) && !arg.Appending?
    ensures Plain(ArgWire(arg))
  {
    match arg
    case Text(s) => StrEnc(s);
    case Printed(s) => StrEnc(s);
    case Blob(data) => BinEnc(data);
    case Appender(s) => CountedPlain(0xdb, 4, s);
    case Json(data) => CountedPlain(0xc6, 4, data);
    case Signed(i) => IntEnc(i);
    case Unsigned(u) => UintEnc(u);
    case _ =>
  }

  lemma {:induction false} PairsPlain(key: bytes, args: seq<Arg>)
    requires |key| < LIMIT && AllSized(args)
    ensures PlainPairs(Pairs(key, args))
    decreases args
  {
    if args != [] {
      if key == [] && args[0].Text? {
        PairsPlain(args[0].s, args[1..]);
      } else {
        if !args[0].Appending? {
          ArgPlain(args[0]);
        }
        PairsPlain([], args[1..]);
      }
    }
  }

  lemma {:induction false} ItemsConcat(a: seq<Pair>, b: seq<Pair>)
    ensures Items(a + b) == Items(a) + Items(b)
  {
    if a == [] {
      assert a + b == b;
    } else {
      assert (a + b)[1..] == a[1..] + b;
      ItemsConcat(a[1..], b);
    }
  }

  lemma {:induction false} ItemsPlain(pairs: seq<Pair>)
    requires PlainPairs(pairs)
    ensures |Items(pairs)| == 2 * |pairs| && AllPlain(Items(pairs))
  {
    if pairs != [] {
      StrEnc(pairs[0].key);
      ItemsPlain(pairs[1..]);
    }
  }

  lemma PairBytesMore(a: seq<Pair>, b: seq<Pair>)
    ensures PairBytes([]) == [] && PairBytes(a + b) == PairBytes(a) + PairBytes(b)
  {
    hide Enc;
    ItemsConcat(a, b);
    EncAllConcat(Items(a), Items(b));
  }

  lemma PairBytesOne(key: bytes, value: Wire)
    ensures PairBytes([Pair(key, value)]) == Enc(StrWire(key)) + Enc(value)
  {
    hide Enc, StrWire;
    assert [Pair(key, value)][1..] == [];
    EncAllConcat([StrWire(key)], [value]);
    EncAllOne(StrWire(key));
    EncAllOne(value);
    assert [StrWire(key)] + [value] == [StrWire(key), value] + Items([]);
  }

  // The methods that write them

  method AppendKeyValue(dst: bytes, key: bytes, arg: Arg) returns (r: bytes, n: byte)
    requires Sized(arg)
    ensures r == dst + PairBytes(ArgPairs(key, arg)) && n == |ArgPairs(key, arg)| % 256
  {
    if arg.Appending? {
      r, n := dst + PairBytes(arg.pairs), |arg.pairs| % 256;
      return;
    }
    StrEnc(key);
    PairBytesOne(key, ArgWire(arg));
    hide Enc, StrWire, ArgWire, StringHeader, PairBytes;
    r := AppendString(dst, key);
    r := AppendValue(r, arg);
    Assoc(dst, Enc(StrWire(key)), Enc(ArgWire(arg)));
    n := 1;
  }

  method AppendValue(dst: bytes, arg: Arg) returns (r: bytes)
    requires Sized(arg) && !arg.Appending?
    ensures r == dst + Enc(ArgWire(arg))
  {
    hide StringHeader, BinaryHeader, BigEndian, UintBytes, IntBytes, StrWire, BinWire, IntWire, UintWire;
    match arg {
      case Text(s) =>
        StrEnc(s);
        r := AppendString(dst, s);
      case Appender(s) =>
        r := AppendStringUnknownLength(dst, s);
      case Printed(s) =>
        StrEnc(s);
        r := AppendString(dst, s);
      case Blob(data) =>
        BinEnc(data);
        r := AppendBinary(dst, data);
      case Boolean(b) =>
        r := dst + [if b then 0xc3 else 0xc2];
      case Float(raw) =>
        r := dst + ([if |raw| == 4 then 0xca else 0xcb] + raw);
      case Signed(i) =>
        IntEnc(i);
        r := AppendInt(dst, i);
      case Unsigned(u) =>
        UintEnc(u);
        r := AppendUint(dst, u);
      case Json(data) =>
        r := AppendBinaryUnknownLength(dst, data);
    }
  }

  /** appendArgs: the pairs behind dst, and how many modulo 256. */
  method AppendArgs(dst: bytes, args: seq<Arg>) returns (r: bytes, n: byte)
    requires AllSized(args)
    ensures r == dst + PairBytes(Pairs([], args))
    ensures n == |Pairs([], args)| % 256
  {
    r, n := dst, 0;
    var key: bytes := [];
    ghost var done: seq<Pair> := [];
    assert args[0..] == args && done + Pairs([], args) == Pairs([], args);
    PairBytesMore([], []);
    assert dst + [] == dst;
    NoPairs();
    hide PairBytes, Enc, Pairs, ArgPairs, StrWire, Add8, Sized;
    for i := 0 to |args|
      invariant Pairs([], args) == done + Pairs(key, args[i..])
      invariant r == dst + PairBytes(done) && n == |done| % 256
    {
      PairsStep(done, key, args, i);
      if key == [] && args[i].Text? {
        key := args[i].s;
        continue;
      }
      ghost var more := ArgPairs(key, args[i]);
      PairsBehind(dst, r, n, done, more);
      var nn;
      r, nn := AppendKeyValue(r, key, args[i]);
      done := done + more;
      key := [];
      n := Add8(n, nn);
    }
    assert args[|args|..] == [] && done + [] == done;
  }

  /** Bytes and count once more pairs are behind those already written. */
  lemma PairsBehind(dst: bytes, r: bytes, n: byte, done: seq<Pair>, more: seq<Pair>)
    requires r == dst + PairBytes(done) && n == |done| % 256
    ensures r + PairBytes(more) == dst + PairBytes(done + more) && Add8(n, |more| % 256) == |done + more| % 256
  {
    hide PairBytes, Add8;
    PairBytesMore(done, more);
    Assoc(dst, PairBytes(done), PairBytes(more));
    Add8Sum(|done|, |more|);
  }

  lemma NoPairs()
    ensures forall key: bytes :: Pairs(key, []) == []
  {
  }

  /** One argument is taken off: it becomes the key, or ends a pair. */
  lemma PairsStep(done: seq<Pair>, key: bytes, args: seq<Arg>, i: nat)
    requires i < |args|
    ensures key == [] && args[i].Text? ==> Pairs(key, args[i..]) == Pairs(args[i].s, args[i + 1..])
    ensures !(key == [] && args[i].Text?) ==>
              done + Pairs(key, args[i..]) == (done + ArgPairs(key, args[i])) + Pairs([], args[i + 1..])
  {
    assert args[i..][1..] == args[i + 1..];
    hide ArgPairs;
  }
}
