/** Timestamps: six encodings with different ranges, the checked reader and the unchecked one. */
module Timestamps {
  import opened Bytes
  import opened Types
  import opened Results
  import opened Integers

  type nanos = n: int | 0 <= n < 1_000_000_000

  /** A time.Time, as its Unix seconds and its nanoseconds within the second. */
  datatype Time = Time(sec: int64, ns: nanos)

  /** time.Unix: nanoseconds outside the second carry over, and the seconds wrap. */
  function UnixTime(sec: int64, ns: int): Time {
    Time(ToInt64((sec + ns / 1_000_000_000) % 0x1_0000_0000_0000_0000), ns % 1_000_000_000)
  }

  /** time.Time{}: the first of January of year 1. */
  const ZERO_TIME := Time(-62135596800, 0)

  datatype Format = TsAuto | Ts32 | Ts64 | Ts96 | TsInt | TsFluentd

  const MSGPACK_TIMESTAMP: byte := 0xff
  const FLUENTD_EVENT_TIME: byte := 0x00
  const TWO30 := 0x4000_0000
  const TWO34 := 0x4_0000_0000

  /** The format TsAuto settles on. */
  function Resolve(t: Time, f: Format): Format {
    if f != TsAuto then f else if t.sec < 0 then Ts96 else if t.ns == 0 then Ts32 else Ts64
  }

  /** The bytes AppendTimestamp appends. */
  function TimestampBytes(t: Time, f: Format): bytes {
    match Resolve(t, f)
    case Ts32 => [0xd6] + [MSGPACK_TIMESTAMP] + BigEndian(4, t.sec)
    case Ts64 => [0xd7] + [MSGPACK_TIMESTAMP] + BigEndian(8, t.ns + (t.sec % TWO34) * TWO30)
    case Ts96 => [0xc7, 12] + [MSGPACK_TIMESTAMP] + BigEndian(4, t.ns) + BigEndian(8, t.sec)
    case TsInt => IntBytes(t.sec)
    case _ => [0xd7] + [FLUENTD_EVENT_TIME] + BigEndian(4, t.sec) + BigEndian(4, t.ns)
  }

  function AppendTimestamp(dst: bytes, t: Time, f: Format): bytes {
    dst + TimestampBytes(t, f)
  }

  function Combined(v: uint64): Time {
    UnixTime(v / TWO30, v % TWO30)
  }

  function EventTime(sec: bytes, ns: bytes): Time {
    UnixTime(IntFromBuf(sec), IntFromBuf(ns))
  }

  function ReadTimestamp(src: bytes, offset: nat): Read<Time> {
    if offset >= |src| then Err(UnexpectedEOF) else
    var c := src[offset];
    var h := Get(c);
    var o := offset + 1;
    if !h.isValueLength && o + h.length > |src| then Err(ShortBuffer) else
    var length := if h.isValueLength then h.length else UintFromBuf(src[o..o + h.length]);
    var p := if h.isValueLength then o else o + h.length;
    if p + length > |src| then Err(ShortBuffer) else
    match c
    case 0xd6 =>
      if src[p] != MSGPACK_TIMESTAMP then Err(InvalidExtByte)
      else Ok(UnixTime(ToInt64(UintFromBuf(src[p + 1..p + 5])), 0), p + 5)
    case 0xd7 =>
      if src[p] == MSGPACK_TIMESTAMP then Ok(Combined(UintFromBuf(src[p + 1..p + 9])), p + 9)
      else if src[p] == FLUENTD_EVENT_TIME then Ok(EventTime(src[p + 1..p + 5], src[p + 5..p + 9]), p + 9)
      else Err(InvalidExtByte)
    case 0xc7 =>
      if p == |src| then Panic
      else if src[p] == MSGPACK_TIMESTAMP then
        if p + 13 > |src| then Panic
        else Ok(UnixTime(ToInt64(UintFromBuf(src[p + 5..p + 13])), UintFromBuf(src[p + 1..p + 5])), p + 1 + length)
      else if src[p] == FLUENTD_EVENT_TIME then
        if p + 9 > |src| then Panic
        else Ok(EventTime(src[p + 1..p + 5], src[p + 5..p + 9]), p + 1 + length)
      else Err(InvalidExtByte)
    case _ =>
      match ReadInt(src, offset)
      case Ok(v, next) => Ok(UnixTime(v, 0), next)
      case Err(e) => Err(e)
      case Panic => Panic
  }

  /** readTimeUnsafe, on a head byte and the payload the iterator cut for it. */
  function ReadTimeUnsafe(c: byte, src: bytes): Time {
    if |src| < 5 then UnixTime(ReadIntUnsafe(c, src), 0) else
    match c
    case 0xd6 =>
      if src[0] == MSGPACK_TIMESTAMP then UnixTime(ToInt64(UintFromBuf(src[1..5])), 0) else UnixTime(0, 0)
    case 0xd7 =>
      if |src| != 9 then UnixTime(0, 0)
      else if src[0] == MSGPACK_TIMESTAMP then Combined(UintFromBuf(src[1..9]))
      else if src[0] == FLUENTD_EVENT_TIME then EventTime(src[1..5], src[5..9])
      else UnixTime(0, 0)
    case 0xc7 =>
      if src[0] == MSGPACK_TIMESTAMP then
        if |src| == 13 then UnixTime(ToInt64(UintFromBuf(src[5..13])), UintFromBuf(src[1..5])) else UnixTime(0, 0)
      else if src[0] == FLUENTD_EVENT_TIME && |src| == 9 then EventTime(src[1..5], src[5..9])
      else UnixTime(0, 0)
    case _ => UnixTime(ReadIntUnsafe(c, src), 0)
  }

  /** The times each format can carry. */
  predicate InRange(t: Time, f: Format) {
    match f
    case Ts32 => 0 <= t.sec < 0x1_0000_0000 && t.ns == 0
    case Ts64 => 0 <= t.sec < TWO34
    case Ts96 => true
    case TsInt => t.ns == 0
    case TsFluentd => -0x8000_0000 <= t.sec < 0x8000_0000
    case TsAuto => t.sec < 0 || (t.ns == 0 && t.sec < 0x1_0000_0000) || (t.ns != 0 && t.sec < TWO34)
  }

  lemma UnixTimeNormal(sec: int64, ns: nanos)
    ensures UnixTime(sec, ns) == Time(sec, ns)
  {
    assert ns / 1_000_000_000 == 0;
  }

  lemma CombinedSplit(sec: int64, ns: nanos)
    ensures var v := ns + (sec % TWO34) * TWO30;
      0 <= v < 0x1_0000_0000_0000_0000 && v / TWO30 == sec % TWO34 && v % TWO30 == ns
  {
    ModUnique(ns + (sec % TWO34) * TWO30, TWO30, sec % TWO34, ns);
  }

  /** Two words behind an ext type byte. */
  lemma TwoWordsAt(src: bytes, p: nat, ty: byte, a: bytes, b: bytes)
    requires At(src, p, [ty] + a + b)
    ensures p + 1 + |a| + |b| <= |src| && src[p] == ty
    ensures src[p + 1..p + 1 + |a|] == a && src[p + 1 + |a|..p + 1 + |a| + |b|] == b
  {
    AtConcat(src, p, [ty] + a, b);
    AtConcat(src, p, [ty], a);
    assert src[p] == src[p..p + 1][0];
  }

  lemma FixExt32At(src: bytes, o: nat, sec: int64)
    requires At(src, o, [0xd6] + [MSGPACK_TIMESTAMP] + BigEndian(4, sec))
    ensures ReadTimestamp(src, o) == Ok(UnixTime(sec % 0x1_0000_0000, 0), o + 6)
  {
    PowValues();
    TwoWordsAt(src, o, 0xd6, [MSGPACK_TIMESTAMP], BigEndian(4, sec));
    assert src[o + 1] == src[o + 1..o + 2][0];
    UintOfBigEndian(4, sec);
  }

  lemma FixExt64At(src: bytes, o: nat, v: uint64)
    requires At(src, o, [0xd7] + [MSGPACK_TIMESTAMP] + BigEndian(8, v))
    ensures ReadTimestamp(src, o) == Ok(Combined(v), o + 10)
  {
    PowValues();
    TwoWordsAt(src, o, 0xd7, [MSGPACK_TIMESTAMP], BigEndian(8, v));
    assert src[o + 1] == src[o + 1..o + 2][0];
    UintWord(8, v);
  }

  /** What the reader does with an EventTime. */
  lemma {:induction false} ReadsEventTime(src: bytes, o: nat)
    requires o + 10 <= |src| && src[o] == 0xd7 && src[o + 1] == FLUENTD_EVENT_TIME
    ensures ReadTimestamp(src, o) == Ok(EventTime(src[o + 2..o + 6], src[o + 6..o + 10]), o + 10)
  {
    assert Get(0xd7) == Head(Type.Ext, 9, true);
    hide Get, EventTime, ReadInt;
  }

  lemma {:induction false} EventTimeAt(src: bytes, o: nat, sec: int64, ns: nanos)
    requires At(src, o, [0xd7] + [FLUENTD_EVENT_TIME] + BigEndian(4, sec) + BigEndian(4, ns))
    ensures ReadTimestamp(src, o) == Ok(UnixTime(IntFromBuf(BigEndian(4, sec)), ns), o + 10)
  {
    var word := [FLUENTD_EVENT_TIME] + BigEndian(4, sec) + BigEndian(4, ns);
    assert [0xd7] + [FLUENTD_EVENT_TIME] + BigEndian(4, sec) + BigEndian(4, ns) == [0xd7] + word;
    AtConcat(src, o, [0xd7], word);
    assert src[o] == src[o..o + 1][0];
    TwoWordsAt(src, o + 1, FLUENTD_EVENT_TIME, BigEndian(4, sec), BigEndian(4, ns));
    PowValues();
    IntWord(4, ns);
    hide ReadTimestamp, BigEndian, At, Pow256, IntFromBuf, UnixTime;
    ReadsEventTime(src, o);
  }

  /** What the reader does with a 96-bit timestamp. */
  lemma {:induction false} Reads96(src: bytes, o: nat)
    requires o + 15 <= |src| && src[o] == 0xc7 && src[o + 1] == 12 && src[o + 2] == MSGPACK_TIMESTAMP
    ensures ReadTimestamp(src, o)
         == Ok(UnixTime(ToInt64(UintFromBuf(src[o + 7..o + 15])), UintFromBuf(src[o + 3..o + 7])), o + 15)
  {
    assert src[o + 1..o + 2] == [12];
    OneByte(12);
    assert UintFromBuf([12]) == 12;
    assert Get(0xc7) == Head(Type.Ext, 1, false);
    hide Get, UintFromBuf, UnixTime, ReadInt;
  }

  /** Eight bytes of a signed number, read unsigned and converted. */
  lemma {:induction false} SignedWord(sec: int64)
    ensures ToInt64(UintFromBuf(BigEndian(8, sec))) == sec
  {
    PowValues();
    UintOfBigEndian(8, sec);
    if sec >= 0 {
      ModUnique(sec, Pow256(8), 0, sec);
    } else {
      ModUnique(sec, Pow256(8), -1, sec + Pow256(8));
    }
    hide BigEndian, UintOf, Pow256;
  }

  lemma {:induction false} Ext96At(src: bytes, o: nat, sec: int64, ns: nanos)
    requires At(src, o, [0xc7, 12] + [MSGPACK_TIMESTAMP] + BigEndian(4, ns) + BigEndian(8, sec))
    ensures ReadTimestamp(src, o) == Ok(UnixTime(sec, ns), o + 15)
  {
    var word := [MSGPACK_TIMESTAMP] + BigEndian(4, ns) + BigEndian(8, sec);
    assert [0xc7, 12] + [MSGPACK_TIMESTAMP] + BigEndian(4, ns) + BigEndian(8, sec) == [0xc7, 12] + word;
    AtConcat(src, o, [0xc7, 12], word);
    assert src[o] == src[o..o + 2][0] && src[o + 1] == src[o..o + 2][1];
    TwoWordsAt(src, o + 2, MSGPACK_TIMESTAMP, BigEndian(4, ns), BigEndian(8, sec));
    PowValues();
    UintWord(4, ns);
    SignedWord(sec);
    hide ReadTimestamp, BigEndian, At, Pow256, UintFromBuf, UnixTime;
    Reads96(src, o);
  }

  /** The reader falls through to ReadInt on every integer encoding. */
  lemma {:induction false} IntHead(src: bytes, o: nat, v: int64)
    requires At(src, o, IntBytes(v)) && ReadInt(src, o).Ok?
    ensures ReadTimestamp(src, o) == Ok(UnixTime(ReadInt(src, o).value, 0), ReadInt(src, o).next)
  {
    var c := src[o];
    assert c == src[o..o + |IntBytes(v)|][0] == IntBytes(v)[0];
    IntBytesHead(v);
    hide IntBytes, At, IntFromBuf, UintFromBuf, UnixTime, Get;
    FallsThrough(src, o);
  }

  lemma {:induction false} IntBytesHead(v: int64)
    ensures var c := IntBytes(v)[0];
      c != 0xd6 && c != 0xd7 && c != 0xc7 && Get(c).isValueLength
  {
    hide BigEndian;
  }

  lemma {:induction false} FallsThrough(src: bytes, o: nat)
    requires o < |src| && src[o] != 0xd6 && src[o] != 0xd7 && src[o] != 0xc7
    requires Get(src[o]).isValueLength && ReadInt(src, o).Ok?
    ensures ReadTimestamp(src, o) == Ok(UnixTime(ReadInt(src, o).value, 0), ReadInt(src, o).next)
  {
    assert o + 1 + Get(src[o]).length <= |src|;
    hide Get, ReadInt, IntFromBuf, UintFromBuf, UnixTime, Combined, EventTime;
  }

  /** A signed 32-bit word carries its own range and nothing else. */
  lemma EventSeconds(sec: int64)
    ensures IntFromBuf(BigEndian(4, sec)) == sec <==> -0x8000_0000 <= sec < 0x8000_0000
  {
    PowValues();
    if -0x8000_0000 <= sec < 0x8000_0000 {
      IntWord(4, sec);
    } else {
      WordBounds(BigEndian(4, sec));
    }
  }

  /** What each format carries of a time. */
  function Carried(t: Time, f: Format): Time {
    match Resolve(t, f)
    case Ts32 => Time(t.sec % 0x1_0000_0000, 0)
    case Ts64 => Time(t.sec % TWO34, t.ns)
    case Ts96 => t
    case TsInt => Time(t.sec, 0)
    case _ => Time(IntFromBuf(BigEndian(4, t.sec)), t.ns)
  }

  lemma TimestampReads(src: bytes, o: nat, t: Time, f: Format)
    requires At(src, o, TimestampBytes(t, f))
    ensures ReadTimestamp(src, o) == Ok(Carried(t, f), o + |TimestampBytes(t, f)|)
  {
    match Resolve(t, f)
    case Ts32 =>
      FixExt32At(src, o, t.sec);
      UnixTimeNormal(t.sec % 0x1_0000_0000, 0);
    case Ts64 =>
      CombinedSplit(t.sec, t.ns);
      FixExt64At(src, o, t.ns + (t.sec % TWO34) * TWO30);
      UnixTimeNormal(t.sec % TWO34, t.ns);
    case Ts96 =>
      Ext96At(src, o, t.sec, t.ns);
      UnixTimeNormal(t.sec, t.ns);
    case TsInt =>
      IntRoundTrip(src, o, t.sec);
      IntHead(src, o, t.sec);
      UnixTimeNormal(t.sec, 0);
    case TsFluentd =>
      EventTimeAt(src, o, t.sec, t.ns);
      UnixTimeNormal(IntFromBuf(BigEndian(4, t.sec)), t.ns);
    case TsAuto =>
  }

  lemma {:induction false} CarriedExact(t: Time, f: Format)
    ensures Carried(t, f) == t <==> InRange(t, f)
  {
    EventSeconds(t.sec);
    LowBits(t.sec, 0x1_0000_0000);
    LowBits(t.sec, TWO34);
    hide BigEndian, IntFromBuf;
  }

  lemma LowBits(v: int, m: int)
    requires m > 0
    ensures v % m == v <==> 0 <= v < m
  {
    if 0 <= v < m {
      ModUnique(v, m, 0, v);
    }
  }

  /** ReadTimestamp returns the time and the end of its encoding exactly when the format can carry it. */
  lemma TimestampExact(src: bytes, o: nat, t: Time, f: Format)
    requires At(src, o, TimestampBytes(t, f))
    ensures ReadTimestamp(src, o) == Ok(t, o + |TimestampBytes(t, f)|) <==> InRange(t, f)
  {
    TimestampReads(src, o, t, f);
    CarriedExact(t, f);
  }

  /** The formats by their heads and type bytes: -1 is the standard's timestamp, 0 the protocol's EventTime. */
  lemma TimestampHeads(t: Time)
    ensures At(TimestampBytes(t, Ts32), 0, [0xd6, 0xff]) && |TimestampBytes(t, Ts32)| == 6
    ensures At(TimestampBytes(t, Ts64), 0, [0xd7, 0xff]) && |TimestampBytes(t, Ts64)| == 10
    ensures At(TimestampBytes(t, Ts96), 0, [0xc7, 0x0c, 0xff]) && |TimestampBytes(t, Ts96)| == 15
    ensures At(TimestampBytes(t, TsFluentd), 0, [0xd7, 0x00]) && |TimestampBytes(t, TsFluentd)| == 10
  {
    hide BigEndian;
  }

  /** The 64-bit layout of the "Timestamp extension type" section of the MessagePack specification: 30 bits of
      nanoseconds above 34 bits of seconds. */
  function StandardTs64(t: Time): bytes {
    [0xd7] + [MSGPACK_TIMESTAMP] + BigEndian(8, t.ns * TWO34 + t.sec)
  }

  /** The three times whose halves agree in both layouts: they solve ns * (2^34 - 1) == sec * (2^30 - 1). */
  predicate SymmetricTime(t: Time) {
    t == Time(0, 0) || t == Time(5726623061, 357913941) || t == Time(11453246122, 715827882)
  }

  lemma {:induction false} SymmetricExact(sec: int, ns: int)
    requires 0 <= sec < TWO34 && 0 <= ns < 1_000_000_000
    ensures ns + sec * TWO30 == ns * TWO34 + sec
       <==> (sec == 0 && ns == 0) || (sec == 5726623061 && ns == 357913941) || (sec == 11453246122 && ns == 715827882)
  {
    if ns + sec * TWO30 == ns * TWO34 + sec {
      assert sec * 357913941 == ns * 5726623061;
      var k := ns * (1 + 71582788 * 16) - 71582788 * sec;
      assert ns == 357913941 * k && sec == 5726623061 * k;
    }
  }

  /** AppendTimestamp writes the standard's 64-bit layout for exactly these times. */
  lemma {:induction false} Ts64Standard(t: Time)
    requires 0 <= t.sec < TWO34
    ensures TimestampBytes(t, Ts64) == StandardTs64(t) <==> SymmetricTime(t)
  {
    var ours, standard := t.ns + (t.sec % TWO34) * TWO30, t.ns * TWO34 + t.sec;
    assert t.sec % TWO34 == t.sec;
    SameWord(ours, standard);
    SymmetricExact(t.sec, t.ns);
    assert TimestampBytes(t, Ts64)[2..] == BigEndian(8, ours) && StandardTs64(t)[2..] == BigEndian(8, standard);
  }

  lemma {:induction false} SameWord(a: int, b: int)
    requires 0 <= a < 0x1_0000_0000_0000_0000 && 0 <= b < 0x1_0000_0000_0000_0000
    ensures BigEndian(8, a) == BigEndian(8, b) <==> a == b
  {
    UintOfBigEndian(8, a);
    UintOfBigEndian(8, b);
    PowValues();
    ModUnique(a, Pow256(8), 0, a);
    ModUnique(b, Pow256(8), 0, b);
    hide BigEndian, UintOf, Pow256;
  }

  /** An input for which it does not: one second after the epoch. */
  lemma {:induction false} Ts64Differs()
    ensures TimestampBytes(Time(1, 0), Ts64) != StandardTs64(Time(1, 0))
  {
    Ts64Standard(Time(1, 0));
  }

  lemma Subslice(src: bytes, a: nat, b: nat, i: nat, j: nat)
    requires i <= j && a + j <= b <= |src|
    ensures src[a..b][i..j] == src[a + i..a + j]
  {
    var s := src[a..b][i..j];
    assert forall k :: 0 <= k < |s| ==> s[k] == src[a..b][i + k];
  }

  /** Outside ext 8, the unchecked reader agrees with the checked one on the iterator's payload. */
  lemma UnsafeTimeAgrees(src: bytes, offset: nat)
    requires offset < |src| && src[offset] != 0xc7
    ensures var r := ReadTimestamp(src, offset);
      r.Ok? ==> offset < r.next <= |src| && ReadTimeUnsafe(src[offset], src[offset + 1..r.next]) == r.value
  {
    var r := ReadTimestamp(src, offset);
    if r.Ok? {
      var c := src[offset];
      var buf := src[offset + 1..r.next];
      if c == 0xd6 {
        Subslice(src, offset + 1, r.next, 1, 5);
      } else if c == 0xd7 {
        Subslice(src, offset + 1, r.next, 1, 9);
        Subslice(src, offset + 1, r.next, 1, 5);
        Subslice(src, offset + 1, r.next, 5, 9);
      } else {
        UnsafeIntAgrees(src, offset);
      }
    }
  }
}
