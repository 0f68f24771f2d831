/** Loggers with inherited fields, and the entry a log call builds. */
module LogEntries {
  import opened Bytes
  import opened Results
  import opened Integers
  import opened Strings
  import opened Timestamps
  import opened Values
  import opened Wires
  import opened Records
  import opened ReadBack

  const ID: bytes := [0x40, 0x69, 0x64]
  const PRI: bytes := [0x70, 0x72, 0x69]
  const MESSAGE: bytes := [0x6d, 0x65, 0x73, 0x73, 0x61, 0x67, 0x65]
  const STACK_TRACE: bytes := [0x73, 0x74, 0x61, 0x63, 0x6b, 0x54, 0x72, 0x61, 0x63, 0x65]

  /** fluentlog.Logger. fields is what its data spells. */
  class Logger {
    var fieldData: Option<bytes>
    var fieldCount: byte
    ghost var fields: seq<Pair>

    ghost predicate Valid()
      reads this
    {
      && (fieldData.None? ==> fields == [])
      && (fieldData.Some? ==> fieldData.value == PairBytes(fields))
      && fieldCount == |fields| % 256 && PlainPairs(fields)
    }

    /** A logger from the pool, without fields. */
    constructor ()
      ensures Valid() && fields == []
    {
      fieldData, fieldCount, fields := None, 0, [];
    }

    /** With: the new logger has this one's fields and then the arguments' pairs; without arguments it has
        no fields at all. */
    method With(args: seq<Arg>) returns (log: Logger)
      requires Valid() && AllSized(args)
      ensures fresh(log) && log.Valid()
      ensures log.fields == if args == [] then [] else fields + Pairs([], args)
    {
      log := new Logger();
      if |args| > 0 {
        hide PairBytes, Pairs, Plain;
        FieldsMore(fields, args);
        var data: bytes := [];
        if fieldData != None {
          data := data + fieldData.value;
          log.fieldCount := fieldCount;
        }
        assert data == PairBytes(fields);
        var n;
        data, n := AppendArgs(data, args);
        log.fieldData := Some(data);
        log.fieldCount := Add8(log.fieldCount, n);
        log.fields := fields + Pairs([], args);
      }
    }

    /** The entry of a call on this logger. */
    method Entry(c: Call) returns (b: Option<bytes>)
      requires Valid() && ValidCall(c)
      ensures b == None <==> c.fmtArgs > |c.args| + c.spare
      ensures b.Some? ==> b.value == EntryBytes(c.tag, c.time, |Written(c, fields)| % 256, Written(c, fields))
      ensures b.Some? ==> exists q: nat, m: nat :: EntryReads(b.value, c, fields, q, m)
    {
      hide PairBytes, EntryBytes, Written, EntryReads;
      b := Log(c, fieldData, fieldCount, fields);
    }

    /** Release. */
    method Release()
      modifies this
      ensures Valid() && fields == []
    {
      fieldData, fieldCount, fields := None, 0, [];
    }
  }

  lemma FieldsMore(fields: seq<Pair>, args: seq<Arg>)
    requires PlainPairs(fields) && AllSized(args)
    ensures PlainPairs(fields + Pairs([], args))
    ensures PairBytes(fields) + PairBytes(Pairs([], args)) == PairBytes(fields + Pairs([], args))
    ensures PairBytes([]) == []
    ensures Add8(|fields| % 256, |Pairs([], args)| % 256) == |fields + Pairs([], args)| % 256
  {
    PairsPlain([], args);
    PairBytesMore(fields, Pairs([], args));
    Add8Sum(|fields|, |Pairs([], args)|);
    hide PairBytes, Pairs, Plain, Add8;
  }

  /** The fields at the end of a chain of With calls. */
  function Chained(fields: seq<Pair>, calls: seq<seq<Arg>>): seq<Pair>
    decreases calls
  {
    if calls == [] then fields else Chained(if calls[0] == [] then [] else fields + Pairs([], calls[0]), calls[1..])
  }

  function AllPairs(calls: seq<seq<Arg>>): seq<Pair> {
    if calls == [] then [] else Pairs([], calls[0]) + AllPairs(calls[1..])
  }

  /** Along calls with arguments the fields are inherited, outermost first; a call without drops them. */
  lemma {:induction false} ChainInherits(fields: seq<Pair>, calls: seq<seq<Arg>>)
    ensures (forall k :: 0 <= k < |calls| ==> calls[k] != []) ==> Chained(fields, calls) == fields + AllPairs(calls)
    ensures forall k :: 0 <= k < |calls| && calls[k] == [] ==> Chained(fields, calls) == Chained([], calls[k + 1..])
    decreases calls
  {
    if calls != [] {
      var first := if calls[0] == [] then [] else fields + Pairs([], calls[0]);
      ChainInherits(first, calls[1..]);
      forall k | 0 <= k < |calls| && calls[k] == []
        ensures Chained(fields, calls) == Chained([], calls[k + 1..])
      {
        if k > 0 {
          assert calls[1..][k - 1] == [] && calls[1..][k..] == calls[k + 1..];
        }
      }
      if forall k :: 0 <= k < |calls| ==> calls[k] != [] {
        assert forall k :: 0 <= k < |calls[1..]| ==> calls[1..][k] == calls[k + 1];
        var own, more := Pairs([], calls[0]), AllPairs(calls[1..]);
        assert (fields + own) + more == fields + (own + more);
      }
    } else {
      assert fields + [] == fields;
    }
  }

  /** A log call. formatted is what fmt makes of the message and its fmtArgs arguments, spare the capacity of
      the arguments' slice behind them, frames the lines of the stack. */
  datatype Call = Call(tag: bytes, time: Time, id: uint64, sev: byte, threshold: byte, msg: bytes,
                       formatted: bytes, fmtArgs: nat, args: seq<Arg>, spare: nat, frames: seq<bytes>)

  predicate ValidCall(c: Call) {
    && |c.tag| < LIMIT && |c.msg| < LIMIT && |c.formatted| < LIMIT && AllSized(c.args)
    && 1 <= |c.frames| <= 15
  }

  /** A line of a stack trace. */
  function LineWire(line: bytes): Wire {
    Leaf(0xd9, BigEndian(1, |Max255(line)|), Max255(line))
  }

  function Lines(frames: seq<bytes>): seq<Wire> {
    if frames == [] then [] else Lines(frames[..|frames| - 1]) + [LineWire(frames[|frames| - 1])]
  }

  function TraceWire(frames: seq<bytes>): Wire
    requires |frames| <= 15
  {
    Node(0x90 + |frames|, [], Lines(frames))
  }

  function TimeWire(t: Time): Wire {
    Leaf(0xd7, [], [FLUENTD_EVENT_TIME] + BigEndian(4, t.sec) + BigEndian(4, t.ns))
  }

  function Message(c: Call): bytes {
    if c.fmtArgs > 0 then c.formatted else c.msg
  }

  /** The arguments behind those of the format. */
  function OwnArgs(c: Call): seq<Arg> {
    if |c.args| > c.fmtArgs then c.args[c.fmtArgs..] else []
  }

  /** The three pairs every entry starts with. */
  function Standard(c: Call): seq<Pair> {
    [Pair(ID, UintWire(c.id)), Pair(PRI, UintWire(c.sev)), Pair(MESSAGE, StrWire(Message(c)))]
  }

  function Trace(c: Call): seq<Pair>
    requires |c.frames| <= 15
  {
    if c.sev <= c.threshold then [Pair(STACK_TRACE, TraceWire(c.frames))] else []
  }

  /** The record a call is to carry: the standard pairs, the logger's, the call's own, the stack trace. */
  function Carried(c: Call, fields: seq<Pair>): seq<Pair>
    requires |c.frames| <= 15
  {
    Standard(c) + fields + Pairs([], OwnArgs(c)) + Trace(c)
  }

  /** The fields a logger hands down: none when their count has wrapped to 0. */
  function Kept(fields: seq<Pair>): seq<Pair> {
    if |fields| % 256 > 0 then fields else []
  }

  /** What log writes of it: fields whose count has wrapped to 0 are passed over. */
  function Written(c: Call, fields: seq<Pair>): seq<Pair>
    requires |c.frames| <= 15
  {
    Carried(c, Kept(fields))
  }

  function RecordWire(pairs: seq<Pair>): Wire {
    Node(0xde, BigEndian(2, |pairs|), Items(pairs))
  }

  /** An entry in message mode. */
  function EntryWire(tag: bytes, t: Time, pairs: seq<Pair>): Wire {
    Node(0x93, [], [StrWire(tag), TimeWire(t), RecordWire(pairs)])
  }

  /** The bytes of an entry whose count byte says n. */
  function EntryBytes(tag: bytes, t: Time, n: byte, pairs: seq<Pair>): bytes {
    EntryStart(tag, t) + [0xde, 0, n] + PairBytes(pairs)
  }

  function EntryStart(tag: bytes, t: Time): bytes {
    AppendTimestamp(AppendString([0x93], tag), t, TsFluentd)
  }

  /** appendStackTrace: the number of lines is patched in behind them. */
  method AppendStackTrace(dst: bytes, frames: seq<bytes>) returns (r: bytes)
    requires 1 <= |frames| <= 15
    ensures r == dst + (Enc(StrWire(STACK_TRACE)) + Enc(TraceWire(frames)))
  {
    StrEnc(STACK_TRACE);
    assert Enc(TraceWire(frames)) == [0x90 + |frames|] + EncAll(Lines(frames));
    hide Enc, EncAll, StrWire, StringHeader, TraceWire;
    r := AppendString(dst, STACK_TRACE);
    ghost var start := r;
    r := r + [0x90];
    var x := |r| - 1;
    var i;
    r, i := AppendLines(r, frames);
    r := r[x := 0x90 + i];
    assert r == start + ([0x90 + i] + EncAll(Lines(frames)));
  }

  method AppendLines(dst: bytes, frames: seq<bytes>) returns (r: bytes, i: byte)
    requires 1 <= |frames| <= 15
    ensures r == dst + EncAll(Lines(frames)) && i == |frames|
  {
    r, i := dst, 0;
    assert frames[..0] == [] && EncAll([]) == [];
    while i < |frames|
      invariant 0 <= i <= |frames|
      invariant r == dst + EncAll(Lines(frames[..i]))
    {
      LinesMore(frames, i);
      LineEnc(frames[i]);
      hide EncAll, Enc, BigEndian, Lines;
      Assoc(dst, EncAll(Lines(frames[..i])), Enc(LineWire(frames[i])));
      r := AppendStringMax255(r, frames[i]);
      i := i + 1;
    }
    assert frames[..i] == frames;
  }

  lemma LineEnc(line: bytes)
    ensures Enc(LineWire(line)) == [0xd9] + BigEndian(1, |Max255(line)|) + Max255(line)
  {
  }

  lemma LinesMore(frames: seq<bytes>, i: nat)
    requires i < |frames|
    ensures EncAll(Lines(frames[..i + 1])) == EncAll(Lines(frames[..i])) + Enc(LineWire(frames[i]))
  {
    assert frames[..i + 1][..i] == frames[..i];
    EncAllConcat(Lines(frames[..i]), [LineWire(frames[i])]);
    EncAllOne(LineWire(frames[i]));
  }

  lemma {:induction false} LinesPlain(frames: seq<bytes>)
    ensures |Lines(frames)| == |frames| && AllPlain(Lines(frames))
  {
    if frames != [] {
      LinesPlain(frames[..|frames| - 1]);
      PowValues();
      LengthSpelt(1, |Max255(frames[|frames| - 1])|);
    }
  }

  /** An entry under construction: what stands before the count byte, the count so far, the pairs. */
  ghost predicate Counts(buf: bytes, start: bytes, pairs: seq<Pair>) {
    buf == start + [|pairs| % 256] + PairBytes(pairs)
  }

  /** Raising the count and appending the pairs, in either order, keeps them in step. */
  lemma CountsMore(buf: bytes, start: bytes, pairs: seq<Pair>, more: seq<Pair>, n: byte)
    requires Counts(buf, start, pairs) && n == |more| % 256
    ensures |start| < |buf| && buf[|start|] == |pairs| % 256
    ensures Counts(buf[|start| := Add8(buf[|start|], n)] + PairBytes(more), start, pairs + more)
  {
    hide PairBytes;
    PairBytesMore(pairs, more);
    Raised(buf, start, |pairs|, |more|, PairBytes(pairs), PairBytes(more));
  }

  lemma Raised(buf: bytes, start: bytes, a: nat, b: nat, body: bytes, tail: bytes)
    requires buf == start + [a % 256] + body
    ensures buf[|start| := Add8(buf[|start|], b % 256)] + tail == start + [(a + b) % 256] + (body + tail)
  {
    Add8Sum(a, b);
    hide Add8;
    assert buf[|start| := (a + b) % 256] == start + [(a + b) % 256] + body;
  }

  lemma CountsOne(buf: bytes, start: bytes, pairs: seq<Pair>, key: bytes, value: Wire)
    requires Counts(buf, start, pairs)
    ensures |start| < |buf| && buf[|start|] == |pairs| % 256
    ensures Counts(buf[|start| := Add8(buf[|start|], 1)] + (Enc(StrWire(key)) + Enc(value)), start,
                   pairs + [Pair(key, value)])
  {
    hide PairBytes, Enc, StrWire;
    CountsMore(buf, start, pairs, [Pair(key, value)], 1);
    PairBytesOne(key, value);
  }

  /** Raises the count byte at position x. */
  method Count(buf: bytes, x: nat, n: byte) returns (r: bytes)
    requires x < |buf|
    ensures r == buf[x := Add8(buf[x], n)]
  {
    r := buf[x := Add8(buf[x], n)];
  }

  /** Counts and appends a pair whose value is a number. */
  method CountNumber(buf: bytes, x: nat, key: bytes, u: uint64, ghost start: bytes, ghost pairs: seq<Pair>)
    returns (r: bytes)
    requires Counts(buf, start, pairs) && x == |start|
    ensures Counts(r, start, pairs + [Pair(key, UintWire(u))])
  {
    CountsOne(buf, start, pairs, key, UintWire(u));
    StrEnc(key);
    UintEnc(u);
    hide Counts, Enc, StrWire, StringHeader, UintBytes, UintWire;
    r := Count(buf, x, 1);
    ghost var raised := r;
    r := AppendString(r, key);
    r := AppendUint(r, u);
    Assoc(raised, Enc(StrWire(key)), Enc(UintWire(u)));
    assert r == raised + (Enc(StrWire(key)) + Enc(UintWire(u)));
  }

  /** Counts and appends the message, formatted in place or as it is. */
  method CountMessage(buf: bytes, x: nat, c: Call, ghost start: bytes, ghost pairs: seq<Pair>) returns (r: bytes)
    requires Counts(buf, start, pairs) && x == |start|
    ensures Counts(r, start, pairs + [Pair(MESSAGE, StrWire(Message(c)))])
  {
    CountsOne(buf, start, pairs, MESSAGE, StrWire(Message(c)));
    StrEnc(MESSAGE);
    StrEnc(Message(c));
    hide Counts, Enc, StrWire, StringHeader;
    r := Count(buf, x, 1);
    ghost var raised := r;
    r := AppendString(r, MESSAGE);
    if c.fmtArgs > 0 {
      r := AppendStringDynamic(r, c.formatted);
    } else {
      r := AppendString(r, c.msg);
    }
    Assoc(raised, Enc(StrWire(MESSAGE)), Enc(StrWire(Message(c))));
    assert r == raised + (Enc(StrWire(MESSAGE)) + Enc(StrWire(Message(c))));
  }

  /** Appends the arguments' pairs and then counts them. */
  method CountArgs(buf: bytes, x: nat, args: seq<Arg>, ghost start: bytes, ghost pairs: seq<Pair>) returns (r: bytes)
    requires Counts(buf, start, pairs) && x == |start| && AllSized(args)
    ensures Counts(r, start, pairs + Pairs([], args))
  {
    ghost var more := Pairs([], args);
    CountsMore(buf, start, pairs, more, |more| % 256);
    hide Counts, PairBytes, Pairs, Add8;
    var n;
    r, n := AppendArgs(buf, args);
    assert r[x] == buf[x];
    SetInFront(buf, x, Add8(buf[x], n), PairBytes(more));
    r := Count(r, x, n);
  }

  /** Appends a stack trace and then counts it. */
  method CountTrace(buf: bytes, x: nat, frames: seq<bytes>, ghost start: bytes, ghost pairs: seq<Pair>)
    returns (r: bytes)
    requires Counts(buf, start, pairs) && x == |start| && 1 <= |frames| <= 15
    ensures Counts(r, start, pairs + [Pair(STACK_TRACE, TraceWire(frames))])
  {
    CountsOne(buf, start, pairs, STACK_TRACE, TraceWire(frames));
    hide Counts, Enc, StrWire, TraceWire, Add8;
    r := AppendStackTrace(buf, frames);
    assert r[x] == buf[x];
    SetInFront(buf, x, Add8(buf[x], 1), Enc(StrWire(STACK_TRACE)) + Enc(TraceWire(frames)));
    r := Count(r, x, 1);
  }

  /** The entry up to its standard pairs, and the position of its count byte. */
  method BuildStandard(c: Call) returns (buf: bytes, x: nat)
    requires ValidCall(c)
    ensures x == |EntryStart(c.tag, c.time) + [0xde, 0]|
    ensures Counts(buf, EntryStart(c.tag, c.time) + [0xde, 0], Standard(c))
  {
    ghost var start := EntryStart(c.tag, c.time) + [0xde, 0];
    buf := AppendString(ArrayHeader(3), c.tag);
    buf := AppendTimestamp(buf, c.time, TsFluentd);
    assert ArrayHeader(3) == [0x93];
    assert buf == EntryStart(c.tag, c.time);
    hide EntryStart, AppendString, AppendTimestamp;
    buf := buf + [0xde, 0, 0];
    x := |buf| - 1;
    CountsNone(buf, start);
    ghost var p1, p2, p3 := Pair(ID, UintWire(c.id)), Pair(PRI, UintWire(c.sev)), Pair(MESSAGE, StrWire(Message(c)));
    assert [] + [p1] == [p1] && [p1] + [p2] == [p1, p2] && [p1, p2] + [p3] == Standard(c);
    hide Counts, Standard;
    buf := CountNumber(buf, x, ID, c.id, start, []);
    buf := CountNumber(buf, x, PRI, c.sev, start, [p1]);
    buf := CountMessage(buf, x, c, start, [p1, p2]);
  }

  lemma CountsNone(buf: bytes, start: bytes)
    requires buf == start + [0]
    ensures Counts(buf, start, [])
  {
    PairBytesMore([], []);
    assert buf + [] == buf;
  }

  method CountFields(buf: bytes, x: nat, extraData: Option<bytes>, extraCount: byte, ghost start: bytes,
                     ghost pairs: seq<Pair>, ghost fields: seq<Pair>) returns (r: bytes)
    requires Counts(buf, start, pairs) && x == |start|
    requires extraCount == |fields| % 256 && (extraCount > 0 ==> extraData == Some(PairBytes(fields)))
    ensures Counts(r, start, pairs + Kept(fields))
  {
    CountsMore(buf, start, pairs, fields, extraCount);
    assert pairs + [] == pairs;
    hide Counts, PairBytes, Add8;
    r := buf;
    if extraCount > 0 {
      r := r + extraData.value;
      assert r[x] == buf[x];
      SetInFront(buf, x, Add8(buf[x], extraCount), extraData.value);
      r := Count(r, x, extraCount);
    }
  }

  lemma SetInFront(buf: bytes, x: nat, v: byte, tail: bytes)
    requires x < |buf|
    ensures (buf + tail)[x := v] == buf[x := v] + tail
  {
  }

  /** The lines of a stack trace as strings of one length byte, each cut to its first 255 bytes. */
  function LineBytes(frames: seq<bytes>): bytes {
    if frames == [] then [] else
    var line := frames[|frames| - 1];
    var kept := if |line| <= 255 then line else line[..255];
    LineBytes(frames[..|frames| - 1]) + [0xd9, |kept|] + kept
  }

  /** The pair of the stack trace: "stackTrace" and an array of the lines. */
  function TraceBytes(frames: seq<bytes>): bytes
    requires |frames| <= 15
  {
    [0xaa] + Ascii("stackTrace") + [0x90 + |frames|] + LineBytes(frames)
  }

  /** The pairs every record starts with: "@id", "pri" and "message". */
  function Leads(c: Call): seq<Field> {
    [Keyed(Ascii("@id"), Unsigned(c.id)),
     Keyed(Ascii("pri"), Unsigned(c.sev)),
     Keyed(Ascii("message"), Text(if c.fmtArgs > 0 then c.formatted else c.msg))]
  }

  /** What the bytes of an entry say: an array of the tag, which ends at q, the time and a map. That has the
      id, the severity and the message, up to m; then the logger's fields, unless their number is a multiple of
      256, the pairs of the arguments behind the format's, and last the stack trace if the severity calls for
      one. The map's count is the number of these pairs modulo 256. */
  ghost predicate EntryReads(e: bytes, c: Call, fields: seq<Pair>, q: nat, m: nat)
    requires |c.frames| <= 15
  {
    var inherited := if |fields| % 256 == 0 then [] else fields;
    var own := Pairs([], if c.fmtArgs < |c.args| then c.args[c.fmtArgs..] else []);
    var traced := c.sev <= c.threshold;
    && At(e, 0, [0x93]) && ReadString(e, 1) == Ok(c.tag, q)
    && At(e, q, [0xd7, 0x00] + BigEndian(4, c.time.sec) + BigEndian(4, c.time.ns))
    && At(e, q + 10, [0xde, 0x00, (3 + |inherited| + |own| + if traced then 1 else 0) % 256])
    && FieldsRead(e, q + 13, Leads(c), m)
    && m <= |e| && e[m..] == PairBytes(inherited) + PairBytes(own) + if traced then TraceBytes(c.frames) else []
  }

  lemma {:induction false} LinesSpelt(frames: seq<bytes>)
    ensures EncAll(Lines(frames)) == LineBytes(frames)
  {
    hide Enc;
    if frames != [] {
      var n := |frames| - 1;
      LinesSpelt(frames[..n]);
      assert frames[..n + 1] == frames;
      LinesMore(frames, n);
      LineEnc(frames[n]);
      OneLengthByte(|Max255(frames[n])|);
    }
  }

  lemma OneLengthByte(l: nat)
    requires l <= 255
    ensures BigEndian(1, l) == [l]
  {
    assert BigEndian(0, l / 256) == [] && l % 256 == l;
    assert BigEndian(1, l) == BigEndian(0, l / 256) + [l % 256];
    hide BigEndian;
  }

  lemma {:induction false} TraceSpelt(c: Call)
    requires |c.frames| <= 15
    ensures PairBytes(Trace(c)) == if c.sev <= c.threshold then TraceBytes(c.frames) else []
    ensures |Trace(c)| == if c.sev <= c.threshold then 1 else 0
  {
    hide PairBytes, StrWire, TraceWire, TraceBytes, Enc;
    if c.sev <= c.threshold {
      PairBytesOne(STACK_TRACE, TraceWire(c.frames));
      TracePairSpelt(c.frames);
    } else {
      PairBytesMore([], []);
    }
  }

  lemma {:induction false} TracePairSpelt(frames: seq<bytes>)
    requires |frames| <= 15
    ensures Enc(StrWire(STACK_TRACE)) + Enc(TraceWire(frames)) == TraceBytes(frames)
  {
    hide Enc, StrWire, TraceWire, LineBytes;
    TraceKeySpelt();
    LinesArray(frames);
    Assoc([0xaa] + Ascii("stackTrace"), [0x90 + |frames|], LineBytes(frames));
  }

  lemma TraceKeySpelt()
    ensures Enc(StrWire(STACK_TRACE)) == [0xaa] + Ascii("stackTrace")
  {
    assert STACK_TRACE == Ascii("stackTrace");
    StrEnc(STACK_TRACE);
    assert StringHeader(|STACK_TRACE|) == [0xaa];
    hide Enc, StrWire, StringHeader;
  }

  lemma LinesArray(frames: seq<bytes>)
    requires |frames| <= 15
    ensures Enc(TraceWire(frames)) == [0x90 + |frames|] + LineBytes(frames)
  {
    LinesSpelt(frames);
    hide LineBytes, Lines, EncAll;
  }

  lemma {:induction false} LeadsSpelt(c: Call)
    requires ValidCall(c)
    ensures ValidFields(Leads(c)) && PairsOfAll(Leads(c)) == Standard(c)
  {
    hide UintWire, StrWire;
    assert ID == Ascii("@id") && PRI == Ascii("pri") && MESSAGE == Ascii("message");
    var fs := Leads(c);
    assert fs[1..][1..][1..] == [] && fs[1..][1..][0] == fs[2];
    assert PairsOfAll(fs[1..][1..][1..]) == [];
    assert PairsOfAll(fs[1..][1..]) == [Standard(c)[2]] + [];
    assert PairsOfAll(fs[1..]) == [Standard(c)[1]] + PairsOfAll(fs[1..][1..]);
  }

  lemma StartSpelt(c: Call)
    ensures EntryStart(c.tag, c.time) == [0x93] + (StringHeader(|c.tag|) + c.tag)
         + ([0xd7, 0x00] + BigEndian(4, c.time.sec) + BigEndian(4, c.time.ns))
  {
    hide BigEndian, StringHeader;
  }

  /** Where the parts of a string stand in it. */
  lemma {:induction false} Parts(a: bytes, b: bytes, c: bytes, d: bytes, s: bytes, r: bytes)
    ensures var e := (a + b + c) + d + (s + r);
      && At(e, 0, a) && At(e, |a|, b) && At(e, |a| + |b|, c) && At(e, |a| + |b| + |c|, d)
      && At(e, |a| + |b| + |c| + |d|, s) && e[|a| + |b| + |c| + |d| + |s|..] == r
  {
    var e := (a + b + c) + d + (s + r);
    assert e == a + (b + (c + (d + (s + r))));
    var p := |a| + |b| + |c| + |d|;
    assert e[0..|a|] == a && e[|a|..|a| + |b|] == b && e[|a| + |b|..|a| + |b| + |c|] == c;
    assert e[|a| + |b| + |c|..p] == d && e[p..p + |s|] == s;
  }

  lemma {:induction false} WrittenSpelt(c: Call, fields: seq<Pair>)
    requires |c.frames| <= 15
    ensures var inherited := if |fields| % 256 == 0 then [] else fields;
      var own := Pairs([], if c.fmtArgs < |c.args| then c.args[c.fmtArgs..] else []);
      && |Written(c, fields)| == 3 + |inherited| + |own| + (if c.sev <= c.threshold then 1 else 0)
      && PairBytes(Written(c, fields)) == PairBytes(Standard(c))
           + (PairBytes(inherited) + PairBytes(own) + if c.sev <= c.threshold then TraceBytes(c.frames) else [])
  {
    var own := Pairs([], OwnArgs(c));
    assert |Standard(c)| == 3;
    hide PairBytes, Pairs, Standard, Trace, TraceBytes;
    TraceSpelt(c);
    var a, b, d := Standard(c), Kept(fields), Trace(c);
    PairBytesMore(a + b + own, d);
    PairBytesMore(a + b, own);
    PairBytesMore(a, b);
    Assoc(PairBytes(a), PairBytes(b), PairBytes(own));
    Assoc(PairBytes(a), PairBytes(b) + PairBytes(own), PairBytes(d));
  }

  /** The bytes log builds say just that. */
  lemma {:induction false} LogReads(c: Call, fields: seq<Pair>) returns (q: nat, m: nat)
    requires ValidCall(c)
    ensures EntryReads(EntryBytes(c.tag, c.time, |Written(c, fields)| % 256, Written(c, fields)), c, fields, q, m)
  {
    hide PairBytes, Pairs, BigEndian, StringHeader, Written, Standard, TraceBytes, At, FieldsRead, ReadString, Leads;
    hide EntryStart, PairsOfAll, ValidFields;
    var n := |Written(c, fields)| % 256;
    var e := EntryBytes(c.tag, c.time, n, Written(c, fields));
    var tag, std := StringHeader(|c.tag|) + c.tag, PairBytes(Standard(c));
    var time := [0xd7, 0x00] + BigEndian(4, c.time.sec) + BigEndian(4, c.time.ns);
    q := 1 + |tag|;
    m := q + 13 + |std|;
    WrittenSpelt(c, fields);
    StartSpelt(c);
    var rest := PairBytes(if |fields| % 256 == 0 then [] else fields)
      + PairBytes(Pairs([], if c.fmtArgs < |c.args| then c.args[c.fmtArgs..] else []))
      + if c.sev <= c.threshold then TraceBytes(c.frames) else [];
    Parts([0x93], tag, time, [0xde, 0x00, n], std, rest);
    StringExact(e, 1, c.tag);
    LeadsSpelt(c);
    AllRead(e, q + 13, Leads(c));
  }

  /** log, up to the queue. The result is nothing where the slice of the format's arguments runs past the
      capacity of the arguments. */
  method Log(c: Call, extraData: Option<bytes>, extraCount: byte, ghost fields: seq<Pair>) returns (b: Option<bytes>)
    requires ValidCall(c)
    requires extraCount == |fields| % 256 && (extraCount > 0 ==> extraData == Some(PairBytes(fields)))
    ensures b == None <==> c.fmtArgs > |c.args| + c.spare
    ensures b.Some? ==> b.value == EntryBytes(c.tag, c.time, |Written(c, fields)| % 256, Written(c, fields))
    ensures b.Some? ==> exists q: nat, m: nat :: EntryReads(b.value, c, fields, q, m)
  {
    if c.fmtArgs > |c.args| + c.spare {
      return None;
    }
    ghost var start := EntryStart(c.tag, c.time) + [0xde, 0];
    ghost var args := OwnArgs(c);
    WrittenBytes(c, fields, start);
    NoPairs(args);
    ghost var q, m := LogReads(c, fields);
    hide EntryReads, Written;
    hide Counts, EntryBytes, EntryStart, Pairs, Standard, Kept, PairBytes, TraceWire;
    var buf, x := BuildStandard(c);
    ghost var pairs := Standard(c);
    buf := CountFields(buf, x, extraData, extraCount, start, pairs, fields);
    pairs := pairs + Kept(fields);
    if |c.args| > c.fmtArgs {
      buf := CountArgs(buf, x, c.args[c.fmtArgs..], start, pairs);
    } else {
      assert pairs + [] == pairs;
    }
    pairs := pairs + Pairs([], args);
    if c.sev <= c.threshold {
      buf := CountTrace(buf, x, c.frames, start, pairs);
    } else {
      assert pairs + [] == pairs;
    }
    b := Some(buf);
  }

  lemma NoPairs(args: seq<Arg>)
    ensures args == [] ==> Pairs([], args) == []
  {
  }

  lemma WrittenBytes(c: Call, fields: seq<Pair>, start: bytes)
    requires |c.frames| <= 15 && start == EntryStart(c.tag, c.time) + [0xde, 0]
    ensures forall buf :: Counts(buf, start, Written(c, fields)) ==>
              buf == EntryBytes(c.tag, c.time, |Written(c, fields)| % 256, Written(c, fields))
  {
    hide PairBytes, Written;
    var n := |Written(c, fields)| % 256;
    assert start + [n] == EntryStart(c.tag, c.time) + [0xde, 0, n];
  }

  // What the entry means

  lemma TimePlain(t: Time)
    ensures Plain(TimeWire(t)) && Enc(TimeWire(t)) == TimestampBytes(t, TsFluentd)
  {
    hide BigEndian;
    var body := [FLUENTD_EVENT_TIME] + BigEndian(4, t.sec) + BigEndian(4, t.ns);
    assert [0xd7] + [] + body == TimestampBytes(t, TsFluentd);
  }

  /** The entry of a record of at most 255 pairs is spelt by its start, its count byte and its pairs. */
  lemma EntryEnc(tag: bytes, t: Time, pairs: seq<Pair>)
    ensures Enc(EntryWire(tag, t, pairs))
         == EntryStart(tag, t) + ([0xde] + BigEndian(2, |pairs|) + PairBytes(pairs))
  {
    hide BigEndian, StringHeader, TimestampBytes, EncAll;
    var s, time, record := StrWire(tag), TimeWire(t), RecordWire(pairs);
    StrEnc(tag);
    TimePlain(t);
    EncThree(s, time, record);
    assert Enc(record) == [0xde] + BigEndian(2, |pairs|) + PairBytes(pairs);
    assert EntryStart(tag, t) == [0x93] + Enc(s) + Enc(time);
    assert Enc(EntryWire(tag, t, pairs)) == [0x93] + [] + EncAll([s, time, record]);
    hide Enc, EntryStart, PairBytes;
    Behind([0x93], Enc(s), Enc(time), Enc(record));
  }

  lemma Behind(h: bytes, a: bytes, b: bytes, c: bytes)
    ensures h + [] + (a + b + c) == h + a + b + c
  {
    assert h + [] == h;
    Assoc(h, a + b, c);
    Assoc(h, a, b);
  }

  lemma EncThree(a: Wire, b: Wire, c: Wire)
    ensures EncAll([a, b, c]) == Enc(a) + Enc(b) + Enc(c)
  {
    EncAllOne(a);
    EncAllOne(b);
    EncAllOne(c);
    EncAllConcat([a], [b]);
    EncAllConcat([a] + [b], [c]);
    assert [a] + [b] + [c] == [a, b, c];
  }

  /** The logged record. An entry that log builds is the encoding of the record its call is to carry exactly
      if that has at most 255 pairs: the count is a single byte. */
  lemma LoggedExact(c: Call, fields: seq<Pair>)
    requires ValidCall(c) && PlainPairs(fields)
    ensures var all, w := Carried(c, fields), Written(c, fields);
      Plain(EntryWire(c.tag, c.time, all))
      && Enc(EntryWire(c.tag, c.time, all)) == EntryBytes(c.tag, c.time, |w| % 256, w)
      <==> |all| <= 255
  {
    hide BigEndian, PairBytes, EntryStart, Plain, StrWire;
    var all, w := Carried(c, fields), Written(c, fields);
    CarriedPlain(c, fields);
    EntryEnc(c.tag, c.time, all);
    var spelt := EntryStart(c.tag, c.time) + ([0xde] + BigEndian(2, |all|) + PairBytes(all));
    var built := EntryBytes(c.tag, c.time, |w| % 256, w);
    var x := |EntryStart(c.tag, c.time)| + 1;
    assert spelt[x] == BigEndian(2, |all|)[0] && built[x] == 0;
    if |all| <= 255 {
      CountSpelt(|all|);
      assert w == all;
      EntryPlain(c.tag, c.time, all);
      assert EntryStart(c.tag, c.time) + [0xde, 0, |all|] == EntryStart(c.tag, c.time) + ([0xde] + [0, |all|]);
    } else if Plain(EntryWire(c.tag, c.time, all)) {
      PlainCount(c.tag, c.time, all);
      CountSpelt(|all|);
    }
  }

  lemma CountSpelt(n: nat)
    ensures BigEndian(2, n) == [(n / 256) % 256, n % 256]
    ensures n <= 255 ==> BigEndian(2, n) == [0, n]
    ensures 256 <= n < 0x1_0000 ==> BigEndian(2, n)[0] != 0
  {
    ShortHeaders(n);
  }

  lemma EntryPlain(tag: bytes, t: Time, pairs: seq<Pair>)
    requires |tag| < LIMIT && PlainPairs(pairs) && |pairs| < 0x1_0000
    ensures Plain(EntryWire(tag, t, pairs))
  {
    StrEnc(tag);
    TimePlain(t);
    ItemsPlain(pairs);
    PowValues();
    LengthSpelt(2, |pairs|);
    hide BigEndian, UintOf, StrWire, Items;
    var record := RecordWire(pairs);
    assert record.head == 0xde && |record.len| == 2 && |record.items| == 2 * UintOf(record.len);
    assert Plain(record);
    var items := [StrWire(tag), TimeWire(t), record];
    hide Plain, TimeWire, RecordWire;
    PlainThree(0x93, items);
  }

  lemma PlainThree(head: byte, items: seq<Wire>)
    requires head == 0x93 && |items| == 3 && Plain(items[0]) && Plain(items[1]) && Plain(items[2])
    ensures Plain(Node(head, [], items))
  {
  }

  /** A record in a valid entry has fewer pairs than two bytes count. */
  lemma PlainCount(tag: bytes, t: Time, pairs: seq<Pair>)
    requires Plain(EntryWire(tag, t, pairs)) && PlainPairs(pairs)
    ensures |pairs| < 0x1_0000
  {
    hide BigEndian, UintOf, StrWire, Items;
    ItemsPlain(pairs);
    assert WellFormed(EntryWire(tag, t, pairs).items[2]);
    BigEndianOfUint(BigEndian(2, |pairs|));
    PowValues();
  }

  lemma TracePlain(frames: seq<bytes>)
    requires 1 <= |frames| <= 15
    ensures Plain(TraceWire(frames))
  {
    LinesPlain(frames);
  }

  lemma CarriedPlain(c: Call, fields: seq<Pair>)
    requires ValidCall(c) && PlainPairs(fields)
    ensures PlainPairs(Carried(c, fields))
  {
    hide Pairs, StrWire, UintWire, TraceWire, Plain, Enc, StringHeader, UintBytes;
    StrEnc(Message(c));
    UintEnc(c.id);
    UintEnc(c.sev);
    PairsPlain([], OwnArgs(c));
    TracePlain(c.frames);
  }
}
