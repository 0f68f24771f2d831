/** What the server refuses, and with which error. */
module Refusals {
  import opened Bytes
  import opened Types
  import opened Results
  import opened Timestamps
  import opened Wires
  import opened Iterators
  import opened Lookahead
  import opened Gunzip
  import opened Transport
  import opened Grammar
  import opened Decoder
  import opened DecoderLimits
  import opened CutOffs

  /** What the server has against a value that stands where a request is due, whatever follows it. None
      says that its first three items are such as a request may have. */
  function Refusal(w: Wire): Option<Failure>
    requires Plain(w)
  {
    if !IsArray(w) then Some(Failed(MessageMode, OpArrayHead, InvalidHeaderByte))
    else if |w.items| < 2 || |w.items| > 4 then Some(Failed(MessageMode, OpArrayHead, BadCount))
    else if !IsStr(w.items[0]) then Some(Failed(MessageMode, OpTag, InvalidHeaderByte))
    else if |w.items[0].body| < 1 then Some(Failed(MessageMode, OpTag, TagTooShort))
    else if |w.items[0].body| > 64 then Some(Failed(MessageMode, OpTag, TagTooLong))
    else if IsTime(w.items[1]) then
      if |w.items| > 2 && !IsMap(w.items[2]) then Some(Failed(MessageMode, OpRecord, InvalidHeaderByte)) else None
    else if IsArray(w.items[1]) then None
    else if w.items[1].Leaf? && IsBinHead(w.items[1].head) then
      if |w.items[1].body| == 0 then Some(Bare(EOF))
      else if |w.items[1].body| < 3 then Some(Failed(MessageMode, OpIsGzip, UnexpectedEOF))
      else if |w.items[1].body| < 10 && w.items[1].body[..3] == [0x1f, 0x8b, 0x08] then Some(Bare(UnexpectedEOF))
      else None
    else Some(Failed(MessageMode, OpTimeOrEntries, InvalidEntry))
  }

  /** The step ends in that failure, and nothing goes out. */
  ghost predicate Fails(env: Env, ph: Phase, f: Failure)
    requires Live(ph)
  {
    var s := StepOf(env, ph);
    s.Done? && s.err == Some(f) && s.ph.out == ph.out
  }

  /** A token of a type that is not expected. */
  lemma {:induction false} RefusesToken(c: Cursor, w: Wire, rest: bytes, types: set<Type>)
    requires WellFormed(w) && Ahead(c, Enc(w) + rest) && Get(w.head).typ !in types
    ensures Expect(c, types).0 == Some(InvalidHeaderByte)
  {
    hide NextToken, Get, Enc, Entered, WellFormed;
    RoomFor(c, w, rest);
    AheadNext(c, w, rest);
    assert Entered(c, w).typ == Get(w.head).typ by {
      EnteredType(c, w);
    }
  }

  lemma EnteredType(c: Cursor, w: Wire)
    requires WellFormed(w) && c.pos + 1 + |w.len| <= |c.src|
    ensures Entered(c, w).typ == Get(w.head).typ
  {
    hide Get;
  }

  lemma {:induction false} FirstRefused(env: Env, ph: Phase, w: Wire, rest: bytes)
    requires Plain(w) && Ready(ph, Enc(w) + rest) && (!IsArray(w) || |w.items| < 2 || |w.items| > 4)
    ensures Fails(env, ph, Failed(MessageMode, OpArrayHead, if IsArray(w) then BadCount else InvalidHeaderByte))
  {
    TableAgrees(w.head, UintOf(w.len));
    hide NextToken, Get, Expect, Enc, WellFormed, TimeOrEntries;
    if IsArray(w) {
      RoomFor(ph.outer, w, rest);
      AheadExpect(ph.outer, w, rest, {Type.Array});
    } else {
      NoArrayHead(w);
      RefusesToken(ph.outer, w, rest, {Type.Array});
    }
  }

  lemma NoArrayHead(w: Wire)
    requires WellFormed(w) && !IsArray(w)
    ensures Get(w.head).typ != Type.Array
  {
    TableAgrees(w.head, UintOf(w.len));
    hide Get;
  }

  lemma NoStrHead(w: Wire)
    requires WellFormed(w) && !IsStr(w)
    ensures Get(w.head).typ != Type.Str
  {
    TableAgrees(w.head, UintOf(w.len));
    hide Get;
  }

  lemma NoMapHead(w: Wire)
    requires WellFormed(w) && !IsMap(w)
    ensures Get(w.head).typ != Type.Map
  {
    TableAgrees(w.head, UintOf(w.len));
    hide Get;
  }

  lemma NoTimeHead(w: Wire)
    requires Plain(w) && !IsTime(w)
    ensures Get(w.head).typ !in {Type.Ext, Type.Int, Type.Uint}
  {
    TableAgrees(w.head, UintOf(w.len));
    hide Get;
  }

  lemma {:induction false} NoTagRefused(env: Env, ph: Phase, w: Wire, rest: bytes)
    requires Plain(w) && Ready(ph, Enc(w) + rest) && IsArray(w) && 2 <= |w.items| <= 4 && !IsStr(w.items[0])
    ensures Fails(env, ph, Failed(MessageMode, OpTag, InvalidHeaderByte))
  {
    hide NextToken, Get, Expect, Raw, TimeOrEntries, EncAll, Enc, WellFormed;
    var tag, more := w.items[0], EncAll(w.items[1..]) + rest;
    PlainItem(w, 0);
    TableAgrees(w.head, 0);
    AheadExpect(ph.outer, w, rest, {Type.Array});
    var c0 := Entered(ph.outer, w);
    FirstItem(w.items, rest);
    NoStrHead(tag);
    RefusesToken(c0, tag, more, {Type.Str});
  }

  lemma {:induction false} SecondRefused(env: Env, ph: Phase, w: Wire, rest: bytes)
    requires Plain(w) && Ready(ph, Enc(w) + rest) && IsArray(w) && 2 <= |w.items| <= 4 && IsTag(w.items[0])
    requires !IsTime(w.items[1]) && !IsArray(w.items[1]) && !(w.items[1].Leaf? && IsBinHead(w.items[1].head))
    ensures Fails(env, ph, Failed(MessageMode, OpTimeOrEntries, InvalidEntry))
  {
    hide Get, Enc, EncAll, Inside, MessageNext, TimeOrEntries, Plain, IsTime, IsTag, WellFormed, Entered;
    PlainItem(w, 1);
    NoTimeHead(w.items[1]);
    NoArrayHead(w.items[1]);
    NoBinHead(w.items[1]);
    var c, ph' := ReadsHead(env, ph, w, rest);
    EnteredType(c, w.items[1]);
    SwitchRefuses(env, ph', |w.items|);
  }

  lemma SwitchRefuses(env: Env, ph: Phase, n: nat)
    requires ph.mode == MessageMode && ph.outer.typ !in {Type.Ext, Type.Int, Type.Uint, Type.Array, Type.Bin}
    ensures TimeOrEntries(env, ph, n) == Done(ph, Some(Failed(MessageMode, OpTimeOrEntries, InvalidEntry)))
  {
  }

  lemma NoBinHead(w: Wire)
    requires WellFormed(w) && !(w.Leaf? && IsBinHead(w.head))
    ensures Get(w.head).typ != Type.Bin
  {
    TableAgrees(w.head, UintOf(w.len));
    hide Get;
  }

  lemma {:induction false} RecordRefused(env: Env, ph: Phase, w: Wire, rest: bytes)
    requires Plain(w) && Ready(ph, Enc(w) + rest) && IsArray(w) && 2 < |w.items| <= 4 && IsTag(w.items[0])
    requires IsTime(w.items[1]) && !IsMap(w.items[2])
    ensures Fails(env, ph, Failed(MessageMode, OpRecord, InvalidHeaderByte))
  {
    var time, record := w.items[1], w.items[2];
    PlainItem(w, 1);
    PlainItem(w, 2);
    hide Enc, EncAll, MessageNext, TimeOrEntries, Plain, IsTag, WellFormed, IsArray;
    var c, ph' := ReadsHead(env, ph, w, rest);
    FirstItem(w.items[2..], rest);
    BodyRefused(env, ph', c, time, record, EncAll(w.items[3..]) + rest, |w.items|);
  }

  lemma {:induction false} BodyRefused(env: Env, ph: Phase, c: Cursor, time: Wire, record: Wire, rest: bytes, n: nat)
    requires Plain(time) && IsTime(time) && WellFormed(record) && !IsMap(record) && ph.mode == MessageMode
    requires c.pos + 1 + |time.len| <= |c.src| && ph.outer == Entered(c, time)
    requires Ahead(ph.outer, Inside(time) + (Enc(record) + rest))
    ensures var s := TimeOrEntries(env, ph, n);
      s.Done? && s.err == Some(Failed(MessageMode, OpRecord, InvalidHeaderByte)) && s.ph.out == ph.out
  {
    TimeHead(c, time);
    EnteredType(c, time);
    NoMapHead(record);
    hide NextToken, Get, Expect, TimeOf, ReadTimeUnsafe, Enc, Options, WellFormed, Plain;
    AheadTime(ph.outer, time.body, Enc(record) + rest);
    RefusesToken(Over(ph.outer, |time.body|), record, rest, {Type.Map});
  }

  lemma {:induction false} ReadsPayload(env: Env, ph: Phase, w: Wire, rest: bytes) returns (ph': Phase)
    requires Plain(w) && Ready(ph, Enc(w) + rest) && IsArray(w) && 2 <= |w.items| <= 4 && IsTag(w.items[0])
    requires w.items[1].Leaf? && IsBinHead(w.items[1].head)
    ensures ph'.mode == MessageMode && MessageNext(env, ph) == TimeOrEntries(env, ph', |w.items|)
    ensures ph'.out == ph.out && ph'.outer.typ == Type.Bin && Payload(ph'.outer) == w.items[1].body
  {
    var bin := w.items[1];
    PlainItem(w, 1);
    hide NextToken, Get, Expect, EncAll, Enc, MessageNext, TimeOrEntries, Payload, PayloadEnd, PayloadError, Plain;
    var c;
    c, ph' := ReadsHead(env, ph, w, rest);
    EnteredBin(c, bin);
    PayloadAhead(ph'.outer, bin.body, EncAll(w.items[2..]) + rest);
  }

  lemma EnteredBin(c: Cursor, bin: Wire)
    requires WellFormed(bin) && bin.Leaf? && IsBinHead(bin.head) && c.pos + 1 + |bin.len| <= |c.src|
    ensures Entered(c, bin).typ == Type.Bin && Entered(c, bin).length == |bin.body|
  {
    TableAgrees(bin.head, UintOf(bin.len));
    hide Get;
  }

  lemma {:induction false} PayloadRefused(env: Env, ph: Phase, w: Wire, rest: bytes)
    requires Plain(w) && Ready(ph, Enc(w) + rest) && IsArray(w) && 2 <= |w.items| <= 4 && IsTag(w.items[0])
    requires w.items[1].Leaf? && IsBinHead(w.items[1].head) && |w.items[1].body| < 3
    ensures Fails(env, ph, if w.items[1].body == [] then Bare(EOF) else Failed(MessageMode, OpIsGzip, UnexpectedEOF))
  {
    hide Enc, MessageNext, Payload, PayloadEnd, Plain, EnterComp, EnterPacked, IsTag, IsArray;
    var ph' := ReadsPayload(env, ph, w, rest);
  }

  /** A payload that starts like a gzip file and is shorter than its header. */
  lemma {:induction false} GzipRefused(env: Env, ph: Phase, w: Wire, rest: bytes)
    requires Plain(w) && Ready(ph, Enc(w) + rest) && IsArray(w) && 2 <= |w.items| <= 4 && IsTag(w.items[0])
    requires w.items[1].Leaf? && IsBinHead(w.items[1].head) && 3 <= |w.items[1].body| < 10
    requires w.items[1].body[..3] == [0x1f, 0x8b, 0x08]
    ensures Fails(env, ph, Bare(UnexpectedEOF))
  {
    ShortHeader(w.items[1].body);
    hide Enc, MessageNext, Payload, PayloadEnd, Plain, EnterPacked, IsTag, IsArray, IsGzip, HeaderSkipped;
    var ph' := ReadsPayload(env, ph, w, rest);
  }

  lemma ShortHeader(body: bytes)
    requires 3 <= |body| < 10 && body[..3] == [0x1f, 0x8b, 0x08]
    ensures IsGzip(body) == Ok(true, 0) && HeaderSkipped(body, 0).err == Some(UnexpectedEOF)
  {
    var m := body[..3];
    assert body[0] == m[0] && body[1] == m[1] && body[2] == m[2];
  }

  lemma {:induction false} RefusedStep(env: Env, ph: Phase, w: Wire, rest: bytes)
    requires Plain(w) && Ready(ph, Enc(w) + rest) && Refusal(w).Some?
    ensures Fails(env, ph, Refusal(w).value)
  {
    hide StepOf, Enc, Plain, Typestate;
    if !IsArray(w) || |w.items| < 2 || |w.items| > 4 {
      FirstRefused(env, ph, w, rest);
    } else if !IsStr(w.items[0]) {
      NoTagRefused(env, ph, w, rest);
    } else if !IsTag(w.items[0]) {
      TagRefused(env, ph, w, rest);
    } else if IsTime(w.items[1]) {
      RecordRefused(env, ph, w, rest);
    } else if w.items[1].Leaf? && IsBinHead(w.items[1].head) {
      if |w.items[1].body| < 3 {
        PayloadRefused(env, ph, w, rest);
      } else {
        GzipRefused(env, ph, w, rest);
      }
    } else {
      SecondRefused(env, ph, w, rest);
    }
  }

  /** Behind any valid requests, such a value ends the reading with that error. What the requests before it
      owe has gone out, and nothing else. */
  lemma {:induction false} RefusesRequest(env: Env, rs: seq<Request>, w: Wire, rest: bytes)
    requires AlwaysAcks(env) && AllValid(env.inflate, rs) && Plain(w) && Refusal(w).Some?
    ensures Run(env, Start(EncRequests(rs) + (Enc(w) + rest))) == (AllOutputs(env.inflate, rs), Refusal(w).value)
  {
    hide Run, EncRequests, AllOutputs, Enc, Plain, Refusal;
    var ph := RunsPrefix(env, rs, Enc(w) + rest);
    RefusedStep(env, ph, w, rest);
    RunFails(env, ph);
  }

  /** No valid request is refused. */
  lemma {:induction false} ValidNotRefused(inflate: Inflate, r: Request)
    requires Valid(inflate, r)
    ensures Refusal(AsWire(r)) == None
  {
    hide Plain, Get, EncAll, EncMembers, ValidMember, IsOption;
    match r
    case Packed(_, _, _, _, _, events, _) => NotGzip(events);
    case Compressed(_, _, _, _, _, members, _, _) =>
      FirstHeader(inflate, members);
      OpensHeader(members);
    case _ =>
  }

  lemma FirstHeader(inflate: Inflate, members: seq<Member>)
    requires members != [] && forall k :: 0 <= k < |members| ==> ValidMember(inflate, members[k])
    ensures ValidHeader(members[0].header)
  {
  }

  /** What the server has against a value that stands where a batch's next entry is due. */
  function EntryRefusal(mode: Mode, w: Wire): Option<Failure>
    requires Plain(w)
  {
    if !IsArray(w) then Some(Failed(mode, OpArrayHead, InvalidHeaderByte))
    else if |w.items| != 2 then Some(Failed(mode, OpArrayHead, BadCount))
    else if !IsTime(w.items[0]) then Some(Failed(mode, OpTime, InvalidHeaderByte))
    else if !IsMap(w.items[1]) then Some(Failed(mode, OpRecord, InvalidHeaderByte))
    else None
  }

  lemma {:induction false} HeadRefused(mode: Mode, c: Cursor, w: Wire, rest: bytes)
    requires Plain(w) && Ahead(c, Enc(w) + rest) && (!IsArray(w) || |w.items| != 2)
    ensures ReadEntry(mode, c).err
         == Some(Failed(mode, OpArrayHead, if IsArray(w) then BadCount else InvalidHeaderByte))
  {
    TableAgrees(w.head, UintOf(w.len));
    hide NextToken, Get, Expect, TimeOf, Enc, WellFormed;
    if IsArray(w) {
      RoomFor(c, w, rest);
      AheadExpect(c, w, rest, {Type.Array});
    } else {
      NoArrayHead(w);
      RefusesToken(c, w, rest, {Type.Array});
    }
  }

  /** An array of two has been entered. */
  lemma {:induction false} EntersPair(c: Cursor, w: Wire, rest: bytes) returns (c0: Cursor)
    requires Plain(w) && Ahead(c, Enc(w) + rest) && IsArray(w) && |w.items| == 2
    ensures Plain(w.items[0]) && Plain(w.items[1])
    ensures Expect(c, {Type.Array}) == (None, c0) && c0.items == 2
    ensures Ahead(c0, Enc(w.items[0]) + (Enc(w.items[1]) + rest))
  {
    RoomFor(c, w, rest);
    TableAgrees(w.head, UintOf(w.len));
    SplitPair(w.items, rest);
    NothingAhead(w.items[2..], rest);
    hide NextToken, Get, Expect, Enc, EncAll;
    AheadExpect(c, w, rest, {Type.Array});
    c0 := Entered(c, w);
  }

  lemma {:induction false} TimeRefused(mode: Mode, c: Cursor, w: Wire, rest: bytes)
    requires Plain(w) && Ahead(c, Enc(w) + rest) && IsArray(w) && |w.items| == 2 && !IsTime(w.items[0])
    ensures ReadEntry(mode, c).err == Some(Failed(mode, OpTime, InvalidHeaderByte))
  {
    hide NextToken, Get, Expect, TimeOf, Enc, WellFormed, Ahead, IsTime;
    var c0 := EntersPair(c, w, rest);
    NoTimeHead(w.items[0]);
    RefusesToken(c0, w.items[0], Enc(w.items[1]) + rest, {Type.Ext, Type.Int, Type.Uint});
  }

  lemma {:induction false} PairRefused(mode: Mode, c: Cursor, w: Wire, rest: bytes)
    requires Plain(w) && Ahead(c, Enc(w) + rest) && IsArray(w) && |w.items| == 2
    requires IsTime(w.items[0]) && !IsMap(w.items[1])
    ensures ReadEntry(mode, c).err == Some(Failed(mode, OpRecord, InvalidHeaderByte))
  {
    hide NextToken, Get, Expect, TimeOf, Enc, WellFormed, Ahead, IsTime, IsMap;
    var c0 := EntersPair(c, w, rest);
    NoMapHead(w.items[1]);
    var c2 := PassesTimeTo(c0, w.items[0], Enc(w.items[1]) + rest);
    RefusesToken(c2, w.items[1], rest, {Type.Map});
  }

  /** An entry is read exactly if nothing is held against it. */
  lemma {:induction false} EntryExact(mode: Mode, c: Cursor, w: Wire, rest: bytes)
    requires Plain(w) && Ahead(c, Enc(w) + rest)
    ensures ReadEntry(mode, c).err == EntryRefusal(mode, w)
  {
    hide Enc, Plain, ReadEntry, Expect, Ahead;
    if !IsArray(w) || |w.items| != 2 {
      HeadRefused(mode, c, w, rest);
    } else if !IsTime(w.items[0]) {
      TimeRefused(mode, c, w, rest);
    } else if !IsMap(w.items[1]) {
      PairRefused(mode, c, w, rest);
    } else {
      ReadsEvent(mode, c, w, rest);
    }
  }

  /** In all three batch modes, then, Next answers what the entry deserves, and nothing goes out. */
  lemma {:induction false} EntryStepExact(env: Env, ph: Phase, w: Wire, rest: bytes)
    requires Typestate(ph) && ph.mode != MessageMode && (ph.mode == ForwardMode ==> ph.fwd.items > 0)
    requires Plain(w) && Ahead(RecordCursor(ph), Enc(w) + rest)
    ensures var s := StepOf(env, ph);
      s.Done? && s.err == EntryRefusal(ph.mode, w) && s.ph.out == ph.out
  {
    EntryExact(ph.mode, RecordCursor(ph), w, rest);
    NoEnd(RecordCursor(ph), w, rest);
    hide ReadEntry, Expect, EntryRefusal, Plain, Enc;
  }

  /** Where the connection, or the decompressor behind a payload, fails between two entries, so does Next. */
  lemma {:induction false} EntriesBreak(env: Env, ph: Phase)
    requires Typestate(ph) && ph.mode != MessageMode && (ph.mode == ForwardMode ==> ph.fwd.items > 0)
    requires Ahead(RecordCursor(ph), []) && RecordCursor(ph).end != EOF
    ensures Fails(env, ph, Failed(ph.mode, OpArrayHead, RecordCursor(ph).end))
  {
    EndAhead(RecordCursor(ph));
    hide Expect, NextToken;
  }

  /** A connection that closes inside the length of an array head: behind the head byte that is a plain end,
      behind a byte of the length it is an error. */
  lemma {:induction false} CutInHead(env: Env, ph: Phase, h: byte, part: bytes)
    requires (h == 0xdc || h == 0xdd) && |part| < (if h == 0xdc then 2 else 4) && Ready(ph, [h] + part)
    ensures Fails(env, ph, if part == [] then Bare(EOF) else Failed(MessageMode, OpArrayHead, UnexpectedEOF))
  {
    ShortLength(ph.outer, h, part);
    hide NextToken, TimeOrEntries, Raw, Get;
  }

  lemma ShortLength(c: Cursor, h: byte, part: bytes)
    requires !Get(h).isValueLength && |part| < Get(h).length && Ahead(c, [h] + part)
    ensures !NextToken(c).0
    ensures NextToken(c).1.err == Some(if part == [] || c.end != EOF then c.end else UnexpectedEOF)
  {
    SplitAhead(c, [h], part);
    assert c.src[c.pos] == c.src[c.pos..c.pos + 1][0];
    assert |c.src| == c.pos + 1 + |part|;
    hide Get;
  }

  lemma {:induction false} NoEnd(c: Cursor, w: Wire, rest: bytes)
    requires Plain(w) && Ahead(c, Enc(w) + rest)
    ensures Expect(c, {Type.Array}).0 != Some(EOF)
  {
    hide Enc, Get, NextToken, Entered;
    AheadNext(c, w, rest);
  }

  /** What ends the reading of an option map behind its first pairs: the connection ends before a key or
      before a value, a key is not a string, or the callback does not accept a chunk. */
  datatype Fault =
    | NoKey
    | NoValue(key: Wire)
    | OtherKey(key: Wire, rest: bytes)
    | Unaccepted(key: Wire, chunk: Wire, rest: bytes)

  /** The fault as it stands behind those pairs, after which out has gone out. */
  ghost predicate IsFault(env: Env, out: seq<Output>, f: Fault) {
    match f
    case NoKey => true
    case NoValue(key) => Plain(key) && IsStr(key)
    case OtherKey(key, _) => Plain(key) && !IsStr(key)
    case Unaccepted(key, chunk, _) =>
      && Plain(key) && IsStr(key) && Plain(chunk) && IsStr(chunk)
      && key.body == Ascii("chunk") && !env.ackOk(out, chunk.body)
  }

  function FaultBytes(f: Fault): bytes {
    match f
    case NoKey => []
    case NoValue(key) => Enc(key)
    case OtherKey(key, rest) => Enc(key) + rest
    case Unaccepted(key, chunk, rest) => Enc(key) + (Enc(chunk) + rest)
  }

  function FaultFailure(mode: Mode, f: Fault): Failure {
    match f
    case NoKey => Bare(UnexpectedEOF)
    case NoValue(_) => Bare(UnexpectedEOF)
    case OtherKey(_, _) => Failed(mode, OpAck, InvalidHeaderByte)
    case Unaccepted(_, _, _) => Failed(mode, OpAck, AckFailed)
  }

  /** A string is read, whatever follows it. */
  lemma {:induction false} ReadsStr(c: Cursor, key: Wire, rest: bytes) returns (c2: Cursor)
    requires Plain(key) && IsStr(key) && Ahead(c, Enc(key) + rest)
    ensures Expect(c, {Type.Str}).0 == None && Raw(Expect(c, {Type.Str}).1) == (key.body, c2)
    ensures NextToken(c).0 && Raw(NextToken(c).1) == (key.body, c2)
    ensures Ahead(c2, rest) && c2.end == c.end
  {
    RoomFor(c, key, rest);
    TableAgrees(key.head, UintOf(key.len));
    hide NextToken, Get, Expect, Raw, Enc;
    AheadNext(c, key, rest);
    AheadExpect(c, key, rest, {Type.Str});
    AheadRaw(Entered(c, key), key.body, rest);
    c2 := Over(Entered(c, key), |key.body|);
  }

  lemma {:induction false} FaultStops(env: Env, mode: Mode, c: Cursor, out: seq<Output>, f: Fault, n: nat)
    requires n > 0 && c.end == EOF && IsFault(env, out, f) && Ahead(c, FaultBytes(f))
    ensures var h := OptionItems(env, mode, c, out, n);
      h.out == out && h.err == Some(FaultFailure(mode, f))
  {
    hide NextToken, Get, Expect, Raw, Enc, WellFormed, Skipped;
    match f
    case NoKey =>
      EndAhead(c);
    case NoValue(key) =>
      assert Enc(key) + [] == Enc(key);
      var c2 := ReadsStr(c, key, []);
      EndAhead(c2);
    case OtherKey(key, rest) =>
      NoStrHead(key);
      RefusesToken(c, key, rest, {Type.Str});
    case Unaccepted(key, chunk, rest) =>
      assert CHUNK == Ascii("chunk");
      var c2 := ReadsStr(c, key, Enc(chunk) + rest);
      var c4 := ReadsStr(c2, chunk, rest);
  }

  /** The options are read up to the fault, and the chunks before it acknowledged. */
  lemma {:induction false} FaultEnds(env: Env, mode: Mode, c: Cursor, out: seq<Output>, w: Wire, good: seq<Wire>,
                                     f: Fault)
    requires IsMap(w) && WellFormed(w) && c.end == EOF && |good| == 2 * (|good| / 2) && |good| < |w.items|
    requires AllPlain(good) && OptionPairs(good) && Accepts(env, out, good) && IsFault(env, out + PairAcks(good), f)
    requires Ahead(c, ([w.head] + w.len) + (EncAll(good) + FaultBytes(f)))
    ensures var h := HandleOptions(env, mode, c, out);
      h.out == out + PairAcks(good) && h.err == Some(FaultFailure(mode, f))
  {
    var c0 := EntersMap(c, w, EncAll(good) + FaultBytes(f));
    hide NextToken, Get, Expect, Enc, EncAll, Plain, WellFormed, OptionItems, FaultBytes, Ahead, OptionPairs, PairAcks;
    hide AcksAfter, Accepts, IsFault, IsMap;
    var end := ReadsPairs(env, mode, c0, out, good, c0.items, FaultBytes(f));
    AcksInOrder(out, good);
    FaultStops(env, mode, end, out + PairAcks(good), f, c0.items - |good| / 2);
  }

  lemma {:induction false} EntersMap(c: Cursor, w: Wire, rest: bytes) returns (c0: Cursor)
    requires IsMap(w) && WellFormed(w) && Ahead(c, ([w.head] + w.len) + rest)
    ensures Expect(c, {Type.Map}) == (None, c0) && 2 * c0.items == |w.items|
    ensures Ahead(c0, rest) && c0.src == c.src && c0.end == c.end
  {
    SplitAhead(c, [w.head] + w.len, rest);
    TableAgrees(w.head, UintOf(w.len));
    SizedEnters(c, w);
    hide NextToken, Get, Expect, LengthSize, BodySize, ItemCount;
    ExpectHead(c, w, rest, {Type.Map});
    c0 := Entered(c, w);
  }

  /** A batch that announced an option, when reading that fails. */
  lemma {:induction false} RunsToOption(env: Env, ph: Phase, r: Request, after: bytes) returns (ph': Phase)
    requires !r.Message? && Valid(env.inflate, r) && r.option.Some? && Ready(ph, Opening(r, after))
    ensures r.tag.Leaf? && AllEvents(Entries(r)) && ph'.out == ph.out + EntriesOut(r.tag.body, Entries(r))
    ensures Ahead(ph'.outer, after) && ph'.outer.end == EOF
    ensures var h := HandleOptions(env, ModeOf(r), ph'.outer, ph'.out);
      h.err.Some? ==> Run(env, ph) == (h.out, h.err.value)
  {
    EntriesKnown(env.inflate, r);
    BatchShape(env.inflate, r);
    OpensMode(r);
    hide StepOf, Run, Opening, Enc, EncAll, AsWire, PendingOf, Valid, ValidPending, PendingOut, Outputs, HandleOptions;
    var p;
    ph', p := RunsEntries(env, ph, r, after);
    BatchLive(ph', p.(events := []), after);
    BatchEnd(ph', p.(events := []), after);
    hide InBatch;
    OptionStep(env, ph', p.(events := []), after);
    if HandleOptions(env, ModeOf(r), ph'.outer, ph'.out).err.Some? {
      RunFails(env, ph');
    }
  }

  /** The mode a batch is read in. */
  function ModeOf(r: Request): Mode {
    match r
    case Message(_, _, _, _, _) => MessageMode
    case Batch(_, _, _, _, _) => ForwardMode
    case Packed(_, _, _, _, _, _, _) => PackedMode
    case Compressed(_, _, _, _, _, _, _, _) => CompMode
  }

  lemma OpensMode(r: Request)
    requires !r.Message? && r.tag.Leaf? && (r.Batch? ==> r.entries.Node?)
    ensures PendingOf(r).mode == ModeOf(r) && PendingOf(r).option == r.option
  {
  }

  lemma BatchEnd(ph: Phase, p: Pending, after: bytes)
    requires InBatch(ph, p, after)
    ensures ph.outer.end == EOF
  {
  }

  /** A batch whose announced option is no map delivers its events and is then refused. */
  lemma {:induction false} NoOptionRefused(env: Env, ph: Phase, r: Request, w: Wire, rest: bytes)
    requires !r.Message? && Valid(env.inflate, r) && r.option.Some? && Plain(w) && !IsMap(w)
    requires AsWire(r).Node? && Ready(ph, Opening(r, Enc(w) + rest))
    ensures r.tag.Leaf? && AllEvents(Entries(r))
    ensures Run(env, ph) == (ph.out + EntriesOut(r.tag.body, Entries(r)), Failed(ModeOf(r), OpAck, InvalidHeaderByte))
  {
    NoMapHead(w);
    hide Run, Opening, Enc, Valid, Plain, Entries, EntriesOut, Expect, AsWire, Ready;
    var ph' := RunsToOption(env, ph, r, Enc(w) + rest);
    assert WellFormed(w) by { WellFormedOf(w); }
    RefusesToken(ph'.outer, w, rest, {Type.Map});
  }

  lemma WellFormedOf(w: Wire)
    requires Plain(w)
    ensures WellFormed(w)
  {
  }

  /** A batch whose option map breaks off, has a key that is no string, or has a chunk the callback does not
      accept, behind any pairs that are in order: its events are delivered, the chunks before the fault are
      acknowledged, and the reading ends in that error. */
  lemma {:induction false} FaultyOption(env: Env, ph: Phase, r: Request, w: Wire, good: seq<Wire>, f: Fault)
    requires !r.Message? && Valid(env.inflate, r) && r.option.Some? && r.tag.Leaf? && AllEvents(Entries(r))
    requires IsMap(w) && WellFormed(w) && |good| == 2 * (|good| / 2) && |good| < |w.items|
    requires var out := ph.out + EntriesOut(r.tag.body, Entries(r));
      && AllPlain(good) && OptionPairs(good) && Accepts(env, out, good) && IsFault(env, out + PairAcks(good), f)
    requires AsWire(r).Node? && |AsWire(r).items| >= 2
    requires Ready(ph, Opening(r, ([w.head] + w.len) + (EncAll(good) + FaultBytes(f))))
    ensures Run(env, ph) == (ph.out + EntriesOut(r.tag.body, Entries(r)) + PairAcks(good), FaultFailure(ModeOf(r), f))
  {
    hide Run, Opening, Enc, EncAll, Valid, Entries, EntriesOut, AsWire, Ready, HandleOptions, FaultBytes, FaultFailure;
    hide IsFault, Accepts, OptionPairs, PairAcks, AllPlain, WellFormed, IsMap;
    var ph' := RunsToOption(env, ph, r, ([w.head] + w.len) + (EncAll(good) + FaultBytes(f)));
    FaultEnds(env, ModeOf(r), ph'.outer, ph'.out, w, good, f);
  }
}
