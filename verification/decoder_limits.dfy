/** Requests the protocol allows and this server does not decode, with the exact conditions. */
module DecoderLimits {
  import opened Bytes
  import opened Types
  import opened Results
  import opened Timestamps
  import opened Wires
  import opened Iterators
  import opened Lookahead
  import opened Gunzip
  import opened Transport
  import opened Grammar
  import opened Decoder

  /** A packed request whose payload is a plain stream of events is entered exactly when there is an
      event in it; an empty one is reported as the end of the connection, whatever follows it. */
  lemma {:induction false} PackedExact(env: Env, ph: Phase, w: Wire, events: seq<Wire>, rest: bytes)
    requires ph.mode == MessageMode && Typestate(ph) && Ahead(ph.outer, Enc(w) + rest)
    requires Plain(w) && IsArray(w) && 2 <= |w.items| <= 3 && IsTag(w.items[0])
    requires w.items[1].Leaf? && IsBinHead(w.items[1].head) && w.items[1].body == EncAll(events)
    requires AllEvents(events)
    ensures var s := StepOf(env, ph);
      && (s.Goto? <==> events != [])
      && (events == [] ==> s.Done? && s.err == Some(Bare(EOF)) && s.ph.out == ph.out)
  {
    hide NextToken, Get, Expect, EncAll, Enc, MessageNext, IsGzip, Payload, PayloadEnd, PayloadError;
    var bin, more := w.items[1], EncAll(w.items[2..]) + rest;
    var c, ph' := ReadsHead(env, ph, w, rest);
    TableAgrees(bin.head, UintOf(bin.len));
    PayloadAhead(ph'.outer, EncAll(events), more);
    if events == [] {
      EmptyIsShort(events);
    } else {
      NotGzip(events);
    }
  }

  lemma EmptyIsShort(events: seq<Wire>)
    requires events == []
    ensures IsGzip(EncAll(events)) == Err(EOF)
  {
  }

  /** Only a batch of exactly three items announces an option: of four, the last two are left to be read as
      requests. */
  lemma {:induction false} AnnouncedExact(env: Env, ph: Phase, w: Wire, rest: bytes)
    requires ph.mode == MessageMode && Typestate(ph) && Ahead(ph.outer, Enc(w) + rest)
    requires Plain(w) && IsArray(w) && 2 <= |w.items| <= 4 && IsTag(w.items[0]) && IsArray(w.items[1])
    ensures var s := StepOf(env, ph);
      && s.Goto? && s.ph.mode == ForwardMode && s.ph.out == ph.out
      && s.ph.fwd == Forward(w.items[0].body, |w.items[1].items|, |w.items| == 3)
  {
    PlainItem(w, 1);
    hide EncAll, Enc, MessageNext, TimeOrEntries, Plain, Get, IsTag, IsArray, Entered, Inside, WellFormed, Typestate;
    var c, ph' := ReadsHead(env, ph, w, rest);
    EntersArray(c, w.items[1]);
    EntersEntries(env, ph', |w.items|);
  }

  lemma EntersEntries(env: Env, ph: Phase, n: nat)
    requires ph.mode == MessageMode && ph.outer.typ == Type.Array
    ensures TimeOrEntries(env, ph, n)
         == Goto(ph.(fwd := Forward(ph.entry.tag, ph.outer.items, n == 3), mode := ForwardMode))
  {
  }

  lemma EntersArray(c: Cursor, w: Wire)
    requires WellFormed(w) && IsArray(w) && c.pos + 1 + |w.len| <= |c.src|
    ensures Entered(c, w).typ == Type.Array && Entered(c, w).items == |w.items|
  {
    TableAgrees(w.head, UintOf(w.len));
    hide Get;
  }

  /** The str form of a packed payload, which the protocol tells servers to accept, is refused. */
  lemma {:induction false} StrPayloadRefused(env: Env, ph: Phase, w: Wire, rest: bytes)
    requires ph.mode == MessageMode && Ahead(ph.outer, Enc(w) + rest)
    requires Plain(w) && IsArray(w) && 2 <= |w.items| <= 3 && IsTag(w.items[0]) && IsStr(w.items[1])
    ensures var s := StepOf(env, ph);
      s.Done? && s.err == Some(Failed(MessageMode, OpTimeOrEntries, InvalidEntry)) && s.ph.out == ph.out
  {
    hide NextToken, Get, Expect, EncAll, Enc, MessageNext;
    var c, ph' := ReadsHead(env, ph, w, rest);
    TableAgrees(w.items[1].head, UintOf(w.items[1].len));
  }

  /** A request whose tag is empty or longer than 64 bytes is refused, whatever else it holds; the protocol
      has no such bounds. */
  lemma {:induction false} TagRefused(env: Env, ph: Phase, w: Wire, rest: bytes)
    requires ph.mode == MessageMode && Ahead(ph.outer, Enc(w) + rest)
    requires Plain(w) && IsArray(w) && 2 <= |w.items| <= 4 && IsStr(w.items[0])
    ensures var s, size := StepOf(env, ph), |w.items[0].body|;
      size < 1 || size > 64 ==>
        && s.Done? && s.ph.out == ph.out
        && s.err == Some(Failed(MessageMode, OpTag, if size < 1 then TagTooShort else TagTooLong))
  {
    hide NextToken, Get, Expect, Raw, TimeOrEntries, EncAll, Enc, WellFormed;
    var tag, more := w.items[0], EncAll(w.items[1..]) + rest;
    PlainItem(w, 0);
    TableAgrees(w.head, 0);
    TableAgrees(tag.head, 0);
    AheadExpect(ph.outer, w, rest, {Type.Array});
    var c0 := Entered(ph.outer, w);
    FirstItem(w.items, rest);
    AheadExpect(c0, tag, more, {Type.Str});
  }

  /** A single event of four items, the fourth being its options; a record's keys are strings in the protocol. */
  predicate EventWithOption(w: Wire) {
    && Plain(w) && IsArray(w) && |w.items| == 4 && IsTag(w.items[0]) && IsTime(w.items[1])
    && IsMap(w.items[2]) && (w.items[2].items != [] ==> IsStr(w.items[2].items[0]))
    && IsOption(w.items[3])
  }

  /** Where the cursor stands when the options of such an event are handled: inside the record. */
  lemma ReachesOptions(env: Env, ph: Phase, w: Wire, rest: bytes) returns (ph': Phase)
    requires ph.mode == MessageMode && EventWithOption(w) && Ahead(ph.outer, Enc(w) + rest)
    ensures var (ph1, err) := Options(env, ph', true); StepOf(env, ph) == Done(ph1, err)
    ensures ph'.out == ph.out && ph'.mode == MessageMode && ph'.packed == ph.packed && ph'.comp == ph.comp
    ensures ph'.entry == Entry(w.items[0].body, ReadTimeUnsafe(w.items[1].head, w.items[1].body), Some(FromOuter))
    ensures ph'.outer.src == ph.outer.src && ph'.outer.end == ph.outer.end
    ensures Ahead(ph'.outer, EncAll(w.items[2].items) + (Enc(w.items[3]) + rest))
  {
    hide NextToken, Get, Expect, TimeOf, ReadTimeUnsafe, EncAll, Enc, MessageNext, Options;
    var c, ph0 := ReadsHead(env, ph, w, rest);
    var time, record, option := w.items[1], w.items[2], w.items[3];
    assert Plain(time) && Plain(record) && Plain(option);
    LastItems(w.items, rest);
    TableAgrees(time.head, UintOf(time.len));
    TableAgrees(record.head, UintOf(record.len));
    AheadTime(ph0.outer, time.body, Enc(record) + (Enc(option) + rest));
    var c1 := Over(ph0.outer, |time.body|);
    AheadExpect(c1, record, Enc(option) + rest, {Type.Map});
    var entry := Entry(ph0.entry.tag, ReadTimeUnsafe(time.head, time.body), Some(FromOuter));
    ph' := ph0.(outer := Entered(c1, record), entry := entry);
  }

  lemma LastItems(items: seq<Wire>, rest: bytes)
    requires |items| == 4
    ensures EncAll(items[2..]) + rest == Enc(items[2]) + (Enc(items[3]) + rest)
  {
    assert items[2..] == [items[2]] + [items[3]];
    EncAllConcat([items[2]], [items[3]]);
    EncAllOne(items[2]);
    EncAllOne(items[3]);
  }

  /** The consumer gets the event that was sent, and the next request is read from where it starts. */
  ghost predicate Decoded(s: Step, w: Wire, rest: bytes)
    requires EventWithOption(w)
  {
    && s.Done? && s.err == None && Typestate(s.ph) && RecordLive(s.ph)
    && Taken(s.ph).out == s.ph.out + [Delivered(EventOf(w.items[0].body, w.items[1], w.items[2]))]
    && Ahead(Taken(s.ph).outer, rest)
  }

  /** Such an event is decoded if and only if its record is empty, because the options are looked for where
      the record's pairs begin, and either the option's last token has no payload or nothing follows the
      request, because the consumer's Skip then acts on that token. Next reports no error exactly when the
      record is empty, and has acknowledged the option's chunks before the event is out. */
  lemma {:induction false} EventWithOptionExact(env: Env, ph: Phase, w: Wire, rest: bytes)
    requires AlwaysAcks(env) && ph.mode == MessageMode && EventWithOption(w) && Ahead(ph.outer, Enc(w) + rest)
    ensures var s := StepOf(env, ph);
      && s.Done? && (s.err == None <==> w.items[2].items == [])
      && (s.err == None ==> s.ph.out == ph.out + PairAcks(w.items[3].items))
    ensures Typestate(ph) ==>
              (Decoded(StepOf(env, ph), w, rest) <==> w.items[2].items == [] && (Tail(w.items[3]) == 0 || rest == []))
  {
    hide NextToken, Get, Expect, EncAll, Enc, MessageNext, StepOf, Plain, IsOption;
    var pairs, option := w.items[2].items, w.items[3];
    if pairs == [] {
      var s := ReadsOptionOnly(env, ph, w, rest);
      if Typestate(ph) {
        EventWithOptionOverruns(env, ph, w, rest);
      }
      NothingAhead(pairs, []);
      hide Taken, Tail;
      var over := if Tail(option) <= |rest| then Tail(option) else |rest|;
      assert rest[over..] == rest <==> over == 0;
      assert rest[..over] == [] <==> over == 0;
    } else {
      var ph' := ReachesOptions(env, ph, w, rest);
      var key := pairs[0];
      PlainItem(w, 2);
      PlainItem(w.items[2], 0);
      FirstItem(pairs, Enc(option) + rest);
      AheadNext(ph'.outer, key, EncAll(pairs[1..]) + (Enc(option) + rest));
      RefusesStr(ph'.outer, key);
    }
  }

  lemma FirstItem(items: seq<Wire>, rest: bytes)
    requires items != []
    ensures EncAll(items) + rest == Enc(items[0]) + (EncAll(items[1..]) + rest)
  {
  }

  lemma PlainItem(w: Wire, k: nat)
    requires Plain(w) && w.Node? && k < |w.items|
    ensures Plain(w.items[k]) && WellFormed(w.items[k])
  {
  }

  lemma RefusesStr(c: Cursor, key: Wire)
    requires WellFormed(key) && IsStr(key) && NextToken(c) == (true, Entered(c, key))
    ensures Expect(c, {Type.Map}).0.Some?
  {
    hide NextToken;
    TableAgrees(key.head, UintOf(key.len));
  }

  /** Behind an empty record the consumer's Skip passes over as many bytes of what follows the request as the
      option's last token had, or over all that is left, and the event's record holds these bytes. */
  lemma {:induction false} EventWithOptionOverruns(env: Env, ph: Phase, w: Wire, rest: bytes)
    requires AlwaysAcks(env) && ph.mode == MessageMode && Typestate(ph) && Ahead(ph.outer, Enc(w) + rest)
    requires EventWithOption(w) && w.items[2].items == []
    ensures var s := StepOf(env, ph);
      var over := if Tail(w.items[3]) <= |rest| then Tail(w.items[3]) else |rest|;
      && s.Done? && s.err == None && RecordLive(s.ph) && Typestate(s.ph)
      && s.ph.out == ph.out + PairAcks(w.items[3].items)
      && Taken(s.ph).out == s.ph.out
           + [Delivered(EventOf(w.items[0].body, w.items[1], w.items[2]).(record := rest[..over]))]
      && Ahead(Taken(s.ph).outer, rest[over..])
  {
    ReadsTime(w.items[1]);
    hide StepOf, Plain, EncAll, Enc, PairAcks, ReadTimeUnsafe, TimeOwed;
    var s := ReadsOptionOnly(env, ph, w, rest);
    hide Tail;
    TakesSettled(s, Tail(w.items[3]), rest);
  }

  /** Next reads the option in place of the empty record and returns with the cursor on its last token. */
  lemma ReadsOptionOnly(env: Env, ph: Phase, w: Wire, rest: bytes) returns (s: Phase)
    requires AlwaysAcks(env) && ph.mode == MessageMode && Ahead(ph.outer, Enc(w) + rest)
    requires EventWithOption(w) && w.items[2].items == []
    ensures StepOf(env, ph) == Done(s, None) && s.mode == MessageMode && RecordLive(s)
    ensures Typestate(ph) ==> Typestate(s)
    ensures s.entry == Entry(w.items[0].body, ReadTimeUnsafe(w.items[1].head, w.items[1].body), Some(FromOuter))
    ensures s.out == ph.out + PairAcks(w.items[3].items) && Settled(s.outer, Tail(w.items[3])) && Ahead(s.outer, rest)
  {
    hide NextToken, Get, Expect, EncAll, Enc, MessageNext, StepOf, Plain, IsOption, OptionItems, ReadTimeUnsafe;
    var ph' := ReachesOptions(env, ph, w, rest);
    var option := w.items[3];
    NothingAhead(w.items[2].items, Enc(option) + rest);
    PlainItem(w, 3);
    var end := ReadsOption(env, MessageMode, ph'.outer, ph'.out, option, rest);
    s := ph'.(outer := end, out := Options(env, ph', true).0.out);
  }

  /** Taking an event whose cursor is on a token that is over. */
  lemma TakesSettled(ph: Phase, n: nat, rest: bytes)
    requires ph.mode == MessageMode && Typestate(ph) && RecordLive(ph)
    requires Settled(ph.outer, n) && Ahead(ph.outer, rest)
    ensures var over := if n <= |rest| then n else |rest|;
      && Taken(ph).out == ph.out + [Delivered(Event(ph.entry.tag, ph.entry.time, 0, rest[..over]))]
      && Ahead(Taken(ph).outer, rest[over..])
  {
    var over := if n <= |rest| then n else |rest|;
    SkipsAgain(ph.outer, n);
    assert rest[..over] + rest[over..] == rest;
    SplitAhead(ph.outer, rest[..over], rest[over..]);
    hide Skipped;
  }

  /** So behind a lone chunk it passes over as many bytes of the next request as the chunk has. */
  lemma {:induction false} EventWithChunkOverruns(env: Env, ph: Phase, w: Wire, key: Wire, chunk: Wire, rest: bytes)
    requires AlwaysAcks(env) && ph.mode == MessageMode && Typestate(ph) && Ahead(ph.outer, Enc(w) + rest)
    requires EventWithOption(w) && w.items[2].items == [] && w.items[3].items == [key, chunk] && key.body == CHUNK
    ensures var s := StepOf(env, ph);
      && s.Done? && s.err == None && RecordLive(s.ph) && Typestate(s.ph)
      && s.ph.out == ph.out + [Acked(chunk.body)]
      && Ahead(Taken(s.ph).outer, if |chunk.body| <= |rest| then rest[|chunk.body|..] else [])
  {
    hide StepOf, Taken;
    EventWithOptionOverruns(env, ph, w, rest);
    assert w.items[3].items[2..] == [];
  }
}
