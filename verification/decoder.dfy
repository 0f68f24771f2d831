/** A consumer that alternates Next and Record.Skip until Next fails, and what it gets to see. */
module Decoder {
  import opened Bytes
  import opened Types
  import opened Results
  import opened Timestamps
  import opened Wires
  import opened Iterators
  import opened Lookahead
  import opened Gunzip
  import opened Transport
  import opened Grammar

  /** The cursor the current mode reads its events, and their records, from. */
  function RecordCursor(ph: Phase): Cursor
    requires Typestate(ph)
  {
    match ph.mode
    case PackedMode => ph.packed.iter.value
    case CompMode => ph.comp.iter.value
    case _ => ph.outer
  }

  function WithCursor(ph: Phase, c: Cursor): Phase {
    match ph.mode
    case PackedMode => ph.(packed := ph.packed.(iter := Some(c)))
    case CompMode => ph.(comp := ph.comp.(iter := Some(c)))
    case _ => ph.(outer := c)
  }

  /** The consumer takes the event and skips its record. */
  function Taken(ph: Phase): Phase
    requires Typestate(ph) && RecordLive(ph)
  {
    var c := RecordCursor(ph);
    var c1 := Skipped(c);
    var event := Event(ph.entry.tag, ph.entry.time, c.items, c.src[c.pos..c1.pos]);
    WithCursor(ph, c1).(out := ph.out + [Delivered(event)])
  }

  /** Taking an event keeps the typestate and never makes more to read. */
  lemma TakenSound(ph: Phase)
    requires Typestate(ph) && RecordLive(ph)
    ensures Typestate(Taken(ph)) && Taken(ph).outer.src == ph.outer.src && ph.outer.pos <= Taken(ph).outer.pos
    ensures Taken(ph).outer.pos == ph.outer.pos ==> SubUnread(Taken(ph)) <= SubUnread(ph)
  {
  }

  /** Everything that goes out until Next fails, and the failure. It fails at last: every event costs
      bytes of the connection, or of the current payload. */
  function Run(env: Env, ph: Phase): (seq<Output>, Failure)
    requires Typestate(ph)
    decreases Unread(ph), SubUnread(ph)
  {
    NextOrderly(env, ph);
    var (ph1, err) := Next(env, ph);
    if err.Some? then (ph1.out, err.value) else Run(env, Taken(ph1))
  }

  /** Between requests: nothing of a batch is left, and the rest of the connection lies ahead. */
  ghost predicate Ready(ph: Phase, rest: bytes) {
    ph.mode == MessageMode && Typestate(ph) && ph.outer.end == EOF && Ahead(ph.outer, rest)
  }

  /** A batch on its way: the events still to come, how many entries an array announces beyond them, and
      the option behind. */
  datatype Pending = Pending(mode: Mode, tag: bytes, events: seq<Wire>, due: nat, option: Option<Wire>)

  predicate ValidPending(p: Pending) {
    && p.mode != MessageMode && AllEvents(p.events) && AllPlain(p.events)
    && (p.option.Some? ==> IsOption(p.option.value) && Plain(p.option.value))
  }

  /** What lies behind the entries of a batch. */
  function AfterEntries(p: Pending, rest: bytes): bytes {
    EncAll(OptionItem(p.option)) + rest
  }

  /** Inside a batch, behind whose entries come the bytes of after. */
  ghost predicate InBatch(ph: Phase, p: Pending, after: bytes) {
    && ph.mode == p.mode && Typestate(ph) && ph.outer.end == EOF
    && match ph.mode
       case ForwardMode =>
         && ph.fwd == Forward(p.tag, |p.events| + p.due, p.option.Some?)
         && Ahead(ph.outer, EncAll(p.events) + after)
       case PackedMode => NestedAt(ph.packed, p) && Ahead(ph.outer, after)
       case CompMode => NestedAt(ph.comp, p) && Ahead(ph.outer, after)
       case MessageMode => false
  }

  predicate NestedAt(n: Nested, p: Pending) {
    && n.iter.Some? && n.iter.value.end == EOF && Ahead(n.iter.value, EncAll(p.events))
    && n.tag == p.tag && n.options == p.option.Some?
  }

  /** The ack callback never fails. */
  ghost predicate AlwaysAcks(env: Env) {
    forall out: seq<Output>, chunk: bytes :: env.ackOk(out, chunk)
  }

  /** The callback accepts every chunk of some pairs when its turn comes. */
  ghost predicate Accepts(env: Env, out: seq<Output>, items: seq<Wire>)
    requires OptionPairs(items)
    decreases items
  {
    |items| >= 2 ==>
      && (items[0].body == CHUNK ==> env.ackOk(out, items[1].body))
      && Accepts(env, out + if items[0].body == CHUNK then [Acked(items[1].body)] else [], items[2..])
  }

  lemma {:induction false} AlwaysAccepts(env: Env, out: seq<Output>, items: seq<Wire>)
    requires AlwaysAcks(env) && OptionPairs(items)
    ensures Accepts(env, out, items)
    decreases items
  {
    if |items| >= 2 {
      AlwaysAccepts(env, out + if items[0].body == CHUNK then [Acked(items[1].body)] else [], items[2..]);
    }
  }

  lemma EventParts(w: Wire, rest: bytes)
    requires IsEvent(w) && Plain(w)
    ensures var time, record := w.items[0], w.items[1];
      && EncAll(w.items) + rest == Enc(time) + (Enc(record) + rest)
      && WellFormed(w) && WellFormed(time) && WellFormed(record) && time.Leaf? && record.Node?
      && |time.body| == Entered(Fresh([], EOF), time).length
      && Get(w.head).typ == Type.Array && Get(time.head).typ in {Type.Ext, Type.Int, Type.Uint}
      && Get(record.head).typ == Type.Map && |record.items| == 2 * (|record.items| / 2)
  {
    hide Get;
    var time, record := w.items[0], w.items[1];
    TableAgrees(w.head, UintOf(w.len));
    TableAgrees(time.head, UintOf(time.len));
    TableAgrees(record.head, UintOf(record.len));
    assert w.items == [time] + [record];
    EncAllConcat([time], [record]);
    EncAllOne(time);
    EncAllOne(record);
  }

  /** Reading the head of an event leaves the cursor inside its record. */
  lemma ReadsEvent(mode: Mode, c: Cursor, w: Wire, rest: bytes)
    requires IsEvent(w) && Plain(w) && Ahead(c, Enc(w) + rest)
    ensures Expect(c, {Type.Array}).0 == None
    ensures var r := ReadEntry(mode, c);
      && r.err == None && r.time == Some(ReadTimeUnsafe(w.items[0].head, w.items[0].body))
      && r.cursor.typ == Type.Map && 2 * r.cursor.items == |w.items[1].items|
      && Ahead(r.cursor, EncAll(w.items[1].items) + rest)
  {
    hide NextToken, Get, Expect, TimeOf, ReadTimeUnsafe, EncAll, Enc, Plain, WellFormed, IsTime, LengthSize, Ahead;
    var time, record := w.items[0], w.items[1];
    EventParts(w, rest);
    AheadExpect(c, w, rest, {Type.Array});
    var c0 := Entered(c, w);
    AheadExpect(c0, time, Enc(record) + rest, {Type.Ext, Type.Int, Type.Uint});
    var c1 := Entered(c0, time);
    AheadTime(c1, time.body, Enc(record) + rest);
    AheadExpect(Over(c1, |time.body|), record, rest, {Type.Map});
  }

  /** One pair of an option map. */
  lemma ReadsPair(env: Env, mode: Mode, c: Cursor, out: seq<Output>, key: Wire, value: Wire, rest: bytes, n: nat)
    returns (c': Cursor, out': seq<Output>)
    requires Plain(key) && Plain(value) && IsStr(key)
    requires key.body == CHUNK ==> value.Leaf? && env.ackOk(out, value.body)
    requires Ahead(c, Enc(key) + (Enc(value) + rest)) && n > 0
    ensures OptionItems(env, mode, c, out, n) == OptionItems(env, mode, c', out', n - 1)
    ensures Ahead(c', rest) && c'.src == c.src && c'.end == c.end
    ensures Settled(c', Tail(value))
    ensures out' == out + if key.body == CHUNK then [Acked(value.body)] else []
  {
    hide NextToken, Get, Expect, Raw, Skipped;
    TableAgrees(key.head, UintOf(key.len));
    AheadExpect(c, key, Enc(value) + rest, {Type.Str});
    var c0 := Entered(c, key);
    AheadRaw(c0, key.body, Enc(value) + rest);
    var c1 := Over(c0, |key.body|);
    AheadNext(c1, value, rest);
    var c2 := Entered(c1, value);
    if key.body == CHUNK {
      TableAgrees(value.head, UintOf(value.len));
      AheadRaw(c2, value.body, rest);
      c', out' := Over(c2, |value.body|), out + [Acked(value.body)];
    } else {
      AheadSkip(c1, value, rest);
      SplitAhead(c1, Enc(value), rest);
      SkipSettles(c1, value);
      c', out' := Skipped(c2), out;
    }
  }

  /** What has gone out once the chunks of some pairs have. */
  function AcksAfter(out: seq<Output>, items: seq<Wire>): seq<Output>
    requires OptionPairs(items)
    decreases items
  {
    if |items| < 2 then out
    else AcksAfter(out + if items[0].body == CHUNK then [Acked(items[1].body)] else [], items[2..])
  }

  lemma {:induction false} AcksInOrder(out: seq<Output>, items: seq<Wire>)
    requires OptionPairs(items)
    ensures AcksAfter(out, items) == out + PairAcks(items)
    decreases items
  {
    if |items| >= 2 {
      var first := if items[0].body == CHUNK then [Acked(items[1].body)] else [];
      AcksInOrder(out + first, items[2..]);
      assert (out + first) + PairAcks(items[2..]) == out + (first + PairAcks(items[2..]));
    }
  }

  lemma NoPairs(env: Env, mode: Mode, c: Cursor, out: seq<Output>)
    ensures OptionItems(env, mode, c, out, 0) == Handled(c, out, None)
  {
  }

  lemma NothingAhead(items: seq<Wire>, rest: bytes)
    requires items == []
    ensures EncAll(items) + rest == rest
  {
  }

  /** The loop of handleOptions acknowledges the chunks of the pairs it passes and skips everything else. */
  lemma {:induction false} ReadsPairs(env: Env, mode: Mode, c: Cursor, out: seq<Output>, items: seq<Wire>,
                                      n: nat, rest: bytes) returns (end: Cursor)
    requires AllPlain(items) && OptionPairs(items) && Accepts(env, out, items)
    requires |items| == 2 * (|items| / 2) && |items| / 2 <= n
    requires Ahead(c, EncAll(items) + rest)
    ensures OptionItems(env, mode, c, out, n) == OptionItems(env, mode, end, AcksAfter(out, items), n - |items| / 2)
    ensures Ahead(end, rest) && end.src == c.src && end.end == c.end
    ensures if items == [] then end == c else Settled(end, Tail(items[|items| - 1]))
    decreases |items|
  {
    hide OptionItems, Enc, EncAll, Plain, Tail, Settled;
    if items == [] {
      NothingAhead(items, rest);
      end := c;
    } else {
      var more := items[2..];
      SplitOption(items);
      SplitPair(items, rest);
      var c', out' := ReadsPair(env, mode, c, out, items[0], items[1], EncAll(more) + rest, n);
      end := ReadsPairs(env, mode, c', out', more, n - 1, rest);
      assert items[|items| - 1] == if more == [] then items[1] else more[|more| - 1];
    }
  }

  lemma SplitOption(items: seq<Wire>)
    requires |items| >= 2 && AllPlain(items) && OptionPairs(items)
    ensures Plain(items[0]) && Plain(items[1]) && IsStr(items[0])
    ensures items[0].body == CHUNK ==> items[1].Leaf?
    ensures AllPlain(items[2..]) && OptionPairs(items[2..])
  {
  }

  lemma SplitPair(items: seq<Wire>, rest: bytes)
    requires |items| >= 2
    ensures EncAll(items) + rest == Enc(items[0]) + (Enc(items[1]) + (EncAll(items[2..]) + rest))
  {
    assert items[1..][1..] == items[2..];
  }

  lemma RoomFor(c: Cursor, w: Wire, rest: bytes)
    requires Ahead(c, Enc(w) + rest)
    ensures c.pos + 1 + |w.len| <= |c.src|
  {
  }

  lemma {:induction false} OptionParts(c: Cursor, w: Wire)
    requires IsOption(w) && Plain(w) && c.pos + 1 + |w.len| <= |c.src|
    ensures WellFormed(w) && w.Node? && AllPlain(w.items) && OptionPairs(w.items) && Get(w.head).typ == Type.Map
    ensures |w.items| == 2 * (|w.items| / 2) && Entered(c, w).items == |w.items| / 2 && Inside(w) == EncAll(w.items)
    ensures Tail(w) == if w.items == [] then 0 else Tail(w.items[|w.items| - 1])
    ensures w.items == [] ==> Settled(Entered(c, w), 0)
  {
    TableAgrees(w.head, 0);
    SizedEnters(c, w);
    hide Get, EncAll, UintOf, Sized, ItemCount;
  }

  lemma {:induction false} ReadsOption(env: Env, mode: Mode, c: Cursor, out: seq<Output>, w: Wire, rest: bytes)
    returns (end: Cursor)
    requires AlwaysAcks(env) && IsOption(w) && Plain(w) && Ahead(c, Enc(w) + rest)
    ensures HandleOptions(env, mode, c, out) == Handled(end, out + PairAcks(w.items), None)
    ensures Ahead(end, rest) && end.src == c.src && end.end == c.end && Settled(end, Tail(w))
  {
    RoomFor(c, w, rest);
    OptionParts(c, w);
    hide NextToken, Get, Expect, Enc, EncAll, Inside, Plain, WellFormed, IsOption, OptionItems, PairAcks, AcksAfter;
    hide Tail, Settled, Ahead, Entered;
    AheadExpect(c, w, rest, {Type.Map});
    AlwaysAccepts(env, out, w.items);
    end := ReadsPairs(env, mode, Entered(c, w), out, w.items, |w.items| / 2, rest);
    NoPairs(env, mode, end, AcksAfter(out, w.items));
    AcksInOrder(out, w.items);
  }

  /** A request up to the head of its second item; what follows that need not be the rest of the request. */
  lemma {:induction false} ReadsTwo(env: Env, ph: Phase, w: Wire, more: bytes) returns (c: Cursor, ph': Phase)
    requires ph.mode == MessageMode && Plain(w) && IsArray(w) && 2 <= |w.items| <= 4 && IsTag(w.items[0])
    requires Ahead(ph.outer, Leading(w) + more)
    ensures c.pos + 1 + |w.items[1].len| <= |c.src|
    ensures ph' == ph.(outer := Entered(c, w.items[1]), entry := ph.entry.(tag := w.items[0].body))
    ensures c.src == ph.outer.src && c.end == ph.outer.end
    ensures Ahead(ph'.outer, more)
    ensures MessageNext(env, ph) == TimeOrEntries(env, ph', |w.items|)
  {
    hide NextToken, Get, Expect, Raw, TimeOrEntries, EncAll, Enc;
    var tag, second := w.items[0], w.items[1];
    var lead := [second.head] + second.len;
    TableAgrees(w.head, UintOf(w.len));
    TableAgrees(tag.head, UintOf(tag.len));
    LeadingFirst(w, more);
    ExpectHead(ph.outer, w, Enc(tag) + (lead + more), {Type.Array});
    var c0 := Entered(ph.outer, w);
    AheadExpect(c0, tag, lead + more, {Type.Str});
    var c1 := Entered(c0, tag);
    AheadRaw(c1, tag.body, lead + more);
    c := Over(c1, |tag.body|);
    AheadHead(c, second, more);
    ph' := ph.(outer := Entered(c, second), entry := ph.entry.(tag := tag.body));
  }

  /** A container up to the end of the head of its second item. */
  function Leading(w: Wire): bytes
    requires w.Node? && |w.items| >= 2
  {
    [w.head] + w.len + Enc(w.items[0]) + ([w.items[1].head] + w.items[1].len)
  }

  lemma LeadingFirst(w: Wire, more: bytes)
    requires w.Node? && |w.items| >= 2
    ensures var lead := [w.items[1].head] + w.items[1].len;
      Leading(w) + more == ([w.head] + w.len) + (Enc(w.items[0]) + (lead + more))
  {
    var lead := [w.items[1].head] + w.items[1].len;
    Assoc([w.head] + w.len + Enc(w.items[0]), lead, more);
    Assoc([w.head] + w.len, Enc(w.items[0]), lead + more);
  }

  lemma OpensWire(w: Wire, rest: bytes)
    requires w.Node? && |w.items| >= 2
    ensures Enc(w) + rest == Leading(w) + (Inside(w.items[1]) + (EncAll(w.items[2..]) + rest))
  {
    var lead, inside, more := [w.items[1].head] + w.items[1].len, Inside(w.items[1]), EncAll(w.items[2..]) + rest;
    SplitPair(w.items, rest);
    assert Enc(w) == ([w.head] + w.len) + EncAll(w.items);
    assert Enc(w.items[1]) == lead + inside;
    LeadingFirst(w, inside + more);
    hide Enc, EncAll, Inside, Leading;
    Assoc([w.head] + w.len, EncAll(w.items), rest);
    Assoc(lead, inside, more);
  }

  lemma {:induction false} ReadsHead(env: Env, ph: Phase, w: Wire, rest: bytes) returns (c: Cursor, ph': Phase)
    requires ph.mode == MessageMode && Plain(w) && IsArray(w) && 2 <= |w.items| <= 4 && IsTag(w.items[0])
    requires Ahead(ph.outer, Enc(w) + rest)
    ensures c.pos + 1 + |w.items[1].len| <= |c.src|
    ensures ph' == ph.(outer := Entered(c, w.items[1]), entry := ph.entry.(tag := w.items[0].body))
    ensures c.src == ph.outer.src && c.end == ph.outer.end
    ensures Ahead(ph'.outer, Inside(w.items[1]) + (EncAll(w.items[2..]) + rest))
    ensures MessageNext(env, ph) == TimeOrEntries(env, ph', |w.items|)
  {
    hide MessageNext, TimeOrEntries, EncAll, Enc, Inside, Leading;
    OpensWire(w, rest);
    c, ph' := ReadsTwo(env, ph, w, Inside(w.items[1]) + (EncAll(w.items[2..]) + rest));
  }

  /** Taking an event whose record lies ahead of its cursor. */
  lemma TakesRecord(ph: Phase, record: Wire, rest: bytes)
    requires Typestate(ph) && RecordLive(ph) && Plain(record) && IsMap(record)
    requires var c := RecordCursor(ph); c.typ == Type.Map && 2 * c.items == |record.items|
    requires Ahead(RecordCursor(ph), EncAll(record.items) + rest)
    ensures var c := Skipped(RecordCursor(ph));
      && Ahead(c, rest) && Typestate(Taken(ph))
      && Taken(ph) == WithCursor(ph, c).(out := ph.out
           + [Delivered(Event(ph.entry.tag, ph.entry.time, |record.items| / 2, EncAll(record.items)))])
  {
    hide Skipped, EncAll;
    AheadSkipMap(RecordCursor(ph), record.items, rest);
  }

  /** A single event from its time on. */
  lemma BodyStep(env: Env, ph: Phase, c: Cursor, time: Wire, record: Wire, rest: bytes) returns (c': Cursor)
    requires Plain(time) && IsTime(time) && Plain(record) && IsMap(record) && ph.mode == MessageMode
    requires c.pos + 1 + |time.len| <= |c.src| && ph.outer == Entered(c, time)
    requires Ahead(ph.outer, Inside(time) + (Enc(record) + rest))
    ensures c'.src == c.src && c'.end == c.end && c'.typ == Type.Map && 2 * c'.items == |record.items|
    ensures TimeOrEntries(env, ph, 3) == Done(ph.(outer := c',
      entry := Entry(ph.entry.tag, ReadTimeUnsafe(time.head, time.body), Some(FromOuter))), None)
    ensures Ahead(c', EncAll(record.items) + rest)
  {
    hide NextToken, Get, Expect, TimeOf, ReadTimeUnsafe, EncAll, Enc;
    TableAgrees(time.head, UintOf(time.len));
    TableAgrees(record.head, UintOf(record.len));
    AheadTime(ph.outer, time.body, Enc(record) + rest);
    var c1 := Over(ph.outer, |time.body|);
    AheadExpect(c1, record, rest, {Type.Map});
    c' := Entered(c1, record);
  }

  /** A single event is returned at once. */
  lemma {:induction false} MessageStep(env: Env, ph: Phase, r: Request, rest: bytes)
    requires r.Message? && Valid(env.inflate, r) && Ready(ph, Enc(AsWire(r)) + rest)
    ensures var s := StepOf(env, ph);
      && s.Done? && s.err == None && Typestate(s.ph) && RecordLive(s.ph)
      && Ready(Taken(s.ph), rest) && Taken(s.ph).out == ph.out + Outputs(env.inflate, r)
  {
    hide NextToken, Get, Expect, TimeOf, Skipped, ReadTimeUnsafe, EncAll, Enc, TimeOrEntries, MessageNext, Taken;
    hide TimeOwed;
    var w := AsWire(r);
    var c, ph' := ReadsHead(env, ph, w, rest);
    assert EncAll(w.items[2..]) == Enc(r.record) by {
      EncAllOne(r.record);
      assert w.items[2..] == [r.record];
    }
    assert Plain(w.items[1]) && Plain(w.items[2]);
    ReadsTime(r.time);
    var c' := BodyStep(env, ph', c, r.time, r.record, rest);
    TakesRecord(StepOf(env, ph).ph, r.record, rest);
  }

  /** The batch a request opens. */
  function PendingOf(r: Request): Pending
    requires !r.Message? && r.tag.Leaf? && (r.Batch? ==> r.entries.Node?)
  {
    match r
    case Batch(_, _, tag, entries, option) =>
      Pending(ForwardMode, tag.body, entries.items, 0, option)
    case Packed(_, _, tag, _, _, events, option) => Pending(PackedMode, tag.body, events, 0, option)
    case Compressed(_, _, tag, _, _, _, events, option) => Pending(CompMode, tag.body, events, 0, option)
  }

  /** A batch request announces its options by its number of items. */
  lemma BatchItems(r: Request)
    requires !r.Message?
    ensures |AsWire(r).items| == if r.option.Some? then 3 else 2
    ensures AsWire(r).items[2..] == OptionItem(r.option)
  {
  }

  /** A batch request up to the end of its second item, and what follows that. */
  function Opening(r: Request, after: bytes): bytes
    requires AsWire(r).Node? && |AsWire(r).items| >= 2
  {
    Leading(AsWire(r)) + (Inside(AsWire(r).items[1]) + after)
  }

  /** Entering a batch of which at least the array head of its entries is there. */
  lemma {:induction false} EntersForward(env: Env, ph: Phase, r: Request, events: seq<Wire>, due: nat, after: bytes)
    requires r.Batch? && Valid(env.inflate, r) && |events| + due == |r.entries.items|
    requires AsWire(r).Node? && Ready(ph, Leading(AsWire(r)) + (EncAll(events) + after))
    ensures var s := StepOf(env, ph);
      && s.Goto? && s.ph.out == ph.out
      && InBatch(s.ph, Pending(ForwardMode, r.tag.body, events, due, r.option), after)
  {
    hide NextToken, Get, Expect, EncAll, Enc, MessageNext, Leading;
    var w := AsWire(r);
    BatchItems(r);
    var c, ph' := ReadsTwo(env, ph, w, EncAll(events) + after);
    assert Plain(w.items[1]);
    TableAgrees(r.entries.head, UintOf(r.entries.len));
  }

  lemma {:induction false} ForwardStep(env: Env, ph: Phase, r: Request, after: bytes)
    requires r.Batch? && Valid(env.inflate, r) && Ready(ph, Opening(r, after))
    ensures var s := StepOf(env, ph);
      s.Goto? && InBatch(s.ph, PendingOf(r), after) && s.ph.out == ph.out
  {
    hide StepOf, Leading, EncAll, InBatch;
    EntersForward(env, ph, r, r.entries.items, 0, after);
  }

  lemma PayloadAhead(c: Cursor, payload: bytes, rest: bytes)
    requires c.length == |payload| && Ahead(c, payload + rest)
    ensures Payload(c) == payload && PayloadError(c) == EOF && PayloadEnd(c) == c.pos + |payload|
    ensures Ahead(c.(pos := PayloadEnd(c)), rest)
  {
    SplitAhead(c, payload, rest);
  }

  /** A stream of events is long enough to be told from a gzip file, and is none. */
  lemma NotGzip(events: seq<Wire>)
    requires events != [] && AllEvents(events)
    ensures IsGzip(EncAll(events)) == Ok(false, 0)
  {
    var w := events[0];
    EncAllSize(w.items);
    assert EncAll(events)[0] == w.head;
    assert |Enc(w)| >= 3;
  }

  lemma {:induction false} PackedStep(env: Env, ph: Phase, r: Request, after: bytes)
    requires r.Packed? && Valid(env.inflate, r) && Ready(ph, Opening(r, after))
    ensures var s := StepOf(env, ph);
      s.Goto? && InBatch(s.ph, PendingOf(r), after) && s.ph.out == ph.out
  {
    hide NextToken, Get, Expect, EncAll, Enc, MessageNext, IsGzip, Payload, PayloadEnd, PayloadError;
    var w := AsWire(r);
    BatchItems(r);
    var c, ph' := ReadsTwo(env, ph, w, Inside(w.items[1]) + after);
    TableAgrees(r.binHead, UintOf(r.binLen));
    PayloadAhead(ph'.outer, EncAll(r.events), after);
    NotGzip(r.events);
  }

  /** A gzip file starts with a header, and that with the magic bytes. */
  lemma OpensHeader(members: seq<Member>)
    requires members != [] && ValidHeader(members[0].header)
    ensures IsGzip(EncMembers(members)) == Ok(true, 0)
    ensures HeaderSkipped(EncMembers(members), 0).err == None
  {
    hide HeaderSkipped, OptionalFields, EncMembers, EncMember;
    var payload, h := EncMembers(members), members[0].header;
    assert payload[0..] == payload;
    FirstMember(payload, 0, members);
    MemberAt(payload, 0, members[0]);
    SkipsHeader(payload, 0, h);
    AtConcat(payload, 0, FixedFields(h), OptionalFields(h));
    FixedBytes(payload, 0, h);
  }

  lemma OpensGzip(inflate: Inflate, members: seq<Member>)
    requires members != [] && forall k :: 0 <= k < |members| ==> ValidMember(inflate, members[k])
    ensures var payload := EncMembers(members);
      && IsGzip(payload) == Ok(true, 0) && HeaderSkipped(payload, 0).err == None
      && Unzip(inflate, payload, HeaderSkipped(payload, 0).pos) == Stream(Contents(members), EOF)
  {
    hide HeaderSkipped, Unzip, UnzipFrom, EncMembers, IsGzip;
    var payload := EncMembers(members);
    assert payload[0..] == payload;
    OpensHeader(members);
    UnzipsMembers(inflate, payload, 0, members);
    OpensFrom(inflate, payload);
  }

  lemma OpensFrom(inflate: Inflate, payload: bytes)
    requires HeaderSkipped(payload, 0).err == None
    ensures UnzipFrom(inflate, payload, 0) == Unzip(inflate, payload, HeaderSkipped(payload, 0).pos)
  {
  }

  lemma {:induction false} CompressedStep(env: Env, ph: Phase, r: Request, after: bytes)
    requires r.Compressed? && Valid(env.inflate, r) && Ready(ph, Opening(r, after))
    ensures var s := StepOf(env, ph);
      s.Goto? && InBatch(s.ph, PendingOf(r), after) && s.ph.out == ph.out
  {
    hide NextToken, Get, Expect, EncAll, Enc, EncMembers, MessageNext, IsGzip, Payload, PayloadEnd, PayloadError;
    hide HeaderSkipped, Unzip, ValidMember;
    var w := AsWire(r);
    BatchItems(r);
    var c, ph' := ReadsTwo(env, ph, w, Inside(w.items[1]) + after);
    TableAgrees(r.binHead, UintOf(r.binLen));
    PayloadAhead(ph'.outer, EncMembers(r.members), after);
    OpensGzip(env.inflate, r.members);
  }

  /** What lies behind the events on their cursor. */
  function BehindEvents(p: Pending, after: bytes): bytes {
    if p.mode == ForwardMode then after else []
  }

  function Rest(p: Pending): Pending
    requires p.events != []
  {
    p.(events := p.events[1..])
  }

  /** The state of a batch once one event is taken, its cursor being c. */
  lemma AdvancesBatch(ph: Phase, ph': Phase, p: Pending, after: bytes)
    requires p.events != [] && InBatch(ph, p, after) && Typestate(ph')
    requires var c := RecordCursor(ph');
      && c.src == RecordCursor(ph).src && c.end == RecordCursor(ph).end
      && Ahead(c, EncAll(Rest(p).events) + BehindEvents(p, after))
      && ph' == WithCursor(ph, c).(out := ph'.out, entry := ph'.entry,
           fwd := if p.mode == ForwardMode then ph.fwd.(items := |p.events| + p.due - 1) else ph.fwd)
    ensures InBatch(ph', Rest(p), after)
  {
    hide EncAll;
    if p.mode != ForwardMode {
      assert EncAll(Rest(p).events) + [] == EncAll(Rest(p).events);
    }
  }

  lemma EventsAhead(ph: Phase, p: Pending, after: bytes)
    requires p.events != [] && InBatch(ph, p, after)
    ensures Ahead(RecordCursor(ph), Enc(p.events[0]) + (EncAll(Rest(p).events) + BehindEvents(p, after)))
  {
    var e, more := Enc(p.events[0]), EncAll(Rest(p).events);
    assert (e + more) + BehindEvents(p, after) == e + (more + BehindEvents(p, after));
    assert e + more == (e + more) + [];
  }

  /** A batch with events left returns the next one. */
  lemma EventStep(env: Env, ph: Phase, p: Pending, after: bytes)
    requires ValidPending(p) && p.events != [] && InBatch(ph, p, after)
    ensures var s := StepOf(env, ph);
      && s.Done? && s.err == None && Typestate(s.ph) && RecordLive(s.ph)
      && InBatch(Taken(s.ph), Rest(p), after)
      && Taken(s.ph).out
         == ph.out + [Delivered(EventOf(p.tag, p.events[0].items[0], p.events[0].items[1]))]
  {
    hide EncAll, Enc, ReadEntry, Expect, Skipped, Taken, ReadTimeUnsafe, TimeOwed;
    var w, more := p.events[0], EncAll(Rest(p).events) + BehindEvents(p, after);
    EventsAhead(ph, p, after);
    ReadsEvent(ph.mode, RecordCursor(ph), w, more);
    assert Plain(w.items[0]) && Plain(w.items[1]);
    ReadsTime(w.items[0]);
    var s := StepOf(env, ph);
    TakesRecord(s.ph, w.items[1], more);
    AdvancesBatch(ph, Taken(s.ph), p, after);
  }

  /** The next token at the end of what a cursor's reader delivers. */
  lemma ExpectAtEnd(c: Cursor, types: set<Type>)
    requires Ahead(c, [])
    ensures Expect(c, types) == (Some(c.end), c.(err := Some(c.end), byt := 0))
  {
  }

  /** Leaving a batch handles the options it announced. */
  lemma {:induction false} ReadsOptions(env: Env, ph: Phase, p: Pending, rest: bytes)
    requires AlwaysAcks(env) && ValidPending(p) && ph.outer.end == EOF
    requires Ahead(ph.outer, AfterEntries(p, rest))
    ensures var (ph1, err) := Options(env, ph, p.option.Some?);
      && err == None && ph1.outer.end == EOF && Ahead(ph1.outer, rest)
      && ph1.out == ph.out + OptionAcks(p.option)
  {
    hide HandleOptions;
    if p.option.Some? {
      EncAllOne(p.option.value);
      var end := ReadsOption(env, ph.mode, ph.outer, ph.out, p.option.value, rest);
    } else {
      assert AfterEntries(p, rest) == rest;
    }
  }

  /** A batch without events left acknowledges its chunks and goes back to the message mode. */
  lemma {:induction false} EndStep(env: Env, ph: Phase, p: Pending, rest: bytes)
    requires AlwaysAcks(env) && ValidPending(p) && p.events == [] && p.due == 0
    requires InBatch(ph, p, AfterEntries(p, rest))
    ensures var s := StepOf(env, ph);
      s.Goto? && Ready(s.ph, rest) && s.ph.out == ph.out + OptionAcks(p.option)
  {
    hide HandleOptions, Options, ReadEntry, Expect, AfterEntries;
    match ph.mode
    case ForwardMode =>
      NothingAhead(p.events, AfterEntries(p, rest));
      ReadsOptions(env, ph, p, rest);
    case PackedMode =>
      var c := ph.packed.iter.value;
      ExpectAtEnd(c, {Type.Array});
      EndsEntries(ph.mode, c);
      ReadsOptions(env, ph.(packed := ph.packed.(iter := None)), p, rest);
    case CompMode =>
      var c := ph.comp.iter.value;
      ExpectAtEnd(c, {Type.Array});
      EndsEntries(ph.mode, c);
      ReadsOptions(env, ph.(comp := ph.comp.(iter := None)), p, rest);
  }

  lemma EndsEntries(mode: Mode, c: Cursor)
    requires Expect(c, {Type.Array}).0 == Some(EOF)
    ensures ReadEntry(mode, c).time == None
  {
  }

  /** Between requests, the end of the connection is the end of the stream. */
  lemma EofStep(env: Env, ph: Phase)
    requires Ready(ph, [])
    ensures var s := StepOf(env, ph);
      s.Done? && s.err == Some(Bare(EOF)) && s.ph.out == ph.out
  {
    ExpectAtEnd(ph.outer, {Type.Array});
  }

  /** A step that changes the mode does not show in a run. */
  lemma RunGoto(env: Env, ph: Phase)
    requires Typestate(ph) && StepOf(env, ph).Goto?
    ensures Typestate(StepOf(env, ph).ph) && Run(env, ph) == Run(env, StepOf(env, ph).ph)
  {
    hide StepOf;
    StepOrderly(env, ph);
  }

  lemma RunDone(env: Env, ph: Phase)
    requires Typestate(ph) && StepOf(env, ph).Done? && StepOf(env, ph).err == None
    requires Typestate(StepOf(env, ph).ph) && RecordLive(StepOf(env, ph).ph)
    requires Typestate(Taken(StepOf(env, ph).ph))
    ensures Run(env, ph) == Run(env, Taken(StepOf(env, ph).ph))
  {
    hide StepOf, Taken;
  }

  lemma RunFails(env: Env, ph: Phase)
    requires Typestate(ph) && StepOf(env, ph).Done? && StepOf(env, ph).err.Some?
    ensures Run(env, ph) == (StepOf(env, ph).ph.out, StepOf(env, ph).err.value)
  {
    hide StepOf;
  }

  /** What a batch still leads to. */
  function PendingOut(p: Pending): seq<Output>
    requires ValidPending(p)
  {
    EntriesOut(p.tag, p.events) + OptionAcks(p.option)
  }

  lemma PendingOfValid(inflate: Inflate, r: Request)
    requires Valid(inflate, r) && !r.Message?
    ensures ValidPending(PendingOf(r)) && PendingOut(PendingOf(r)) == Outputs(inflate, r)
  {
    var items := AsWire(r).items;
    if r.option.Some? {
      assert items[2] == r.option.value;
    }
    assert Plain(items[1]);
  }

  lemma {:induction false} BatchStep(env: Env, ph: Phase, r: Request, after: bytes) returns (p: Pending)
    requires !r.Message? && Valid(env.inflate, r) && Ready(ph, Opening(r, after))
    ensures p == PendingOf(r) && ValidPending(p) && p.due == 0 && PendingOut(p) == Outputs(env.inflate, r)
    ensures var s := StepOf(env, ph);
      s.Goto? && InBatch(s.ph, p, after) && s.ph.out == ph.out
  {
    p := PendingOf(r);
    PendingOfValid(env.inflate, r);
    hide Valid, StepOf, Outputs, Opening;
    match r
    case Batch(_, _, _, _, _) => ForwardStep(env, ph, r, after);
    case Packed(_, _, _, _, _, _, _) => PackedStep(env, ph, r, after);
    case Compressed(_, _, _, _, _, _, _, _) => CompressedStep(env, ph, r, after);
  }

  lemma BatchLive(ph: Phase, p: Pending, after: bytes)
    requires InBatch(ph, p, after)
    ensures Typestate(ph) && Live(ph)
  {
  }

  /** The events of a batch come out one after the other. */
  lemma {:induction false} RunsEvents(env: Env, ph: Phase, p: Pending, after: bytes) returns (ph': Phase)
    requires ValidPending(p) && InBatch(ph, p, after)
    ensures Typestate(ph) && Typestate(ph') && Run(env, ph) == Run(env, ph')
    ensures InBatch(ph', p.(events := []), after) && ph'.out == ph.out + EntriesOut(p.tag, p.events)
    decreases |p.events|
  {
    hide StepOf, Run, Taken, InBatch, EventOf;
    BatchLive(ph, p, after);
    if p.events == [] {
      assert ph.out + [] == ph.out && p.(events := []) == p;
      ph' := ph;
    } else {
      var first := [Delivered(EventOf(p.tag, p.events[0].items[0], p.events[0].items[1]))];
      EventStep(env, ph, p, after);
      var ph1 := Taken(StepOf(env, ph).ph);
      BatchLive(ph1, Rest(p), after);
      RunDone(env, ph);
      ph' := RunsEvents(env, ph1, Rest(p), after);
      var later := EntriesOut(p.tag, Rest(p).events);
      assert (ph.out + first) + later == ph.out + (first + later);
    }
  }

  lemma RunsMessage(env: Env, ph: Phase, r: Request, rest: bytes) returns (ph': Phase)
    requires r.Message? && Valid(env.inflate, r) && Ready(ph, Enc(AsWire(r)) + rest)
    ensures Ready(ph', rest) && Run(env, ph) == Run(env, ph') && ph'.out == ph.out + Outputs(env.inflate, r)
  {
    hide StepOf, Run, Taken, Outputs, Valid, Enc, EncAll, AsWire;
    MessageStep(env, ph, r, rest);
    RunDone(env, ph);
    ph' := Taken(StepOf(env, ph).ph);
  }

  /** A batch up to its last event, whatever lies behind its entries. */
  lemma {:induction false} RunsEntries(env: Env, ph: Phase, r: Request, after: bytes) returns (ph': Phase, p: Pending)
    requires !r.Message? && Valid(env.inflate, r) && Ready(ph, Opening(r, after))
    ensures p == PendingOf(r) && ValidPending(p) && p.due == 0 && PendingOut(p) == Outputs(env.inflate, r)
    ensures Typestate(ph') && Run(env, ph) == Run(env, ph') && InBatch(ph', p.(events := []), after)
    ensures ph'.out == ph.out + EntriesOut(p.tag, p.events)
  {
    BatchShape(env.inflate, r);
    hide StepOf, Run, Outputs, PendingOut, Valid, Opening, InBatch, PendingOf;
    p := BatchStep(env, ph, r, after);
    RunGoto(env, ph);
    ph' := RunsEvents(env, StepOf(env, ph).ph, p, after);
  }

  /** A batch without events left is over once its options are handled. */
  lemma {:induction false} RunsEnd(env: Env, ph: Phase, p: Pending, rest: bytes) returns (ph': Phase)
    requires AlwaysAcks(env) && ValidPending(p) && p.due == 0 && InBatch(ph, p.(events := []), AfterEntries(p, rest))
    ensures Typestate(ph) && Ready(ph', rest) && Run(env, ph) == Run(env, ph')
    ensures ph'.out == ph.out + OptionAcks(p.option)
  {
    NoMoreEvents(p, rest);
    BatchLive(ph, p.(events := []), AfterEntries(p, rest));
    hide StepOf, Run, InBatch, AfterEntries, ValidPending;
    EndStep(env, ph, p.(events := []), rest);
    RunGoto(env, ph);
    ph' := StepOf(env, ph).ph;
  }

  lemma BatchShape(inflate: Inflate, r: Request)
    requires !r.Message? && Valid(inflate, r)
    ensures r.tag.Leaf? && (r.Batch? ==> r.entries.Node?) && |AsWire(r).items| >= 2 && AsWire(r).Node?
    ensures AsWire(r).items[2..] == OptionItem(PendingOf(r).option)
  {
    BatchItems(r);
  }

  lemma OpensBatch(inflate: Inflate, r: Request, rest: bytes)
    requires !r.Message? && Valid(inflate, r)
    ensures r.tag.Leaf? && (r.Batch? ==> r.entries.Node?) && |AsWire(r).items| >= 2
    ensures Enc(AsWire(r)) + rest == Opening(r, AfterEntries(PendingOf(r), rest))
  {
    BatchShape(inflate, r);
    OpensWire(AsWire(r), rest);
    hide Valid, Enc, EncAll, AsWire, PendingOf;
  }

  lemma JoinsOutputs(out: seq<Output>, p: Pending)
    requires ValidPending(p)
    ensures (out + EntriesOut(p.tag, p.events)) + OptionAcks(p.option) == out + PendingOut(p)
  {
    hide EntriesOut, OptionAcks;
  }

  lemma {:induction false} RunsBatch(env: Env, ph: Phase, r: Request, rest: bytes) returns (ph': Phase)
    requires AlwaysAcks(env) && !r.Message? && Valid(env.inflate, r) && Ready(ph, Enc(AsWire(r)) + rest)
    ensures Ready(ph', rest) && Run(env, ph) == Run(env, ph') && ph'.out == ph.out + Outputs(env.inflate, r)
  {
    OpensBatch(env.inflate, r, rest);
    hide StepOf, Run, Valid, Enc, Outputs, PendingOut, Opening, EntriesOut, OptionAcks, InBatch, PendingOf, AsWire;
    hide AfterEntries, Ready, ValidPending;
    var ph1, p := RunsEntries(env, ph, r, AfterEntries(PendingOf(r), rest));
    ph' := RunsEnd(env, ph1, p, rest);
    JoinsOutputs(ph.out, p);
  }

  /** A whole request is passed, whatever follows it. */
  lemma {:induction false} RunsRequest(env: Env, ph: Phase, r: Request, rest: bytes) returns (ph': Phase)
    requires AlwaysAcks(env) && Valid(env.inflate, r) && Ready(ph, Enc(AsWire(r)) + rest)
    ensures Ready(ph', rest) && Run(env, ph) == Run(env, ph') && ph'.out == ph.out + Outputs(env.inflate, r)
  {
    hide Run, Valid, Enc, Outputs, AsWire;
    if r.Message? {
      ph' := RunsMessage(env, ph, r, rest);
    } else {
      ph' := RunsBatch(env, ph, r, rest);
    }
  }

  lemma NoMoreEvents(p: Pending, rest: bytes)
    requires ValidPending(p)
    ensures ValidPending(p.(events := [])) && AfterEntries(p.(events := []), rest) == AfterEntries(p, rest)
  {
  }

  /** Whole requests are passed one after the other, whatever follows them. */
  lemma {:induction false} RunsRequests(env: Env, ph: Phase, rs: seq<Request>, rest: bytes) returns (ph': Phase)
    requires AlwaysAcks(env) && AllValid(env.inflate, rs) && Ready(ph, EncRequests(rs) + rest)
    ensures Ready(ph', rest) && Run(env, ph) == Run(env, ph') && ph'.out == ph.out + AllOutputs(env.inflate, rs)
    decreases |rs|
  {
    hide Run, Outputs, Valid, AsWire, Enc;
    if rs == [] {
      assert [] + rest == rest && ph.out + [] == ph.out;
      ph' := ph;
    } else {
      var now, later := Outputs(env.inflate, rs[0]), AllOutputs(env.inflate, rs[1..]);
      Assoc(Enc(AsWire(rs[0])), EncRequests(rs[1..]), rest);
      var ph1 := RunsRequest(env, ph, rs[0], EncRequests(rs[1..]) + rest);
      ph' := RunsRequests(env, ph1, rs[1..], rest);
      assert (ph.out + now) + later == ph.out + (now + later);
    }
  }

  /** Up to the end of the valid requests a connection starts with. */
  lemma {:induction false} RunsPrefix(env: Env, rs: seq<Request>, rest: bytes) returns (ph: Phase)
    requires AlwaysAcks(env) && AllValid(env.inflate, rs)
    ensures Ready(ph, rest) && ph.out == AllOutputs(env.inflate, rs)
    ensures Run(env, Start(EncRequests(rs) + rest)) == Run(env, ph)
  {
    hide Run, AllOutputs, EncRequests;
    ph := RunsRequests(env, Start(EncRequests(rs) + rest), rs, rest);
    assert [] + AllOutputs(env.inflate, rs) == AllOutputs(env.inflate, rs);
  }

  /** The decoder refines the grammar. On the bytes of any list of valid requests, in any mix of modes
      and widths, alternating Next and Skip delivers exactly their events, in order and with their tags,
      times and records, acknowledges every chunk once its request's events are delivered and before any
      later event, and then reports the end of the stream. */
  lemma {:induction false} DecodesRequests(env: Env, rs: seq<Request>)
    requires AlwaysAcks(env) && AllValid(env.inflate, rs)
    ensures Run(env, Start(EncRequests(rs))) == (AllOutputs(env.inflate, rs), Bare(EOF))
  {
    hide Run, AllOutputs, EncRequests, StepOf;
    assert EncRequests(rs) + [] == EncRequests(rs);
    var ph := RunsPrefix(env, rs, []);
    EofStep(env, ph);
    RunFails(env, ph);
  }
}
