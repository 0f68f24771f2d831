/** How a connection ends that is cut off inside a request. */
module CutOffs {
  import opened Bytes
  import opened Types
  import opened Results
  import opened Timestamps
  import opened Wires
  import opened Iterators
  import opened Lookahead
  import opened Gunzip
  import opened Transport
  import opened Grammar
  import opened Decoder

  /** A container up to the end of its first k items. */
  function CutAfter(w: Wire, k: nat): bytes
    requires w.Node? && k <= |w.items|
  {
    ([w.head] + w.len) + EncAll(w.items[..k])
  }

  /** The events of a batch; a single event is no batch. */
  function Entries(r: Request): seq<Wire> {
    match r
    case Message(_, _, _, _, _) => []
    case Batch(_, _, _, entries, _) => if entries.Node? then entries.items else []
    case Packed(_, _, _, _, _, events, _) => events
    case Compressed(_, _, _, _, _, _, events, _) => events
  }

  lemma EntriesKnown(inflate: Inflate, r: Request)
    requires Valid(inflate, r)
    ensures r.tag.Leaf? && AllEvents(Entries(r))
    ensures AsWire(r).Node? && 2 <= |AsWire(r).items| <= 3 && AsWire(r).items[0] == r.tag
    ensures Plain(AsWire(r)) && IsArray(AsWire(r)) && IsTag(r.tag) && Plain(r.tag)
    ensures !r.Message? ==> Entries(r) == PendingOf(r).events && PendingOf(r).tag == r.tag.body
    ensures r.Message? ==> AsWire(r).items[1] == r.time && |AsWire(r).items| == 3
    ensures !r.Message? ==> (|AsWire(r).items| == 3 <==> PendingOf(r).option.Some?)
  {
    assert AsWire(r).items[0] == r.tag;
  }

  lemma EndAhead(c: Cursor)
    requires Ahead(c, [])
    ensures NextToken(c) == (false, c.(err := Some(c.end), byt := 0))
    ensures forall types :: Expect(c, types) == (Some(c.end), c.(err := Some(c.end), byt := 0))
  {
  }

  /** The connection ends behind the array head. */
  lemma {:induction false} CutAtTag(env: Env, ph: Phase, w: Wire)
    requires Plain(w) && IsArray(w) && 2 <= |w.items| <= 4 && Ready(ph, [w.head] + w.len)
    ensures var s := StepOf(env, ph);
      s.Done? && s.err == Some(Bare(UnexpectedEOF)) && s.ph.out == ph.out
  {
    hide NextToken, Get, Expect, Raw, TimeOrEntries, WellFormed;
    TableAgrees(w.head, UintOf(w.len));
    assert ([w.head] + w.len) + [] == [w.head] + w.len;
    ExpectHead(ph.outer, w, [], {Type.Array});
    EndAhead(Entered(ph.outer, w));
  }

  /** The connection ends behind the tag. */
  lemma {:induction false} CutAtSecond(env: Env, ph: Phase, w: Wire)
    requires Plain(w) && IsArray(w) && 2 <= |w.items| <= 4 && IsTag(w.items[0])
    requires Ready(ph, ([w.head] + w.len) + Enc(w.items[0]))
    ensures var s := StepOf(env, ph);
      s.Done? && s.err == Some(Bare(UnexpectedEOF)) && s.ph.out == ph.out
  {
    hide NextToken, Get, Expect, Raw, TimeOrEntries, EncAll, Enc;
    var tag := w.items[0];
    assert Plain(tag);
    TableAgrees(w.head, UintOf(w.len));
    TableAgrees(tag.head, UintOf(tag.len));
    ExpectHead(ph.outer, w, Enc(tag), {Type.Array});
    var c0 := Entered(ph.outer, w);
    assert Enc(tag) + [] == Enc(tag) && tag.body + [] == tag.body;
    AheadExpect(c0, tag, [], {Type.Str});
    var c1 := Entered(c0, tag);
    AheadRaw(c1, tag.body, []);
    EndAhead(Over(c1, |tag.body|));
  }

  /** The connection ends behind the time of a single event. */
  lemma {:induction false} CutAtRecord(env: Env, ph: Phase, r: Request)
    requires r.Message? && Valid(env.inflate, r)
    requires AsWire(r).Node? && Ready(ph, Leading(AsWire(r)) + (Inside(AsWire(r).items[1]) + []))
    ensures var s := StepOf(env, ph);
      s.Done? && s.err == Some(Bare(UnexpectedEOF)) && s.ph.out == ph.out
  {
    var w := AsWire(r);
    EntriesKnown(env.inflate, r);
    assert Plain(w.items[1]) && IsTime(r.time);
    hide Enc, MessageNext, TimeOrEntries, Leading, AsWire, Valid, Plain;
    var c, ph' := ReadsTwo(env, ph, w, Inside(w.items[1]) + []);
    CutBody(env, ph', c, r.time);
  }

  lemma {:induction false} CutBody(env: Env, ph: Phase, c: Cursor, time: Wire)
    requires WellFormed(time) && IsTime(time) && ph.mode == MessageMode && c.pos + 1 + |time.len| <= |c.src|
    requires ph.outer == Entered(c, time) && ph.outer.end == EOF && Ahead(ph.outer, Inside(time) + [])
    ensures var s := TimeOrEntries(env, ph, 3);
      s.Done? && s.err == Some(Bare(UnexpectedEOF)) && s.ph.out == ph.out
  {
    hide NextToken, Get, Expect, TimeOf, ReadTimeUnsafe, Enc, Options;
    TableAgrees(time.head, UintOf(time.len));
    AheadTime(ph.outer, time.body, []);
    EndAhead(Over(ph.outer, |time.body|));
  }

  /** Behind the entries of a batch, Next reads the option that was announced. */
  lemma {:induction false} OptionStep(env: Env, ph: Phase, p: Pending, after: bytes)
    requires p.events == [] && p.due == 0 && p.option.Some? && InBatch(ph, p, after)
    ensures Ahead(ph.outer, after)
    ensures var h, s := HandleOptions(env, p.mode, ph.outer, ph.out), StepOf(env, ph);
      h.err.Some? ==> s.Done? && s.err == h.err && s.ph.out == h.out
  {
    hide ReadEntry, Expect, HandleOptions;
    NothingAhead(p.events, after);
    if p.mode != ForwardMode {
      NothingAhead(p.events, []);
      EndAhead(RecordCursor(ph));
      EndsEntries(ph.mode, RecordCursor(ph));
    }
  }

  /** The connection ends behind the entries of a batch that announces an option. */
  lemma {:induction false} CutAtOption(env: Env, ph: Phase, p: Pending)
    requires p.events == [] && p.due == 0 && p.option.Some? && InBatch(ph, p, [])
    ensures var s := StepOf(env, ph);
      s.Done? && s.err == Some(Bare(UnexpectedEOF)) && s.ph.out == ph.out
  {
    OptionStep(env, ph, p, []);
    EndAhead(ph.outer);
    hide StepOf, Expect, OptionItems, EncAll;
  }

  lemma {:induction false} CutsItems(w: Wire)
    requires w.Node? && |w.items| >= 2
    ensures CutAfter(w, 0) == [w.head] + w.len && CutAfter(w, 1) == ([w.head] + w.len) + Enc(w.items[0])
    ensures CutAfter(w, 2) == Leading(w) + (Inside(w.items[1]) + [])
  {
    assert w.items[..1] == [w.items[0]] && w.items[..2] == [w.items[0]] + [w.items[1]];
    EncAllOne(w.items[0]);
    EncAllOne(w.items[1]);
    EncAllConcat([w.items[0]], [w.items[1]]);
    assert w.items[2..][..0] == [] && EncAll([]) == [];
    OpensWire(Node(w.head, w.len, w.items[..2]), []);
    hide Enc, EncAll, Leading;
    assert ([w.head] + w.len) + [] == [w.head] + w.len;
  }

  /** A cut request on its own. */
  lemma {:induction false} RunsCut(env: Env, ph: Phase, r: Request, k: nat)
    requires Valid(env.inflate, r) && k < |AsWire(r).items| && AsWire(r).Node?
    requires Ready(ph, CutAfter(AsWire(r), k))
    ensures r.tag.Leaf? && AllEvents(Entries(r))
    ensures Run(env, ph)
         == (ph.out + if k == 2 then EntriesOut(r.tag.body, Entries(r)) else [], Bare(UnexpectedEOF))
  {
    var w := AsWire(r);
    EntriesKnown(env.inflate, r);
    CutsItems(w);
    hide StepOf, Run, CutAfter, Enc, EncAll, AsWire, PendingOf, Valid, InBatch, ValidPending, PendingOut, Outputs;
    if k == 2 && !r.Message? {
      BatchShape(env.inflate, r);
      var ph', p := RunsEntries(env, ph, r, []);
      NoMoreEvents(p, []);
      CutAtOption(env, ph', p.(events := []));
      RunFails(env, ph');
    } else {
      if k == 0 {
        CutAtTag(env, ph, w);
      } else if k == 1 {
        CutAtSecond(env, ph, w);
      } else {
        CutAtRecord(env, ph, r);
      }
      RunFails(env, ph);
      assert ph.out + [] == ph.out;
    }
  }

  /** A connection that closes behind the head of a request and its first k items, further items being due,
      ends in an unexpected end, never in a plain one. Everything before that request has gone out, and, where
      only the announced option is missing, the request's own events. */
  lemma {:induction false} CutRequest(env: Env, rs: seq<Request>, r: Request, k: nat)
    requires AlwaysAcks(env) && AllValid(env.inflate, rs) && Valid(env.inflate, r)
    requires AsWire(r).Node? && k < |AsWire(r).items|
    ensures r.tag.Leaf? && AllEvents(Entries(r))
    ensures Run(env, Start(EncRequests(rs) + CutAfter(AsWire(r), k)))
         == (AllOutputs(env.inflate, rs) + if k == 2 then EntriesOut(r.tag.body, Entries(r)) else [],
             Bare(UnexpectedEOF))
  {
    hide Run, CutAfter, EncRequests, AllOutputs, EntriesOut, Entries, Valid;
    var ph := RunsPrefix(env, rs, CutAfter(AsWire(r), k));
    RunsCut(env, ph, r, k);
  }

  /** The part of an entry that is there: nothing, or its head and its first i items. */
  predicate PartOf(w: Wire, part: bytes) {
    part == [] || (w.Node? && exists i :: 0 <= i < 2 && i <= |w.items| && part == CutAfter(w, i))
  }

  lemma EventHead(c: Cursor, w: Wire)
    requires IsEvent(w) && Plain(w) && c.pos + 1 + |w.len| <= |c.src|
    ensures WellFormed(w) && |w.items| == 2 && WellFormed(w.items[0])
    ensures Get(w.head).typ == Type.Array && Entered(c, w).items == 2
  {
    TableAgrees(w.head, UintOf(w.len));
  }

  lemma TimeHead(c: Cursor, time: Wire)
    requires IsTime(time) && Plain(time) && c.pos + 1 + |time.len| <= |c.src|
    ensures Get(time.head).typ in {Type.Ext, Type.Int, Type.Uint} && Entered(c, time).length == |time.body|
  {
    TableAgrees(time.head, UintOf(time.len));
  }

  lemma {:induction false} ReadsNoTime(mode: Mode, c: Cursor, w: Wire)
    requires IsEvent(w) && Plain(w) && Ahead(c, CutAfter(w, 0)) && c.end == EOF
    ensures ReadEntry(mode, c).err == Some(Bare(UnexpectedEOF))
  {
    var lead := [w.head] + w.len;
    assert EncAll(w.items[..0]) == [] && CutAfter(w, 0) == lead + [];
    SplitAhead(c, lead, []);
    EventHead(c, w);
    hide NextToken, Get, Expect, TimeOf, Entered, CutAfter, WellFormed, IsEvent, Plain;
    ExpectHead(c, w, [], {Type.Array});
    EndAhead(Entered(c, w));
  }

  lemma {:induction false} ReadsNoRecord(mode: Mode, c: Cursor, w: Wire)
    requires IsEvent(w) && Plain(w) && Ahead(c, CutAfter(w, 1)) && c.end == EOF
    ensures ReadEntry(mode, c).err == Some(Bare(UnexpectedEOF))
  {
    var lead, time := [w.head] + w.len, w.items[0];
    CutsItems(w);
    SplitAhead(c, lead, Enc(time));
    EventHead(c, w);
    ExpectHead(c, w, Enc(time), {Type.Array});
    var c0 := Entered(c, w);
    assert Ahead(c0, Enc(time)) && Enc(time) + [] == Enc(time) && Plain(time) && c0.end == EOF;
    hide NextToken, Get, Expect, TimeOf, ReadTimeUnsafe, Enc, Inside, Entered, CutAfter, WellFormed, IsEvent, Plain;
    hide Ahead;
    var c2 := PassesTimeTo(c0, time, []);
    EndAhead(c2);
  }

  lemma {:induction false} PassesTimeTo(c: Cursor, time: Wire, rest: bytes) returns (c2: Cursor)
    requires IsTime(time) && Plain(time) && Ahead(c, Enc(time) + rest)
    ensures Expect(c, {Type.Ext, Type.Int, Type.Uint}).0 == None
    ensures c2 == TimeOf(Expect(c, {Type.Ext, Type.Int, Type.Uint}).1).1 && Ahead(c2, rest) && c2.end == c.end
  {
    RoomFor(c, time, rest);
    TimeHead(c, time);
    hide NextToken, Get, Expect, TimeOf, ReadTimeUnsafe, Enc;
    AheadExpect(c, time, rest, {Type.Ext, Type.Int, Type.Uint});
    var c1 := Entered(c, time);
    AheadTime(c1, time.body, rest);
    c2 := Over(c1, |time.body|);
  }

  /** Reading an entry of which only a part is there. */
  lemma {:induction false} ReadsPart(mode: Mode, c: Cursor, w: Wire, part: bytes)
    requires IsEvent(w) && Plain(w) && PartOf(w, part) && Ahead(c, part) && c.end == EOF
    ensures ReadEntry(mode, c).err == Some(Bare(if part == [] then EOF else UnexpectedEOF))
  {
    hide NextToken, Expect, TimeOf, CutAfter, IsEvent, Plain;
    if part == [] {
      EndAhead(c);
    } else if part == CutAfter(w, 0) {
      ReadsNoTime(mode, c, w);
    } else {
      ReadsNoRecord(mode, c, w);
    }
  }

  /** A batch whose entries are an array, cut off behind its first j entries, ends in a plain end of the
      connection; cut off inside the next entry's head or behind its time, in an unexpected one. The whole
      entries have been delivered. */
  lemma {:induction false} CutEntries(env: Env, ph: Phase, r: Request, j: nat, part: bytes)
    requires r.Batch? && Valid(env.inflate, r) && AsWire(r).Node? && r.tag.Leaf? && IsArray(r.entries)
    requires AllEvents(r.entries.items) && j < |r.entries.items| && PartOf(r.entries.items[j], part)
    requires Ready(ph, Leading(AsWire(r)) + (EncAll(r.entries.items[..j]) + part))
    ensures Run(env, ph) == (ph.out + EntriesOut(r.tag.body, r.entries.items[..j]),
                             Bare(if part == [] then EOF else UnexpectedEOF))
  {
    var events := r.entries.items;
    var p := Pending(ForwardMode, r.tag.body, events[..j], |events| - j, r.option);
    EntriesPlain(env.inflate, r);
    hide StepOf, Run, Leading, EncAll, InBatch, Valid, AsWire, IsEvent, PartOf, Plain, ValidPending;
    EntersForward(env, ph, r, events[..j], |events| - j, part);
    RunGoto(env, ph);
    assert ValidPending(p) by {
      PartValid(r, j);
    }
    var ph' := RunsEvents(env, StepOf(env, ph).ph, p, part);
    PartStep(env, ph', p.(events := []), events[j], part);
    RunFails(env, ph');
  }

  lemma EntriesPlain(inflate: Inflate, r: Request)
    requires r.Batch? && Valid(inflate, r) && r.entries.Node?
    ensures AllPlain(r.entries.items)
    ensures r.option.Some? ==> IsOption(r.option.value) && Plain(r.option.value)
  {
    assert Plain(AsWire(r).items[1]);
    if r.option.Some? {
      assert AsWire(r).items[2] == r.option.value;
    }
  }

  lemma PartValid(r: Request, j: nat)
    requires r.Batch? && r.entries.Node? && r.tag.Leaf? && AllEvents(r.entries.items) && AllPlain(r.entries.items)
    requires j < |r.entries.items| && (r.option.Some? ==> IsOption(r.option.value) && Plain(r.option.value))
    ensures var events := r.entries.items;
      ValidPending(Pending(ForwardMode, r.tag.body, events[..j], |events| - j, r.option))
  {
    hide IsEvent, Plain, IsOption;
  }

  lemma {:induction false} PartStep(env: Env, ph: Phase, p: Pending, w: Wire, part: bytes)
    requires p.mode == ForwardMode && p.events == [] && p.due > 0 && InBatch(ph, p, part)
    requires IsEvent(w) && Plain(w) && PartOf(w, part)
    ensures var s := StepOf(env, ph);
      s.Done? && s.err == Some(Bare(if part == [] then EOF else UnexpectedEOF)) && s.ph.out == ph.out
  {
    hide ReadEntry, IsEvent, PartOf, Plain;
    NothingAhead(p.events, part);
    ReadsPart(ForwardMode, ph.outer, w, part);
  }

  /** Entering a packed payload of which only the first j events are there. */
  lemma {:induction false} EntersPart(env: Env, ph: Phase, r: Request, j: nat)
    requires r.Packed? && Valid(env.inflate, r) && AsWire(r).Node? && r.tag.Leaf? && j < |r.events|
    requires Ready(ph, Leading(AsWire(r)) + EncAll(r.events[..j]))
    ensures var s := StepOf(env, ph);
      && s.ph.out == ph.out
      && if j == 0 then s.Done? && s.err == Some(Bare(EOF))
         else s.Goto? && InBatch(s.ph, PendingOf(r).(events := r.events[..j]), [])
  {
    var w := AsWire(r);
    BatchItems(r);
    PayloadHead(env.inflate, r);
    hide Enc, EncAll, MessageNext, Leading, IsGzip, TimeOrEntries, Get, Valid, AsWire, Plain;
    var c, ph' := ReadsTwo(env, ph, w, EncAll(r.events[..j]));
    PartPayload(env, ph', r.events, j, r.option.Some?);
  }

  lemma PayloadHead(inflate: Inflate, r: Request)
    requires r.Packed? && Valid(inflate, r) && AsWire(r).Node?
    ensures var w := AsWire(r);
      && Plain(w) && IsArray(w) && |w.items| == (if r.option.Some? then 3 else 2) && IsTag(w.items[0])
      && w.items[0] == r.tag && WellFormed(w.items[1]) && AllEvents(r.events)
      && forall c: Cursor :: c.pos + 1 + |r.binLen| <= |c.src| ==>
           Entered(c, w.items[1]).typ == Type.Bin && Entered(c, w.items[1]).length == |EncAll(r.events)|
  {
    TableAgrees(r.binHead, UintOf(r.binLen));
    assert AsWire(r).items[1] == Leaf(r.binHead, r.binLen, EncAll(r.events));
    hide Get, EncAll;
  }

  lemma {:induction false} PartPayload(env: Env, ph: Phase, events: seq<Wire>, j: nat, announced: bool)
    requires ph.mode == MessageMode && Typestate(ph) && ph.outer.end == EOF && AllEvents(events) && j < |events|
    requires ph.outer.typ == Type.Bin && ph.outer.length == |EncAll(events)| && Ahead(ph.outer, EncAll(events[..j]))
    ensures var s := TimeOrEntries(env, ph, if announced then 3 else 2);
      && s.ph.out == ph.out
      && if j == 0 then s.Done? && s.err == Some(Bare(EOF))
         else
           && s.Goto? && s.ph.mode == PackedMode && Typestate(s.ph) && s.ph.outer.end == EOF && Ahead(s.ph.outer, [])
           && s.ph.packed == Nested(Some(Fresh(EncAll(events[..j]), EOF)), ph.entry.tag, announced)
  {
    hide EncAll, IsGzip, Payload, PayloadEnd, PayloadError, IsEvent;
    ShortPayload(ph.outer, events, j);
    if j > 0 {
      NotGzip(events[..j]);
    } else {
      EmptyPayload();
    }
  }

  lemma EmptyPayload()
    ensures IsGzip([]) == Err(EOF)
  {
  }

  lemma {:induction false} ShortPayload(c: Cursor, events: seq<Wire>, j: nat)
    requires j < |events| && c.length == |EncAll(events)| && Ahead(c, EncAll(events[..j]))
    ensures Payload(c) == EncAll(events[..j]) && PayloadError(c) == c.end && Ahead(c.(pos := PayloadEnd(c)), [])
    ensures j == 0 ==> EncAll(events[..j]) == []
  {
    assert events == events[..j] + events[j..];
    EncAllConcat(events[..j], events[j..]);
    EncAllSize(events[j..]);
  }

  /** A batch of which nothing is there behind its entries. */
  lemma {:induction false} RunsPart(env: Env, ph: Phase, p: Pending)
    requires AlwaysAcks(env) && ValidPending(p) && p.due == 0 && InBatch(ph, p, [])
    ensures Typestate(ph)
    ensures Run(env, ph)
         == (ph.out + EntriesOut(p.tag, p.events), Bare(if p.option.Some? then UnexpectedEOF else EOF))
  {
    hide StepOf, Run, EncAll, InBatch, IsEvent, Plain, IsOption;
    var ph' := RunsEvents(env, ph, p, []);
    if p.option.Some? {
      CutAtOption(env, ph', p.(events := []));
      RunFails(env, ph');
    } else {
      NothingAfter(p);
      var ph2 := RunsEnd(env, ph', p, []);
      EofStep(env, ph2);
      RunFails(env, ph2);
      assert ph2.out == ph'.out;
    }
  }

  lemma NothingAfter(p: Pending)
    requires p.option == None
    ensures AfterEntries(p, []) == [] && OptionAcks(p.option) == []
  {
  }

  /** A packed request cut off inside its payload, behind the first j events, delivers these. It ends in a
      plain end of the connection unless it announced an option and had got as far as an event. */
  lemma {:induction false} CutPayload(env: Env, ph: Phase, r: Request, j: nat)
    requires r.Packed? && Valid(env.inflate, r) && AsWire(r).Node? && r.tag.Leaf? && j < |r.events|
    requires AlwaysAcks(env) && AllEvents(r.events) && Ready(ph, Leading(AsWire(r)) + EncAll(r.events[..j]))
    ensures Run(env, ph) == (ph.out + EntriesOut(r.tag.body, r.events[..j]),
                             Bare(if j > 0 && r.option.Some? then UnexpectedEOF else EOF))
  {
    var p := PendingOf(r).(events := r.events[..j]);
    PartPending(env.inflate, r, j);
    hide StepOf, Run, Leading, EncAll, InBatch, Valid, AsWire, IsEvent, Plain, IsOption, PendingOf, ValidPending;
    hide EntriesOut, AlwaysAcks, Ahead;
    EntersPart(env, ph, r, j);
    if j == 0 {
      RunFails(env, ph);
      NoEntries(ph.out, r.tag.body, r.events[..j]);
    } else {
      RunGoto(env, ph);
      RunsPart(env, StepOf(env, ph).ph, p);
    }
  }

  lemma NoEntries(out: seq<Output>, tag: bytes, events: seq<Wire>)
    requires events == []
    ensures out + EntriesOut(tag, events) == out
  {
  }

  lemma PartPending(inflate: Inflate, r: Request, j: nat)
    requires r.Packed? && Valid(inflate, r) && r.tag.Leaf? && j < |r.events|
    ensures var p := PendingOf(r);
      && p.events == r.events && p.tag == r.tag.body && p.option == r.option && p.due == 0
      && ValidPending(p.(events := r.events[..j]))
  {
    PendingOfValid(inflate, r);
    hide Valid, IsEvent, Plain, IsOption;
  }
}
