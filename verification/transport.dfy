/** The transport phase as a function on its state: four modes that re-enter each other, a cursor
    over the connection, and a second cursor over the payload of a packed request. */
module Transport {
  import opened Bytes
  import opened Types
  import opened Results
  import opened Timestamps
  import opened Iterators
  import opened Gunzip

  datatype Mode = MessageMode | ForwardMode | PackedMode | CompMode

  datatype Op = OpArrayHead | OpTag | OpTimeOrEntries | OpIsGzip | OpTime | OpRecord | OpAck

  /** The errors Next returns: an error as it came, one wrapped with the mode and the operation that
      met it, or the refusal to enter the current mode. */
  datatype Failure = Bare(cause: Error) | Failed(mode: Mode, op: Op, cause: Error) | AlreadyIn(mode: Mode)

  const MIN_TAG_LEN := 1
  const MAX_TAG_LEN := 64
  const CHUNK: bytes := [0x63, 0x68, 0x75, 0x6e, 0x6b]

  /** The iterator an entry's record is read from. */
  datatype Source = FromOuter | FromPacked | FromComp

  datatype EntryValue = Entry(tag: bytes, time: Time, record: Option<Source>)

  /** A delivered event: the record is its number of pairs and their encoding. */
  datatype Event = Event(tag: bytes, time: Time, pairs: nat, record: bytes)

  /** What leaves the server, in order: acknowledged chunks and delivered events. */
  datatype Output = Acked(chunk: bytes) | Delivered(event: Event)

  /** What the phase is given: the decompressor, and whether the ack callback accepts a chunk after
      what has gone out before. */
  datatype Env = Env(inflate: Inflate, ackOk: (seq<Output>, bytes) -> bool)

  /** The fields of the forward mode: the tag, the entries still to come, and whether options follow. */
  datatype Forward = Forward(tag: bytes, items: nat, options: bool)

  /** The fields of a packed mode, compressed or not. */
  datatype Nested = Nested(iter: Option<Cursor>, tag: bytes, options: bool)

  datatype Phase = Phase(mode: Mode, outer: Cursor, fwd: Forward, packed: Nested, comp: Nested,
                         entry: EntryValue, out: seq<Output>)

  /** The phase as Init leaves it, on a connection that delivers src. */
  function Start(src: bytes): Phase {
    Phase(MessageMode, Fresh(src, EOF), Forward([], 0, false), Nested(None, [], false), Nested(None, [], false),
          Entry([], ZERO_TIME, None), [])
  }

  /** A packed or compressed mode has a live iterator. */
  predicate Live(ph: Phase) {
    && (ph.mode == PackedMode ==> ph.packed.iter.Some?)
    && (ph.mode == CompMode ==> ph.comp.iter.Some?)
  }

  /** A packed or compressed mode is current exactly when its iterator is live. */
  predicate Typestate(ph: Phase) {
    && (ph.mode == PackedMode <==> ph.packed.iter.Some?)
    && (ph.mode == CompMode <==> ph.comp.iter.Some?)
  }

  /** The iterator a delivered record is read from is the one of the current mode. */
  predicate RecordLive(ph: Phase) {
    ph.entry.record == Some(match ph.mode case PackedMode => FromPacked case CompMode => FromComp case _ => FromOuter)
  }

  /** From a sound typestate, a call ends in one with a live record, and is never refused as a change
      into the current mode. */
  predicate Orderly(ph: Phase, r: (Phase, Option<Failure>)) {
    Typestate(ph) ==>
      && (r.1.None? ==> Typestate(r.0) && RecordLive(r.0))
      && !Refused(r.1)
  }

  /** The bytes of the connection not yet read. */
  function Unread(ph: Phase): nat {
    |ph.outer.src| - ph.outer.pos
  }

  function SubUnread(ph: Phase): nat {
    match ph.mode
    case PackedMode => if ph.packed.iter.Some? then |ph.packed.iter.value.src| - ph.packed.iter.value.pos else 0
    case CompMode => if ph.comp.iter.Some? then |ph.comp.iter.value.src| - ph.comp.iter.value.pos else 0
    case _ => 0
  }

  /** The connection is read further, or the current payload is. */
  predicate Progress(a: Phase, b: Phase) {
    a.outer.pos < b.outer.pos || (a.outer.pos == b.outer.pos && SubUnread(b) < SubUnread(a))
  }

  function Rank(mode: Mode): nat {
    if mode == MessageMode then 0 else 1
  }

  predicate Extends(a: Phase, b: Phase) {
    && b.outer.src == a.outer.src && b.outer.end == a.outer.end
    && a.outer.pos <= b.outer.pos && a.out <= b.out
  }

  /** TransportPhase.error and errorNoEof. */
  function Wrap(mode: Mode, op: Op, e: Error): Failure {
    if e == EOF then Bare(EOF) else Failed(mode, op, e)
  }

  function WrapNoEof(mode: Mode, op: Op, e: Error): Failure {
    if e == EOF then Bare(UnexpectedEOF) else Failed(mode, op, e)
  }

  /** The error is the refusal to enter the current mode. */
  predicate Refused(err: Option<Failure>) {
    err.Some? && err.value.AlreadyIn?
  }

  /** Where the cursor stands and what has gone out when handleOptions returns. */
  datatype Handled = Handled(cursor: Cursor, out: seq<Output>, err: Option<Failure>)

  predicate Handles(c: Cursor, out: seq<Output>, h: Handled) {
    && h.cursor.src == c.src && h.cursor.end == c.end && c.pos <= h.cursor.pos
    && out <= h.out && !Refused(h.err)
  }

  function HandleOptions(env: Env, mode: Mode, c: Cursor, out: seq<Output>): (h: Handled)
    ensures Handles(c, out, h)
  {
    var (e, c1) := Expect(c, {Type.Map});
    if e.Some? then Handled(c1, out, Some(WrapNoEof(mode, OpAck, e.value)))
    else OptionItems(env, mode, c1, out, c1.items)
  }

  /** The loop of handleOptions over the pairs of the option map. */
  function OptionItems(env: Env, mode: Mode, c: Cursor, out: seq<Output>, n: nat): (h: Handled)
    ensures Handles(c, out, h)
    decreases n
  {
    if n == 0 then Handled(c, out, None) else
    var (e, c0) := Expect(c, {Type.Str});
    if e.Some? then Handled(c0, out, Some(WrapNoEof(mode, OpAck, e.value))) else
    var (key, c1) := Raw(c0);
    var (ok, c2) := NextToken(c1);
    if !ok then Handled(c2, out, Some(WrapNoEof(mode, OpAck, c2.err.value)))
    else if key != CHUNK then OptionItems(env, mode, Skipped(c2), out, n - 1)
    else
      var (chunk, c3) := Raw(c2);
      if !env.ackOk(out, chunk) then Handled(c3, out, Some(Wrap(mode, OpAck, AckFailed)))
      else OptionItems(env, mode, c3, out + [Acked(chunk)], n - 1)
  }

  /** Options, if the request announced them, on the outer cursor. */
  function Options(env: Env, ph: Phase, announced: bool): (r: (Phase, Option<Failure>))
    ensures Extends(ph, r.0) && !Refused(r.1)
    ensures r.0 == ph.(outer := r.0.outer, out := r.0.out)
  {
    if !announced then (ph, None) else
    var h := HandleOptions(env, ph.mode, ph.outer, ph.out);
    (ph.(outer := h.cursor, out := h.out), h.err)
  }

  /** How reading one entry of a batch ended; the time is there as soon as it was stored. */
  datatype EntryRead = EntryRead(cursor: Cursor, time: Option<Time>, err: Option<Failure>)

  /** The body the batch modes share: an array of two, a time and the head of a map. */
  function ReadEntry(mode: Mode, c: Cursor): (r: EntryRead)
    ensures r.cursor.src == c.src && r.cursor.end == c.end && c.pos <= r.cursor.pos
    ensures !Refused(r.err)
    ensures r.err == None ==> r.time.Some? && c.pos < r.cursor.pos
  {
    var (e0, c0) := Expect(c, {Type.Array});
    if e0.Some? then EntryRead(c0, None, Some(Wrap(mode, OpArrayHead, e0.value)))
    else if c0.items != 2 then EntryRead(c0, None, Some(Failed(mode, OpArrayHead, BadCount)))
    else
      var (e1, c1) := Expect(c0, {Type.Ext, Type.Int, Type.Uint});
      if e1.Some? then EntryRead(c1, None, Some(WrapNoEof(mode, OpTime, e1.value))) else
      var (t, c2) := TimeOf(c1);
      var (e3, c3) := Expect(c2, {Type.Map});
      if e3.Some? then EntryRead(c3, Some(t), Some(WrapNoEof(mode, OpRecord, e3.value)))
      else EntryRead(c3, Some(t), None)
  }

  /** What reading an entry leaves in the caller's Entry. */
  function Stored(e: EntryValue, tag: bytes, r: EntryRead, source: Source): EntryValue {
    if r.time.None? then e
    else if r.err.Some? then e.(tag := tag, time := r.time.value)
    else Entry(tag, r.time.value, Some(source))
  }

  /** What one mode's Next does: it returns, or it has changed the mode and reads on in the new one. */
  datatype Step = Done(ph: Phase, err: Option<Failure>) | Goto(ph: Phase)

  /** A step only reads on and only adds to what has gone out; changing modes, it enters a live mode:
      from the message mode with fewer bytes unread, from the others the message mode. */
  predicate Steps(ph: Phase, s: Step) {
    && Extends(ph, s.ph)
    && (s.Goto? ==>
          && Live(s.ph)
          && if ph.mode == MessageMode then ph.outer.pos < s.ph.outer.pos else s.ph.mode == MessageMode)
  }

  function Leave(env: Env, ph: Phase): (r: (Phase, Option<Failure>))
    ensures Extends(ph, r.0) && r.0.mode == ph.mode
    ensures !Refused(r.1)
    ensures ph.mode != PackedMode ==> r.0.packed == ph.packed
    ensures ph.mode != CompMode ==> r.0.comp == ph.comp
  {
    match ph.mode
    case MessageMode => (ph, None)
    case ForwardMode => Options(env, ph, ph.fwd.options)
    case PackedMode =>
      Options(env, ph.(packed := ph.packed.(iter := None)), ph.packed.options)
    case CompMode =>
      Options(env, ph.(comp := ph.comp.(iter := None)), ph.comp.options)
  }

  /** changeMode: leave the current mode and enter the other. */
  function ChangeMode(env: Env, ph: Phase, mode: Mode): (s: Step)
    requires Live(ph.(mode := mode))
    ensures Extends(ph, s.ph)
    ensures s.Goto? ==> Live(s.ph) && s.ph.mode == mode
  {
    if mode == ph.mode then Done(ph, Some(AlreadyIn(mode))) else
    var (ph1, err) := Leave(env, ph);
    if err.Some? then Done(ph1, err) else Goto(ph1.(mode := mode))
  }

  function ForwardNext(env: Env, ph: Phase): (s: Step)
    requires ph.mode == ForwardMode
    ensures Steps(ph, s)
  {
    if ph.fwd.items == 0 then ChangeMode(env, ph, MessageMode) else
    var r := ReadEntry(ForwardMode, ph.outer);
    var ph1 := ph.(outer := r.cursor, entry := Stored(ph.entry, ph.fwd.tag, r, FromOuter));
    Done(if r.err.Some? then ph1 else ph1.(fwd := ph.fwd.(items := ph.fwd.items - 1)), r.err)
  }

  function PackedNext(env: Env, ph: Phase): (s: Step)
    requires ph.mode == PackedMode && ph.packed.iter.Some?
    ensures Steps(ph, s)
  {
    var r := ReadEntry(PackedMode, ph.packed.iter.value);
    var ph1 := ph.(packed := ph.packed.(iter := Some(r.cursor)),
                   entry := Stored(ph.entry, ph.packed.tag, r, FromPacked));
    if Expect(ph.packed.iter.value, {Type.Array}).0 == Some(EOF) then ChangeMode(env, ph1, MessageMode)
    else Done(ph1, r.err)
  }

  function CompNext(env: Env, ph: Phase): (s: Step)
    requires ph.mode == CompMode && ph.comp.iter.Some?
    ensures Steps(ph, s)
  {
    var r := ReadEntry(CompMode, ph.comp.iter.value);
    var ph1 := ph.(comp := ph.comp.(iter := Some(r.cursor)), entry := Stored(ph.entry, ph.comp.tag, r, FromComp));
    if Expect(ph.comp.iter.value, {Type.Array}).0 == Some(EOF) then ChangeMode(env, ph1, MessageMode)
    else Done(ph1, r.err)
  }

  /** isGzip peeks at three bytes. */
  function IsGzip(payload: bytes): Read<bool> {
    if |payload| < 3 then Err(if payload == [] then EOF else UnexpectedEOF)
    else Ok(payload[0] == 0x1f && payload[1] == 0x8b && payload[2] == 8, 0)
  }

  function MessageNext(env: Env, ph: Phase): (s: Step)
    requires ph.mode == MessageMode
    ensures Steps(ph, s)
  {
    var (e, c) := Expect(ph.outer, {Type.Array});
    var n := c.items;
    if e.Some? then Done(ph.(outer := c), Some(Wrap(MessageMode, OpArrayHead, e.value)))
    else if n < 2 || n > 4 then Done(ph.(outer := c), Some(Failed(MessageMode, OpArrayHead, BadCount)))
    else
      var (e1, c1) := Expect(c, {Type.Str});
      if e1.Some? then Done(ph.(outer := c1), Some(WrapNoEof(MessageMode, OpTag, e1.value)))
      else if c1.length < MIN_TAG_LEN then Done(ph.(outer := c1), Some(Failed(MessageMode, OpTag, TagTooShort)))
      else if c1.length > MAX_TAG_LEN then Done(ph.(outer := c1), Some(Failed(MessageMode, OpTag, TagTooLong)))
      else
        var (tag, c2) := Raw(c1);
        var (ok, c3) := NextToken(c2);
        var ph3 := ph.(outer := c3, entry := ph.entry.(tag := tag));
        if !ok then Done(ph3, Some(WrapNoEof(MessageMode, OpTimeOrEntries, c3.err.value)))
        else TimeOrEntries(env, ph3, n)
  }

  /** The switch of MessageMode.Next on the second item of a request of n items. */
  function TimeOrEntries(env: Env, ph: Phase, n: nat): (s: Step)
    requires ph.mode == MessageMode
    ensures Extends(ph, s.ph)
    ensures s.Goto? ==> Live(s.ph) && s.ph.mode != MessageMode
  {
    match ph.outer.typ
    case Ext => MessageBody(env, ph, n)
    case Int => MessageBody(env, ph, n)
    case Uint => MessageBody(env, ph, n)
    case Array =>
      ChangeMode(env, ph.(fwd := Forward(ph.entry.tag, ph.outer.items, n == 3)), ForwardMode)
    case Bin =>
      var payload := Payload(ph.outer);
      var gzip := IsGzip(payload);
      if gzip.Err? then Done(ph, Some(Wrap(MessageMode, OpIsGzip, gzip.error)))
      else if gzip == Ok(true, 0) then EnterComp(env, ph, n == 3)
      else EnterPacked(env, ph, n == 3)
    case _ => Done(ph, Some(Failed(MessageMode, OpTimeOrEntries, InvalidEntry)))
  }

  /** PackedForwardMode.Enter: the nested iterator over the payload; the outer cursor goes behind it. */
  function EnterPacked(env: Env, ph: Phase, options: bool): (s: Step)
    requires ph.mode == MessageMode
    ensures Extends(ph, s.ph)
    ensures s.Goto? ==> Live(s.ph) && s.ph.mode != MessageMode
  {
    var sub := Fresh(Payload(ph.outer), PayloadError(ph.outer));
    var outer := ph.outer.(pos := PayloadEnd(ph.outer));
    ChangeMode(env, ph.(outer := outer, packed := Nested(Some(sub), ph.entry.tag, options)), PackedMode)
  }

  /** CompressedPackedForwardMode.Enter: the same over what the payload decompresses to. */
  function EnterComp(env: Env, ph: Phase, options: bool): (s: Step)
    requires ph.mode == MessageMode
    ensures Extends(ph, s.ph)
    ensures s.Goto? ==> Live(s.ph) && s.ph.mode != MessageMode
  {
    var payload := Payload(ph.outer);
    var header := HeaderSkipped(payload, 0);
    var outer := ph.outer.(pos := PayloadEnd(ph.outer));
    if header.err.Some? then Done(ph.(outer := outer), Some(Bare(header.err.value))) else
    var plain := Unzip(env.inflate, payload, header.pos);
    var sub := Fresh(plain.data, plain.end);
    ChangeMode(env, ph.(outer := outer, comp := Nested(Some(sub), ph.entry.tag, options)), CompMode)
  }

  /** The rest of a single-event request: its time, the head of its record and, of four items, the options. */
  function MessageBody(env: Env, ph: Phase, n: nat): (s: Step)
    ensures Extends(ph, s.ph) && s.Done?
  {
    var (t, c) := TimeOf(ph.outer);
    var (e, c1) := Expect(c, {Type.Map});
    var ph1 := ph.(outer := c1, entry := ph.entry.(time := t));
    if e.Some? then Done(ph1, Some(WrapNoEof(ph.mode, OpRecord, e.value)))
    else
      var ph2 := ph1.(entry := ph1.entry.(record := Some(FromOuter)));
      var (ph3, err) := Options(env, ph2, n == 4);
      Done(ph3, err)
  }

  /** The current mode's Next. */
  function StepOf(env: Env, ph: Phase): (s: Step)
    requires Live(ph)
    ensures Steps(ph, s)
  {
    match ph.mode
    case MessageMode => MessageNext(env, ph)
    case ForwardMode => ForwardNext(env, ph)
    case PackedMode => PackedNext(env, ph)
    case CompMode => CompNext(env, ph)
  }

  /** TransportPhase.Next: changeMode ends in a call of the new mode's Next. */
  function Next(env: Env, ph: Phase): (r: (Phase, Option<Failure>))
    requires Live(ph)
    ensures Extends(ph, r.0)
    decreases Unread(ph), Rank(ph.mode)
  {
    match StepOf(env, ph)
    case Done(ph1, err) => (ph1, err)
    case Goto(ph1) => Next(env, ph1)
  }

  /** The result of a step and of what follows it. */
  function Finish(env: Env, s: Step): (Phase, Option<Failure>)
    requires s.Goto? ==> Live(s.ph)
  {
    match s
    case Done(ph, err) => (ph, err)
    case Goto(ph) => Next(env, ph)
  }

  /** A step from a sound typestate. */
  predicate StepSound(ph: Phase, s: Step) {
    && (s.Goto? ==> Typestate(s.ph))
    && (s.Done? ==> Orderly(ph, (s.ph, s.err)))
    && (s.Done? && s.err.None? ==> Progress(ph, s.ph))
  }

  predicate EnterSound(ph: Phase, s: Step) {
    && (s.Goto? ==> Typestate(s.ph))
    && (s.Done? ==> Orderly(ph, (s.ph, s.err)))
  }

  lemma EnterNestedSound(env: Env, ph: Phase, options: bool)
    requires ph.mode == MessageMode && Typestate(ph)
    ensures EnterSound(ph, EnterPacked(env, ph, options))
    ensures EnterSound(ph, EnterComp(env, ph, options))
  {
  }

  lemma BodySound(env: Env, ph: Phase, n: nat)
    requires ph.mode == MessageMode && Typestate(ph)
    ensures EnterSound(ph, MessageBody(env, ph, n))
  {
  }

  lemma {:induction false} SwitchSound(env: Env, ph: Phase, n: nat)
    requires ph.mode == MessageMode && Typestate(ph)
    ensures EnterSound(ph, TimeOrEntries(env, ph, n))
  {
    hide ChangeMode, EnterPacked, EnterComp, MessageBody, IsGzip, Payload, EnterSound, Wrap;
    EnterNestedSound(env, ph, n == 3);
    BodySound(env, ph, n);
    var ph1 := ph.(fwd := Forward(ph.entry.tag, ph.outer.items, n == 3));
    EnterForwardSound(env, ph1);
    FromHead(ph, ph1, ChangeMode(env, ph1, ForwardMode));
    ErrorSound(ph);
  }

  /** The fields of the forward mode do not matter to what counts. */
  lemma FromHead(ph: Phase, ph1: Phase, s: Step)
    requires ph1 == ph.(fwd := ph1.fwd) && EnterSound(ph1, s)
    ensures EnterSound(ph, s)
  {
  }

  lemma ErrorSound(ph: Phase)
    ensures forall mode, op, e :: EnterSound(ph, Done(ph, Some(Wrap(mode, op, e))))
    ensures forall mode, op, e :: EnterSound(ph, Done(ph, Some(Failed(mode, op, e))))
  {
  }

  lemma EnterForwardSound(env: Env, ph: Phase)
    requires ph.mode == MessageMode && Typestate(ph)
    ensures EnterSound(ph, ChangeMode(env, ph, ForwardMode))
  {
  }

  lemma {:induction false} MessageSound(env: Env, ph: Phase)
    requires ph.mode == MessageMode && Typestate(ph)
    ensures StepSound(ph, MessageNext(env, ph))
  {
    var (e, c) := Expect(ph.outer, {Type.Array});
    var (e1, c1) := Expect(c, {Type.Str});
    var (tag, c2) := Raw(c1);
    var (ok, c3) := NextToken(c2);
    var ph3 := ph.(outer := c3, entry := ph.entry.(tag := tag));
    hide StepSound, Steps, EnterSound, TimeOrEntries, Expect, NextToken, Raw, Extends;
    var s := MessageNext(env, ph);
    if s == TimeOrEntries(env, ph3, c.items) && e.None? && e1.None? && ok {
      SwitchSound(env, ph3, c.items);
      EntersFurther(env, ph, ph3, c.items);
    } else {
      FailsSound(ph, s);
    }
  }

  lemma FailsSound(ph: Phase, s: Step)
    requires s.Done? && s.err.Some? && !s.err.value.AlreadyIn?
    ensures StepSound(ph, s)
  {
  }

  /** What the switch ends in counts from the start of the request. */
  lemma {:induction false} EntersFurther(env: Env, ph: Phase, ph3: Phase, n: nat)
    requires ph.mode == MessageMode && Typestate(ph)
    requires ph3 == ph.(outer := ph3.outer, entry := ph3.entry) && ph.outer.pos < ph3.outer.pos
    requires EnterSound(ph3, TimeOrEntries(env, ph3, n))
    ensures StepSound(ph, TimeOrEntries(env, ph3, n))
  {
    hide TimeOrEntries;
  }

  lemma {:induction false} StepOrderly(env: Env, ph: Phase)
    requires Live(ph) && Typestate(ph)
    ensures StepSound(ph, StepOf(env, ph))
  {
    if ph.mode == MessageMode {
      MessageSound(env, ph);
    }
  }

  /** On any bytes: a call that succeeds keeps the typestate, leaves a live record and gets ahead; no
      call is refused as a change into the current mode. */
  lemma {:induction false} NextOrderly(env: Env, ph: Phase)
    requires Typestate(ph)
    ensures Orderly(ph, Next(env, ph))
    ensures Next(env, ph).1.None? ==> Progress(ph, Next(env, ph).0)
    decreases Unread(ph), Rank(ph.mode)
  {
    StepOrderly(env, ph);
    var s := StepOf(env, ph);
    if s.Goto? {
      NextOrderly(env, s.ph);
    }
  }
}
