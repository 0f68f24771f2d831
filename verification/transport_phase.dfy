/** The transport phase itself: an object whose modes share the caller's iterator. */
module TransportPhases {
  import opened Bytes
  import opened Types
  import opened Results
  import opened Timestamps
  import opened Iterators
  import opened Gunzip
  import opened Transport

  /** The caller's Entry, overwritten by every Next. */
  class Entry {
    var tag: bytes
    var time: Time
    var record: Iterator?
    /** Which iterator the record was read from when it was last stored. */
    ghost var source: Option<Source>

    constructor ()
      ensures Value() == EntryValue.Entry([], ZERO_TIME, None)
    {
      tag, time, record, source := [], ZERO_TIME, null, None;
    }

    ghost function Value(): EntryValue
      reads this
    {
      EntryValue.Entry(tag, time, source)
    }
  }

  class TransportPhase {
    const env: Env
    var mode: Mode
    var fwdTag: bytes
    var fwdItems: nat
    var fwdOptions: bool
    var packedIter: Iterator?
    var packedTag: bytes
    var packedOptions: bool
    var compIter: Iterator?
    var compTag: bytes
    var compOptions: bool
    /** What the ack callback has sent and the caller has taken. */
    var out: seq<Output>

    ghost predicate Valid(iter: Iterator)
      reads this, iter, packedIter, compIter
    {
      && iter.Valid() && iter != packedIter && iter != compIter
      && (packedIter != null ==> packedIter.Valid() && packedIter != compIter)
      && (compIter != null ==> compIter.Valid())
    }

    ghost function View(iter: Iterator, e: EntryValue): Phase
      requires Valid(iter)
      reads this, iter, packedIter, compIter
    {
      Phase(mode, iter.View(), Forward(fwdTag, fwdItems, fwdOptions),
            Nested(if packedIter == null then None else Some(packedIter.View()), packedTag, packedOptions),
            Nested(if compIter == null then None else Some(compIter.View()), compTag, compOptions),
            e, out)
    }

    constructor (env: Env)
      ensures this.env == env && packedIter == compIter == null
      ensures mode == MessageMode && out == []
    {
      this.env := env;
      mode, out := MessageMode, [];
      fwdTag, fwdItems, fwdOptions := [], 0, false;
      packedIter, packedTag, packedOptions := null, [], false;
      compIter, compTag, compOptions := null, [], false;
    }

    /** The iterator a live record is read from. */
    ghost function Current(iter: Iterator): Iterator?
      reads this
    {
      match mode
      case PackedMode => packedIter
      case CompMode => compIter
      case _ => iter
    }

    method HandleOptions(iter: Iterator) returns (err: Option<Failure>)
      requires iter.Valid()
      modifies this`out, iter
      ensures iter.Valid()
      ensures Handled(iter.View(), out, err) == Transport.HandleOptions(env, mode, old(iter.View()), old(out))
    {
      var c := iter.NextExpectedType({Type.Map});
      if c.Some? {
        return Some(WrapNoEof(mode, OpAck, c.value));
      }
      err := OptionPairs(iter, iter.items);
    }

    /** The loop of handleOptions. */
    method OptionPairs(iter: Iterator, n: nat) returns (err: Option<Failure>)
      requires iter.Valid()
      modifies this`out, iter
      ensures iter.Valid()
      ensures Handled(iter.View(), out, err) == OptionItems(env, mode, old(iter.View()), old(out), n)
    {
      hide Skipped, NextToken, Expect, Raw;
      for i := 0 to n
        invariant iter.Valid()
        invariant OptionItems(env, mode, iter.View(), out, n - i)
               == OptionItems(env, mode, old(iter.View()), old(out), n)
      {
        var c := iter.NextExpectedType({Type.Str});
        if c.Some? {
          return Some(WrapNoEof(mode, OpAck, c.value));
        }
        var key := iter.Str();
        var ok := iter.Next();
        if !ok {
          return Some(WrapNoEof(mode, OpAck, iter.err.value));
        }
        if key != CHUNK {
          iter.Skip();
        } else {
          var chunk := iter.Str();
          if !env.ackOk(out, chunk) {
            return Some(Wrap(mode, OpAck, AckFailed));
          }
          out := out + [Acked(chunk)];
        }
      }
      return None;
    }

    method Options(iter: Iterator, announced: bool, ghost e: EntryValue) returns (err: Option<Failure>)
      requires Valid(iter)
      modifies this`out, iter
      ensures Valid(iter)
      ensures (View(iter, e), err) == Transport.Options(env, old(View(iter, e)), announced)
    {
      err := None;
      if announced {
        err := HandleOptions(iter);
      }
    }

    /** The Leave of the current mode; the packed modes give their iterator back to the pool. */
    method Leave(iter: Iterator, ghost e: EntryValue) returns (err: Option<Failure>)
      requires Valid(iter)
      modifies this, iter
      ensures Valid(iter) && mode == old(mode)
      ensures packedIter == old(packedIter) || packedIter == null
      ensures compIter == old(compIter) || compIter == null
      ensures (View(iter, e), err) == Transport.Leave(env, old(View(iter, e)))
    {
      match mode {
        case MessageMode =>
          err := None;
        case ForwardMode =>
          err := Options(iter, fwdOptions, e);
        case PackedMode =>
          packedIter := null;
          err := Options(iter, packedOptions, e);
        case CompMode =>
          compIter := null;
          err := Options(iter, compOptions, e);
      }
    }

    /** The body the batch modes share; eof tells that the entries have ended. */
    method ReadEntry(it: Iterator, e: Entry, tag: bytes, ghost source: Source) returns (err: Option<Failure>, eof: bool)
      requires it.Valid()
      modifies it, e
      ensures it.Valid()
      ensures var r := Transport.ReadEntry(mode, old(it.View()));
        it.View() == r.cursor && err == r.err && e.Value() == Stored(old(e.Value()), tag, r, source)
      ensures eof <==> Expect(old(it.View()), {Type.Array}).0 == Some(EOF)
      ensures err == None ==> e.record == it
    {
      var x := it.NextExpectedType({Type.Array});
      eof := x == Some(EOF);
      if x.Some? {
        return Some(Wrap(mode, OpArrayHead, x.value)), eof;
      }
      if it.items != 2 {
        return Some(Failed(mode, OpArrayHead, BadCount)), eof;
      }
      x := it.NextExpectedType({Type.Ext, Type.Int, Type.Uint});
      if x.Some? {
        return Some(WrapNoEof(mode, OpTime, x.value)), eof;
      }
      e.tag := tag;
      e.time := it.Time();
      x := it.NextExpectedType({Type.Map});
      if x.Some? {
        return Some(WrapNoEof(mode, OpRecord, x.value)), eof;
      }
      e.record, e.source := it, Some(source);
      return None, eof;
    }

    method Next(iter: Iterator, e: Entry) returns (err: Option<Failure>)
      requires Valid(iter) && Live(View(iter, e.Value()))
      modifies this, iter, e, packedIter, compIter
      ensures Valid(iter)
      ensures packedIter == old(packedIter) || packedIter == null || fresh(packedIter)
      ensures compIter == old(compIter) || compIter == null || fresh(compIter)
      ensures (View(iter, e.Value()), err) == Transport.Next(env, old(View(iter, e.Value())))
      ensures err == None ==> e.record == Current(iter)
      decreases |iter.src| - iter.pos, Rank(mode), 3
    {
      hide Transport.MessageNext, Transport.ForwardNext, Transport.PackedNext, Transport.CompNext;
      match mode {
        case MessageMode =>
          err := MessageNext(iter, e);
        case ForwardMode =>
          err := ForwardNext(iter, e);
        case PackedMode =>
          err := PackedNext(iter, e);
        case CompMode =>
          err := CompNext(iter, e);
      }
    }

    /** changeMode: leave the current mode, enter the other, and read on there. */
    method ChangeMode(m: Mode, iter: Iterator, e: Entry) returns (err: Option<Failure>)
      requires Valid(iter) && Live(View(iter, e.Value()).(mode := m))
      modifies this, iter, e, packedIter, compIter
      ensures Valid(iter)
      ensures packedIter == old(packedIter) || packedIter == null || fresh(packedIter)
      ensures compIter == old(compIter) || compIter == null || fresh(compIter)
      ensures (View(iter, e.Value()), err)
           == Finish(env, Transport.ChangeMode(env, old(View(iter, e.Value())), m))
      ensures err == None ==> e.record == Current(iter)
      decreases |iter.src| - iter.pos, Rank(m), 4
    {
      hide Transport.StepOf, Transport.Next, Transport.Leave;
      if m == mode {
        return Some(AlreadyIn(m));
      }
      err := Leave(iter, e.Value());
      if err.Some? {
        return;
      }
      mode := m;
      err := Next(iter, e);
    }

    method ForwardNext(iter: Iterator, e: Entry) returns (err: Option<Failure>)
      requires Valid(iter) && mode == ForwardMode
      modifies this, iter, e, packedIter, compIter
      ensures Valid(iter)
      ensures packedIter == old(packedIter) || packedIter == null || fresh(packedIter)
      ensures compIter == old(compIter) || compIter == null || fresh(compIter)
      ensures (View(iter, e.Value()), err)
           == Finish(env, Transport.ForwardNext(env, old(View(iter, e.Value()))))
      ensures err == None ==> e.record == Current(iter)
      decreases |iter.src| - iter.pos, 1, 2
    {
      hide Transport.Next, Transport.StepOf, Transport.ReadEntry, Transport.ChangeMode, Expect;
      if fwdItems <= 0 {
        err := ChangeMode(MessageMode, iter, e);
        return;
      }
      var eof;
      err, eof := ReadEntry(iter, e, fwdTag, FromOuter);
      if err.None? {
        fwdItems := fwdItems - 1;
      }
    }

    method PackedNext(iter: Iterator, e: Entry) returns (err: Option<Failure>)
      requires Valid(iter) && mode == PackedMode && packedIter != null
      modifies this, iter, e, packedIter, compIter
      ensures Valid(iter)
      ensures packedIter == old(packedIter) || packedIter == null || fresh(packedIter)
      ensures compIter == old(compIter) || compIter == null || fresh(compIter)
      ensures (View(iter, e.Value()), err)
           == Finish(env, Transport.PackedNext(env, old(View(iter, e.Value()))))
      ensures err == None ==> e.record == Current(iter)
      decreases |iter.src| - iter.pos, 1, 2
    {
      hide Transport.Next, Transport.StepOf, Transport.ReadEntry;
      var eof;
      err, eof := ReadEntry(packedIter, e, packedTag, FromPacked);
      if eof {
        err := ChangeMode(MessageMode, iter, e);
      }
    }

    method CompNext(iter: Iterator, e: Entry) returns (err: Option<Failure>)
      requires Valid(iter) && mode == CompMode && compIter != null
      modifies this, iter, e, packedIter, compIter
      ensures Valid(iter)
      ensures packedIter == old(packedIter) || packedIter == null || fresh(packedIter)
      ensures compIter == old(compIter) || compIter == null || fresh(compIter)
      ensures (View(iter, e.Value()), err)
           == Finish(env, Transport.CompNext(env, old(View(iter, e.Value()))))
      ensures err == None ==> e.record == Current(iter)
      decreases |iter.src| - iter.pos, 1, 2
    {
      hide Transport.Next, Transport.StepOf, Transport.ReadEntry;
      var eof;
      err, eof := ReadEntry(compIter, e, compTag, FromComp);
      if eof {
        err := ChangeMode(MessageMode, iter, e);
      }
    }

    method MessageNext(iter: Iterator, e: Entry) returns (err: Option<Failure>)
      requires Valid(iter) && mode == MessageMode
      modifies this, iter, e, packedIter, compIter
      ensures Valid(iter)
      ensures packedIter == old(packedIter) || packedIter == null || fresh(packedIter)
      ensures compIter == old(compIter) || compIter == null || fresh(compIter)
      ensures (View(iter, e.Value()), err)
           == Finish(env, Transport.MessageNext(env, old(View(iter, e.Value()))))
      ensures err == None ==> e.record == Current(iter)
      decreases |iter.src| - iter.pos, 0, 2
    {
      hide Transport.Next, Transport.StepOf, Transport.TimeOrEntries, Expect, Raw, NextToken;
      var x := iter.NextExpectedType({Type.Array});
      if x.Some? {
        return Some(Wrap(mode, OpArrayHead, x.value));
      }
      var n := iter.items;
      if n < 2 || n > 4 {
        return Some(Failed(mode, OpArrayHead, BadCount));
      }
      x := iter.NextExpectedType({Type.Str});
      if x.Some? {
        return Some(WrapNoEof(mode, OpTag, x.value));
      }
      if iter.length < MIN_TAG_LEN {
        return Some(Failed(mode, OpTag, TagTooShort));
      }
      if iter.length > MAX_TAG_LEN {
        return Some(Failed(mode, OpTag, TagTooLong));
      }
      e.tag := iter.Str();
      var ok := iter.Next();
      if !ok {
        return Some(WrapNoEof(mode, OpTimeOrEntries, iter.err.value));
      }
      err := Switch(iter, e, n);
    }

    /** The switch on the second item of a request of n items. */
    method Switch(iter: Iterator, e: Entry, n: nat) returns (err: Option<Failure>)
      requires Valid(iter) && mode == MessageMode
      modifies this, iter, e, packedIter, compIter
      ensures Valid(iter)
      ensures packedIter == old(packedIter) || packedIter == null || fresh(packedIter)
      ensures compIter == old(compIter) || compIter == null || fresh(compIter)
      ensures (View(iter, e.Value()), err)
           == Finish(env, TimeOrEntries(env, old(View(iter, e.Value())), n))
      ensures err == None ==> e.record == Current(iter)
      decreases |iter.src| - iter.pos, 1, 7
    {
      hide Transport.Next, Transport.StepOf, Transport.EnterComp, Transport.EnterPacked, Transport.MessageBody;
      hide Transport.ChangeMode;
      match iter.typ {
        case Ext =>
          err := Body(iter, e, n);
        case Int =>
          err := Body(iter, e, n);
        case Uint =>
          err := Body(iter, e, n);
        case Array =>
          err := EnterForward(iter, e, iter.items, n == 3);
        case Bin =>
          err := Binary(iter, e, n);
        case _ =>
          return Some(Failed(mode, OpTimeOrEntries, InvalidEntry));
      }
    }

    /** ForwardMode.Enter. */
    method EnterForward(iter: Iterator, e: Entry, items: nat, options: bool) returns (err: Option<Failure>)
      requires Valid(iter) && mode == MessageMode
      modifies this, iter, e, packedIter, compIter
      ensures Valid(iter)
      ensures packedIter == old(packedIter) || packedIter == null || fresh(packedIter)
      ensures compIter == old(compIter) || compIter == null || fresh(compIter)
      ensures var ph := old(View(iter, e.Value()));
        (View(iter, e.Value()), err)
        == Finish(env, Transport.ChangeMode(env, ph.(fwd := Forward(ph.entry.tag, items, options)), ForwardMode))
      ensures err == None ==> e.record == Current(iter)
      decreases |iter.src| - iter.pos, 1, 6
    {
      hide Transport.Next, Transport.StepOf, Transport.ChangeMode;
      fwdTag, fwdItems, fwdOptions := e.tag, items, options;
      err := ChangeMode(ForwardMode, iter, e);
    }

    /** A binary of entries, compressed or not. */
    method Binary(iter: Iterator, e: Entry, n: nat) returns (err: Option<Failure>)
      requires Valid(iter) && mode == MessageMode && iter.typ == Type.Bin
      modifies this, iter, e, packedIter, compIter
      ensures Valid(iter)
      ensures packedIter == old(packedIter) || packedIter == null || fresh(packedIter)
      ensures compIter == old(compIter) || compIter == null || fresh(compIter)
      ensures (View(iter, e.Value()), err)
           == Finish(env, TimeOrEntries(env, old(View(iter, e.Value())), n))
      ensures err == None ==> e.record == Current(iter)
      decreases |iter.src| - iter.pos, 1, 6
    {
      hide Transport.Next, Transport.StepOf, Transport.EnterComp, Transport.EnterPacked, Transport.MessageBody;
      hide Transport.ChangeMode;
      var payload, end := iter.Reader();
      var gzip := IsGzip(payload);
      if gzip.Err? {
        return Some(Wrap(mode, OpIsGzip, gzip.error));
      }
      if gzip.value {
        err := EnterComp(iter, e, payload, n == 3);
      } else {
        err := EnterPacked(iter, e, payload, end, n == 3);
      }
    }

    /** A nested iterator over a payload; the outer cursor goes behind the payload. */
    method OpenPacked(iter: Iterator, tag: bytes, payload: bytes, end: Error, options: bool, ghost e: EntryValue)
      requires Valid(iter) && iter.pos + |payload| <= |iter.src|
      modifies this`packedIter, this`packedTag, this`packedOptions, iter`pos
      ensures Valid(iter) && packedIter != null && fresh(packedIter)
      ensures iter.pos == old(iter.pos) + |payload|
      ensures var outer := old(iter.View()).(pos := iter.pos);
        View(iter, e) == old(View(iter, e)).(outer := outer, packed := Nested(Some(Fresh(payload, end)), tag, options))
    {
      packedIter := new Iterator(payload, end);
      packedTag, packedOptions := tag, options;
      iter.pos := iter.pos + |payload|;
    }

    /** PackedForwardMode.Enter, on what the limited reader over the payload delivers. */
    method EnterPacked(iter: Iterator, e: Entry, payload: bytes, end: Error, options: bool)
      returns (err: Option<Failure>)
      requires Valid(iter) && mode == MessageMode
      requires payload == Payload(iter.View()) && end == PayloadError(iter.View())
      modifies this, iter, e, packedIter, compIter
      ensures Valid(iter)
      ensures packedIter == old(packedIter) || packedIter == null || fresh(packedIter)
      ensures compIter == old(compIter) || compIter == null || fresh(compIter)
      ensures (View(iter, e.Value()), err)
           == Finish(env, Transport.EnterPacked(env, old(View(iter, e.Value())), options))
      ensures err == None ==> e.record == Current(iter)
      decreases |iter.src| - iter.pos, 1, 5
    {
      hide Transport.Next, Transport.StepOf, Transport.ChangeMode;
      OpenPacked(iter, e.tag, payload, end, options, e.Value());
      err := ChangeMode(PackedMode, iter, e);
    }

    method OpenComp(iter: Iterator, tag: bytes, payload: bytes, plain: Stream, options: bool, ghost e: EntryValue)
      requires Valid(iter) && iter.pos + |payload| <= |iter.src|
      modifies this`compIter, this`compTag, this`compOptions, iter`pos
      ensures Valid(iter) && compIter != null && fresh(compIter)
      ensures iter.pos == old(iter.pos) + |payload|
      ensures var outer := old(iter.View()).(pos := iter.pos);
        var sub := Fresh(plain.data, plain.end);
        View(iter, e) == old(View(iter, e)).(outer := outer, comp := Nested(Some(sub), tag, options))
    {
      compIter := new Iterator(plain.data, plain.end);
      compTag, compOptions := tag, options;
      iter.pos := iter.pos + |payload|;
    }

    /** CompressedPackedForwardMode.Enter: the same over what a gzip reader makes of the payload. */
    method EnterComp(iter: Iterator, e: Entry, payload: bytes, options: bool) returns (err: Option<Failure>)
      requires Valid(iter) && mode == MessageMode && payload == Payload(iter.View())
      modifies this, iter, e, packedIter, compIter
      ensures Valid(iter)
      ensures packedIter == old(packedIter) || packedIter == null || fresh(packedIter)
      ensures compIter == old(compIter) || compIter == null || fresh(compIter)
      ensures (View(iter, e.Value()), err)
           == Finish(env, Transport.EnterComp(env, old(View(iter, e.Value())), options))
      ensures err == None ==> e.record == Current(iter)
      decreases |iter.src| - iter.pos, 1, 5
    {
      hide Transport.Next, Transport.StepOf, Transport.ChangeMode, HeaderSkipped, Unzip;
      var header := HeaderSkipped(payload, 0);
      if header.err.Some? {
        iter.pos := iter.pos + |payload|;
        return Some(Bare(header.err.value));
      }
      OpenComp(iter, e.tag, payload, Unzip(env.inflate, payload, header.pos), options, e.Value());
      err := ChangeMode(CompMode, iter, e);
    }

    /** The rest of a single-event request. */
    method Body(iter: Iterator, e: Entry, n: nat) returns (err: Option<Failure>)
      requires Valid(iter) && mode == MessageMode
      modifies this`out, iter, e
      ensures Valid(iter)
      ensures (View(iter, e.Value()), err)
           == Finish(env, MessageBody(env, old(View(iter, e.Value())), n))
      ensures err == None ==> e.record == iter
    {
      hide Transport.Next, Transport.StepOf, Transport.Options;
      e.time := iter.Time();
      var x := iter.NextExpectedType({Type.Map});
      if x.Some? {
        return Some(WrapNoEof(mode, OpRecord, x.value));
      }
      e.record, e.source := iter, Some(FromOuter);
      err := Options(iter, n == 4, e.Value());
    }
  }
}
