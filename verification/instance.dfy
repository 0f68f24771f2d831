/** The worker's operations on bytes: an entry goes to the client as it was built, and to the fallback
    without its tag. */
module Instances {
  import opened Bytes
  import opened Results
  import opened Strings
  import opened DirBuffers
  import opened Workers

  /** strSize. */
  function StrSize(l: nat): nat {
    if l <= 31 then l + 1 else if l <= 0xff then l + 2 else if l <= 0xffff then l + 3 else l + 5
  }

  /** The size AppendString takes for the tag. */
  lemma StrSizeExact(dst: bytes, s: bytes)
    ensures |AppendString(dst, s)| == |dst| + StrSize(|s|)
  {
  }

  /** What log puts in front of the time and the record. */
  function EntryHead(tag: bytes): bytes {
    AppendString([0x93], tag)
  }

  predicate BuiltFor(tag: bytes, b: bytes) {
    EntryHead(tag) <= b
  }

  /** The entry of two items that the fallback holds for a buffer. */
  function Stripped(tag: bytes): bytes -> bytes {
    b => [0x92] + if |EntryHead(tag)| <= |b| then b[|EntryHead(tag)|..] else []
  }

  // Buffers of messages as buffers of their bytes

  function Joined<M, T>(f: M -> seq<T>, ms: seq<M>): seq<T> {
    if ms == [] then [] else Joined(f, ms[..|ms| - 1]) + f(ms[|ms| - 1])
  }

  function JoinedEach<M, T>(f: M -> seq<T>, members: seq<seq<M>>): seq<seq<T>> {
    seq(|members|, k requires 0 <= k < |members| => Joined(f, members[k]))
  }

  function Mapped<M, T>(f: M -> seq<T>, d: Dir<M>): Dir<T> {
    Dir(d.rName, d.wName, map n | n in d.files :: JoinedEach(f, d.files[n]), d.reading, d.writing, Joined(f, d.open))
  }

  lemma JoinedNone<M, T>(f: M -> seq<T>)
    ensures Joined(f, []) == [] && JoinedEach(f, []) == []
  {
  }

  lemma JoinedMore<M, T>(f: M -> seq<T>, ms: seq<M>, m: M)
    ensures Joined(f, ms + [m]) == Joined(f, ms) + f(m)
  {
    assert (ms + [m])[..|ms|] == ms;
  }

  lemma JoinedEachMore<M, T>(f: M -> seq<T>, a: seq<seq<M>>, b: seq<seq<M>>)
    ensures JoinedEach(f, a + b) == JoinedEach(f, a) + JoinedEach(f, b)
  {
    var all := JoinedEach(f, a + b);
    forall k | 0 <= k < |all|
      ensures all[k] == (JoinedEach(f, a) + JoinedEach(f, b))[k]
    {
    }
  }

  lemma JoinedEachOne<M, T>(f: M -> seq<T>, m: seq<M>)
    ensures JoinedEach(f, [m]) == [Joined(f, m)]
  {
  }

  lemma MappedMembers<M, T>(f: M -> seq<T>, d: Dir<M>, n: Name)
    ensures Members(Mapped(f, d), n) == JoinedEach(f, Members(d, n))
  {
  }

  /** Setting a file commutes with going to bytes. */
  lemma MappedFile<M, T>(f: M -> seq<T>, d: Dir<M>, n: Name, members: seq<seq<M>>)
    ensures Mapped(f, d.(files := d.files[n := members])).files == Mapped(f, d).files[n := JoinedEach(f, members)]
  {
  }

  lemma MappedWritten<M, T>(f: M -> seq<T>, d: Dir<M>, m: M)
    ensures Mapped(f, Written(d, [m])) == Written(Mapped(f, d), f(m))
  {
    hide JoinedEach, Joined;
    JoinedMore(f, d.open, m);
    JoinedMore(f, [], m);
    JoinedNone(f);
    MappedMembers(f, d, d.wName);
    MappedFile(f, d, d.wName, Members(d, d.wName));
    assert [] + [m] == [m] && [] + f(m) == f(m);
  }

  lemma MappedClosed<M, T>(f: M -> seq<T>, d: Dir<M>)
    ensures Mapped(f, Closed(d)) == Closed(Mapped(f, d))
  {
    hide JoinedEach, Joined;
    JoinedNone(f);
    JoinedEachMore(f, Members(d, d.wName), [d.open]);
    JoinedEachOne(f, d.open);
    MappedMembers(f, d, d.wName);
    MappedFile(f, d, d.wName, Members(d, d.wName) + [d.open]);
  }

  lemma MappedOpened<M, T>(f: M -> seq<T>, d: Dir<M>)
    ensures Opened(Mapped(f, d)) == (Mapped(f, Opened(d).0), Opened(d).1)
  {
    MappedClosed(f, d);
    hide Closed, JoinedEach, Joined;
  }

  lemma MappedFinished<M, T>(f: M -> seq<T>, d: Dir<M>, ok: bool)
    ensures Mapped(f, Finished(d, ok)) == Finished(Mapped(f, d), ok)
  {
    hide JoinedEach, Joined;
    JoinedNone(f);
    MappedFile(f, d, d.rName, []);
  }

  lemma MappedChecked<M, T>(f: M -> seq<T>, d: Dir<M>)
    ensures Checked(Mapped(f, d)) == (Mapped(f, Checked(d).0), Checked(d).1)
  {
    MappedClosed(f, d);
    var c := Closed(d);
    var r, w := Members(c, c.rName), Members(c, c.wName);
    MappedMembers(f, c, c.rName);
    MappedMembers(f, c, c.wName);
    assert JoinedEach(f, r) == [] <==> r == [];
    assert JoinedEach(f, w) == [] <==> w == [];
    hide Closed, Joined, JoinedEach;
    var none: seq<seq<M>> := [[]];
    JoinedNone(f);
    JoinedEachMore(f, w, r);
    JoinedEachMore(f, w + r, none);
    JoinedEachOne(f, []);
    MappedFile(f, c, c.wName, w + r + none);
    MappedFile(f, c.(files := c.files[c.wName := w + r + none]), c.rName, []);
  }

  /** What the client sends for what the worker hands it. */
  function Concrete(tag: bytes, sent: Sent<bytes, bytes>): Sent<bytes, byte> {
    match sent
    case Direct(m) => Direct(m)
    case Batch(members) => Batch(JoinedEach(Stripped(tag), members))
    case Cut(members, n) => Cut(JoinedEach(Stripped(tag), members), n)
  }

  function ConcreteAll(tag: bytes, peer: seq<Sent<bytes, bytes>>): seq<Sent<bytes, byte>> {
    seq(|peer|, k requires 0 <= k < |peer| => Concrete(tag, peer[k]))
  }

  lemma ConcreteMore(tag: bytes, peer: seq<Sent<bytes, bytes>>, sent: Sent<bytes, bytes>)
    ensures ConcreteAll(tag, peer + [sent]) == ConcreteAll(tag, peer) + [Concrete(tag, sent)]
  {
  }

  lemma ConcreteBatched(tag: bytes, peer: seq<Sent<bytes, bytes>>, members: seq<seq<bytes>>, o: Outcome)
    ensures ConcreteAll(tag, peer + Batched(members, o))
         == ConcreteAll(tag, peer) + Batched(JoinedEach(Stripped(tag), members), o)
  {
    if o == Failed(0) {
      assert peer + [] == peer && ConcreteAll(tag, peer) + [] == ConcreteAll(tag, peer);
    } else {
      ConcreteMore(tag, peer, Batched(members, o)[0]);
    }
  }

  /** NewInstance: a Fallback instance needs a fallback, and a client that can write batches. */
  method NewInstance(tag: bytes, behavior: Behavior, reconnector: bool, batches: bool,
                     fallback: DirBuffer?<byte>, ghost files: Dir<bytes>) returns (inst: Instance?, err: bool)
    requires Distinct(files)
    requires fallback != null ==> fallback.View() == Mapped(Stripped(DefaultTag(tag)), files)
    ensures err <==> behavior == Fallback && (fallback == null || !batches)
    ensures err <==> inst == null
    ensures inst != null ==> fresh(inst) && inst.Valid() && inst.tag == DefaultTag(tag) && inst.fallback == fallback
                             && inst.behavior == behavior && inst.reconnector == reconnector
                             && inst.model == Worker(false, files, [], [], [])
  {
    if behavior == Fallback {
      if fallback == null || !batches {
        return null, true;
      }
    }
    inst := new Instance(DefaultTag(tag), behavior, reconnector, fallback, files);
    err := false;
  }

  const DEFAULT_TAG: bytes := [0x66, 0x6c, 0x75, 0x65, 0x6e, 0x74, 0x6c, 0x6f, 0x67]

  /** setDefaults, for the tag. */
  function DefaultTag(tag: bytes): (t: bytes)
    ensures t == if tag == [] then Ascii("fluentlog") else tag
    ensures t != []
  {
    assert DEFAULT_TAG == Ascii("fluentlog");
    if tag == [] then DEFAULT_TAG else tag
  }

  /** fluentlog.Instance, the part its worker goroutine owns. peer is what the client has sent; freed counts
      the buffers put back; model is the same worker on whole messages. */
  class Instance {
    const tag: bytes
    const behavior: Behavior
    const reconnector: bool
    const fallback: DirBuffer?<byte>
    var fb: bool
    var peer: seq<Sent<bytes, byte>>
    var freed: nat
    ghost var model: Worker<bytes>

    ghost predicate Valid()
      reads this, fallback
    {
      && (behavior == Fallback ==> fallback != null) && (fb ==> behavior == Fallback)
      && fb == model.fb && Distinct(model.dir)
      && (fallback != null ==> fallback.View() == Mapped(Stripped(tag), model.dir))
      && peer == ConcreteAll(tag, model.peer)
    }

    constructor (tag: bytes, behavior: Behavior, reconnector: bool, fallback: DirBuffer?<byte>,
                 ghost files: Dir<bytes>)
      requires behavior == Fallback ==> fallback != null
      requires Distinct(files) && (fallback != null ==> fallback.View() == Mapped(Stripped(tag), files))
      ensures Valid() && this.tag == tag && this.behavior == behavior && this.reconnector == reconnector
      ensures this.fallback == fallback && model == Worker(false, files, [], [], [])
    {
      this.tag, this.behavior, this.reconnector, this.fallback := tag, behavior, reconnector, fallback;
      fb, peer, freed := false, [], 0;
      model := Worker(false, files, [], [], []);
    }

    /** An array header of two items, then the entry behind its tag. */
    method WriteEntry(b: bytes)
      requires fallback != null && Distinct(fallback.View()) && 1 + StrSize(|tag|) <= |b|
      modifies fallback
      ensures fallback.View() == Written(Written(old(fallback.View()), [0x92]), b[1 + StrSize(|tag|)..])
    {
      hide Written, Content, Distinct, StrSize;
      var strip := 1 + StrSize(|tag|);
      fallback.Write([0x92]);
      fallback.Write(b[strip..]);
    }

    /** sendToFallbackCli. */
    method SendToFallbackCli(b: bytes)
      requires Valid() && fallback != null && BuiltFor(tag, b)
      modifies this`freed, this`model, fallback
      ensures Valid() && model == ToFallback(old(model), b) && freed == old(freed) + 1
    {
      StrippedWrites(tag, model.dir, b);
      hide Mapped, Written, Stripped, ConcreteAll, Distinct, BuiltFor, StrSize;
      WriteEntry(b);
      freed := freed + 1;
      model := ToFallback(model, b);
    }

    /** sendToCli, o being how the client's write ends. */
    method SendToCli(b: bytes, o: Outcome)
      requires Valid() && BuiltFor(tag, b)
      modifies this`fb, this`peer, this`freed, this`model, fallback
      ensures Valid() && model == Send(old(model), behavior, b, o) && freed == old(freed) + 1
    {
      if fb {
        SendToFallbackCli(b);
        return;
      }
      if o != Failed(0) {
        ConcreteMore(tag, model.peer, Direct(b));
        peer := peer + [Direct(b)];
        model := model.(peer := model.peer + [Direct(b)], extra := model.extra + Reached(o, [b]));
      }
      if o != Done {
        if behavior == Fallback {
          fb := true;
          model := model.(fb := true);
          SendToFallbackCli(b);
          return;
        }
        model := model.(lost := model.lost + [b]);
      }
      freed := freed + 1;
    }

    /** Reader with WriteBatch as its callback, o being how that ends. */
    method ReadIntoBatch(o: Outcome) returns (err: Option<Error>)
      requires Valid() && fallback != null
      modifies this`peer, this`model, fallback
      ensures Valid() && (model, err) == Attempt(old(model), o)
    {
      assert fallback.wName == model.dir.wName;
      hide Mapped, JoinedEach, Opened, Finished, ConcreteAll, Batched, Content, Flat, Distinct, Members, Joined;
      ghost var d := model.dir;
      ghost var o1 := Opened(d).0;
      MappedAttempt(Stripped(tag), d, o == Done);
      var handed;
      err, handed := fallback.Reader([], o == Done);
      if err != Some(NotExist) {
        ConcreteBatched(tag, model.peer, Members(o1, o1.rName), o);
        peer := peer + Batched(handed, o);
      }
      model := Attempt(model, o).0;
    }

    /** flushFallbackToCli, with the ends of its client calls. */
    method FlushFallbackToCli(first: Outcome, reconnects: bool, second: Outcome) returns (err: Option<Error>)
      requires Valid()
      modifies this`fb, this`peer, this`model, fallback
      ensures Valid() && (model, err) == Flush(old(model), reconnector, first, reconnects, second)
    {
      if !fb {
        return None;
      }
      err := ReadIntoBatch(first);
      if err != None {
        if reconnector {
          if !reconnects {
            return Some(WriteFailed);
          }
          err := ReadIntoBatch(second);
          if err != None {
            return;
          }
        }
      }
      fb := false;
      model := model.(fb := false);
    }

    /** maybeSetFb. */
    method MaybeSetFallback()
      requires Valid()
      modifies this`fb, this`model, fallback
      ensures Valid() && model == MaybeSetFb(old(model), behavior)
    {
      if behavior == Fallback {
        DistinctMapped(Stripped(tag), model.dir);
        MappedChecked(Stripped(tag), model.dir);
        GathersAll(model.dir);
        fb := fallback.HasData();
        model := MaybeSetFb(model, behavior);
      }
    }
  }

  /** The two writes for a buffer put its entry into the fallback. */
  lemma {:induction false} StrippedWrites(tag: bytes, d: Dir<bytes>, b: bytes)
    requires BuiltFor(tag, b) && Distinct(d)
    ensures 1 + StrSize(|tag|) <= |b| && Distinct(Mapped(Stripped(tag), d)) && Distinct(Written(d, [b]))
    ensures Written(Written(Mapped(Stripped(tag), d), [0x92]), b[1 + StrSize(|tag|)..])
         == Mapped(Stripped(tag), Written(d, [b]))
  {
    StripsHead(tag, b);
    hide Mapped, Written, Content, Distinct, Stripped, BuiltFor, StrSize;
    DistinctMapped(Stripped(tag), d);
    WrittenKeeps(d, [b]);
    MappedWritten(Stripped(tag), d, b);
    WrittenTwice(Mapped(Stripped(tag), d), [0x92], b[1 + StrSize(|tag|)..]);
  }

  lemma {:induction false} StripsHead(tag: bytes, b: bytes)
    requires BuiltFor(tag, b)
    ensures 1 + StrSize(|tag|) <= |b| && Stripped(tag)(b) == [0x92] + b[1 + StrSize(|tag|)..]
  {
    StrSizeExact([0x93], tag);
    hide AppendString, StrSize;
  }

  /** One Reader commutes with going to bytes. */
  lemma MappedAttempt<M, T>(f: M -> seq<T>, d: Dir<M>, ok: bool)
    requires Distinct(d)
    ensures var (o, err) := Opened(d);
      && Opened(Mapped(f, d)) == (Mapped(f, o), err) && (err == None || err == Some(NotExist))
      && Finished(Mapped(f, o), ok) == Mapped(f, Finished(o, ok))
      && Members(Mapped(f, o), d.wName) == JoinedEach(f, Members(o, o.rName))
      && Distinct(Mapped(f, d)) && Distinct(o) && Distinct(Finished(o, ok))
  {
    var o := Opened(d).0;
    assert o.rName == d.wName;
    DistinctMapped(f, d);
    hide Mapped, JoinedEach, Joined, Content, Flat;
    MappedOpened(f, d);
    OpenedKeeps(d);
    MappedFinished(f, o, ok);
    FinishedKeeps(o, ok);
    MappedMembers(f, o, o.rName);
  }

  lemma DistinctMapped<M, T>(f: M -> seq<T>, d: Dir<M>)
    requires Distinct(d)
    ensures Distinct(Mapped(f, d))
  {
  }
}
