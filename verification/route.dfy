/** The two routes of a message to the server: straight from the worker, or through the fallback's files
    and a batch. */
module Routes {
  import opened Bytes
  import opened Results
  import opened Integers
  import opened Strings
  import opened Timestamps
  import opened Wires
  import opened Gunzip
  import opened Transport
  import opened Grammar
  import opened Decoder
  import opened Records
  import opened DirBuffers
  import opened Workers
  import Instances
  import Clients
  import LogEntries

  /** A message as the two values behind its tag. */
  datatype Logged = Logged(time: Wire, record: Wire)

  predicate IsLogged(m: Logged) {
    Plain(m.time) && IsTime(m.time) && Plain(m.record) && IsMap(m.record)
  }

  predicate AllLogged(ms: seq<Logged>) {
    forall k :: 0 <= k < |ms| ==> IsLogged(ms[k])
  }

  /** The message as log builds it. */
  function DirectWire(tag: bytes, m: Logged): Wire {
    Node(0x93, [], [StrWire(tag), m.time, m.record])
  }

  /** The entry the fallback holds for it. */
  function EventWire(m: Logged): Wire {
    Node(0x92, [], [m.time, m.record])
  }

  function EventWires(ms: seq<Logged>): seq<Wire> {
    if ms == [] then [] else [EventWire(ms[0])] + EventWires(ms[1..])
  }

  /** The event a server owes for a message. */
  function Delivery(tag: bytes, m: Logged): Output
    requires IsLogged(m)
  {
    Delivered(EventOf(tag, m.time, m.record))
  }

  /** The events a server owes for messages, in order. */
  function Events(tag: bytes, ms: seq<Logged>): seq<Output>
    requires AllLogged(ms)
  {
    if ms == [] then [] else [Delivery(tag, ms[0])] + Events(tag, ms[1..])
  }

  // A log call's entry

  function LoggedOf(c: LogEntries.Call, pairs: seq<Pair>): Logged {
    Logged(LogEntries.TimeWire(c.time), LogEntries.RecordWire(pairs))
  }

  /** What the server makes of a log call whose record has at most 255 pairs: an event with its tag, its
      pairs in order, and the time an EventTime carries, which is its own exactly if that has 32-bit seconds. */
  lemma LoggedEvent(c: LogEntries.Call, fields: seq<Pair>)
    requires LogEntries.ValidCall(c) && PlainPairs(fields)
    requires |LogEntries.Carried(c, fields)| <= 255
    ensures var all, w := LogEntries.Carried(c, fields), LogEntries.Written(c, fields);
      var m := LoggedOf(c, all);
      && IsLogged(m) && Enc(DirectWire(c.tag, m)) == LogEntries.EntryBytes(c.tag, c.time, |w| % 256, w)
      && EventOf(c.tag, m.time, m.record)
         == Event(c.tag, Timestamps.Carried(c.time, TsFluentd), |all|, PairBytes(all))
      && (Timestamps.Carried(c.time, TsFluentd) == c.time <==> -0x8000_0000 <= c.time.sec < 0x8000_0000)
  {
    hide BigEndian, LogEntries.Carried, LogEntries.Written, LogEntries.EntryBytes, Items, EncAll;
    var all := LogEntries.Carried(c, fields);
    LogEntries.LoggedExact(c, fields);
    LogEntries.CarriedPlain(c, fields);
    ItemsPlain(all);
    var m := LoggedOf(c, all);
    assert LogEntries.EntryWire(c.tag, c.time, all) == DirectWire(c.tag, m);
    assert Plain(m.time) by { LogEntries.TimePlain(c.time); }
    assert Plain(DirectWire(c.tag, m).items[2]);
    LoggedTime(c.time);
    ReadsTime(m.time);
  }

  lemma LoggedTime(t: Time)
    ensures var w := LogEntries.TimeWire(t);
      && IsTime(w) && ReadTimeUnsafe(w.head, w.body) == Timestamps.Carried(t, TsFluentd)
      && (Timestamps.Carried(t, TsFluentd) == t <==> -0x8000_0000 <= t.sec < 0x8000_0000)
  {
    hide BigEndian;
    var w := LogEntries.TimeWire(t);
    var sec, ns := BigEndian(4, t.sec), BigEndian(4, t.ns);
    assert w.body[1..5] == sec && w.body[5..9] == ns;
    EventSeconds(t.sec);
    EventSeconds(t.ns);
    UnixTimeNormal(IntFromBuf(sec), t.ns);
  }

  // Into the fallback

  lemma EncTwo(a: Wire, b: Wire)
    ensures EncAll([a, b]) == Enc(a) + Enc(b)
  {
    EncAllConcat([a], [b]);
    EncAllOne(a);
    EncAllOne(b);
    assert [a] + [b] == [a, b];
  }

  /** Cutting strSize and a byte off a message leaves its time and record: the fallback gets an entry of two
      items. */
  lemma StripsTag(tag: bytes, m: Logged)
    ensures Instances.BuiltFor(tag, Enc(DirectWire(tag, m)))
    ensures Instances.Stripped(tag)(Enc(DirectWire(tag, m))) == Enc(EventWire(m))
  {
    var s := StrWire(tag);
    StrEnc(tag);
    EncTwo(m.time, m.record);
    LogEntries.EncThree(s, m.time, m.record);
    hide EncAll, StringHeader, StrWire;
    var head, time, record := Enc(s), Enc(m.time), Enc(m.record);
    assert Instances.EntryHead(tag) == [0x93] + head;
    assert Enc(DirectWire(tag, m)) == [0x93] + [] + (head + time + record);
    assert Enc(EventWire(m)) == [0x92] + [] + (time + record);
    hide Enc;
    Assoc(head, time, record);
    var b := [0x93] + [] + (head + time + record);
    assert b == ([0x93] + head) + (time + record);
    assert b[|[0x93] + head|..] == time + record;
  }

  function Built(tag: bytes, ms: seq<Logged>): seq<bytes> {
    seq(|ms|, k requires 0 <= k < |ms| => Enc(DirectWire(tag, ms[k])))
  }

  /** A member of a fallback file is the encoding of its messages' entries. */
  lemma {:induction false} MemberBytes(tag: bytes, ms: seq<Logged>)
    ensures Instances.Joined(Instances.Stripped(tag), Built(tag, ms)) == EncAll(EventWires(ms))
  {
    if ms != [] {
      var front, last := ms[..|ms| - 1], ms[|ms| - 1];
      assert Built(tag, ms) == Built(tag, front) + [Enc(DirectWire(tag, last))];
      assert EventWires([last]) == [EventWire(last)] by { assert [last][1..] == []; }
      hide Enc, EncAll, Built, Instances.Stripped, Instances.Joined;
      MemberBytes(tag, front);
      StripsTag(tag, last);
      Instances.JoinedMore(Instances.Stripped(tag), Built(tag, front), Enc(DirectWire(tag, last)));
      EventWiresConcat(front, [last]);
      assert front + [last] == ms;
      EncAllConcat(EventWires(front), [EventWire(last)]);
      EncAllOne(EventWire(last));
    } else {
      assert Built(tag, ms) == [];
    }
  }

  lemma {:induction false} EventWiresConcat(a: seq<Logged>, b: seq<Logged>)
    ensures EventWires(a + b) == EventWires(a) + EventWires(b)
  {
    if a == [] {
      assert a + b == b;
    } else {
      assert (a + b)[1..] == a[1..] + b;
      EventWiresConcat(a[1..], b);
    }
  }

  lemma {:induction false} EventWiresValid(ms: seq<Logged>)
    requires AllLogged(ms)
    ensures AllEvents(EventWires(ms)) && AllPlain(EventWires(ms)) && |EventWires(ms)| == |ms|
  {
    if ms != [] {
      assert AllLogged(ms[1..]) && IsLogged(ms[0]);
      EventValid(ms[0]);
      hide IsLogged, IsEvent, Plain, EventWire;
      EventWiresValid(ms[1..]);
    }
  }

  lemma {:induction false} EventValid(m: Logged)
    requires IsLogged(m)
    ensures IsEvent(EventWire(m)) && Plain(EventWire(m))
  {
    hide IsTime;
  }

  lemma {:induction false} EventsOut(tag: bytes, ms: seq<Logged>)
    requires AllLogged(ms)
    ensures AllEvents(EventWires(ms)) && EntriesOut(tag, EventWires(ms)) == Events(tag, ms)
  {
    EventWiresValid(ms);
    if ms != [] {
      assert AllLogged(ms[1..]);
      EventsOut(tag, ms[1..]);
      assert EventWires(ms)[1..] == EventWires(ms[1..]);
    }
  }

  lemma {:induction false} EventsConcat(tag: bytes, a: seq<Logged>, b: seq<Logged>)
    requires AllLogged(a) && AllLogged(b)
    ensures AllLogged(a + b) && Events(tag, a + b) == Events(tag, a) + Events(tag, b)
  {
    LoggedBoth(a, b);
    hide Delivery, IsLogged;
    if a == [] {
      assert a + b == b;
      assert [] + Events(tag, b) == Events(tag, b);
    } else {
      assert AllLogged(a[1..]);
      EventsConcat(tag, a[1..], b);
      assert (a + b)[1..] == a[1..] + b;
      Regroup([Delivery(tag, a[0])], Events(tag, a[1..]), Events(tag, b));
    }
  }

  lemma LoggedBoth(a: seq<Logged>, b: seq<Logged>)
    ensures AllLogged(a + b) <==> AllLogged(a) && AllLogged(b)
  {
    hide IsLogged;
    if AllLogged(a + b) {
      assert forall k :: 0 <= k < |a| ==> a[k] == (a + b)[k];
      assert forall k :: 0 <= k < |b| ==> b[k] == (a + b)[|a| + k];
    }
  }

  // On the wire

  /** The option of a batch. */
  function BatchOption(): Wire {
    Node(0x81, [], [StrWire(Clients.COMPRESSED), StrWire(Clients.GZIP)])
  }

  /** The request that WriteBatch frames. */
  function BatchRequest(tag: bytes, gz: seq<Member>, events: seq<Wire>): Request {
    var header := BinaryHeader(|EncMembers(gz)|);
    Compressed(0x93, [], StrWire(tag), header[0], header[1..], gz, events, Some(BatchOption()))
  }

  function DirectRequest(tag: bytes, m: Logged): Request {
    Message(0x93, [], StrWire(tag), m.time, m.record)
  }

  /** WriteBatch frames the file as that request. */
  lemma {:induction false} FramesBatch(tag: bytes, gz: seq<Member>, events: seq<Wire>)
    ensures Clients.BatchHead(tag, |EncMembers(gz)|) + EncMembers(gz) + Clients.BatchTail()
         == Enc(AsWire(BatchRequest(tag, gz, events)))
  {
    var file := EncMembers(gz);
    var s, bin, option := StrWire(tag), BinWire(file), BatchOption();
    StrEnc(tag);
    BinEnc(file);
    TailEnc();
    assert AsWire(BatchRequest(tag, gz, events)) == Node(0x93, [], [s, bin, option]) by {
      assert [s, bin] + [option] == [s, bin, option];
    }
    LogEntries.EncThree(s, bin, option);
    assert Enc(Node(0x93, [], [s, bin, option])) == [0x93] + [] + EncAll([s, bin, option]);
    hide Enc, EncAll, EncMembers, BinaryHeader, StringHeader, StrWire, BinWire;
    var header, tail := BinaryHeader(|file|), Enc(option);
    Assoc([0x93] + Enc(s), header, file);
    LogEntries.Behind([0x93], Enc(s), Enc(bin), tail);
  }

  lemma TailEnc()
    ensures Enc(BatchOption()) == Clients.BatchTail() && Plain(BatchOption()) && IsOption(BatchOption())
    ensures OptionAcks(Some(BatchOption())) == []
  {
    var a, b := StrWire(Clients.COMPRESSED), StrWire(Clients.GZIP);
    StrEnc(Clients.COMPRESSED);
    StrEnc(Clients.GZIP);
    EncTwo(a, b);
    assert Enc(BatchOption()) == [0x81] + [] + EncAll([a, b]);
    hide Enc, StringHeader;
    assert [0x81] + [] == [0x81];
    Assoc([0x81], Enc(a), Enc(b));
    assert [a, b][2..] == [];
    assert a.body == Clients.COMPRESSED != CHUNK;
  }

  /** The members a gzip writer leaves in a file: one for each list of messages, its content their entries. */
  ghost predicate Packs(inflate: Inflate, members: seq<seq<Logged>>, gz: seq<Member>) {
    && |gz| == |members| && |EncMembers(gz)| < LIMIT
    && forall k :: 0 <= k < |gz| ==> ValidMember(inflate, gz[k]) && gz[k].content == EncAll(EventWires(members[k]))
  }

  /** Whether a request is what the client sends for what it is handed. */
  ghost predicate Carries(inflate: Inflate, tag: bytes, sent: Sent<Logged, Logged>, r: Request) {
    match sent
    case Direct(m) => r == DirectRequest(tag, m)
    case Batch(members) =>
      && r.Compressed? && r == BatchRequest(tag, r.members, EventWires(Flat(members)))
      && Packs(inflate, members, r.members)
    case Cut(_, _) => false
  }

  lemma {:induction false} PacksContents(inflate: Inflate, members: seq<seq<Logged>>, gz: seq<Member>)
    requires |gz| == |members|
    requires forall k :: 0 <= k < |gz| ==> gz[k].content == EncAll(EventWires(members[k]))
    ensures Contents(gz) == EncAll(EventWires(Flat(members)))
  {
    if gz != [] {
      PacksContents(inflate, members[1..], gz[1..]);
      EventWiresConcat(members[0], Flat(members[1..]));
      EncAllConcat(EventWires(members[0]), EventWires(Flat(members[1..])));
    }
  }

  /** What the client sends is a valid request, and stands for the messages it was handed. */
  lemma {:induction false} CarriedOutputs(inflate: Inflate, tag: bytes, sent: Sent<Logged, Logged>, r: Request)
    requires MIN_TAG_LEN <= |tag| <= MAX_TAG_LEN && Carries(inflate, tag, sent, r)
    requires AllLogged(Part(sent)) && (sent.Batch? ==> sent.members != [])
    ensures Valid(inflate, r) && Outputs(inflate, r) == Events(tag, Part(sent))
  {
    StrEnc(tag);
    match sent
    case Direct(m) =>
      assert IsLogged(Part(sent)[0]);
      DirectOutputs(inflate, tag, m);
    case Batch(members) =>
      BatchOutputs(inflate, tag, members, r.members);
  }

  lemma {:induction false} ValidMessage(inflate: Inflate, h: byte, l: bytes, tag: Wire, time: Wire, record: Wire)
    requires Plain(Node(h, l, [tag, time, record])) && IsArrayHead(h) && IsTag(tag) && IsTime(time) && IsMap(record)
    ensures Valid(inflate, Message(h, l, tag, time, record))
    ensures Outputs(inflate, Message(h, l, tag, time, record)) == [Delivered(EventOf(tag.body, time, record))]
  {
    hide Plain, IsTag, IsTime, EventOf;
  }

  lemma {:induction false} ValidCompressed(inflate: Inflate, h: byte, l: bytes, tag: Wire, bh: byte, bl: bytes,
                                           gz: seq<Member>, events: seq<Wire>, option: Wire)
    requires Plain(Node(h, l, [tag, Leaf(bh, bl, EncMembers(gz)), option])) && IsArrayHead(h) && IsTag(tag)
    requires IsBinHead(bh) && gz != [] && AllEvents(events) && AllPlain(events) && IsOption(option)
    requires forall k :: 0 <= k < |gz| ==> ValidMember(inflate, gz[k])
    requires Contents(gz) == EncAll(events) && OptionAcks(Some(option)) == []
    ensures var r := Compressed(h, l, tag, bh, bl, gz, events, Some(option));
      Valid(inflate, r) && Outputs(inflate, r) == EntriesOut(tag.body, events)
  {
    assert tag.Leaf?;
    hide Plain, IsTag, IsBinHead, AllEvents, AllPlain, IsOption, ValidMember, Contents, EncAll, EntriesOut, OptionAcks;
    var items := [tag, Leaf(bh, bl, EncMembers(gz))];
    assert items + [option] == [tag, Leaf(bh, bl, EncMembers(gz)), option];
    assert EntriesOut(tag.body, events) + [] == EntriesOut(tag.body, events);
  }

  lemma {:induction false} DirectOutputs(inflate: Inflate, tag: bytes, m: Logged)
    requires MIN_TAG_LEN <= |tag| <= MAX_TAG_LEN && IsLogged(m)
    ensures Valid(inflate, DirectRequest(tag, m))
    ensures AllLogged([m]) && Outputs(inflate, DirectRequest(tag, m)) == Events(tag, [m])
  {
    StrEnc(tag);
    hide EventOf, UintOf, Plain, EncAll, Valid, Outputs;
    LogEntries.PlainThree(0x93, [StrWire(tag), m.time, m.record]);
    ValidMessage(inflate, 0x93, [], StrWire(tag), m.time, m.record);
    assert [m][1..] == [];
    assert Events(tag, [m]) == [Delivery(tag, m)] + [];
  }

  lemma {:induction false} BatchOutputs(inflate: Inflate, tag: bytes, members: seq<seq<Logged>>, gz: seq<Member>)
    requires MIN_TAG_LEN <= |tag| <= MAX_TAG_LEN && Packs(inflate, members, gz) && members != []
    requires AllLogged(Flat(members))
    ensures Valid(inflate, BatchRequest(tag, gz, EventWires(Flat(members))))
    ensures Outputs(inflate, BatchRequest(tag, gz, EventWires(Flat(members)))) == Events(tag, Flat(members))
  {
    hide Valid, Outputs, EncMembers, Contents, Flat, EventWires, Plain, ValidMember, IsEvent, OptionAcks, IsOption;
    var ms, header := Flat(members), BinaryHeader(|EncMembers(gz)|);
    StrEnc(tag);
    TailEnc();
    BinEnc(EncMembers(gz));
    PacksContents(inflate, members, gz);
    EventWiresValid(ms);
    EventsOut(tag, ms);
    var items := [StrWire(tag), BinWire(EncMembers(gz)), BatchOption()];
    LogEntries.PlainThree(0x93, items);
    assert IsTag(StrWire(tag)) && IsBinHead(header[0]) && |gz| == |members|;
    hide EncAll, StrWire, BinaryHeader, EntriesOut, Events, BatchOption, IsTag, IsBinHead;
    ValidCompressed(inflate, 0x93, [], StrWire(tag), header[0], header[1..], gz, EventWires(ms), BatchOption());
  }

  // Everything sent

  /** The requests of everything the client has sent. */
  ghost predicate CarriesAll(inflate: Inflate, tag: bytes, peer: seq<Sent<Logged, Logged>>, rs: seq<Request>) {
    |rs| == |peer| && forall k :: 0 <= k < |peer| ==> Carries(inflate, tag, peer[k], rs[k])
  }

  lemma {:induction false} PeerOutputs(inflate: Inflate, tag: bytes, peer: seq<Sent<Logged, Logged>>, rs: seq<Request>)
    requires MIN_TAG_LEN <= |tag| <= MAX_TAG_LEN && CarriesAll(inflate, tag, peer, rs)
    requires AllLogged(Received(peer)) && Regular(peer)
    ensures AllValid(inflate, rs) && AllOutputs(inflate, rs) == Events(tag, Received(peer))
  {
    hide Received, Carries, CarriesAll, Regular, Part, Valid, AllValid, Outputs, Events, AllOutputs, AllLogged;
    if peer == [] {
      NothingOut(inflate, tag, peer, rs);
    } else {
      var n := |peer| - 1;
      var front, ms := Received(peer[..n]), Part(peer[n]);
      assert peer == peer[..n] + [peer[n]];
      ReceivedOne(peer[..n], peer[n]);
      CarriesParts(inflate, tag, peer, rs);
      FrontRegular(peer);
      assert rs == rs[..n] + [rs[n]];
      LoggedBoth(front, ms);
      PeerOutputs(inflate, tag, peer[..n], rs[..n]);
      CarriedOutputs(inflate, tag, peer[n], rs[n]);
      OutputsMore(inflate, rs[..n], rs[n]);
      EventsConcat(tag, front, ms);
    }
  }

  lemma {:induction false} NothingOut(inflate: Inflate, tag: bytes, peer: seq<Sent<Logged, Logged>>, rs: seq<Request>)
    requires peer == [] && CarriesAll(inflate, tag, peer, rs) && AllLogged(Received(peer))
    ensures AllValid(inflate, rs) && AllOutputs(inflate, rs) == Events(tag, Received(peer))
  {
    hide Carries, Valid, Outputs, Delivery;
  }

  lemma CarriesParts(inflate: Inflate, tag: bytes, peer: seq<Sent<Logged, Logged>>, rs: seq<Request>)
    requires peer != [] && CarriesAll(inflate, tag, peer, rs)
    ensures var n := |peer| - 1;
      |rs| == n + 1 && CarriesAll(inflate, tag, peer[..n], rs[..n]) && Carries(inflate, tag, peer[n], rs[n])
  {
    hide Carries;
  }

  lemma {:induction false} OutputsMore(inflate: Inflate, rs: seq<Request>, r: Request)
    requires AllValid(inflate, rs) && Valid(inflate, r)
    ensures AllValid(inflate, rs + [r])
    ensures AllOutputs(inflate, rs + [r]) == AllOutputs(inflate, rs) + Outputs(inflate, r)
  {
    hide Valid, Outputs;
    if rs == [] {
      assert rs + [r] == [r] && [r][1..] == [];
      assert [] + Outputs(inflate, r) == Outputs(inflate, r) + [];
    } else {
      OutputsMore(inflate, rs[1..], r);
      assert (rs + [r])[1..] == rs[1..] + [r];
    }
  }

  /** Whatever mixture of direct messages and batches reaches the server, it delivers the messages, in the
      order the peer received them, and nothing else. */
  lemma {:induction false} ServerDelivers(env: Env, tag: bytes, peer: seq<Sent<Logged, Logged>>, rs: seq<Request>)
    requires AlwaysAcks(env) && MIN_TAG_LEN <= |tag| <= MAX_TAG_LEN
    requires CarriesAll(env.inflate, tag, peer, rs) && AllLogged(Received(peer)) && Regular(peer)
    ensures Run(env, Start(EncRequests(rs))) == (Events(tag, Received(peer)), Bare(EOF))
  {
    PeerOutputs(env.inflate, tag, peer, rs);
    DecodesRequests(env, rs);
  }
}
