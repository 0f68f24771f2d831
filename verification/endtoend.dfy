/** The whole way on bytes: what log builds, what the worker hands to the client and to the fallback, what
    the client puts on the wire, and what the server makes of it. */
module EndToEnd {
  import opened Bytes
  import opened Results
  import opened Strings
  import opened Wires
  import opened Gunzip
  import opened Transport
  import opened Grammar
  import opened Lookahead
  import opened Decoder
  import opened Records
  import opened DirBuffers
  import opened Workers
  import opened Routes
  import DecoderLimits
  import Timestamps
  import Instances
  import Clients
  import LogEntries
  import Pipelines
  import Deliveries

  /** A gzip file with these contents, one for each member. */
  ghost predicate Gzipped(inflate: Inflate, contents: seq<bytes>, gz: seq<Member>) {
    && |gz| == |contents| && |EncMembers(gz)| < LIMIT
    && forall k :: 0 <= k < |gz| ==> ValidMember(inflate, gz[k]) && gz[k].content == contents[k]
  }

  /** What WriteBatch puts on the wire for a file. */
  function Framed(tag: bytes, file: bytes): bytes {
    Clients.BatchHead(tag, |file|) + file + Clients.BatchTail()
  }

  /** The bytes of one call of the client: a buffer as it is, or a file of less than 4 GiB in its frame, or the
      first of these. */
  ghost predicate OnWire(inflate: Inflate, tag: bytes, sent: Sent<bytes, byte>, wire: bytes) {
    match sent
    case Direct(b) => wire == b
    case Batch(contents) => exists gz :: Gzipped(inflate, contents, gz) && wire == Framed(tag, EncMembers(gz))
    case Cut(contents, _) => exists gz :: Gzipped(inflate, contents, gz) && wire <= Framed(tag, EncMembers(gz))
  }

  ghost predicate AllOnWire(inflate: Inflate, tag: bytes, peer: seq<Sent<bytes, byte>>, wires: seq<bytes>) {
    |wires| == |peer| && forall k :: 0 <= k < |peer| ==> OnWire(inflate, tag, peer[k], wires[k])
  }

  /** What the server puts out for the bytes of a connection, and how it ends. */
  function Server(env: Env, wire: bytes): (seq<Output>, Failure) {
    Run(env, Start(wire))
  }

  // From the bytes back to the messages

  lemma BuiltSlices(tag: bytes, ms: seq<Logged>, n: nat)
    requires n <= |ms|
    ensures Built(tag, ms)[..n] == Built(tag, ms[..n]) && Built(tag, ms)[n..] == Built(tag, ms[n..])
  {
  }

  /** Lists of buffers that together are the buffers of some messages are the buffers of lists of them. */
  lemma {:induction false} SplitMembers(tag: bytes, members: seq<seq<bytes>>, ms: seq<Logged>)
    returns (lists: seq<seq<Logged>>)
    requires Flat(members) == Built(tag, ms)
    ensures Flat(lists) == ms && |lists| == |members|
    ensures forall k :: 0 <= k < |members| ==> members[k] == Built(tag, lists[k])
  {
    if members == [] {
      lists := [];
    } else {
      var n := |members[0]|;
      assert Flat(members)[..n] == members[0] && Flat(members)[n..] == Flat(members[1..]);
      BuiltSlices(tag, ms, n);
      var more := SplitMembers(tag, members[1..], ms[n..]);
      lists := [ms[..n]] + more;
      assert lists[1..] == more && ms[..n] + ms[n..] == ms;
    }
  }

  /** A file that holds the stripped buffers of messages packs their events. */
  lemma GzipPacks(inflate: Inflate, tag: bytes, members: seq<seq<bytes>>, lists: seq<seq<Logged>>, gz: seq<Member>)
    requires |lists| == |members| && forall k :: 0 <= k < |members| ==> members[k] == Built(tag, lists[k])
    requires Gzipped(inflate, Instances.JoinedEach(Instances.Stripped(tag), members), gz)
    ensures Packs(inflate, lists, gz)
  {
    hide ValidMember;
    forall k | 0 <= k < |gz|
      ensures gz[k].content == EncAll(EventWires(lists[k]))
    {
      MemberBytes(tag, lists[k]);
    }
  }

  /** The request behind the bytes of one call. */
  lemma {:induction false} RecoverOne(inflate: Inflate, tag: bytes, sent: Sent<bytes, bytes>, ms: seq<Logged>,
                                      wire: bytes)
    returns (l: Sent<Logged, Logged>, r: Request)
    requires Part(sent) == Built(tag, ms) && OnWire(inflate, tag, Instances.Concrete(tag, sent), wire) && !sent.Cut?
    ensures Carries(inflate, tag, l, r) && Part(l) == ms && Enc(AsWire(r)) == wire
    ensures l.Batch? == sent.Batch? && !l.Cut? && (l.Batch? ==> |l.members| == |sent.members|)
  {
    match sent {
      case Direct(b) =>
        assert |ms| == |Built(tag, ms)| == 1;
        l, r := Direct(ms[0]), DirectRequest(tag, ms[0]);
        assert Built(tag, ms)[0] == Enc(DirectWire(tag, ms[0]));
        assert ms == [ms[0]];
      case Batch(members) =>
        hide Gzipped, EncMembers, Flat;
        var lists := SplitMembers(tag, members, ms);
        var contents := Instances.JoinedEach(Instances.Stripped(tag), members);
        ghost var gz :| Gzipped(inflate, contents, gz) && wire == Framed(tag, EncMembers(gz));
        GzipPacks(inflate, tag, members, lists, gz);
        l, r := Sent.Batch(lists), BatchRequest(tag, gz, EventWires(ms));
        FramesBatch(tag, gz, EventWires(ms));
    }
  }

  lemma {:induction false} EncRequestsMore(rs: seq<Request>, r: Request)
    ensures EncRequests(rs + [r]) == EncRequests(rs) + Enc(AsWire(r))
  {
    hide Enc, AsWire;
    if rs == [] {
      assert rs + [r] == [r] && [r][1..] == [];
      assert Enc(AsWire(r)) + [] == [] + Enc(AsWire(r));
    } else {
      EncRequestsMore(rs[1..], r);
      assert (rs + [r])[1..] == rs[1..] + [r];
      Assoc(Enc(AsWire(rs[0])), EncRequests(rs[1..]), Enc(AsWire(r)));
    }
  }

  /** The requests behind everything the client has sent. */
  lemma {:induction false} Recover(inflate: Inflate, tag: bytes, peer: seq<Sent<bytes, bytes>>, ms: seq<Logged>,
                                   wires: seq<bytes>)
    returns (logged: seq<Sent<Logged, Logged>>, rs: seq<Request>)
    requires Received(peer) == Built(tag, ms) && Regular(peer)
    requires AllOnWire(inflate, tag, Instances.ConcreteAll(tag, peer), wires)
    ensures CarriesAll(inflate, tag, logged, rs) && Received(logged) == ms && EncRequests(rs) == Flat(wires)
    ensures Regular(logged)
    decreases |peer|
  {
    if peer == [] {
      logged, rs := [], [];
      assert ms == [] && wires == [];
    } else {
      var n := |peer| - 1;
      var k := |Received(peer[..n])|;
      SplitPeer(inflate, tag, peer, ms, wires);
      FrontRegular(peer);
      hide Received, Flat, Part, Carries, CarriesAll, OnWire, AllOnWire, Built, EncRequests, Regular, AsWire;
      hide Instances.ConcreteAll, Instances.Concrete;
      var front, rs0 := Recover(inflate, tag, peer[..n], ms[..k], wires[..n]);
      var l, r := RecoverOne(inflate, tag, peer[n], ms[k..], wires[n]);
      logged, rs := front + [l], rs0 + [r];
      JoinsLast(front, l, rs0, r, ms, k, wires);
      CarriesMore(inflate, tag, front, rs0, l, r);
    }
  }

  lemma {:induction false} JoinsLast(front: seq<Sent<Logged, Logged>>, l: Sent<Logged, Logged>, rs: seq<Request>,
                                     r: Request, ms: seq<Logged>, k: nat, wires: seq<bytes>)
    requires k <= |ms| && wires != [] && Received(front) == ms[..k] && Part(l) == ms[k..]
    requires EncRequests(rs) == Flat(wires[..|wires| - 1]) && Enc(AsWire(r)) == wires[|wires| - 1]
    ensures Received(front + [l]) == ms && EncRequests(rs + [r]) == Flat(wires)
  {
    hide Received, Flat, Part, EncRequests, Enc, AsWire;
    var n := |wires| - 1;
    ReceivedOne(front, l);
    EncRequestsMore(rs, r);
    FlatAppend(wires[..n], wires[n]);
    assert wires == wires[..n] + [wires[n]] && ms == ms[..k] + ms[k..];
  }

  lemma CarriesMore(inflate: Inflate, tag: bytes, front: seq<Sent<Logged, Logged>>, rs: seq<Request>,
                    l: Sent<Logged, Logged>, r: Request)
    requires CarriesAll(inflate, tag, front, rs) && Carries(inflate, tag, l, r)
    ensures CarriesAll(inflate, tag, front + [l], rs + [r])
    ensures Regular(front) && !l.Cut? && (l.Batch? ==> l.members != []) ==> Regular(front + [l])
  {
    hide Carries;
  }

  lemma {:induction false} SplitPeer(inflate: Inflate, tag: bytes, peer: seq<Sent<bytes, bytes>>, ms: seq<Logged>,
                                     wires: seq<bytes>)
    requires peer != [] && Received(peer) == Built(tag, ms)
    requires AllOnWire(inflate, tag, Instances.ConcreteAll(tag, peer), wires)
    ensures var n := |peer| - 1;
      var k := |Received(peer[..n])|;
      && k <= |ms| && |wires| == |peer|
      && Received(peer[..n]) == Built(tag, ms[..k]) && Part(peer[n]) == Built(tag, ms[k..])
      && AllOnWire(inflate, tag, Instances.ConcreteAll(tag, peer[..n]), wires[..n])
      && OnWire(inflate, tag, Instances.Concrete(tag, peer[n]), wires[n])
  {
    var n := |peer| - 1;
    var front, last := Received(peer[..n]), Part(peer[n]);
    assert Received(peer) == front + last;
    assert (front + last)[..|front|] == front && (front + last)[|front|..] == last;
    BuiltSlices(tag, ms, |front|);
    hide Received, Part, OnWire, Built;
    var all := Instances.ConcreteAll(tag, peer);
    assert all[n] == Instances.Concrete(tag, peer[n]);
    assert Instances.ConcreteAll(tag, peer[..n]) == all[..n];
    assert forall i :: 0 <= i < n ==> all[..n][i] == all[i] && wires[..n][i] == wires[i];
  }

  /** Whatever mixture of buffers and framed files the client has put on the wire, the server delivers the
      events of their messages, in order, and nothing else. */
  lemma {:induction false} ServerReads(env: Env, tag: bytes, peer: seq<Sent<bytes, bytes>>, ms: seq<Logged>,
                                       wires: seq<bytes>)
    requires AlwaysAcks(env) && MIN_TAG_LEN <= |tag| <= MAX_TAG_LEN
    requires Received(peer) == Built(tag, ms) && AllLogged(ms) && Regular(peer)
    requires AllOnWire(env.inflate, tag, Instances.ConcreteAll(tag, peer), wires)
    ensures Server(env, Flat(wires)) == (Events(tag, ms), Bare(EOF))
  {
    hide Run, Built, OnWire, Flat, EncRequests, Carries;
    var logged, rs := Recover(env.inflate, tag, peer, ms, wires);
    ServerDelivers(env, tag, logged, rs);
  }

  // Several connections

  /** What the servers of several connections put out, one after the other. */
  function Servers(env: Env, conns: seq<seq<bytes>>): seq<Output> {
    if conns == [] then [] else
    Servers(env, conns[..|conns| - 1]) + Server(env, Flat(conns[|conns| - 1])).0
  }

  predicate AllEnd(env: Env, conns: seq<seq<bytes>>) {
    forall k :: 0 <= k < |conns| ==> Server(env, Flat(conns[k])).1 == Bare(EOF)
  }

  lemma {:induction false} ReceivedConcat(a: seq<Sent<bytes, bytes>>, b: seq<Sent<bytes, bytes>>)
    ensures Received(a + b) == Received(a) + Received(b)
    decreases |b|
  {
    if b == [] {
      assert a + b == a && Received(a) + [] == Received(a);
    } else {
      var n := |b| - 1;
      assert (a + b)[..|a + b| - 1] == a + b[..n] && (a + b)[|a + b| - 1] == b[n];
      ReceivedConcat(a, b[..n]);
      Regroup(Received(a), Received(b[..n]), Part(b[n]));
    }
  }

  /** Splitting what the client has sent at the start of a connection. */
  lemma {:induction false} SplitSent(inflate: Inflate, tag: bytes, peer: seq<Sent<bytes, bytes>>, ms: seq<Logged>,
                                     a: seq<bytes>, b: seq<bytes>)
    requires Received(peer) == Built(tag, ms) && Regular(peer)
    requires AllOnWire(inflate, tag, Instances.ConcreteAll(tag, peer), a + b)
    ensures |a| <= |peer|
    ensures var front, last := peer[..|a|], peer[|a|..];
      var k := |Received(front)|;
      && k <= |ms| && Regular(front) && Regular(last)
      && Received(front) == Built(tag, ms[..k]) && Received(last) == Built(tag, ms[k..])
      && AllOnWire(inflate, tag, Instances.ConcreteAll(tag, front), a)
      && AllOnWire(inflate, tag, Instances.ConcreteAll(tag, last), b)
  {
    hide Received, Built, AllOnWire, Regular, Instances.ConcreteAll;
    var n := |a|;
    WireParts(inflate, tag, peer, a, b);
    var front, last := peer[..n], peer[n..];
    assert peer == front + last;
    ReceivedConcat(front, last);
    RegularParts(peer, n);
    SplitBuilt(tag, ms, Received(front), Received(last));
  }

  lemma RegularParts(peer: seq<Sent<bytes, bytes>>, n: nat)
    requires n <= |peer| && Regular(peer)
    ensures Regular(peer[..n]) && Regular(peer[n..])
  {
  }

  lemma SplitBuilt(tag: bytes, ms: seq<Logged>, x: seq<bytes>, y: seq<bytes>)
    requires x + y == Built(tag, ms)
    ensures |x| <= |ms| && x == Built(tag, ms[..|x|]) && y == Built(tag, ms[|x|..])
  {
    assert |Built(tag, ms)| == |ms|;
    assert (x + y)[..|x|] == x && (x + y)[|x|..] == y;
    BuiltSlices(tag, ms, |x|);
  }

  lemma {:induction false} WireParts(inflate: Inflate, tag: bytes, peer: seq<Sent<bytes, bytes>>, a: seq<bytes>,
                                     b: seq<bytes>)
    requires AllOnWire(inflate, tag, Instances.ConcreteAll(tag, peer), a + b)
    ensures |a| <= |peer|
    ensures AllOnWire(inflate, tag, Instances.ConcreteAll(tag, peer[..|a|]), a)
    ensures AllOnWire(inflate, tag, Instances.ConcreteAll(tag, peer[|a|..]), b)
  {
    hide OnWire, Instances.Concrete;
    var all := Instances.ConcreteAll(tag, peer);
    assert Instances.ConcreteAll(tag, peer[..|a|]) == all[..|a|];
    assert Instances.ConcreteAll(tag, peer[|a|..]) == all[|a|..];
    forall k | 0 <= k < |b|
      ensures OnWire(inflate, tag, all[|a|..][k], b[k])
    {
      assert (a + b)[|a| + k] == b[k];
    }
  }

  lemma {:induction false} NothingSent(env: Env, tag: bytes, peer: seq<Sent<bytes, bytes>>, ms: seq<Logged>)
    requires Received(peer) == Built(tag, ms) && AllLogged(ms)
    requires AllOnWire(env.inflate, tag, Instances.ConcreteAll(tag, peer), Flat([]))
    ensures Servers(env, []) == Events(tag, ms) && AllEnd(env, [])
  {
    assert |peer| == |Instances.ConcreteAll(tag, peer)| == 0;
    assert |Built(tag, ms)| == |ms|;
  }

  lemma ServersMore(env: Env, front: seq<seq<bytes>>, wires: seq<bytes>)
    ensures Servers(env, front + [wires]) == Servers(env, front) + Server(env, Flat(wires)).0
    ensures AllEnd(env, front) && Server(env, Flat(wires)).1 == Bare(EOF) ==> AllEnd(env, front + [wires])
  {
    hide Server, Flat;
    assert (front + [wires])[..|front|] == front;
  }

  /** Over however many connections the client has sent it, the servers together deliver the events of the
      messages, in order, and nothing else. */
  lemma {:induction false} ServersRead(env: Env, tag: bytes, peer: seq<Sent<bytes, bytes>>, ms: seq<Logged>,
                                       conns: seq<seq<bytes>>)
    requires AlwaysAcks(env) && MIN_TAG_LEN <= |tag| <= MAX_TAG_LEN
    requires Received(peer) == Built(tag, ms) && AllLogged(ms) && Regular(peer)
    requires AllOnWire(env.inflate, tag, Instances.ConcreteAll(tag, peer), Flat(conns))
    ensures Servers(env, conns) == Events(tag, ms) && AllEnd(env, conns)
    decreases |conns|
  {
    hide Servers, AllEnd, Server, Received, Built, Regular, AllOnWire, Flat, AllLogged, Events, Instances.ConcreteAll;
    if conns == [] {
      NothingSent(env, tag, peer, ms);
    } else {
      var n := |conns| - 1;
      var front, wires := conns[..n], conns[n];
      assert conns == front + [wires];
      FlatAppend(front, wires);
      ServersMore(env, front, wires);
      SplitSent(env.inflate, tag, peer, ms, Flat(front), wires);
      var m := |Flat(front)|;
      var k := |Received(peer[..m])|;
      assert ms[..k] + ms[k..] == ms;
      LoggedBoth(ms[..k], ms[k..]);
      ServersRead(env, tag, peer[..m], ms[..k], front);
      ServerReads(env, tag, peer[m..], ms[k..], wires);
      EventsConcat(tag, ms[..k], ms[k..]);
    }
  }

  // The routes meet

  function DirectPeer(buffers: seq<bytes>): seq<Sent<bytes, bytes>> {
    seq(|buffers|, k requires 0 <= k < |buffers| => Direct(buffers[k]))
  }

  lemma {:induction false} DirectReceived(buffers: seq<bytes>)
    ensures Received(DirectPeer(buffers)) == buffers
  {
    if buffers != [] {
      var n := |buffers| - 1;
      DirectReceived(buffers[..n]);
      assert DirectPeer(buffers)[..n] == DirectPeer(buffers[..n]);
      assert buffers == buffers[..n] + [buffers[n]];
    }
  }

  /** Route equivalence. Buffers written one after the other, and the file the fallback makes of the same
      buffers, their heads stripped, in any number of gzip members and framed by WriteBatch, are decoded to the
      same events. */
  lemma {:induction false} RoutesMeet(env: Env, tag: bytes, ms: seq<Logged>, members: seq<seq<bytes>>,
                                      gz: seq<Member>)
    requires AlwaysAcks(env) && MIN_TAG_LEN <= |tag| <= MAX_TAG_LEN && AllLogged(ms)
    requires members != [] && Flat(members) == Built(tag, ms)
    requires Gzipped(env.inflate, Instances.JoinedEach(Instances.Stripped(tag), members), gz)
    ensures Server(env, Flat(Built(tag, ms))) == (Events(tag, ms), Bare(EOF))
    ensures Server(env, Framed(tag, EncMembers(gz))) == (Events(tag, ms), Bare(EOF))
  {
    hide Server, Built, Flat, Gzipped, Framed, EncMembers;
    DirectRoute(env, tag, ms);
    BatchRoute(env, tag, ms, members, gz);
  }

  lemma {:induction false} DirectRoute(env: Env, tag: bytes, ms: seq<Logged>)
    requires AlwaysAcks(env) && MIN_TAG_LEN <= |tag| <= MAX_TAG_LEN && AllLogged(ms)
    ensures Server(env, Flat(Built(tag, ms))) == (Events(tag, ms), Bare(EOF))
  {
    hide Server, Built, Flat, Received, AllLogged, Events;
    DirectReceived(Built(tag, ms));
    ServerReads(env, tag, DirectPeer(Built(tag, ms)), ms, Built(tag, ms));
  }

  lemma {:induction false} BatchRoute(env: Env, tag: bytes, ms: seq<Logged>, members: seq<seq<bytes>>,
                                      gz: seq<Member>)
    requires AlwaysAcks(env) && MIN_TAG_LEN <= |tag| <= MAX_TAG_LEN && AllLogged(ms)
    requires members != [] && Flat(members) == Built(tag, ms)
    requires Gzipped(env.inflate, Instances.JoinedEach(Instances.Stripped(tag), members), gz)
    ensures Server(env, Framed(tag, EncMembers(gz))) == (Events(tag, ms), Bare(EOF))
  {
    var batch: seq<Sent<bytes, bytes>> := [Sent.Batch(members)];
    assert [] + batch == batch && Received<bytes>([]) == [];
    assert [] + Flat(members) == Flat(members);
    hide Server, Built, Flat, Received, Gzipped, Framed, EncMembers, AllLogged, Events;
    ReceivedOne([], batch[0]);
    FlatOne(Framed(tag, EncMembers(gz)));
    ServerReads(env, tag, batch, ms, [Framed(tag, EncMembers(gz))]);
  }

  // Log calls

  /** A log call with the fields its logger has. */
  datatype Entry = Entry(call: LogEntries.Call, fields: seq<Pair>)

  /** An entry for this tag whose record has at most 255 pairs. */
  predicate Fits(tag: bytes, e: Entry) {
    && LogEntries.ValidCall(e.call) && e.call.tag == tag && PlainPairs(e.fields)
    && |LogEntries.Carried(e.call, e.fields)| <= 255
  }

  predicate AllFit(tag: bytes, es: seq<Entry>) {
    forall k :: 0 <= k < |es| ==> Fits(tag, es[k])
  }

  /** The buffer log builds for it. */
  function Buffer(e: Entry): bytes
    requires |e.call.frames| <= 15
  {
    var w := LogEntries.Written(e.call, e.fields);
    LogEntries.EntryBytes(e.call.tag, e.call.time, |w| % 256, w)
  }

  function Buffers(tag: bytes, es: seq<Entry>): seq<bytes>
    requires AllFit(tag, es)
  {
    seq(|es|, k requires 0 <= k < |es| => Buffer(es[k]))
  }

  /** The event of a call: its tag, the time as an EventTime carries it, and all its pairs. */
  function EntryEvent(e: Entry): Output
    requires |e.call.frames| <= 15
  {
    var all := LogEntries.Carried(e.call, e.fields);
    Delivered(Event(e.call.tag, Timestamps.Carried(e.call.time, Timestamps.TsFluentd), |all|, PairBytes(all)))
  }

  function EntryEvents(tag: bytes, es: seq<Entry>): seq<Output>
    requires AllFit(tag, es)
  {
    if es == [] then [] else [EntryEvent(es[0])] + EntryEvents(tag, es[1..])
  }

  function Messages(tag: bytes, es: seq<Entry>): seq<Logged>
    requires AllFit(tag, es)
  {
    seq(|es|, k requires 0 <= k < |es| => LoggedOf(es[k].call, LogEntries.Carried(es[k].call, es[k].fields)))
  }

  /** Log's buffers are those of the calls' messages. */
  lemma {:induction false} BuildsMessages(tag: bytes, es: seq<Entry>)
    requires AllFit(tag, es)
    ensures AllLogged(Messages(tag, es)) && Built(tag, Messages(tag, es)) == Buffers(tag, es)
  {
    hide Fits, Buffer, DirectWire, LoggedOf, Enc, LogEntries.Carried, IsLogged, Messages, AllFit;
    var ms := Messages(tag, es);
    assert |ms| == |es| by {
      MessagesSize(tag, es);
    }
    forall k | 0 <= k < |es|
      ensures |es[k].call.frames| <= 15 && IsLogged(ms[k]) && Enc(DirectWire(tag, ms[k])) == Buffer(es[k])
    {
      MessageAt(tag, es, k);
      CallBuilt(tag, es[k]);
    }
  }

  lemma MessagesSize(tag: bytes, es: seq<Entry>)
    requires AllFit(tag, es)
    ensures |Messages(tag, es)| == |es|
  {
  }

  lemma MessageAt(tag: bytes, es: seq<Entry>, k: nat)
    requires AllFit(tag, es) && k < |es|
    ensures Fits(tag, es[k]) && |es[k].call.frames| <= 15 && |Messages(tag, es)| == |es|
    ensures Messages(tag, es)[k] == LoggedOf(es[k].call, LogEntries.Carried(es[k].call, es[k].fields))
  {
    hide LoggedOf, LogEntries.Carried;
  }

  lemma {:induction false} CallBuilt(tag: bytes, e: Entry)
    requires Fits(tag, e)
    ensures |e.call.frames| <= 15
    ensures var m := LoggedOf(e.call, LogEntries.Carried(e.call, e.fields));
      IsLogged(m) && Enc(DirectWire(tag, m)) == Buffer(e)
  {
    assert |e.call.frames| <= 15;
    hide LogEntries.Carried, LogEntries.Written, LogEntries.EntryBytes, LogEntries.ValidCall, PlainPairs, EventOf;
    LoggedEvent(e.call, e.fields);
  }

  /** The events the server owes for them are the calls'. */
  lemma {:induction false} CallsEvents(tag: bytes, es: seq<Entry>)
    requires AllFit(tag, es)
    ensures AllLogged(Messages(tag, es)) && Events(tag, Messages(tag, es)) == EntryEvents(tag, es)
  {
    BuildsMessages(tag, es);
    if es == [] {
      assert Messages(tag, es) == [];
    } else {
      FirstCall(tag, es);
      hide Messages, Fits, EntryEvent, Delivery, LoggedOf, LogEntries.Carried, IsLogged, Built, Buffers;
      CallsEvents(tag, es[1..]);
    }
  }

  lemma {:induction false} FirstCall(tag: bytes, es: seq<Entry>)
    requires AllFit(tag, es) && es != []
    ensures AllFit(tag, es[1..]) && |Messages(tag, es)| == |es| && Messages(tag, es)[1..] == Messages(tag, es[1..])
    ensures |es[0].call.frames| <= 15 && IsLogged(Messages(tag, es)[0])
    ensures Delivery(tag, Messages(tag, es)[0]) == EntryEvent(es[0])
  {
    assert Fits(tag, es[0]);
    CallEvent(tag, es[0]);
    hide Fits, EntryEvent, Delivery, LoggedOf, LogEntries.Carried, IsLogged;
  }

  lemma {:induction false} CallEvent(tag: bytes, e: Entry)
    requires Fits(tag, e)
    ensures var m := LoggedOf(e.call, LogEntries.Carried(e.call, e.fields));
      IsLogged(m) && Delivery(tag, m) == EntryEvent(e)
  {
    hide LogEntries.Carried, LogEntries.Written, LogEntries.EntryBytes, LogEntries.ValidCall, PlainPairs, EventOf;
    LoggedEvent(e.call, e.fields);
  }

  /** A run of a fallback instance whose batches succeed and whose failed writes have no effect. */
  ghost predicate CleanRun<M>(cfg: Pipelines.Config, producers: nat, files: map<Name, seq<seq<M>>>,
                              actions: seq<Pipelines.Action<M>>, s: Pipelines.Sys<M>) {
    && cfg.behavior == Fallback && s == Pipelines.Exec(cfg, Pipelines.First(producers, files), actions)
    && forall k :: 0 <= k < |actions| ==> Deliveries.Clean(actions[k])
  }

  /** The whole way. The messages of a fallback instance are the buffers of log calls, those its files held at
      first included; the pipeline runs on these buffers, batches succeed and failed writes have no effect. Of
      the bytes its client has put on the wire, over any number of connections, the server has made a prefix of
      the calls' events, in the order of the queue; and all but what is in hand once the instance has left the
      fallback. */
  lemma {:induction false} ServerSeesQueueOrder(
    env: Env, tag: bytes, cfg: Pipelines.Config, producers: nat, files: map<Name, seq<seq<bytes>>>,
    actions: seq<Pipelines.Action<bytes>>, s: Pipelines.Sys<bytes>, es: seq<Entry>, conns: seq<seq<bytes>>)
    requires AlwaysAcks(env) && MIN_TAG_LEN <= |tag| <= MAX_TAG_LEN
    requires CleanRun(cfg, producers, files, actions, s) && AllFit(tag, es)
    requires Buffers(tag, es) == Deliveries.Arranged(NewDir(files)) + Deliveries.Taken(s)
    requires AllOnWire(env.inflate, tag, Instances.ConcreteAll(tag, s.worker.peer), Flat(conns))
    ensures AllEnd(env, conns) && Servers(env, conns) <= EntryEvents(tag, es)
    ensures !s.pc.Starting? && !s.worker.fb && !s.pc.Sending? ==> Servers(env, conns) == EntryEvents(tag, es)
  {
    hide Servers, AllEnd, Flat, Fits, AllOnWire, EntryEvents, Buffers, Instances.ConcreteAll, CleanRun;
    PeerPrefix(tag, cfg, producers, files, actions, s, es);
    hide Deliveries.Arranged, Deliveries.Taken, Received, Regular;
    ServersMake(env, tag, s.worker.peer, es, conns);
  }

  /** The peer of such a run has the buffers of the first calls. */
  lemma {:induction false} PeerPrefix(
    tag: bytes, cfg: Pipelines.Config, producers: nat, files: map<Name, seq<seq<bytes>>>,
    actions: seq<Pipelines.Action<bytes>>, s: Pipelines.Sys<bytes>, es: seq<Entry>)
    requires CleanRun(cfg, producers, files, actions, s)
    requires AllFit(tag, es) && Buffers(tag, es) == Deliveries.Arranged(NewDir(files)) + Deliveries.Taken(s)
    ensures Received(s.worker.peer) <= Buffers(tag, es) && Regular(s.worker.peer)
    ensures !s.pc.Starting? && !s.worker.fb && !s.pc.Sending? ==> Received(s.worker.peer) == Buffers(tag, es)
  {
    hide Received, Regular, Deliveries.Arranged, Pipelines.Exec, Deliveries.Taken, Buffers, AllFit;
    Deliveries.WireOrder(cfg, producers, files, actions);
    assert !s.pc.Sending? ==> Deliveries.Hand(s.pc) == [];
    assert Received(s.worker.peer) + [] == Received(s.worker.peer);
  }

  lemma {:induction false} ServersMake(env: Env, tag: bytes, peer: seq<Sent<bytes, bytes>>, es: seq<Entry>,
                                       conns: seq<seq<bytes>>)
    requires AlwaysAcks(env) && MIN_TAG_LEN <= |tag| <= MAX_TAG_LEN && AllFit(tag, es)
    requires Received(peer) <= Buffers(tag, es) && Regular(peer)
    requires AllOnWire(env.inflate, tag, Instances.ConcreteAll(tag, peer), Flat(conns))
    ensures AllEnd(env, conns) && Servers(env, conns) <= EntryEvents(tag, es)
    ensures Received(peer) == Buffers(tag, es) ==> Servers(env, conns) == EntryEvents(tag, es)
  {
    var n := |Received(peer)|;
    assert |Messages(tag, es)| == |es| == |Buffers(tag, es)|;
    assert Received(peer) == Buffers(tag, es)[..n];
    FirstMessages(tag, es, n);
    hide Servers, AllEnd, Received, Regular, Flat, AllOnWire, Built, Messages, Events, EntryEvents, Buffers, AllLogged;
    hide Instances.ConcreteAll, AllFit;
    ServersRead(env, tag, peer, Messages(tag, es)[..n], conns);
  }

  /** The messages of the first calls have their buffers and a prefix of the events. */
  lemma {:induction false} FirstMessages(tag: bytes, es: seq<Entry>, n: nat)
    requires AllFit(tag, es) && n <= |es|
    ensures |Messages(tag, es)| == |es| == |Buffers(tag, es)| && AllLogged(Messages(tag, es)[..n])
    ensures Built(tag, Messages(tag, es)[..n]) == Buffers(tag, es)[..n]
    ensures Events(tag, Messages(tag, es)[..n]) <= EntryEvents(tag, es)
    ensures n == |es| ==> Events(tag, Messages(tag, es)[..n]) == EntryEvents(tag, es)
  {
    var all := Messages(tag, es);
    assert |all| == |es| == |Buffers(tag, es)|;
    hide Built, Messages, Events, EntryEvents, Buffers, AllLogged, AllFit;
    BuildsMessages(tag, es);
    BuiltSlices(tag, all, n);
    assert all[..n] + all[n..] == all;
    LoggedBoth(all[..n], all[n..]);
    EventsConcat(tag, all[..n], all[n..]);
    CallsEvents(tag, es);
    if n == |all| {
      assert all[..n] == all;
    }
  }

  // The empty batch

  /** What a batch of an empty file, as a retry can send it, does to the server: the request's empty payload
      reads as the end of the connection, whatever follows it. */
  lemma {:induction false} EmptyBatchEnds(env: Env, ph: Phase, tag: bytes, rest: bytes)
    requires ph.mode == MessageMode && Typestate(ph) && MIN_TAG_LEN <= |tag| <= MAX_TAG_LEN
    requires Ahead(ph.outer, Framed(tag, []) + rest)
    ensures var s := StepOf(env, ph);
      s.Done? && s.err == Some(Bare(EOF)) && s.ph.out == ph.out
  {
    hide Plain, StepOf, Enc, Framed, IsTag, Typestate;
    var w := FramesEmpty(tag);
    DecoderLimits.PackedExact(env, ph, w, [], rest);
  }

  lemma {:induction false} FramesEmpty(tag: bytes) returns (w: Wire)
    requires MIN_TAG_LEN <= |tag| <= MAX_TAG_LEN
    ensures Framed(tag, []) == Enc(w) && Plain(w) && IsArray(w) && |w.items| == 3 && IsTag(w.items[0])
    ensures w.items[1].Leaf? && IsBinHead(w.items[1].head) && w.items[1].body == EncAll([])
  {
    hide Plain, BinaryHeader, Enc, StringHeader;
    FramesBatch(tag, [], []);
    StrEnc(tag);
    BinEnc([]);
    TailEnc();
    var items := [StrWire(tag), BinWire([]), BatchOption()];
    w := Node(0x93, [], items);
    assert AsWire(BatchRequest(tag, [], [])) == w by {
      assert [StrWire(tag), BinWire([])] + [BatchOption()] == items;
    }
    EmptyBin();
    LogEntries.PlainThree(0x93, items);
  }

  lemma EmptyBin()
    ensures IsBinHead(BinWire([]).head)
  {
  }

  // The long tag

  /** An instance may have a tag that the server refuses by either route. */
  lemma {:induction false} LongTagRefused(env: Env, ph: Phase, tag: bytes, m: Logged, gz: seq<Member>, rest: bytes)
    requires ph.mode == MessageMode && MAX_TAG_LEN < |tag| < LIMIT && IsLogged(m) && |EncMembers(gz)| < LIMIT
    requires Ahead(ph.outer, Enc(DirectWire(tag, m)) + rest) || Ahead(ph.outer, Framed(tag, EncMembers(gz)) + rest)
    ensures var s := StepOf(env, ph);
      s.Done? && s.err == Some(Failure.Failed(MessageMode, OpTag, TagTooLong)) && s.ph.out == ph.out
  {
    hide Plain, EncMembers, Enc, EncAll, IsLogged, StepOf;
    StrEnc(tag);
    var w := if Ahead(ph.outer, Enc(DirectWire(tag, m)) + rest) then DirectWire(tag, m)
             else AsWire(BatchRequest(tag, gz, []));
    TaggedPlain(tag, m, gz);
    FramesBatch(tag, gz, []);
    assert w.items[0] == StrWire(tag) && 2 <= |w.items| <= 4 && IsArray(w);
    hide AsWire, DirectWire, BatchRequest, Framed, StrWire;
    DecoderLimits.TagRefused(env, ph, w, rest);
  }

  lemma {:induction false} TaggedPlain(tag: bytes, m: Logged, gz: seq<Member>)
    requires |tag| < LIMIT && IsLogged(m) && |EncMembers(gz)| < LIMIT
    ensures Plain(DirectWire(tag, m)) && Plain(AsWire(BatchRequest(tag, gz, [])))
  {
    hide Plain, EncMembers;
    StrEnc(tag);
    BinEnc(EncMembers(gz));
    TailEnc();
    assert [StrWire(tag), BinWire(EncMembers(gz))] + [BatchOption()]
        == [StrWire(tag), BinWire(EncMembers(gz)), BatchOption()];
    LogEntries.PlainThree(0x93, [StrWire(tag), m.time, m.record]);
    LogEntries.PlainThree(0x93, [StrWire(tag), BinWire(EncMembers(gz)), BatchOption()]);
  }
}
