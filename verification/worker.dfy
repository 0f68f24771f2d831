/** The delivery side of the worker: what it does with a message at hand, and how it empties the fallback.
    M is a whole message; Instances.Instance does the same with bytes. */
module Workers {
  import opened Results
  import opened DirBuffers

  datatype Behavior = Loose | Block | Fallback

  /** How a call of the client ends. Of a failed call the peer may have got the first messages all the same. */
  datatype Outcome = Done | Failed(reached: nat)

  /** What one call of the client sends: a message, the members of a fallback file, or of these the first
      messages. */
  datatype Sent<+M, +T> = Direct(m: M) | Batch(members: seq<seq<T>>) | Cut(members: seq<seq<T>>, reached: nat)

  /** peer is what the client sent, in order; lost is what it failed to send without a fallback; extra is
      what reached the peer in a failed call. */
  datatype Worker<M> = Worker(fb: bool, dir: Dir<M>, peer: seq<Sent<M, M>>, lost: seq<M>, extra: seq<M>)

  function UpTo<A>(what: seq<A>, n: nat): seq<A> {
    if n <= |what| then what[..n] else what
  }

  /** What of a failed call has reached the peer. */
  function Reached<A>(o: Outcome, what: seq<A>): seq<A> {
    if o.Failed? then UpTo(what, o.reached) else []
  }

  /** Whether a failed call has had no effect, or there was none. */
  predicate Harmless(o: Outcome) {
    o.Failed? ==> o.reached == 0
  }

  /** sendToFallbackCli. */
  function ToFallback<M>(w: Worker<M>, m: M): Worker<M> {
    w.(dir := Written(w.dir, [m]))
  }

  /** sendToCli. */
  function Send<M>(w: Worker<M>, behavior: Behavior, m: M, o: Outcome): Worker<M> {
    if w.fb then ToFallback(w, m) else
    var tried := if o == Failed(0) then w
                 else w.(peer := w.peer + [Direct(m)], extra := w.extra + Reached(o, [m]));
    if o == Done then tried
    else if behavior == Fallback then ToFallback(tried.(fb := true), m)
    else tried.(lost := tried.lost + [m])
  }

  /** What of a batch reaches the peer. */
  function Batched<M, T>(members: seq<seq<T>>, o: Outcome): seq<Sent<M, T>> {
    match o
    case Done => [Batch(members)]
    case Failed(n) => if n == 0 then [] else [Cut(members, n)]
  }

  /** One Reader whose callback writes the batch. */
  function Attempt<M>(w: Worker<M>, o: Outcome): (Worker<M>, Option<Error>) {
    var (d, err) := Opened(w.dir);
    if err != None then (w.(dir := d), err) else
    var members := Members(d, d.rName);
    (w.(dir := Finished(d, o == Done), peer := w.peer + Batched(members, o),
        extra := w.extra + Reached(o, Flat(members))),
     if o == Done then None else Some(WriteFailed))
  }

  /** flushFallbackToCli. The client may not know how to reconnect. */
  function Flush<M>(w: Worker<M>, reconnector: bool, first: Outcome, reconnects: bool, second: Outcome)
    : (Worker<M>, Option<Error>)
  {
    if !w.fb then (w, None) else
    var (w1, err1) := Attempt(w, first);
    if err1 == None || !reconnector then (w1.(fb := false), err1)
    else if !reconnects then (w1, Some(WriteFailed)) else
    var (w2, err2) := Attempt(w1, second);
    (if err2 == None then w2.(fb := false) else w2, err2)
  }

  /** maybeSetFb. */
  function MaybeSetFb<M>(w: Worker<M>, behavior: Behavior): Worker<M> {
    if behavior == Fallback then
      var (d, ok) := Checked(w.dir);
      w.(dir := d, fb := ok)
    else w
  }

  /** The messages the peer received, in order. */
  function Received<M>(peer: seq<Sent<M, M>>): seq<M> {
    if peer == [] then [] else
    Received(peer[..|peer| - 1]) + Part(peer[|peer| - 1])
  }

  function Part<M>(sent: Sent<M, M>): seq<M> {
    match sent
    case Direct(m) => [m]
    case Batch(members) => Flat(members)
    case Cut(members, n) => UpTo(Flat(members), n)
  }

  /** Every message is somewhere: with the peer, in the fallback, or lost without one. */
  ghost function Located<M>(w: Worker<M>): multiset<M> {
    multiset(Received(w.peer)) + multiset(Content(w.dir)) + multiset(w.lost)
  }

  ghost predicate Sound<M>(w: Worker<M>, behavior: Behavior) {
    Distinct(w.dir) && (behavior == Fallback ==> w.lost == []) && (w.fb ==> behavior == Fallback)
  }

  /** The state of a worker all whose failed writes had no effect and all whose batches succeeded: the read
      file is empty, and the fallback is in use whenever it holds something. */
  ghost predicate Tidy<M>(w: Worker<M>) {
    && Distinct(w.dir) && Members(w.dir, w.dir.rName) == []
    && if w.fb then w.dir.writing || Members(w.dir, w.dir.wName) != []
       else !w.dir.writing && Members(w.dir, w.dir.wName) == [] && Content(w.dir) == []
  }

  /** No batch is of an empty file. */
  ghost predicate Filled<M>(peer: seq<Sent<M, M>>) {
    forall k :: 0 <= k < |peer| ==> !peer[k].Direct? ==> peer[k].members != []
  }

  /** Every call reached the peer whole. */
  ghost predicate Whole<M, T>(peer: seq<Sent<M, T>>) {
    forall k :: 0 <= k < |peer| ==> !peer[k].Cut?
  }

  /** Every call reached the peer whole, and none sent an empty batch. */
  ghost predicate Regular<M>(peer: seq<Sent<M, M>>) {
    Filled(peer) && Whole(peer)
  }

  /** What the peer has and will have, in order. */
  ghost function Stream<M>(w: Worker<M>): seq<M> {
    Received(w.peer) + Content(w.dir)
  }

  lemma ReceivedOne<M>(peer: seq<Sent<M, M>>, sent: Sent<M, M>)
    ensures Received(peer + [sent]) == Received(peer) + Part(sent)
  {
    assert (peer + [sent])[..|peer|] == peer;
  }

  /** sendToCli accounts for its message exactly once, and once more if a failed call reached the peer. */
  lemma {:induction false} SendConserves<M>(w: Worker<M>, behavior: Behavior, m: M, o: Outcome)
    requires Sound(w, behavior)
    ensures Sound(Send(w, behavior, m, o), behavior)
    ensures Located(Send(w, behavior, m, o)) + multiset(w.extra)
         == Located(w) + multiset{m} + multiset(Send(w, behavior, m, o).extra)
    ensures Harmless(o) ==> Send(w, behavior, m, o).extra == w.extra
  {
    hide Content, Written, Received, Send;
    var n := Send(w, behavior, m, o);
    var peer := if w.fb || o == Failed(0) then [] else [m];
    var held := if w.fb || (o != Done && behavior == Fallback) then [m] else [];
    var lost := if w.fb || o == Done || behavior == Fallback then [] else [m];
    var extra := if w.fb || Harmless(o) then [] else [m];
    SendParts(w, behavior, m, o, peer, held, lost, extra);
    assert multiset(peer) + multiset(held) + multiset(lost) == multiset{m} + multiset(extra);
    hide Located;
    AddUp(Located(w), multiset(peer) + multiset(held) + multiset(lost), m, w.extra, extra);
  }

  lemma AddUp<M>(l: multiset<M>, more: multiset<M>, m: M, before: seq<M>, extra: seq<M>)
    requires more == multiset{m} + multiset(extra)
    ensures (l + more) + multiset(before) == l + multiset{m} + multiset(before + extra)
  {
    assert multiset(before + extra) == multiset(before) + multiset(extra);
  }

  lemma {:induction false} SendParts<M>(
    w: Worker<M>, behavior: Behavior, m: M, o: Outcome, peer: seq<M>, held: seq<M>, lost: seq<M>, extra: seq<M>)
    requires Sound(w, behavior)
    requires peer == if w.fb || o == Failed(0) then [] else [m]
    requires held == if w.fb || (o != Done && behavior == Fallback) then [m] else []
    requires lost == if w.fb || o == Done || behavior == Fallback then [] else [m]
    requires extra == if w.fb || Harmless(o) then [] else [m]
    ensures Sound(Send(w, behavior, m, o), behavior)
    ensures Send(w, behavior, m, o).extra == w.extra + extra
    ensures Located(Send(w, behavior, m, o)) == Located(w) + (multiset(peer) + multiset(held) + multiset(lost))
  {
    hide Content, Written, Received;
    var n := Send(w, behavior, m, o);
    WrittenKeeps(w.dir, [m]);
    ReceivedOne(w.peer, Direct(m));
    assert Content(n.dir) == Content(w.dir) + held;
    if peer == [] {
      assert Received(w.peer) + [] == Received(w.peer);
    }
    hide Distinct, Located;
    LocatedSum(w, n, peer, held, lost);
  }

  lemma LocatedSum<M>(w: Worker<M>, n: Worker<M>, peer: seq<M>, held: seq<M>, lost: seq<M>)
    requires Received(n.peer) == Received(w.peer) + peer
    requires Content(n.dir) == Content(w.dir) + held
    requires n.lost == w.lost + lost
    ensures Located(n) == Located(w) + (multiset(peer) + multiset(held) + multiset(lost))
  {
    hide Content, Received;
  }

  lemma {:induction false} AttemptConserves<M>(w: Worker<M>, behavior: Behavior, o: Outcome)
    requires Sound(w, behavior)
    ensures Sound(Attempt(w, o).0, behavior)
    ensures Attempt(w, o).0.fb == w.fb && Attempt(w, o).0.lost == w.lost
    ensures Located(Attempt(w, o).0) + multiset(w.extra) == Located(w) + multiset(Attempt(w, o).0.extra)
    ensures Harmless(o) ==> Attempt(w, o).0.extra == w.extra
  {
    var d := Opened(w.dir).0;
    OpenedKeeps(w.dir);
    if Opened(w.dir).1 == None {
      SentConserves(w, d, o);
    }
    hide Opened, Content, Received, Finished, Distinct;
  }

  /** What a batch from a directory whose read file is open adds up to. */
  lemma {:induction false} SentConserves<M>(w: Worker<M>, d: Dir<M>, o: Outcome)
    requires Distinct(d) && multiset(Content(d)) == multiset(Content(w.dir))
    ensures Distinct(Finished(d, o == Done))
    ensures var members := Members(d, d.rName);
      var n := w.(dir := Finished(d, o == Done), peer := w.peer + Batched(members, o),
                  extra := w.extra + Reached(o, Flat(members)));
      && Located(n) + multiset(w.extra) == Located(w) + multiset(n.extra)
      && (Harmless(o) ==> n.extra == w.extra)
  {
    var members, held := Members(d, d.rName), Finished(d, o == Done);
    var got, echo := if o == Done then Flat(members) else [], Reached(o, Flat(members));
    FinishedMoves(d, o == Done);
    ReceivedBatch(w.peer, members, o);
    hide Content, Flat, Received, Members, Batched, Reached, Finished, Distinct;
    MovesOut(Received(w.peer), got, echo, w.extra);
    Moved(multiset(Received(w.peer)), multiset(got), multiset(echo), multiset(Content(held)),
          multiset(Content(w.dir)), multiset(w.lost), multiset(w.extra));
  }

  lemma FinishedMoves<M>(d: Dir<M>, ok: bool)
    requires Distinct(d)
    ensures Distinct(Finished(d, ok))
    ensures multiset(if ok then Flat(Members(d, d.rName)) else []) + multiset(Content(Finished(d, ok)))
         == multiset(Content(d))
  {
    FinishedKeeps(d, ok);
    hide Content, Flat, Finished;
    if ok {
      assert multiset(Flat(Members(d, d.rName)) + Content(Finished(d, true)))
          == multiset(Flat(Members(d, d.rName))) + multiset(Content(Finished(d, true)));
    }
  }

  lemma MovesOut<M>(peer: seq<M>, got: seq<M>, echo: seq<M>, extra: seq<M>)
    ensures multiset((peer + got) + echo) == multiset(peer) + multiset(got) + multiset(echo)
    ensures multiset(extra + echo) == multiset(extra) + multiset(echo)
    ensures echo == [] ==> extra + echo == extra
  {
  }

  lemma Moved<M>(peer: multiset<M>, got: multiset<M>, echo: multiset<M>, held: multiset<M>, was: multiset<M>,
                 lost: multiset<M>, extra: multiset<M>)
    requires got + held == was
    ensures peer + got + echo + held + lost + extra == peer + was + lost + (extra + echo)
  {
  }

  lemma ReceivedBatch<M>(peer: seq<Sent<M, M>>, members: seq<seq<M>>, o: Outcome)
    ensures Received(peer + Batched(members, o))
         == (Received(peer) + (if o == Done then Flat(members) else [])) + Reached(o, Flat(members))
    ensures o == Done ==> Reached(o, Flat(members)) == []
    ensures Harmless(o) ==> Reached(o, Flat(members)) == []
  {
    if o == Failed(0) {
      assert peer + [] == peer;
    } else {
      ReceivedOne(peer, Batched(members, o)[0]);
    }
    hide Received, Flat;
    assert Received(peer) + [] == Received(peer);
    if o == Done {
      assert (Received(peer) + Flat(members)) + [] == Received(peer) + Flat(members);
    }
  }

  /** flushFallbackToCli moves messages from the fallback to the peer and loses none, however its calls
      end; only calls that failed and reached the peer all the same double any. */
  lemma {:induction false} FlushConserves<M>(
    w: Worker<M>, behavior: Behavior, reconnector: bool, first: Outcome, reconnects: bool, second: Outcome)
    requires Sound(w, behavior)
    ensures Sound(Flush(w, reconnector, first, reconnects, second).0, behavior)
    ensures Flush(w, reconnector, first, reconnects, second).0.lost == w.lost
    ensures Located(Flush(w, reconnector, first, reconnects, second).0) + multiset(w.extra)
         == Located(w) + multiset(Flush(w, reconnector, first, reconnects, second).0.extra)
    ensures Harmless(first) && Harmless(second) ==>
              Flush(w, reconnector, first, reconnects, second).0.extra == w.extra
  {
    hide Attempt, Located;
    AttemptConserves(w, behavior, first);
    var w1 := Attempt(w, first).0;
    LocatedSame(w1, w1.(fb := false));
    AttemptConserves(w1, behavior, second);
    var w2 := Attempt(w1, second).0;
    LocatedSame(w2, w2.(fb := false));
    Balance(Located(w), Located(w1), Located(w2), multiset(w.extra), multiset(w1.extra), multiset(w2.extra));
  }

  lemma Balance<M>(l0: multiset<M>, l1: multiset<M>, l2: multiset<M>, e0: multiset<M>, e1: multiset<M>,
                   e2: multiset<M>)
    requires l1 + e0 == l0 + e1 && l2 + e1 == l1 + e2
    ensures l2 + e0 == l0 + e2
  {
    forall m
      ensures (l2 + e0)[m] == (l0 + e2)[m]
    {
      assert (l1 + e0)[m] == (l0 + e1)[m] && (l2 + e1)[m] == (l1 + e2)[m];
    }
  }

  lemma LocatedSame<M>(a: Worker<M>, b: Worker<M>)
    requires a.peer == b.peer && a.dir == b.dir && a.lost == b.lost
    ensures Located(a) == Located(b)
  {
  }

  lemma {:induction false} MaybeSetConserves<M>(w: Worker<M>, behavior: Behavior)
    requires Sound(w, behavior)
    ensures var n := MaybeSetFb(w, behavior);
      Sound(n, behavior) && n.lost == w.lost && n.extra == w.extra && Located(n) == Located(w)
  {
    hide Checked, Content;
    GathersAll(w.dir);
  }

  /** With a fallback and without effects of failed writes, sendToCli appends its message to the stream. */
  lemma SendInOrder<M>(w: Worker<M>, m: M, o: Outcome)
    requires Tidy(w) && Harmless(o)
    ensures Tidy(Send(w, Fallback, m, o))
    ensures Stream(Send(w, Fallback, m, o)) == Stream(w) + [m]
    ensures Regular(w.peer) ==> Regular(Send(w, Fallback, m, o).peer)
  {
    var got, held := Received(w.peer), Content(w.dir);
    WrittenKeeps(w.dir, [m]);
    ReceivedOne(w.peer, Direct(m));
    RegularMore(w.peer, Direct(m));
    hide Content, Flat, Received, Regular, Written;
    Regroup(got, held, [m]);
    assert got + [] == got && (got + [m]) + [] == got + [m];
  }

  /** One successful batch empties the fallback and keeps the stream; the retry is not reached. */
  lemma {:induction false} FlushInOrder<M>(w: Worker<M>, reconnector: bool, reconnects: bool, second: Outcome)
    requires Tidy(w)
    ensures var (n, err) := Flush(w, reconnector, Done, reconnects, second);
      Tidy(n) && !n.fb && err == None && Stream(n) == Stream(w) && (Regular(w.peer) ==> Regular(n.peer))
  {
    if w.fb {
      hide Content, Flat, Regular;
      OpenedKeeps(w.dir);
      assert Opened(w.dir).1 == None;
      var d := Opened(w.dir).0;
      var members := Members(d, d.rName);
      FinishedKeeps(d, true);
      ReceivedOne(w.peer, Batch(members));
      EmptyContent(Finished(d, true));
      RegularMore(w.peer, Batch(members));
      Regroup(Received(w.peer), Flat(members), Content(Finished(d, true)));
    }
  }

  lemma RegularMore<M>(peer: seq<Sent<M, M>>, sent: Sent<M, M>)
    requires !sent.Cut? && (sent.Batch? ==> sent.members != [])
    ensures Regular(peer) ==> Regular(peer + [sent])
  {
  }

  lemma FrontRegular<M>(peer: seq<Sent<M, M>>)
    requires peer != [] && Regular(peer)
    ensures Regular(peer[..|peer| - 1]) && !peer[|peer| - 1].Cut?
    ensures peer[|peer| - 1].Batch? ==> peer[|peer| - 1].members != []
  {
  }

  lemma EmptyContent<M>(d: Dir<M>)
    requires Distinct(d) && Members(d, d.rName) == [] && Members(d, d.wName) == [] && d.open == []
    ensures Content(d) == []
  {
  }

  lemma ChecksEmpty<M>(d: Dir<M>)
    requires Distinct(d) && !Checked(d).1
    ensures Content(Checked(d).0) == [] && Members(Checked(d).0, Checked(d).0.wName) == []
  {
  }

  /** Whether a reader finds its file. */
  predicate Present<M>(w: Worker<M>) {
    w.dir.writing || w.dir.wName in w.dir.files
  }

  lemma {:induction false} AttemptEnds<M>(w: Worker<M>, o: Outcome)
    ensures Attempt(w, o).1 == None <==> o == Done && Present(w)
  {
  }

  /** A flush ends the fallback mode exactly if its first batch succeeds, the client cannot reconnect, or it
      does and its second batch succeeds; it reports no error exactly if the last batch it tried succeeded, and
      the file it tried that on was there. */
  lemma {:induction false} FlushOutcome<M>(w: Worker<M>, reconnector: bool, first: Outcome, reconnects: bool,
                                           second: Outcome)
    requires Distinct(w.dir) && w.fb
    ensures var (n, err) := Flush(w, reconnector, first, reconnects, second);
      var once := first == Done && Present(w);
      var twice := reconnector && reconnects && second == Done && w.dir.rName in w.dir.files;
      && (n.fb <==> !once && reconnector && !twice)
      && (err == None <==> once || twice)
  {
    var w1 := Attempt(w, first).0;
    AttemptEnds(w, first);
    AttemptEnds(w1, second);
    if !(first == Done && Present(w)) {
      PresentBehind(w, first);
    }
    AttemptKeepsFb(w, first);
    AttemptKeepsFb(w1, second);
    hide Attempt, Present;
  }

  lemma AttemptKeepsFb<M>(w: Worker<M>, o: Outcome)
    ensures Attempt(w, o).0.fb == w.fb
  {
    hide Opened, Finished;
  }

  /** Behind an attempt that failed the next one reads the other file. */
  lemma {:induction false} PresentBehind<M>(w: Worker<M>, o: Outcome)
    requires Distinct(w.dir) && !(o == Done && Present(w))
    ensures Present(Attempt(w, o).0) <==> w.dir.rName in w.dir.files
  {
  }

  /** What a flush that ends the fallback mode leaves in the files: the other file when the first batch
      succeeded; everything when it failed and the client cannot reconnect; and what the first batch had held
      when the retry, which reads the other file, succeeded. */
  lemma {:induction false} FlushLeaves<M>(w: Worker<M>, reconnector: bool, first: Outcome, reconnects: bool,
                                          second: Outcome)
    requires Distinct(w.dir) && w.fb && !Flush(w, reconnector, first, reconnects, second).0.fb
    ensures Content(Flush(w, reconnector, first, reconnects, second).0.dir)
         == if first == Done && Present(w) then Older(w.dir)
            else if reconnector then Newer(w.dir)
            else Newer(w.dir) + Older(w.dir)
  {
    var w1 := Attempt(w, first).0;
    AttemptLeaves(w, first);
    AttemptEnds(w, first);
    AttemptLeaves(w1, second);
    hide Attempt, Content, Older, Newer, Present;
  }

  lemma {:induction false} AttemptLeaves<M>(w: Worker<M>, o: Outcome)
    requires Distinct(w.dir)
    ensures var (n, err) := Attempt(w, o);
      && Distinct(n.dir) && n.fb == w.fb
      && (err == None ==> Content(n.dir) == Older(w.dir))
      && (err != None ==> Content(n.dir) == Newer(w.dir) + Older(w.dir))
      && (err != None ==> Older(n.dir) == Newer(w.dir) && Newer(n.dir) == Older(w.dir))
  {
    SwitchedKeeps(w.dir);
    var s := Switched(w.dir);
    HoldsContent(s, Newer(w.dir), Older(w.dir));
    hide Switched, Flat;
    assert Older(w.dir) + [] == Older(w.dir) && [] + Older(w.dir) == Older(w.dir);
  }

  /** A flush that ends the fallback mode has emptied the fallback exactly in these cases. */
  lemma {:induction false} FlushEmpties<M>(w: Worker<M>, reconnector: bool, first: Outcome, reconnects: bool,
                                           second: Outcome)
    requires Distinct(w.dir) && w.fb && !Flush(w, reconnector, first, reconnects, second).0.fb
    ensures Content(Flush(w, reconnector, first, reconnects, second).0.dir) == []
       <==> if first == Done && Present(w) then Older(w.dir) == []
            else Newer(w.dir) == [] && (reconnector || Older(w.dir) == [])
  {
    hide Flush, Content, Older, Newer, Present;
    FlushLeaves(w, reconnector, first, reconnects, second);
  }

  /** A worker that holds everything in its write file, as one that has just started does, empties the
      fallback exactly if its first batch succeeds. */
  lemma {:induction false} TidyFlushEmpties<M>(w: Worker<M>, reconnector: bool, first: Outcome, reconnects: bool,
                                               second: Outcome)
    requires Tidy(w) && w.fb && Content(w.dir) != []
    ensures var n := Flush(w, reconnector, first, reconnects, second).0;
      !n.fb ==> (Content(n.dir) == [] <==> first == Done)
  {
    assert Present(w) && Older(w.dir) == [] && Content(w.dir) == [] + Newer(w.dir);
    hide Flush, Content, Older, Newer, Present;
    if !Flush(w, reconnector, first, reconnects, second).0.fb {
      FlushEmpties(w, reconnector, first, reconnects, second);
    }
  }

  /** The worker behind a first failed write and a flush whose batch and reconnect fail. */
  function Stuck<M>(m: M): Worker<M> {
    var start := Worker(false, NewDir(map[]), [], [], []);
    Flush(Send(start, Fallback, m, Failed(0)), true, Failed(0), false, Done).0
  }

  lemma {:induction false} StuckIs<M>(m: M)
    ensures Stuck(m) == Worker(true, Dir(Pong, Ping, map[Pong := [[m]]], false, false, []), [], [], [])
  {
    var start: Worker<M> := Worker(false, NewDir(map[]), [], [], []);
    var none: seq<seq<M>> := [];
    var d := Dir(Ping, Pong, map[Pong := none], false, true, [m]);
    var w := Worker(true, d, [], [], []);
    assert Send(start, Fallback, m, Failed(0)) == w;
    assert none + [[m]] == [[m]];
    assert DirBuffers.Closed(d).files == map[Pong := [[m]]];
  }

  /** An input for the first case: one more message, then a batch that succeeds. The flush ends the fallback
      mode and leaves the first message in the other file. */
  lemma {:induction false} SuccessLeaves<M>(a: M, b: M, o: Outcome, reconnects: bool, second: Outcome)
    ensures var n := Flush(Send(Stuck(a), Fallback, b, o), true, Done, reconnects, second).0;
      !n.fb && Content(n.dir) == [a]
  {
    StuckIs(a);
    var none: seq<seq<M>> := [];
    var w := Send(Stuck(a), Fallback, b, o);
    assert w == Worker(true, Dir(Pong, Ping, map[Pong := [[a]], Ping := none], false, true, [b]), [], [], []);
    FlushLeaves(w, true, Done, reconnects, second);
    FlatOne([a]);
  }

  /** An input for the second: the write file does not exist, so the first reader fails, whatever its batch
      would have come to, and the retry delivers everything. */
  lemma {:induction false} RetryEmpties<M>(a: M, first: Outcome)
    ensures var n := Flush(Stuck(a), true, first, true, Done).0;
      !n.fb && Content(n.dir) == [] && Received(n.peer) == [a]
  {
    StuckIs(a);
    var w := Stuck(a);
    assert Opened(w.dir) == (Dir(Ping, Pong, map[Pong := [[a]]], false, false, []), Some(NotExist));
    var w1 := Attempt(w, first).0;
    assert Opened(w1.dir) == (Dir(Pong, Ping, map[Pong := [[a]]], true, false, []), None);
    FlatOne([a]);
    FlatNone<M>();
    ReceivedOne([], Batch([[a]]));
    assert [] + [Sent<M, M>.Batch([[a]])] == [Batch([[a]])] && [] + [a] == [a];
    FlushLeaves(w, true, first, true, Done);
  }

  /** A new start over any two files, followed by one successful batch, delivers all of them. */
  lemma {:induction false} RestartDelivers<M>(files: map<Name, seq<seq<M>>>, peer: seq<Sent<M, M>>, reconnector: bool,
                           reconnects: bool, second: Outcome)
    ensures var w := MaybeSetFb(Worker(false, NewDir(files), peer, [], []), Fallback);
      var (n, err) := Flush(w, reconnector, Done, reconnects, second);
      && !n.fb && err == None && Content(n.dir) == []
      && Received(n.peer) == Received(peer) + (Flat(Members(NewDir(files), Pong)) + Flat(Members(NewDir(files), Ping)))
  {
    hide Checked, Content, Flat, Flush, Received;
    var d := NewDir(files);
    CheckedGathers(d);
    ChecksEmptyAny(d);
    var all := Flat(Members(d, Pong)) + Flat(Members(d, Ping));
    assert Flat(Members(d, Pong)) + [] == Flat(Members(d, Pong));
    HoldsContent(Checked(d).0, [], all);
    assert [] + all == all;
    var w := MaybeSetFb(Worker(false, d, peer, [], []), Fallback);
    FlushInOrder(w, reconnector, reconnects, second);
    assert Received(Flush(w, reconnector, Done, reconnects, second).0.peer) + []
        == Received(Flush(w, reconnector, Done, reconnects, second).0.peer);
  }

  lemma ChecksEmptyAny<M>(d: Dir<M>)
    requires Distinct(d)
    ensures !Checked(d).1 ==> Content(Checked(d).0) == [] && Members(Checked(d).0, Checked(d).0.wName) == []
  {
    if !Checked(d).1 {
      ChecksEmpty(d);
    }
  }
}
