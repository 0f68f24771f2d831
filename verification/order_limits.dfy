/** When the order of messages is kept, and when a batch is empty: exact conditions on what a caller can see
    before the call. */
module OrderLimits {
  import opened Results
  import opened DirBuffers
  import opened Workers
  import opened Pipelines
  import opened Deliveries

  /** Two sequences without a common element commute only if one of them is empty. */
  lemma CommuteExact<T>(a: seq<T>, b: seq<T>)
    requires forall x :: x in a ==> x !in b
    ensures a + b == b + a <==> a == [] || b == []
  {
    if a == [] || b == [] {
      SameEitherWay(a, b);
      SameEitherWay(b, a);
    } else {
      assert (a + b)[0] == a[0] && (b + a)[0] == b[0];
      assert a[0] in a && b[0] in b;
    }
  }

  lemma SameFront<T>(a: seq<T>, b: seq<T>, c: seq<T>)
    ensures a + b == a + c <==> b == c
  {
    assert (a + b)[|a|..] == b && (a + c)[|a|..] == c;
  }

  // The fallback

  lemma Parts<T>(d: Dir<T>)
    ensures Content(d) == Older(d) + Newer(d)
  {
  }

  /** The files change places. */
  lemma Rotates<T>(d: Dir<T>)
    requires Distinct(d)
    ensures Content(Switched(d)) == Newer(d) + Older(d) && Distinct(Switched(d))
    ensures Older(Switched(d)) == Newer(d) && Newer(Switched(d)) == Older(d)
  {
    SwitchedKeeps(d);
    hide Switched, Flat;
    assert Older(d) + [] == Older(d);
    HoldsContent(Switched(d), Newer(d), Older(d));
  }

  /** A new start arranges pong before ping. */
  lemma ReopensArranged<T>(d: Dir<T>)
    requires Distinct(d)
    ensures Content(Reopened(d)) == if d.rName == Ping then Newer(d) + Older(d) else Older(d) + Newer(d)
  {
    hide Checked, DirBuffers.Closed, Content, Flat;
    ClosedKeeps(d);
    var n := NewDir(DirBuffers.Closed(d).files);
    CheckedGathers(n);
    var c := DirBuffers.Closed(d);
    assert Members(n, Ping) == Members(c, Ping) && Members(n, Pong) == Members(c, Pong);
    var all := Flat(Members(n, Pong)) + Flat(Members(n, Ping));
    assert Flat(Members(n, Pong)) + [] == Flat(Members(n, Pong));
    HoldsContent(Reopened(d), [], all);
    assert [] + all == all;
  }

  /** Whether an operation exchanges what the files hold. */
  predicate Exchanges<T>(u: Use<T>, op: Op<T>) {
    !u.inFlight && (op.Begin? || (op.Reopen? && u.dir.rName == Ping))
  }

  /** An operation keeps the order of what has been delivered and is held, up to what it writes, if and only
      if it does not exchange the files or their contents commute. */
  lemma DoOrderExact<T>(u: Use<T>, op: Op<T>)
    requires Distinct(u.dir)
    ensures var n := Do(u, op);
      n.delivered + Content(n.dir) == u.delivered + Content(u.dir) + (if op.Put? then op.p else [])
      <==> (Exchanges(u, op) ==> Newer(u.dir) + Older(u.dir) == Older(u.dir) + Newer(u.dir))
  {
    hide Written, Switched, Reopened, Content, Flat, Older, Newer;
    var all := u.delivered + Content(u.dir);
    assert all + [] == all;
    Parts(u.dir);
    SameFront(u.delivered, Newer(u.dir) + Older(u.dir), Content(u.dir));
    match op
    case Put(p) =>
      WrittenKeeps(u.dir, p);
      Regroup(u.delivered, Content(u.dir), p);
    case Begin =>
      Rotates(u.dir);
      if !u.inFlight {
        OpenedContent(u.dir);
      }
    case End(ok) =>
      FinishedKeeps(u.dir, ok);
      if u.inFlight && ok {
        Regroup(u.delivered, Flat(Members(u.dir, u.dir.rName)), Content(Finished(u.dir, true)));
      }
    case Reopen =>
      ReopensArranged(u.dir);
  }

  lemma OpenedContent<T>(d: Dir<T>)
    ensures Content(Opened(d).0) == Content(Switched(d))
  {
  }

  // The worker

  /** Whether a flush comes to its second batch. */
  predicate Retries<M>(w: Worker<M>, reconnector: bool, first: Outcome, reconnects: bool) {
    (first != Done || !Present(w)) && reconnector && reconnects
  }

  /** The cases in which sendToCli keeps the order: it writes to the fallback and nothing has reached the peer,
      or it writes to the peer and what the fallback holds commutes with the message. */
  predicate SendKeeps<M(==)>(w: Worker<M>, m: M, o: Outcome) {
    w.fb || o == Failed(0) || (o == Done && [m] + Content(w.dir) == Content(w.dir) + [m])
  }

  lemma {:induction false} SendOrderExact<M>(w: Worker<M>, m: M, o: Outcome)
    requires Distinct(w.dir)
    ensures Stream(Send(w, Fallback, m, o)) == Stream(w) + [m] <==> SendKeeps(w, m, o)
  {
    var held, got := Content(w.dir), Received(w.peer);
    WrittenKeeps(w.dir, [m]);
    hide Content, Received, Written;
    ReceivedOne(w.peer, Direct(m));
    Regroup(got, held, [m]);
    Regroup(got, [m], held);
    SameFront(got, [m] + held, held + [m]);
    if !w.fb && !Harmless(o) {
      assert |Stream(Send(w, Fallback, m, o))| == |got| + 1 + |held| + 1;
    }
  }

  /** The cases in which a flush keeps the order: the messages of a batch that failed and reached the peer are
      none, and its single reader, if there is no second, finds files whose contents commute. */
  predicate FlushKeeps<M(==)>(w: Worker<M>, reconnector: bool, first: Outcome, reconnects: bool, second: Outcome) {
    w.fb ==>
      var older, newer := Older(w.dir), Newer(w.dir);
      && (Present(w) ==> Reached(first, newer) == [])
      && if Retries(w, reconnector, first, reconnects) then
           w.dir.rName in w.dir.files ==> Reached(second, older) == []
         else newer + older == older + newer
  }

  /** What the peer has received twice behind an attempt. */
  function Echo<M>(w: Worker<M>, o: Outcome): seq<M> {
    if Present(w) then Reached(o, Newer(w.dir)) else []
  }

  /** What one attempt does to the stream: the files' contents change places, and a batch that failed and
      reached the peer stands in it twice. */
  lemma {:induction false} AttemptStream<M>(w: Worker<M>, o: Outcome)
    requires Distinct(w.dir)
    ensures var (n, err) := Attempt(w, o);
      && Distinct(n.dir) && n.fb == w.fb && (err == None <==> o == Done && Present(w))
      && Stream(n) == Received(w.peer) + Echo(w, o) + (Newer(w.dir) + Older(w.dir))
      && (err != None ==> Received(n.peer) == Received(w.peer) + Echo(w, o))
      && (err != None ==> Older(n.dir) == Newer(w.dir) && Newer(n.dir) == Older(w.dir))
      && (err != None ==> (Present(n) <==> w.dir.rName in w.dir.files))
  {
    var d := Opened(w.dir).0;
    var got, members := Received(w.peer), Members(d, d.rName);
    OpenedParts(w);
    assert Flat(members) == Older(d);
    hide Flat, Content, Received, Switched, Opened, Older, Newer, Members, Batched, Reached;
    ReceivedBatch(w.peer, members, o);
    FinishedStays(d);
    assert got + [] == got;
    if Present(w) && o == Done {
      FinishedTakes(d);
      Regroup(got, Older(d), Content(Finished(d, true)));
    }
    hide Finished, Distinct;
  }

  lemma {:induction false} OpenedParts<M>(w: Worker<M>)
    requires Distinct(w.dir)
    ensures var (d, err) := Opened(w.dir);
      && Distinct(d) && !d.writing && (err == None <==> Present(w))
      && Content(d) == Newer(w.dir) + Older(w.dir) && Older(d) == Newer(w.dir) && Newer(d) == Older(w.dir)
      && (d.wName in d.files <==> w.dir.rName in w.dir.files)
  {
    Rotates(w.dir);
    hide Flat;
  }

  lemma FinishedTakes<T>(d: Dir<T>)
    requires Distinct(d)
    ensures Older(d) + Content(Finished(d, true)) == Content(d)
  {
    FinishedKeeps(d, true);
  }

  lemma FinishedStays<T>(d: Dir<T>)
    requires Distinct(d)
    ensures Distinct(Finished(d, true)) && Distinct(Finished(d, false))
    ensures Content(Finished(d, false)) == Content(d) && Finished(d, false) == d.(reading := false)
    ensures Older(Finished(d, false)) == Older(d) && Newer(Finished(d, false)) == Newer(d)
  {
  }

  lemma {:induction false} OnceKeeps<M>(w: Worker<M>, o: Outcome)
    requires Distinct(w.dir)
    ensures var older, newer := Older(w.dir), Newer(w.dir);
      Stream(Attempt(w, o).0) == Stream(w) <==> Echo(w, o) == [] && newer + older == older + newer
  {
    AttemptStream(w, o);
    Parts(w.dir);
    hide Attempt, Content, Received, Older, Newer, Echo;
    Echoed(Received(w.peer), Echo(w, o), Newer(w.dir) + Older(w.dir), Older(w.dir) + Newer(w.dir));
  }

  lemma {:induction false} TwiceKeeps<M>(w: Worker<M>, first: Outcome, second: Outcome)
    requires Distinct(w.dir) && Attempt(w, first).1 != None
    ensures Stream(Attempt(Attempt(w, first).0, second).0) == Stream(w)
       <==> Echo(w, first) == [] && (w.dir.rName in w.dir.files ==> Reached(second, Older(w.dir)) == [])
  {
    var w1 := Attempt(w, first).0;
    AttemptStream(w, first);
    AttemptStream(w1, second);
    Parts(w.dir);
    assert Echo(w1, second) == if w.dir.rName in w.dir.files then Reached(second, Older(w.dir)) else [];
    hide Attempt, Content, Received, Older, Newer, Echo;
    Echoes(Received(w.peer), Echo(w, first), Echo(w1, second), Older(w.dir) + Newer(w.dir));
  }

  /** A flush, however its calls end, keeps what the peer has and will have exactly in those cases. */
  lemma {:induction false} FlushOrderExact<M>(w: Worker<M>, reconnector: bool, first: Outcome, reconnects: bool,
                                              second: Outcome)
    requires Distinct(w.dir)
    ensures Stream(Flush(w, reconnector, first, reconnects, second).0) == Stream(w)
       <==> FlushKeeps(w, reconnector, first, reconnects, second)
  {
    if w.fb {
      var (w1, err1) := Attempt(w, first);
      AttemptEnds(w, first);
      OnceKeeps(w, first);
      if err1 != None {
        TwiceKeeps(w, first, second);
      }
      StreamOf(w1);
      StreamOf(Attempt(w1, second).0);
      FlushEnds(w, reconnector, first, reconnects, second);
      hide Stream, Attempt, Flush, Content, Received, Older, Newer;
    }
  }

  /** A flush is one attempt or two, and the end of the fallback mode or not. */
  lemma {:induction false} FlushEnds<M>(w: Worker<M>, reconnector: bool, first: Outcome, reconnects: bool,
                                        second: Outcome)
    requires w.fb
    ensures var n := Flush(w, reconnector, first, reconnects, second).0;
      var w1 := Attempt(w, first).0;
      var last := if Retries(w, reconnector, first, reconnects) then Attempt(w1, second).0 else w1;
      n == last || n == last.(fb := false)
  {
    AttemptEnds(w, first);
    hide Attempt, Present;
  }

  lemma StreamOf<M>(w: Worker<M>)
    ensures Stream(w.(fb := false)) == Stream(w)
  {
  }

  lemma Echoes<T>(got: seq<T>, a: seq<T>, b: seq<T>, rest: seq<T>)
    ensures (got + a) + b + rest == got + rest <==> a == [] && b == []
  {
    if a == [] && b == [] {
      assert (got + a) + b == got;
    } else {
      assert |(got + a) + b + rest| == |got + rest| + |a| + |b|;
    }
  }

  lemma Echoed<T>(got: seq<T>, a: seq<T>, all: seq<T>, was: seq<T>)
    requires |all| == |was|
    ensures got + a + all == got + was <==> a == [] && all == was
  {
    if a == [] {
      assert got + a == got;
      SameFront(got, all, was);
    } else {
      assert |got + a + all| == |got + was| + |a|;
    }
  }

  // Whole runs

  /** What the peer has, then what the fallback holds, then what is in hand is, at this moment, what the first
      start found and everything taken, in order. */
  ghost predicate Kept<M>(s: Sys<M>, found: seq<M>) {
    if s.pc.Starting? then Received(s.worker.peer) + Arranged(s.worker.dir) == found + Taken(s)
    else Stream(s.worker) + Hand(s.pc) == found + Taken(s)
  }

  /** What every state of a run is like, however the client's calls end. */
  ghost predicate Steady<M>(s: Sys<M>) {
    && Distinct(s.worker.dir) && FilesClosed(s)
    && (s.pc.Starting? ==> !s.worker.dir.writing && !s.worker.fb)
  }

  /** The condition under which an action keeps the order, on the state before it. */
  predicate Keeps<M(==)>(cfg: Config, s: Sys<M>, a: Action<M>)
    requires Enabled(cfg, s, a)
  {
    match a
    case Init(calls) =>
      FlushKeeps(MaybeSetFb(s.worker, Fallback), cfg.reconnector, calls.first, calls.reconnects, calls.second)
    case Tick(calls) => FlushKeeps(s.worker, cfg.reconnector, calls.first, calls.reconnects, calls.second)
    case Deliver(o) => SendKeeps(s.worker, s.pc.buf.m, o)
    case Restart =>
      var d := s.worker.dir;
      d.rName == Ping ==> Newer(d) + Older(d) == Older(d) + Newer(d)
    case _ => true
  }

  lemma {:induction false} StepSteady<M>(cfg: Config, s: Sys<M>, a: Action<M>)
    requires Steady(s) && Enabled(cfg, s, a) && cfg.behavior == Fallback
    ensures Steady(Step(cfg, s, a))
  {
    hide FilesClosed, Send, Flushed, MaybeSetFb, TryQueue, Enqueue, Take, Restarted;
    hide DirBuffers.Closed, Content, Distinct;
    StepFilesClosed(cfg, s, a);
    ClosedDistinct(s.worker.dir);
    match a
    case Init(calls) => FlushDistinct(cfg, s.worker, calls);
    case Tick(calls) => FlushDistinct(cfg, s.worker, calls);
    case Deliver(o) => SendDistinct(s.worker, s.pc.buf.m, o);
    case Queue(p, m) => TryQueueOnly(cfg, s, p, Buf(s.prods[p].id, m));
    case Unblock(p) => EnqueueOnly(s, p, s.prods[p].buf);
    case Poll => if s.queue != [] { TakeKeepsWorker(s, false); }
    case Receive => TakeKeepsWorker(s, false);
    case Drain => if s.queue != [] { TakeKeepsWorker(s, true); }
    case Restart => RestartSteady(s);
    case _ =>
  }

  lemma {:induction false} FlushDistinct<M>(cfg: Config, w: Worker<M>, calls: Calls)
    requires Distinct(w.dir)
    ensures Distinct(Flushed(cfg, w, calls).dir)
    ensures Distinct(MaybeSetFb(w, cfg.behavior).dir)
    ensures Distinct(Flushed(cfg, MaybeSetFb(w, cfg.behavior), calls).dir)
  {
    hide Content, Located, Flush, MaybeSetFb, Attempt, Checked;
    CheckedDistinct(w, cfg.behavior);
    FlushKeepsDistinct(w, cfg.reconnector, calls.first, calls.reconnects, calls.second);
    FlushKeepsDistinct(MaybeSetFb(w, cfg.behavior), cfg.reconnector, calls.first, calls.reconnects, calls.second);
  }

  lemma CheckedDistinct<M>(w: Worker<M>, behavior: Behavior)
    requires Distinct(w.dir)
    ensures Distinct(MaybeSetFb(w, behavior).dir)
  {
    hide Checked, Content;
    GathersAll(w.dir);
  }

  lemma FlushKeepsDistinct<M>(w: Worker<M>, reconnector: bool, first: Outcome, reconnects: bool, second: Outcome)
    requires Distinct(w.dir)
    ensures Distinct(Flush(w, reconnector, first, reconnects, second).0.dir)
  {
    hide Attempt, Content, Distinct;
    AttemptStream(w, first);
    AttemptStream(Attempt(w, first).0, second);
  }

  lemma SendDistinct<M>(w: Worker<M>, m: M, o: Outcome)
    requires Distinct(w.dir)
    ensures Distinct(Send(w, Fallback, m, o).dir)
  {
    WrittenKeeps(w.dir, [m]);
    hide Content, Written;
  }

  lemma TakeKeepsWorker<M>(s: Sys<M>, draining: bool)
    requires s.queue != []
    ensures Take(s, draining).worker == s.worker && Take(s, draining).pc.Sending?
  {
  }

  lemma RestartSteady<M>(s: Sys<M>)
    ensures Distinct(Restarted(s).worker.dir) && Restarted(s).pc.Starting?
    ensures !Restarted(s).worker.dir.writing && !Restarted(s).worker.fb
  {
  }

  /** From a moment at which the order is kept, an action keeps it if and only if its condition holds. */
  lemma {:induction false} StepOrderExact<M>(cfg: Config, s: Sys<M>, a: Action<M>, found: seq<M>)
    requires Kept(s, found) && Steady(s) && Enabled(cfg, s, a) && cfg.behavior == Fallback
    ensures Kept(Step(cfg, s, a), found) <==> Keeps(cfg, s, a)
  {
    hide Flushed, Send, MaybeSetFb, TryQueue, Enqueue, Take, DirBuffers.Closed, Restarted, Distinct, FilesClosed;
    hide Kept, Stream, FlushKeeps, SendKeeps, Older, Newer, Received;
    var n := Step(cfg, s, a);
    match a
    case Init(calls) => InitKeeps(cfg, s, calls, found);
    case Tick(calls) => TickKeeps(cfg, s, calls, found);
    case Deliver(o) => DeliverKeeps(cfg, s, o, found);
    case Restart => RestartKeeps(s, found);
    case CloseFallback => CloseKeeps(s, n, found);
    case Queue(p, m) =>
      TryQueueOnly(cfg, s, p, Buf(s.prods[p].id, m));
      SameKept(s, n, found);
    case Unblock(p) =>
      EnqueueOnly(s, p, s.prods[p].buf);
      SameKept(s, n, found);
    case Poll => if s.queue != [] { TakeKeeps(s, false, found); } else { SameKept(s, n, found); }
    case Receive => TakeKeeps(s, false, found);
    case Drain => if s.queue != [] { TakeKeeps(s, true, found); } else { SameKept(s, n, found); }
    case _ => SameKept(s, n, found);
  }

  lemma SameKept<M>(s: Sys<M>, n: Sys<M>, found: seq<M>)
    requires Kept(s, found) && n.worker == s.worker && n.past == s.past && n.dequeued == s.dequeued
    requires Hand(n.pc) == Hand(s.pc) && n.pc.Starting? == s.pc.Starting?
    ensures Kept(n, found)
  {
  }

  lemma {:induction false} InitKeeps<M>(cfg: Config, s: Sys<M>, calls: Calls, found: seq<M>)
    requires Kept(s, found) && Steady(s) && s.pc.Starting? && cfg.behavior == Fallback
    ensures Kept(Step(cfg, s, Init(calls)), found) <==> Keeps(cfg, s, Init(calls))
  {
    hide Step, Stream, Flush, MaybeSetFb, FlushKeeps, Received, Tidy, Arranged, Taken, Distinct;
    var w := MaybeSetFb(s.worker, Fallback);
    CheckedDistinct(s.worker, Fallback);
    SetsArranged(s.worker);
    FlushOrderExact(w, cfg.reconnector, calls.first, calls.reconnects, calls.second);
    InitState(cfg, s, calls);
    NoneBehind(Stream(Flushed(cfg, w, calls)));
  }

  lemma {:induction false} TickKeeps<M>(cfg: Config, s: Sys<M>, calls: Calls, found: seq<M>)
    requires Kept(s, found) && Steady(s) && s.pc.Selecting?
    ensures Kept(Step(cfg, s, Tick(calls)), found) <==> Keeps(cfg, s, Tick(calls))
  {
    FlushOrderExact(s.worker, cfg.reconnector, calls.first, calls.reconnects, calls.second);
    TickState(cfg, s, calls);
    NoneBehind(Stream(s.worker));
    NoneBehind(Stream(Flushed(cfg, s.worker, calls)));
    hide Step, Stream, Flush, FlushKeeps, Received, Steady, Taken;
  }

  lemma NoneBehind<T>(a: seq<T>)
    ensures a + [] == a
  {
  }

  lemma {:induction false} TickState<M>(cfg: Config, s: Sys<M>, calls: Calls)
    requires s.pc.Selecting?
    ensures var n := Step(cfg, s, Tick(calls));
      n.worker == Flushed(cfg, s.worker, calls) && Taken(n) == Taken(s) && n.pc.Polling?
  {
    hide Flushed;
  }

  lemma {:induction false} InitState<M>(cfg: Config, s: Sys<M>, calls: Calls)
    requires s.pc.Starting? && cfg.behavior == Fallback
    ensures var n := Step(cfg, s, Init(calls));
      n.worker == Flushed(cfg, MaybeSetFb(s.worker, Fallback), calls) && Taken(n) == Taken(s) && n.pc.Polling?
  {
    hide Flushed, MaybeSetFb;
  }

  lemma {:induction false} DeliverKeeps<M>(cfg: Config, s: Sys<M>, o: Outcome, found: seq<M>)
    requires Kept(s, found) && Steady(s) && s.pc.Sending? && cfg.behavior == Fallback
    ensures Kept(Step(cfg, s, Deliver(o)), found) <==> Keeps(cfg, s, Deliver(o))
  {
    SendOrderExact(s.worker, s.pc.buf.m, o);
    DeliverState(cfg, s, o);
    NoneBehind(Stream(Step(cfg, s, Deliver(o)).worker));
    hide Step, Stream, Send, SendKeeps, Received, Steady, Taken;
  }

  lemma {:induction false} DeliverState<M>(cfg: Config, s: Sys<M>, o: Outcome)
    requires s.pc.Sending? && cfg.behavior == Fallback
    ensures var n := Step(cfg, s, Deliver(o));
      && n.worker == Send(s.worker, Fallback, s.pc.buf.m, o) && Taken(n) == Taken(s)
      && (n.pc.Draining? || n.pc.Polling?)
  {
    hide Send;
  }

  lemma {:induction false} RestartKeeps<M>(s: Sys<M>, found: seq<M>)
    requires Kept(s, found) && Steady(s) && s.closer == Closer.Closed
    ensures var d := s.worker.dir;
      Kept(Restarted(s), found) <==> (d.rName == Ping ==> Newer(d) + Older(d) == Older(d) + Newer(d))
  {
    var d, got := s.worker.dir, Received(s.worker.peer);
    var n := NewDir(d.files);
    assert Members(n, Ping) == Members(d, Ping) && Members(n, Pong) == Members(d, Pong);
    Parts(d);
    hide Received, Content, Flat;
    assert Flat(Members(d, d.wName)) + [] == Flat(Members(d, d.wName));
    assert Arranged(n) == if d.rName == Ping then Newer(d) + Older(d) else Older(d) + Newer(d);
    hide Older, Newer, Arranged;
    SameFront(got, Arranged(n), Content(d));
    assert Stream(s.worker) + [] == Stream(s.worker) && Taken(s) + [] == Taken(s);
  }

  lemma {:induction false} CloseKeeps<M>(s: Sys<M>, n: Sys<M>, found: seq<M>)
    requires Kept(s, found) && Steady(s) && s.pc.Exited? && n.pc.Exited? && Taken(n) == Taken(s)
    requires n.worker == s.worker.(dir := DirBuffers.Closed(s.worker.dir))
    ensures Kept(n, found)
  {
    ClosedKeeps(s.worker.dir);
    hide Received, Content, DirBuffers.Closed;
  }

  lemma {:induction false} TakeKeeps<M>(s: Sys<M>, draining: bool, found: seq<M>)
    requires Kept(s, found) && s.queue != [] && !s.pc.Sending? && !s.pc.Starting?
    ensures Kept(Take(s, draining), found)
  {
    hide Stream;
    var m := s.queue[0].m;
    assert Stream(s.worker) + [] == Stream(s.worker);
    Regroup(s.past, s.dequeued, [m]);
    Regroup(found, Taken(s), [m]);
  }

  function After<M(==)>(cfg: Config, s: Sys<M>, a: Action<M>): Sys<M> {
    if Enabled(cfg, s, a) then Step(cfg, s, a) else s
  }

  /** The order is kept at every moment of a run. */
  ghost predicate AlwaysKept<M>(cfg: Config, s: Sys<M>, actions: seq<Action<M>>, found: seq<M>)
    decreases actions
  {
    Kept(s, found) && (actions != [] ==> AlwaysKept(cfg, After(cfg, s, actions[0]), actions[1..], found))
  }

  /** Every action of a run meets its condition when its turn comes. */
  predicate AllKeep<M(==)>(cfg: Config, s: Sys<M>, actions: seq<Action<M>>)
    decreases actions
  {
    actions != [] ==>
      && (Enabled(cfg, s, actions[0]) ==> Keeps(cfg, s, actions[0]))
      && AllKeep(cfg, After(cfg, s, actions[0]), actions[1..])
  }

  /** Exactly when the order is kept. In any run of a fallback instance, whatever the client's calls do, the
      peer's messages, the fallback and the hand are at every moment the dequeue order if and only if every
      call meets its condition. */
  lemma {:induction false} RunOrderExact<M>(cfg: Config, s: Sys<M>, actions: seq<Action<M>>, found: seq<M>)
    requires Kept(s, found) && Steady(s) && cfg.behavior == Fallback
    ensures AlwaysKept(cfg, s, actions, found) <==> AllKeep(cfg, s, actions)
    decreases actions
  {
    hide Kept, Steady, Keeps, Step, Enabled;
    if actions != [] {
      if Enabled(cfg, s, actions[0]) {
        StepOrderExact(cfg, s, actions[0], found);
        StepSteady(cfg, s, actions[0]);
      }
      if Kept(After(cfg, s, actions[0]), found) {
        RunOrderExact(cfg, After(cfg, s, actions[0]), actions[1..], found);
      }
    }
  }

  /** The same from a first start over any two files. */
  lemma {:induction false} OrderExact<M>(cfg: Config, producers: nat, files: map<Name, seq<seq<M>>>,
                                         actions: seq<Action<M>>)
    requires cfg.behavior == Fallback
    ensures AlwaysKept(cfg, First(producers, files), actions, Arranged(NewDir(files)))
       <==> AllKeep(cfg, First(producers, files), actions)
  {
    hide AlwaysKept, AllKeep;
    var s, found := First(producers, files), Arranged(NewDir(files));
    FirstStates(cfg, producers, files);
    RunOrderExact(cfg, s, actions, found);
  }

  // Empty batches

  /** Whether an attempt sends the batch of an empty file. */
  predicate SendsEmpty<M(==)>(w: Worker<M>, o: Outcome) {
    o != Failed(0) && !w.dir.writing && w.dir.wName in w.dir.files && w.dir.files[w.dir.wName] == []
  }

  /** Whether the retry does. */
  predicate RetriesEmpty<M(==)>(w: Worker<M>, reconnector: bool, first: Outcome, reconnects: bool, second: Outcome) {
    && Retries(w, reconnector, first, reconnects) && second != Failed(0)
    && w.dir.rName in w.dir.files && w.dir.files[w.dir.rName] == []
  }

  lemma {:induction false} AttemptFillsExact<M>(w: Worker<M>, o: Outcome)
    requires Distinct(w.dir) && Filled(w.peer)
    ensures Filled(Attempt(w, o).0.peer) <==> !SendsEmpty(w, o)
  {
    var d := Opened(w.dir).0;
    assert w.dir.writing ==> Members(d, d.rName) != [];
    hide Filled, Content;
    FilledBatched(w.peer, Members(d, d.rName), o);
  }

  lemma FilledBatched<M>(peer: seq<Sent<M, M>>, members: seq<seq<M>>, o: Outcome)
    requires Filled(peer)
    ensures Filled(peer + Batched(members, o)) <==> o == Failed(0) || members != []
  {
    if o != Failed(0) {
      assert (peer + Batched(members, o))[|peer|] == Batched<M, M>(members, o)[0];
    } else {
      assert peer + [] == peer;
    }
  }

  /** A flush sends an empty batch if and only if its first reader finds an empty file that nobody is writing,
      or it retries and the other file is empty. */
  lemma {:induction false} FlushFillsExact<M>(w: Worker<M>, reconnector: bool, first: Outcome, reconnects: bool,
                                              second: Outcome)
    requires Distinct(w.dir) && Filled(w.peer)
    ensures Filled(Flush(w, reconnector, first, reconnects, second).0.peer)
       <==> (w.fb ==> !SendsEmpty(w, first) && !RetriesEmpty(w, reconnector, first, reconnects, second))
  {
    if w.fb {
      var w1 := Attempt(w, first).0;
      AttemptFillsExact(w, first);
      AttemptEnds(w, first);
      if Retries(w, reconnector, first, reconnects) {
        SecondFills(w, first, second);
      }
      hide Attempt, Filled, SendsEmpty, Present;
    }
  }

  lemma {:induction false} SecondFills<M>(w: Worker<M>, first: Outcome, second: Outcome)
    requires Distinct(w.dir) && Filled(w.peer) && (first != Done || !Present(w))
    ensures Filled(Attempt(Attempt(w, first).0, second).0.peer)
       <==> !SendsEmpty(w, first)
            && !(second != Failed(0) && w.dir.rName in w.dir.files && w.dir.files[w.dir.rName] == [])
  {
    var w1 := Attempt(w, first).0;
    AttemptFillsExact(w, first);
    FailedSwaps(w, first);
    if Filled(w1.peer) {
      AttemptDistinct(w, first);
      AttemptFillsExact(w1, second);
    } else {
      StaysUnfilled(w1, second);
    }
    hide Attempt, Filled;
  }

  lemma AttemptDistinct<M>(w: Worker<M>, o: Outcome)
    requires Distinct(w.dir)
    ensures Distinct(Attempt(w, o).0.dir)
  {
    hide Attempt, Content, Stream, Received, Older, Newer;
    AttemptStream(w, o);
  }

  lemma FailedSwaps<M>(w: Worker<M>, o: Outcome)
    requires Distinct(w.dir) && (o != Done || !Present(w))
    ensures var d := Attempt(w, o).0.dir;
      && !d.writing && d.wName == w.dir.rName
      && (d.wName in d.files <==> w.dir.rName in w.dir.files)
      && (d.wName in d.files ==> d.files[d.wName] == w.dir.files[w.dir.rName])
  {
  }

  lemma StaysUnfilled<M>(w: Worker<M>, o: Outcome)
    requires !Filled(w.peer)
    ensures !Filled(Attempt(w, o).0.peer)
  {
    var k :| 0 <= k < |w.peer| && !w.peer[k].Direct? && w.peer[k].members == [];
    assert Attempt(w, o).0.peer[k] == w.peer[k];
  }

  /** An input that does: both files exist, one is empty as every successful batch leaves it, and the first
      batch fails. The retry then sends nothing, ends the fallback mode and leaves everything where it was. */
  lemma {:induction false} RetrySendsEmpty<M>(w: Worker<M>)
    requires Tidy(w) && w.fb && Present(w) && w.dir.rName in w.dir.files
    ensures var (n, err) := Flush(w, true, Failed(0), true, Done);
      && err == None && !n.fb && n.peer == w.peer + [Batch([])]
      && Content(n.dir) == Content(w.dir)
  {
    hide Flat;
    var w1 := Attempt(w, Failed(0)).0;
    FailedSwaps(w, Failed(0));
    AttemptStream(w, Failed(0));
    AttemptStream(w1, Done);
    AttemptLeaves(w1, Done);
    Parts(w.dir);
    var newer := Newer(w.dir);
    assert Older(w.dir) == [] by { FlatNone<M>(); }
    assert [] + newer == newer && newer + [] == newer;
  }
}
