/** What every run of the pipeline does with the messages that left the queue, and what Close waits for. */
module Deliveries {
  import opened Results
  import opened DirBuffers
  import opened Workers
  import opened Pipelines

  function Hand<M>(pc: Pc<M>): seq<M> {
    if pc.Sending? then [pc.buf.m] else []
  }

  /** Everything the worker has taken, in all lives. */
  function Taken<M>(s: Sys<M>): seq<M> {
    s.past + s.dequeued
  }

  // Conservation

  /** Every message ever taken, and every one the first start found in the files, is with the peer, in the
      fallback, in the worker's hand or lost by an instance without fallback; a message is more than once
      there exactly as often as a call that failed reached the peer. */
  ghost predicate Conserved<M>(cfg: Config, s: Sys<M>, found: multiset<M>) {
    && Sound(s.worker, cfg.behavior)
    && Located(s.worker) + multiset(Hand(s.pc)) == found + multiset(Taken(s)) + multiset(s.worker.extra)
  }

  /** A step that moves what is in hand to l, settled against its extras. */
  lemma Settle<M>(l: multiset<M>, l': multiset<M>, e: multiset<M>, e': multiset<M>, hand: multiset<M>, all: multiset<M>)
    requires l' + e == l + hand + e' && l + hand == all + e
    ensures l' == all + e'
  {
    forall x
      ensures l'[x] == (all + e')[x]
    {
      assert (l' + e)[x] == (l + hand + e')[x] && (l + hand)[x] == (all + e)[x];
    }
  }

  lemma {:induction false} SendsConserved<M>(cfg: Config, s: Sys<M>, o: Outcome, found: multiset<M>)
    requires Conserved(cfg, s, found) && s.pc.Sending?
    ensures Conserved(cfg, Step(cfg, s, Deliver(o)), found)
  {
    hide Located, Send, Sound;
    var m := s.pc.buf.m;
    var n := Step(cfg, s, Deliver(o));
    SendConserves(s.worker, cfg.behavior, m, o);
    var l, l', e, e' := Located(s.worker), Located(n.worker), multiset(s.worker.extra), multiset(n.worker.extra);
    var all := found + multiset(Taken(s));
    assert multiset(Hand(s.pc)) == multiset{m} && multiset(Hand(n.pc)) == multiset{};
    assert Taken(n) == Taken(s);
    Settle(l, l', e, e', multiset{m}, all);
    PlusNone(l');
  }

  lemma {:induction false} FlushesConserved<M>(cfg: Config, s: Sys<M>, w: Worker<M>, calls: Calls, found: multiset<M>)
    requires Sound(w, cfg.behavior) && Located(w) == Located(s.worker) && w.extra == s.worker.extra
    requires Conserved(cfg, s, found) && !s.pc.Sending?
    ensures Conserved(cfg, s.(worker := Flushed(cfg, w, calls), pc := Polling), found)
  {
    hide Located, Flush, Sound;
    FlushConserves(w, cfg.behavior, cfg.reconnector, calls.first, calls.reconnects, calls.second);
    var n := s.(worker := Flushed(cfg, w, calls), pc := Polling);
    var l, l', e, e' := Located(w), Located(n.worker), multiset(w.extra), multiset(n.worker.extra);
    var all := found + multiset(Taken(s));
    assert multiset(Hand(s.pc)) == multiset{} && multiset(Hand(n.pc)) == multiset{};
    PlusNone(l);
    Settle(l, l', e, e', multiset{}, all);
    PlusNone(l');
  }

  lemma TakesConserved<M>(cfg: Config, s: Sys<M>, draining: bool, found: multiset<M>)
    requires Conserved(cfg, s, found) && s.queue != [] && !s.pc.Sending?
    ensures Conserved(cfg, Take(s, draining), found)
  {
    hide Located, Sound;
    var n := Take(s, draining);
    var m := s.queue[0].m;
    assert Taken(n) == Taken(s) + [m];
    assert multiset(Taken(n)) == multiset(Taken(s)) + multiset{m};
    assert multiset(Hand(n.pc)) == multiset{m} && multiset(Hand(s.pc)) == multiset{};
    assert Located(n.worker) + multiset(Hand(s.pc)) + multiset{m}
        == found + multiset(Taken(n)) + multiset(s.worker.extra);
  }

  /** A change of the directory that keeps what it holds. */
  lemma KeepsConserved<M>(cfg: Config, s: Sys<M>, n: Sys<M>, found: multiset<M>)
    requires Conserved(cfg, s, found) && Sound(n.worker, cfg.behavior) && Hand(n.pc) == Hand(s.pc)
    requires n.worker.peer == s.worker.peer && n.worker.lost == s.worker.lost && n.worker.extra == s.worker.extra
    requires multiset(Content(n.worker.dir)) == multiset(Content(s.worker.dir)) && Taken(n) == Taken(s)
    ensures Conserved(cfg, n, found)
  {
    hide Content, Sound, Hand, Taken;
  }

  /** What a new process finds is what the closed files hold. */
  lemma ReopensContent<M>(d: Dir<M>)
    requires Distinct(d) && !d.writing
    ensures Distinct(NewDir(d.files)) && multiset(Content(NewDir(d.files))) == multiset(Content(d))
  {
    var n := NewDir(d.files);
    var ping, pong := Flat(Members(d, Ping)), Flat(Members(d, Pong));
    assert Members(n, Ping) == Members(d, Ping) && Members(n, Pong) == Members(d, Pong);
    hide Flat;
    assert pong + [] == pong && ping + [] == ping;
    assert multiset(ping + pong) == multiset(pong + ping);
  }

  /** The files are closed behind CloseFallback. */
  ghost predicate FilesClosed<M>(s: Sys<M>) {
    s.closer == FallbackClosed || s.closer == Closer.Closed ==> s.pc.Exited? && !s.worker.dir.writing
  }

  lemma {:induction false} StepFilesClosed<M>(cfg: Config, s: Sys<M>, a: Action<M>)
    requires FilesClosed(s) && Enabled(cfg, s, a)
    ensures FilesClosed(Step(cfg, s, a))
  {
    hide Send, Flushed, MaybeSetFb, TryQueue, Enqueue, Take, Get, Restarted, DirBuffers.Closed;
    match a
    case Queue(p, m) => TryQueueOnly(cfg, s, p, Buf(s.prods[p].id, m));
    case Unblock(p) => EnqueueOnly(s, p, s.prods[p].buf);
    case Start(p, pooled) => GetOnly(s, pooled);
    case With(pooled) => GetOnly(s, pooled);
    case CloseFallback => ClosesFiles(s.worker.dir);
    case Restart => RestartOpens(s);
    case _ =>
      if s.queue != [] {
        TakeOnly(s, a.Drain?);
      }
  }

  lemma GetOnly<M>(s: Sys<M>, pooled: Option<nat>)
    ensures var n := Get(s, pooled);
      && n.worker == s.worker && n.pc == s.pc && n.closer == s.closer && n.mark == s.mark
      && n.enqueued == s.enqueued && n.dequeued == s.dequeued && n.queue == s.queue
  {
  }

  lemma ClosesFiles<M>(d: Dir<M>)
    ensures !DirBuffers.Closed(d).writing
  {
  }

  lemma RestartOpens<M>(s: Sys<M>)
    ensures Restarted(s).closer == Open
  {
  }

  lemma {:induction false} StepConserved<M>(cfg: Config, s: Sys<M>, a: Action<M>, found: multiset<M>)
    requires Conserved(cfg, s, found) && FilesClosed(s) && Enabled(cfg, s, a)
    ensures Conserved(cfg, Step(cfg, s, a), found)
  {
    hide Conserved, Content, Located, Flat, Distinct, DirBuffers.Closed;
    hide Flushed, Send, MaybeSetFb, Take, TryQueue, Enqueue, Restarted;
    var n := Step(cfg, s, a);
    SoundParts(cfg, s, found);
    match a
    case Init(calls) =>
      MaybeSetConserves(s.worker, cfg.behavior);
      FlushesConserved(cfg, s, MaybeSetFb(s.worker, cfg.behavior), calls, found);
    case Tick(calls) =>
      FlushesConserved(cfg, s, s.worker, calls, found);
    case Poll =>
      if s.queue != [] {
        TakesConserved(cfg, s, false, found);
      } else {
        KeepsConserved(cfg, s, n, found);
      }
    case Receive =>
      TakesConserved(cfg, s, false, found);
    case Drain =>
      if s.queue != [] {
        TakesConserved(cfg, s, true, found);
      } else {
        KeepsConserved(cfg, s, n, found);
      }
    case Deliver(o) =>
      SendsConserved(cfg, s, o, found);
    case CloseFallback =>
      ClosedKeeps(s.worker.dir);
      ClosedDistinct(s.worker.dir);
      KeepsConserved(cfg, s, n, found);
    case Restart =>
      RestartsConserved(cfg, s, found);
    case Queue(p, m) =>
      TryQueueOnly(cfg, s, p, Buf(s.prods[p].id, m));
      KeepsConserved(cfg, s, n, found);
    case Unblock(p) =>
      EnqueueOnly(s, p, s.prods[p].buf);
      KeepsConserved(cfg, s, n, found);
    case _ =>
      KeepsConserved(cfg, s, n, found);
  }

  lemma TryQueueOnly<M>(cfg: Config, s: Sys<M>, p: nat, buf: Buf<M>)
    requires p < |s.prods|
    ensures var n := TryQueue(cfg, s, p, buf);
      && n.worker == s.worker && n.pc == s.pc && n.past == s.past && n.dequeued == s.dequeued
      && n.closer == s.closer && n.mark == s.mark && s.enqueued <= n.enqueued && s.queue <= n.queue
  {
  }

  lemma EnqueueOnly<M>(s: Sys<M>, p: nat, buf: Buf<M>)
    requires p < |s.prods|
    ensures var n := Enqueue(s, p, buf);
      && n.worker == s.worker && n.pc == s.pc && n.past == s.past && n.dequeued == s.dequeued
      && n.closer == s.closer && n.mark == s.mark && s.enqueued <= n.enqueued && s.queue <= n.queue
  {
  }

  lemma {:induction false} RestartsConserved<M>(cfg: Config, s: Sys<M>, found: multiset<M>)
    requires Conserved(cfg, s, found) && Distinct(s.worker.dir) && !s.worker.dir.writing && s.pc.Exited?
    ensures Conserved(cfg, Restarted(s), found)
  {
    ReopensContent(s.worker.dir);
    hide Content, Located, Flat, Conserved;
    SoundParts(cfg, s, found);
    assert (s.past + s.dequeued) + [] == s.past + s.dequeued;
    KeepsConserved(cfg, s, Restarted(s), found);
  }

  lemma SoundParts<M>(cfg: Config, s: Sys<M>, found: multiset<M>)
    requires Conserved(cfg, s, found)
    ensures Sound(s.worker, cfg.behavior) && Distinct(s.worker.dir)
  {
  }

  lemma ClosedDistinct<M>(d: Dir<M>)
    requires Distinct(d)
    ensures Distinct(DirBuffers.Closed(d))
  {
  }

  /** However the client's calls end and whenever the instance is closed and started again. */
  lemma {:induction false} RunsConserved<M>(cfg: Config, s: Sys<M>, actions: seq<Action<M>>, found: multiset<M>)
    requires Conserved(cfg, s, found) && FilesClosed(s)
    ensures Conserved(cfg, Exec(cfg, s, actions), found) && FilesClosed(Exec(cfg, s, actions))
    decreases actions
  {
    hide Conserved, FilesClosed, Step, Enabled;
    if actions != [] {
      if Enabled(cfg, s, actions[0]) {
        StepConserved(cfg, s, actions[0], found);
        StepFilesClosed(cfg, s, actions[0]);
        RunsConserved(cfg, Step(cfg, s, actions[0]), actions[1..], found);
      } else {
        RunsConserved(cfg, s, actions[1..], found);
      }
    }
  }

  // Wire order

  /** Every batch succeeds, and a failed write has no effect. */
  predicate Clean<M>(a: Action<M>) {
    match a
    case Init(calls) => calls.first == Done
    case Tick(calls) => calls.first == Done
    case Deliver(o) => Harmless(o)
    case _ => true
  }

  /** What HasData makes of two closed files. */
  function Arranged<M>(d: Dir<M>): seq<M> {
    Flat(Members(d, d.wName)) + Flat(Members(d, d.rName))
  }

  /** What the peer has, then what the fallback holds, then what is in hand, is what the first start found
      and everything taken, in order. */
  ghost predicate Ordered<M>(s: Sys<M>, found: seq<M>) {
    && Distinct(s.worker.dir) && Regular(s.worker.peer)
    && (if s.pc.Starting? then
          && !s.worker.dir.writing && !s.worker.fb
          && Received(s.worker.peer) + Arranged(s.worker.dir) == found + Taken(s)
        else Tidy(s.worker) && Stream(s.worker) + Hand(s.pc) == found + Taken(s))
  }

  lemma SendsOrdered<M>(cfg: Config, s: Sys<M>, o: Outcome, found: seq<M>)
    requires Ordered(s, found) && s.pc.Sending? && Harmless(o) && cfg.behavior == Fallback
    ensures Ordered(Step(cfg, s, Deliver(o)), found)
  {
    hide Stream, Send, Tidy;
    SendInOrder(s.worker, s.pc.buf.m, o);
    var n := Step(cfg, s, Deliver(o));
    TidyDistinct(n.worker);
    assert Stream(n.worker) + [] == Stream(n.worker);
  }

  lemma TidyDistinct<M>(w: Worker<M>)
    ensures Tidy(w) ==> Distinct(w.dir)
  {
  }

  lemma TakesOrdered<M>(s: Sys<M>, draining: bool, found: seq<M>)
    requires Ordered(s, found) && s.queue != [] && !s.pc.Sending? && !s.pc.Starting?
    ensures Ordered(Take(s, draining), found)
  {
    hide Stream, Tidy;
    var m := s.queue[0].m;
    assert Stream(s.worker) + [] == Stream(s.worker);
    Regroup(s.past, s.dequeued, [m]);
    Regroup(found, Taken(s), [m]);
  }

  lemma TicksOrdered<M>(cfg: Config, s: Sys<M>, calls: Calls, found: seq<M>)
    requires Ordered(s, found) && !s.pc.Sending? && !s.pc.Starting? && calls.first == Done
    ensures Ordered(s.(worker := Flushed(cfg, s.worker, calls), pc := Polling), found)
  {
    hide Stream, Tidy, Flush;
    FlushInOrder(s.worker, cfg.reconnector, calls.reconnects, calls.second);
    TidyDistinct(Flushed(cfg, s.worker, calls));
  }

  lemma {:induction false} StartsOrdered<M>(cfg: Config, s: Sys<M>, calls: Calls, found: seq<M>)
    requires Ordered(s, found) && s.pc.Starting? && calls.first == Done && cfg.behavior == Fallback
    ensures Ordered(s.(worker := Flushed(cfg, MaybeSetFb(s.worker, cfg.behavior), calls), pc := Polling), found)
  {
    hide Stream, Tidy, Flush, MaybeSetFb, Received;
    SetsArranged(s.worker);
    var w := MaybeSetFb(s.worker, Fallback);
    FlushInOrder(w, cfg.reconnector, calls.reconnects, calls.second);
    var n := Flushed(cfg, w, calls);
    TidyDistinct(n);
    assert Stream(n) + [] == Stream(n);
  }

  lemma SetsArranged<M>(w: Worker<M>)
    requires Distinct(w.dir) && !w.dir.writing && !w.fb
    ensures Tidy(MaybeSetFb(w, Fallback)) && MaybeSetFb(w, Fallback).peer == w.peer
    ensures Stream(MaybeSetFb(w, Fallback)) == Received(w.peer) + Arranged(w.dir)
  {
    hide Checked, Content, Flat, Received;
    CheckedGathers(w.dir);
    ChecksEmptyAny(w.dir);
    assert Flat(Members(w.dir, w.dir.wName)) + [] == Flat(Members(w.dir, w.dir.wName));
    HoldsContent(Checked(w.dir).0, [], Arranged(w.dir));
    assert [] + Arranged(w.dir) == Arranged(w.dir);
  }

  lemma ClosesOrdered<M>(s: Sys<M>, n: Sys<M>, found: seq<M>)
    requires Ordered(s, found) && s.pc.Exited? && n.pc.Exited? && Taken(n) == Taken(s)
    requires n.worker == s.worker.(dir := DirBuffers.Closed(s.worker.dir))
    ensures Ordered(n, found)
  {
    hide Received;
    ClosedKeeps(s.worker.dir);
  }

  lemma RestartsOrdered<M>(s: Sys<M>, found: seq<M>)
    requires Ordered(s, found) && s.pc.Exited? && !s.worker.dir.writing
    ensures Ordered(Restarted(s), found)
  {
    hide Received;
    var d := s.worker.dir;
    var n := NewDir(d.files);
    assert Members(n, Ping) == Members(d, Ping) && Members(n, Pong) == Members(d, Pong);
    assert Flat<M>([]) == [];
    var w := Flat(Members(d, d.wName));
    assert w + [] == w && [] + w == w;
    assert Content(d) == w;
    assert Arranged(n) == w;
    assert Stream(s.worker) + [] == Stream(s.worker);
    assert Taken(s) + [] == Taken(s);
  }

  lemma {:induction false} StepOrdered<M>(cfg: Config, s: Sys<M>, a: Action<M>, found: seq<M>)
    requires Ordered(s, found) && FilesClosed(s) && Enabled(cfg, s, a) && Clean(a) && cfg.behavior == Fallback
    ensures Ordered(Step(cfg, s, a), found)
  {
    hide Ordered, Flushed, Send, MaybeSetFb, Take, TryQueue, Enqueue, DirBuffers.Closed, Restarted;
    var n := Step(cfg, s, a);
    match a
    case Init(calls) =>
      StartsOrdered(cfg, s, calls, found);
    case Tick(calls) =>
      TicksOrdered(cfg, s, calls, found);
    case Poll =>
      if s.queue != [] {
        TakesOrdered(s, false, found);
      } else {
        KeepsOrdered(s, n, found);
      }
    case Receive =>
      TakesOrdered(s, false, found);
    case Drain =>
      if s.queue != [] {
        TakesOrdered(s, true, found);
      } else {
        KeepsOrdered(s, n, found);
      }
    case Deliver(o) =>
      SendsOrdered(cfg, s, o, found);
    case CloseFallback =>
      ClosesOrdered(s, n, found);
    case Restart =>
      RestartsOrdered(s, found);
    case Queue(p, m) =>
      TryQueueOnly(cfg, s, p, Buf(s.prods[p].id, m));
      KeepsOrdered(s, n, found);
    case Unblock(p) =>
      EnqueueOnly(s, p, s.prods[p].buf);
      KeepsOrdered(s, n, found);
    case _ =>
      KeepsOrdered(s, n, found);
  }

  lemma KeepsOrdered<M>(s: Sys<M>, n: Sys<M>, found: seq<M>)
    requires Ordered(s, found) && n.worker == s.worker && Taken(n) == Taken(s) && Hand(n.pc) == Hand(s.pc)
    requires n.pc.Starting? == s.pc.Starting?
    ensures Ordered(n, found)
  {
  }

  /** With a fallback, when every batch succeeds and failed writes have no effect, the peer receives exactly
      the order of the queue, over any number of changes between the client and the fallback, and of lives. */
  lemma {:induction false} RunsOrdered<M>(cfg: Config, s: Sys<M>, actions: seq<Action<M>>, found: seq<M>)
    requires Ordered(s, found) && FilesClosed(s) && cfg.behavior == Fallback
    requires forall k :: 0 <= k < |actions| ==> Clean(actions[k])
    ensures Ordered(Exec(cfg, s, actions), found)
    decreases actions
  {
    hide Ordered, FilesClosed, Step, Enabled, Clean;
    if actions != [] {
      if Enabled(cfg, s, actions[0]) {
        StepOrdered(cfg, s, actions[0], found);
        StepFilesClosed(cfg, s, actions[0]);
        RunsOrdered(cfg, Step(cfg, s, actions[0]), actions[1..], found);
      } else {
        RunsOrdered(cfg, s, actions[1..], found);
      }
    }
  }

  // Close

  predicate DrainPhase<M>(pc: Pc<M>) {
    pc.Draining? || (pc.Sending? && pc.draining)
  }

  /** Close has begun before the worker drains; the worker exits only behind every message enqueued before
      that; the fallback and the client are closed after it has exited. */
  ghost predicate Orderly<M>(s: Sys<M>) {
    && (DrainPhase(s.pc) || s.pc.Exited? ==> s.closer != Open)
    && (s.closer != Open ==> s.mark <= |s.enqueued|)
    && (s.pc.Exited? ==> s.mark <= |s.dequeued|)
    && (s.closer == FallbackClosed || s.closer == Closer.Closed ==> s.pc.Exited?)
  }

  predicate OfWorker<M>(a: Action<M>) {
    a.Init? || a.Poll? || a.Receive? || a.Tick? || a.SeeClose? || a.Drain? || a.Deliver?
  }

  lemma {:induction false} WorkerOrderly<M>(cfg: Config, s: Sys<M>, a: Action<M>)
    requires Orderly(s) && Fifo(cfg, s) && Enabled(cfg, s, a) && OfWorker(a)
    ensures Orderly(Step(cfg, s, a))
  {
    assert s.queue == [] ==> s.enqueued == s.dequeued;
    assert DrainPhase(s.pc) ==> s.closer != Open;
    assert s.closer == FallbackClosed || s.closer == Closer.Closed ==> s.pc.Exited?;
    hide Fifo, Messages, Flushed, Send, MaybeSetFb, Take, Orderly;
    if s.queue != [] {
      TakeOnly(s, a.Drain?);
    }
    WorkerState(cfg, s, a);
    hide Step, Enabled;
    OrderlyMove(s, Step(cfg, s, a));
  }

  /** What a step of the worker does to the state. */
  lemma {:induction false} WorkerState<M>(cfg: Config, s: Sys<M>, a: Action<M>)
    requires Enabled(cfg, s, a) && OfWorker(a)
    ensures var n := Step(cfg, s, a);
      && n.closer == s.closer && n.mark == s.mark && n.enqueued == s.enqueued && |s.dequeued| <= |n.dequeued|
      && !s.pc.Exited?
      && (DrainPhase(n.pc) ==> DrainPhase(s.pc) || s.closer != Open)
      && (n.pc.Exited? ==> s.pc.Draining? && s.queue == [] && n.dequeued == s.dequeued)
  {
    hide Flushed, Send, MaybeSetFb, Take, Pipelines.Put;
    match a
    case Deliver(o) =>
      DeliverOnly(cfg, s, o);
    case _ =>
      if s.queue != [] {
        TakeOnly(s, a.Drain?);
      }
  }

  lemma {:induction false} DeliverOnly<M>(cfg: Config, s: Sys<M>, o: Outcome)
    requires s.pc.Sending?
    ensures var n := Step(cfg, s, Deliver(o));
      && n.closer == s.closer && n.mark == s.mark && n.enqueued == s.enqueued && n.dequeued == s.dequeued
      && n.pc == if s.pc.draining then Draining else Polling
  {
    hide Send;
  }

  lemma {:induction false} OrderlyMove<M>(s: Sys<M>, n: Sys<M>)
    requires Orderly(s) && n.closer == s.closer && n.mark == s.mark && n.enqueued == s.enqueued
    requires |s.dequeued| <= |n.dequeued|
    requires DrainPhase(n.pc) || n.pc.Exited? ==> s.closer != Open
    requires n.pc.Exited? ==> n.dequeued == n.enqueued
    requires s.closer == FallbackClosed || s.closer == Closer.Closed ==> n.pc.Exited?
    ensures Orderly(n)
  {
  }

  lemma TakeOnly<M>(s: Sys<M>, draining: bool)
    requires s.queue != []
    ensures var n := Take(s, draining);
      && n.pc == Sending(s.queue[0], draining) && n.closer == s.closer && n.mark == s.mark
      && n.enqueued == s.enqueued && |s.dequeued| <= |n.dequeued| && n.worker == s.worker
      && n.queue == s.queue[1..] && n.past == s.past && n.prods == s.prods
  {
  }

  lemma {:induction false} StepOrderly<M>(cfg: Config, s: Sys<M>, a: Action<M>)
    requires Orderly(s) && Fifo(cfg, s) && Enabled(cfg, s, a)
    ensures Orderly(Step(cfg, s, a))
  {
    hide Orderly, Fifo, Enabled;
    if a.Restart? {
      RestartsOrderly(s);
    } else if OfWorker(a) {
      WorkerOrderly(cfg, s, a);
    } else {
      OthersOrderly(cfg, s, a);
    }
    hide Restarted, Flushed, Send, MaybeSetFb, Take, TryQueue, Enqueue, Get, Pipelines.Put, DirBuffers.Closed;
  }

  lemma {:induction false} OthersOrderly<M>(cfg: Config, s: Sys<M>, a: Action<M>)
    requires Orderly(s) && Fifo(cfg, s) && Enabled(cfg, s, a) && !OfWorker(a) && !a.Restart?
    ensures Orderly(Step(cfg, s, a))
  {
    assert |s.dequeued| <= |s.enqueued|;
    hide Fifo, DirBuffers.Closed, TryQueue, Enqueue, Get, Restarted, Messages, Orderly;
    match a
    case Queue(p, m) =>
      TryQueueOnly(cfg, s, p, Buf(s.prods[p].id, m));
      GrowsOrderly(s, Step(cfg, s, a));
    case Unblock(p) =>
      EnqueueOnly(s, p, s.prods[p].buf);
      GrowsOrderly(s, Step(cfg, s, a));
    case Start(p, pooled) =>
      GetOnly(s, pooled);
      GrowsOrderly(s, Step(cfg, s, a));
    case With(pooled) =>
      GetOnly(s, pooled);
      GrowsOrderly(s, Step(cfg, s, a));
    case Release(_) =>
      GrowsOrderly(s, Step(cfg, s, a));
    case CloseBegin =>
      BeginsOrderly(s, Step(cfg, s, a));
    case CloseFallback =>
      EndsOrderly(s, Step(cfg, s, a));
    case CloseClient =>
      EndsOrderly(s, Step(cfg, s, a));
  }

  lemma {:induction false} GrowsOrderly<M>(s: Sys<M>, n: Sys<M>)
    requires Orderly(s) && n.pc == s.pc && n.closer == s.closer && n.mark == s.mark
    requires s.enqueued <= n.enqueued && n.dequeued == s.dequeued
    ensures Orderly(n)
  {
  }

  lemma {:induction false} BeginsOrderly<M>(s: Sys<M>, n: Sys<M>)
    requires Orderly(s) && s.closer == Open && n.closer == Closing && n.pc == s.pc
    requires n.mark == |n.enqueued|
    ensures Orderly(n)
  {
  }

  lemma {:induction false} EndsOrderly<M>(s: Sys<M>, n: Sys<M>)
    requires Orderly(s) && s.closer != Open && s.pc.Exited? && n.pc == s.pc && n.closer != Open
    requires n.mark == s.mark && n.enqueued == s.enqueued && n.dequeued == s.dequeued
    ensures Orderly(n)
  {
  }

  lemma RestartsOrderly<M>(s: Sys<M>)
    ensures Orderly(Restarted(s))
  {
  }

  lemma {:induction false} RunsOrderly<M>(cfg: Config, s: Sys<M>, actions: seq<Action<M>>)
    requires Orderly(s) && Fifo(cfg, s)
    ensures Orderly(Exec(cfg, s, actions)) && Fifo(cfg, Exec(cfg, s, actions))
    decreases actions
  {
    hide Orderly, Fifo, Step, Enabled;
    if actions != [] {
      if Enabled(cfg, s, actions[0]) {
        StepOrderly(cfg, s, actions[0]);
        StepFifo(cfg, s, actions[0]);
        RunsOrderly(cfg, Step(cfg, s, actions[0]), actions[1..]);
      } else {
        RunsOrderly(cfg, s, actions[1..]);
      }
    }
  }

  /** What was enqueued before a Close began is among what has been taken. */
  ghost predicate Redeemed<M>(s: Sys<M>) {
    multiset(s.promised) <= multiset(s.past)
  }

  lemma {:induction false} StepRedeemed<M>(cfg: Config, s: Sys<M>, a: Action<M>)
    requires Redeemed(s) && Orderly(s) && Fifo(cfg, s) && Enabled(cfg, s, a)
    ensures Redeemed(Step(cfg, s, a))
  {
    if a.Restart? {
      RestartRedeemed(cfg, s);
    } else {
      KeepsHistory(cfg, s, a);
      hide Step;
      SameRedeemed(s, Step(cfg, s, a));
    }
    hide Fifo, Orderly, Restarted, Redeemed;
  }

  lemma {:induction false} RestartRedeemed<M>(cfg: Config, s: Sys<M>)
    requires Redeemed(s) && Orderly(s) && Fifo(cfg, s) && s.closer == Closer.Closed
    ensures Redeemed(Restarted(s))
  {
    assert UpTo(s.enqueued, s.mark) == s.dequeued[..s.mark];
    assert s.dequeued == s.dequeued[..s.mark] + s.dequeued[s.mark..];
    assert multiset(s.dequeued) == multiset(s.dequeued[..s.mark]) + multiset(s.dequeued[s.mark..]);
    hide Fifo, Orderly;
  }

  lemma {:induction false} KeepsHistory<M>(cfg: Config, s: Sys<M>, a: Action<M>)
    requires Enabled(cfg, s, a) && !a.Restart?
    ensures Step(cfg, s, a).promised == s.promised && Step(cfg, s, a).past == s.past
  {
    hide Flushed, Send, MaybeSetFb, DirBuffers.Closed;
  }

  lemma SameRedeemed<M>(s: Sys<M>, n: Sys<M>)
    requires Redeemed(s) && n.promised == s.promised && n.past == s.past
    ensures Redeemed(n)
  {
  }

  lemma {:induction false} RunsRedeemed<M>(cfg: Config, s: Sys<M>, actions: seq<Action<M>>)
    requires Redeemed(s) && Orderly(s) && Fifo(cfg, s)
    ensures Redeemed(Exec(cfg, s, actions))
    decreases actions
  {
    hide Orderly, Fifo, Step, Enabled, Redeemed;
    if actions != [] {
      if Enabled(cfg, s, actions[0]) {
        StepOrderly(cfg, s, actions[0]);
        StepFifo(cfg, s, actions[0]);
        StepRedeemed(cfg, s, actions[0]);
        RunsRedeemed(cfg, Step(cfg, s, actions[0]), actions[1..]);
      } else {
        RunsRedeemed(cfg, s, actions[1..]);
      }
    }
  }

  lemma FirstOrderly<M>(cfg: Config, producers: nat, files: map<Name, seq<seq<M>>>)
    ensures Orderly(First(producers, files)) && Fifo(cfg, First(producers, files))
  {
    FreshFifo(cfg, First(producers, files));
  }

  /** When Close is through, the worker has passed on every message enqueued before Close began and has
      nothing in hand, and nothing but a new start sends anything more. */
  lemma {:induction false} CloseDrains<M>(
    cfg: Config, producers: nat, files: map<Name, seq<seq<M>>>, actions: seq<Action<M>>, a: Action<M>)
    ensures var s := Exec(cfg, First(producers, files), actions);
      s.closer == Closer.Closed ==>
        && s.mark <= |s.enqueued| && s.enqueued[..s.mark] <= s.dequeued && Hand(s.pc) == []
        && (Enabled(cfg, s, a) && !a.Restart? ==> Step(cfg, s, a).worker == s.worker)
  {
    FirstOrderly(cfg, producers, files);
    RunsOrderly(cfg, First(producers, files), actions);
    var s := Exec(cfg, First(producers, files), actions);
    if s.closer == Closer.Closed {
      hide Exec, Flushed, Send, MaybeSetFb, DirBuffers.Closed;
      assert s.enqueued[..|s.dequeued|] == s.dequeued;
    }
  }

  function WeightOf<M>(p: Producer<M>): nat {
    match p case Idle => 0 case Building(_) => 4 case Blocked(_) => 3
  }

  function Weight<M>(prods: seq<Producer<M>>): nat {
    if prods == [] then 0 else Weight(prods[..|prods| - 1]) + WeightOf(prods[|prods| - 1])
  }

  /** What is left to do while draining: the queue, the producers behind the closed check, the message in
      hand, and the worker's exit. */
  function Load<M>(s: Sys<M>): nat {
    Weight(s.prods) + 2 * |s.queue| + (if s.pc.Sending? then 1 else 0) + (if s.pc.Exited? then 0 else 1)
  }

  lemma {:induction false} WeightUpdate<M>(prods: seq<Producer<M>>, p: nat, x: Producer<M>)
    requires p < |prods|
    ensures Weight(prods[p := x]) + WeightOf(prods[p]) == Weight(prods) + WeightOf(x)
  {
    var n := |prods| - 1;
    if p == n {
      assert prods[p := x][..n] == prods[..n];
    } else {
      assert prods[p := x][..n] == prods[..n][p := x];
      WeightUpdate(prods[..n], p, x);
    }
  }

  /** What loggers do with their field buffers, at any time. */
  predicate OfLogger<M>(a: Action<M>) {
    a.With? || a.Release?
  }

  /** While the worker drains, it always has a step, and every step of worker, producers and Close brings its
      end nearer; loggers that come and go do not put it off. */
  lemma {:induction false} DrainProgress<M>(cfg: Config, s: Sys<M>, a: Action<M>)
    requires Orderly(s) && DrainPhase(s.pc)
    ensures Enabled(cfg, s, Drain) || Enabled(cfg, s, Deliver(Done))
    ensures Enabled(cfg, s, a) ==>
              var n := Step(cfg, s, a);
              if OfLogger(a) then Load(n) == Load(s) && n.pc == s.pc
              else Load(n) < Load(s) && (DrainPhase(n.pc) || n.pc.Exited?)
  {
    hide Send, Flushed, MaybeSetFb, DirBuffers.Closed, Weight;
    if Enabled(cfg, s, a) {
      match a
      case Queue(p, m) =>
        QueueLoad(cfg, s, p, Buf(s.prods[p].id, m));
      case Unblock(p) =>
        WeightUpdate(s.prods, p, Idle);
      case _ =>
    }
    hide TryQueue;
  }

  lemma {:induction false} QueueLoad<M>(cfg: Config, s: Sys<M>, p: nat, buf: Buf<M>)
    requires p < |s.prods| && s.prods[p].Building?
    ensures Load(TryQueue(cfg, s, p, buf)) < Load(s) && TryQueue(cfg, s, p, buf).pc == s.pc
  {
    hide Weight;
    WeightUpdate(s.prods, p, Idle);
    WeightUpdate(s.prods, p, Blocked(buf));
  }

  /** Whether each action is enabled when its turn comes, the worker not having exited before. */
  predicate Drives<M(==)>(cfg: Config, s: Sys<M>, actions: seq<Action<M>>)
    decreases actions
  {
    actions != [] ==>
      && Enabled(cfg, s, actions[0]) && !s.pc.Exited?
      && Drives(cfg, Step(cfg, s, actions[0]), actions[1..])
  }

  /** The steps of worker, producers and Close. */
  function Steps<M>(actions: seq<Action<M>>): nat {
    if actions == [] then 0 else (if OfLogger(actions[0]) then 0 else 1) + Steps(actions[1..])
  }

  /** The drain loop ends: no more steps can be taken before the worker exits than its load. */
  lemma {:induction false} DrainEnds<M>(cfg: Config, s: Sys<M>, actions: seq<Action<M>>)
    requires Orderly(s) && Fifo(cfg, s) && DrainPhase(s.pc) && Drives(cfg, s, actions)
    ensures Steps(actions) + Load(Exec(cfg, s, actions)) <= Load(s)
    decreases actions
  {
    hide Orderly, Fifo, Step, Enabled, Load;
    if actions != [] {
      DrainProgress(cfg, s, actions[0]);
      StepOrderly(cfg, s, actions[0]);
      StepFifo(cfg, s, actions[0]);
      var n := Step(cfg, s, actions[0]);
      if DrainPhase(n.pc) {
        DrainEnds(cfg, n, actions[1..]);
      } else {
        assert actions[1..] == [];
      }
    }
  }

  // The whole pipeline

  lemma FirstStates<M>(cfg: Config, producers: nat, files: map<Name, seq<seq<M>>>)
    ensures var s, d := First(producers, files), NewDir(files);
      && Conserved(cfg, s, multiset(Content(d))) && FilesClosed(s) && Ordered(s, Arranged(d))
  {
    var s := First(producers, files);
    assert Taken(s) == [];
    assert [] + Arranged(NewDir(files)) == Arranged(NewDir(files)) + [];
  }

  /** No loss with a fallback: after any run, every message the files held at first, every message earlier
      lives took, among them all that had entered their queues when their Close began, and every message that
      has entered the queue in this life is with the peer, in the files, in the worker's hand, or queued. */
  lemma {:induction false} NothingLost<M>(
    cfg: Config, producers: nat, files: map<Name, seq<seq<M>>>, actions: seq<Action<M>>)
    requires cfg.behavior == Fallback
    ensures var s := Exec(cfg, First(producers, files), actions);
      multiset(Content(NewDir(files))) + multiset(s.past) + multiset(s.enqueued)
        <= multiset(Received(s.worker.peer)) + multiset(Content(s.worker.dir)) + multiset(Hand(s.pc))
           + multiset(Messages(s.queue))
    ensures var s := Exec(cfg, First(producers, files), actions);
      multiset(s.promised) <= multiset(s.past)
  {
    var s := Exec(cfg, First(producers, files), actions);
    var found := multiset(Content(NewDir(files)));
    FirstStates(cfg, producers, files);
    RunsConserved(cfg, First(producers, files), actions, found);
    FirstOrderly(cfg, producers, files);
    RunsOrderly(cfg, First(producers, files), actions);
    RunsRedeemed(cfg, First(producers, files), actions);
    hide Exec, Content, Received, Messages, Hand;
    assert multiset(s.enqueued) == multiset(s.dequeued) + multiset(Messages(s.queue));
    assert multiset(Taken(s)) == multiset(s.past) + multiset(s.dequeued);
    PlusNone(multiset(Received(s.worker.peer)) + multiset(Content(s.worker.dir)));
    assert Located(s.worker) == multiset(Received(s.worker.peer)) + multiset(Content(s.worker.dir));
  }

  /** A new start behind Close, up to the end of its first flush. */
  function Relaunched<M>(cfg: Config, s: Sys<M>, calls: Calls): Sys<M>
    requires s.closer == Closer.Closed
  {
    Step(cfg, Step(cfg, s, Restart), Init(calls))
  }

  /** Close, a new start and one successful batch: the peer has received every message the fallback instance
      had taken, among them every one that had entered the queue before its Close began. */
  lemma {:induction false} RestartCatchesUp<M>(
    cfg: Config, producers: nat, files: map<Name, seq<seq<M>>>, actions: seq<Action<M>>, calls: Calls)
    requires cfg.behavior == Fallback && calls.first == Done
    requires Exec(cfg, First(producers, files), actions).closer == Closer.Closed
    ensures var s := Exec(cfg, First(producers, files), actions);
      && s.mark <= |s.enqueued| && s.enqueued[..s.mark] <= s.dequeued
      && Content(Relaunched(cfg, s, calls).worker.dir) == [] && !Relaunched(cfg, s, calls).worker.fb
      && multiset(s.past + s.dequeued) <= multiset(Received(Relaunched(cfg, s, calls).worker.peer))
  {
    hide Relaunched, Step, Content;
    var s := Exec(cfg, First(producers, files), actions);
    var found := multiset(Content(NewDir(files)));
    FirstStates(cfg, producers, files);
    RunsConserved(cfg, First(producers, files), actions, found);
    CloseDrains(cfg, producers, files, actions, Restart);
    SoundParts(cfg, s, found);
    hide Exec, Conserved, FilesClosed;
    CatchesUp(cfg, s, calls, found);
  }

  lemma {:induction false} CatchesUp<M>(cfg: Config, s: Sys<M>, calls: Calls, found: multiset<M>)
    requires Conserved(cfg, s, found) && FilesClosed(s) && s.worker.lost == []
    requires s.closer == Closer.Closed && cfg.behavior == Fallback && calls.first == Done
    ensures var n := Relaunched(cfg, s, calls);
      && Content(n.worker.dir) == [] && !n.worker.fb
      && multiset(s.past + s.dequeued) <= multiset(Received(n.worker.peer))
  {
    hide Content, Received, Conserved, FilesClosed, Located;
    StepConserved(cfg, s, Restart, found);
    StepFilesClosed(cfg, s, Restart);
    var r := Step(cfg, s, Restart);
    StepConserved(cfg, r, Init(calls), found);
    EmptiesAtStart(cfg, r, calls);
    var n := Step(cfg, r, Init(calls));
    assert (s.past + s.dequeued) + [] == s.past + s.dequeued;
    hide Flushed, MaybeSetFb;
    AllReceived(cfg, n, found);
  }

  /** With an empty fallback and an empty hand, all there is is with the peer. */
  lemma AllReceived<M>(cfg: Config, s: Sys<M>, found: multiset<M>)
    requires Conserved(cfg, s, found) && Content(s.worker.dir) == [] && Hand(s.pc) == [] && s.worker.lost == []
    ensures multiset(Taken(s)) <= multiset(Received(s.worker.peer))
  {
    hide Content, Received, Taken;
    PlusNone(multiset(Received(s.worker.peer)));
    assert Located(s.worker) == multiset(Received(s.worker.peer));
  }

  lemma {:induction false} EmptiesAtStart<M>(cfg: Config, s: Sys<M>, calls: Calls)
    requires s.worker.dir == NewDir(s.worker.dir.files) && !s.worker.fb && calls.first == Done
    requires cfg.behavior == Fallback && s.pc.Starting?
    requires s.worker.lost == []
    ensures Content(Step(cfg, s, Init(calls)).worker.dir) == [] && !Step(cfg, s, Init(calls)).worker.fb
    ensures Step(cfg, s, Init(calls)).worker.lost == []
  {
    hide Flush, MaybeSetFb, Content, Flat, Received, Located, Step;
    SetsArranged(s.worker);
    MaybeSetConserves(s.worker, Fallback);
    var w := MaybeSetFb(s.worker, Fallback);
    FlushInOrder(w, cfg.reconnector, calls.reconnects, calls.second);
    FlushConserves(w, Fallback, cfg.reconnector, calls.first, calls.reconnects, calls.second);
    hide Tidy, Sound, Stream;
    InitWorker(cfg, s, calls);
  }

  lemma {:induction false} InitWorker<M>(cfg: Config, s: Sys<M>, calls: Calls)
    requires s.pc.Starting?
    ensures Step(cfg, s, Init(calls)).worker == Flushed(cfg, MaybeSetFb(s.worker, cfg.behavior), calls)
  {
    hide Flushed, MaybeSetFb;
  }

  /** In a clean run of a fallback instance the peer has a prefix of what the files held at first followed
      by everything taken from the queue, in order; and without fallback mode both files are empty. */
  lemma {:induction false} WireOrder<M>(
    cfg: Config, producers: nat, files: map<Name, seq<seq<M>>>, actions: seq<Action<M>>)
    requires cfg.behavior == Fallback && forall k :: 0 <= k < |actions| ==> Clean(actions[k])
    ensures var s := Exec(cfg, First(producers, files), actions);
      && Received(s.worker.peer) <= Arranged(NewDir(files)) + Taken(s) && Regular(s.worker.peer)
      && (!s.pc.Starting? && !s.worker.fb ==>
            && !s.worker.dir.writing && Members(s.worker.dir, Ping) == [] && Members(s.worker.dir, Pong) == []
            && Received(s.worker.peer) + Hand(s.pc) == Arranged(NewDir(files)) + Taken(s))
  {
    hide Exec, Ordered, FilesClosed, Clean, Conserved, Arranged, Received, Taken, Hand, Regular, Members;
    FirstStates(cfg, producers, files);
    RunsOrdered(cfg, First(producers, files), actions, Arranged(NewDir(files)));
    OrderedSays(Exec(cfg, First(producers, files), actions), Arranged(NewDir(files)));
  }

  lemma {:induction false} OrderedSays<M>(s: Sys<M>, found: seq<M>)
    requires Ordered(s, found)
    ensures Received(s.worker.peer) <= found + Taken(s) && Regular(s.worker.peer)
    ensures !s.pc.Starting? && !s.worker.fb ==>
              && !s.worker.dir.writing && Members(s.worker.dir, Ping) == [] && Members(s.worker.dir, Pong) == []
              && Received(s.worker.peer) + Hand(s.pc) == found + Taken(s)
  {
    var got, held := Received(s.worker.peer), Content(s.worker.dir);
    Regroup(got, held, Hand(s.pc));
    assert held == [] ==> got + held == got;
    hide Received, Content, Regular, Hand, Taken, Arranged;
  }
}
