/** What the worker and Close get done: from anywhere a Close comes to its end, and it leaves nothing behind
    that was queued before it began. */
module Progress {
  import opened Results
  import opened DirBuffers
  import opened Workers
  import opened Pipelines
  import opened Deliveries

  /** Whether each action is enabled when its turn comes, and is one of the worker or of Close. */
  predicate Proper<M(==)>(cfg: Config, s: Sys<M>, actions: seq<Action<M>>)
    decreases actions
  {
    actions != [] ==>
      && Enabled(cfg, s, actions[0]) && (OfWorker(actions[0]) || actions[0].CloseFallback? || actions[0].CloseClient?)
      && Proper(cfg, Step(cfg, s, actions[0]), actions[1..])
  }

  /** The next thing to do on the way to the end of a Close. */
  function Onward<M>(s: Sys<M>): Action<M>
    requires s.closer != Open && s.closer != Closer.Closed
  {
    if s.closer == FallbackClosed then CloseClient else
    match s.pc
    case Starting => Init(Calls(Done, true, Done))
    case Polling => Poll
    case Selecting => SeeClose
    case Sending(_, _) => Deliver(Done)
    case Draining => Drain
    case Exited => CloseFallback
  }

  /** How many steps that way can take. */
  function Way<M>(s: Sys<M>): nat {
    if s.closer == Closer.Closed then 0 else if s.closer == FallbackClosed then 1 else
    match s.pc
    case Exited => 2
    case Draining => 3 + 2 * |s.queue|
    case Selecting => 4 + 2 * |s.queue|
    case Polling => 5 + 2 * |s.queue|
    case Sending(_, draining) => (if draining then 4 else 6) + 2 * |s.queue|
    case Starting => 6 + 2 * |s.queue|
  }

  lemma {:induction false} StepsOnward<M>(cfg: Config, s: Sys<M>)
    requires s.closer != Open && s.closer != Closer.Closed && Orderly(s)
    ensures Enabled(cfg, s, Onward(s))
    ensures var n := Step(cfg, s, Onward(s));
      n.closer != Open && n.mark == s.mark && n.enqueued == s.enqueued && Way(n) < Way(s)
  {
    hide Flushed, Send, MaybeSetFb, DirBuffers.Closed, Take, TryQueue, Enqueue, Restarted, Pipelines.Get, Pipelines.Put;
    if s.closer == Closing && !s.pc.Exited? {
      hide Orderly;
      WorkerOnward(cfg, s);
    }
  }

  lemma {:induction false} WorkerOnward<M>(cfg: Config, s: Sys<M>)
    requires s.closer == Closing && !s.pc.Exited?
    ensures var n := Step(cfg, s, Onward(s));
      n.closer != Open && n.mark == s.mark && n.enqueued == s.enqueued && Way(n) < Way(s)
  {
    hide Flushed, Send, MaybeSetFb, DirBuffers.Closed, Take, TryQueue, Enqueue, Restarted, Pipelines.Get, Pipelines.Put;
    match s.pc
    case Sending(_, _) =>
      Delivers(cfg, s, Done);
    case Draining =>
      if s.queue != [] {
        TakeOnly(s, true);
      }
    case Polling =>
      if s.queue != [] {
        TakeOnly(s, false);
      }
    case _ =>
  }

  lemma {:induction false} Delivers<M>(cfg: Config, s: Sys<M>, o: Outcome)
    requires s.pc.Sending?
    ensures var n := Step(cfg, s, Deliver(o));
      && n.closer == s.closer && n.mark == s.mark && n.enqueued == s.enqueued && n.queue == s.queue
      && n.past == s.past && n.prods == s.prods && n.pc == if s.pc.draining then Draining else Polling
  {
    hide Send;
  }

  lemma {:induction false} Arrives<M>(cfg: Config, s: Sys<M>) returns (path: seq<Action<M>>)
    requires s.closer != Open && Orderly(s) && Fifo(cfg, s)
    ensures Proper(cfg, s, path) && |path| <= Way(s)
    ensures var n := Exec(cfg, s, path);
      && Orderly(n) && Fifo(cfg, n) && n.closer == Closer.Closed && n.mark == s.mark && n.enqueued == s.enqueued
    decreases Way(s)
  {
    hide Step, Enabled, Fifo, Orderly, Way, Onward;
    if s.closer == Closer.Closed {
      path := [];
    } else {
      StepsOnward(cfg, s);
      var a := Onward(s);
      OnwardKind(s);
      StepOrderly(cfg, s, a);
      StepFifo(cfg, s, a);
      var more := Arrives(cfg, Step(cfg, s, a));
      path := [a] + more;
      assert path[1..] == more;
    }
  }

  lemma OnwardKind<M>(s: Sys<M>)
    requires s.closer != Open && s.closer != Closer.Closed
    ensures OfWorker(Onward(s)) || Onward(s).CloseFallback? || Onward(s).CloseClient?
  {
  }

  /** Wherever a run stands once Close has begun, a list of no more than 2n + 6 steps of worker and Close, n
      being the length of the queue, leads to the end of Close, and every message that was queued before Close
      began has then been passed on. */
  lemma {:induction false} CloseEnds<M>(
    cfg: Config, producers: nat, files: map<Name, seq<seq<M>>>, actions: seq<Action<M>>)
    returns (path: seq<Action<M>>)
    requires Exec(cfg, First(producers, files), actions).closer != Open
    ensures var s := Exec(cfg, First(producers, files), actions);
      && Proper(cfg, s, path) && |path| <= 2 * |s.queue| + 6
      && Exec(cfg, s, path).closer == Closer.Closed
      && s.mark <= |s.enqueued| && s.enqueued[..s.mark] <= Exec(cfg, s, path).dequeued
  {
    hide Exec, Fifo, Orderly;
    var s := Exec(cfg, First(producers, files), actions);
    FirstOrderly(cfg, producers, files);
    RunsOrderly(cfg, First(producers, files), actions);
    path := Arrives(cfg, s);
    ClosedDrained(cfg, Exec(cfg, s, path));
    hide Step;
  }

  lemma ClosedDrained<M>(cfg: Config, s: Sys<M>)
    requires Orderly(s) && Fifo(cfg, s) && s.closer == Closer.Closed
    ensures s.mark <= |s.enqueued| && s.enqueued[..s.mark] <= s.dequeued
  {
    assert s.enqueued[..|s.dequeued|] == s.dequeued;
  }

  /** Where a Close that began at a given moment stands. */
  ghost predicate Since<M>(queued: seq<M>, s: Sys<M>) {
    s.closer != Open && s.mark == |queued| && queued <= s.enqueued
  }

  lemma {:induction false} StepSince<M>(cfg: Config, queued: seq<M>, s: Sys<M>, a: Action<M>)
    requires Since(queued, s) && Enabled(cfg, s, a) && !a.Restart?
    ensures Since(queued, Step(cfg, s, a))
  {
    hide Flushed, Send, MaybeSetFb, DirBuffers.Closed;
  }

  lemma {:induction false} RunsSince<M>(cfg: Config, queued: seq<M>, s: Sys<M>, actions: seq<Action<M>>)
    requires Since(queued, s) && forall k :: 0 <= k < |actions| ==> !actions[k].Restart?
    ensures Since(queued, Exec(cfg, s, actions))
    decreases actions
  {
    hide Since, Step, Enabled;
    if actions != [] {
      if Enabled(cfg, s, actions[0]) {
        StepSince(cfg, queued, s, actions[0]);
        RunsSince(cfg, queued, Step(cfg, s, actions[0]), actions[1..]);
      } else {
        RunsSince(cfg, queued, s, actions[1..]);
      }
    }
  }

  /** Whatever happens after Close was called, when it is through, all that was in the queue, or had been, has
      been taken from it. */
  lemma {:induction false} CloseDelivers<M>(
    cfg: Config, producers: nat, files: map<Name, seq<seq<M>>>, before: seq<Action<M>>, after: seq<Action<M>>)
    requires Enabled(cfg, Exec(cfg, First(producers, files), before), CloseBegin)
    requires forall k :: 0 <= k < |after| ==> !after[k].Restart?
    ensures var s := Exec(cfg, First(producers, files), before);
      var n := Exec(cfg, Step(cfg, s, CloseBegin), after);
      n.closer == Closer.Closed ==> s.enqueued <= n.dequeued
  {
    hide Exec, Fifo, Orderly;
    var s := Exec(cfg, First(producers, files), before);
    FirstOrderly(cfg, producers, files);
    RunsOrderly(cfg, First(producers, files), before);
    var s1 := Step(cfg, s, CloseBegin);
    StepOrderly(cfg, s, CloseBegin);
    StepFifo(cfg, s, CloseBegin);
    RunsOrderly(cfg, s1, after);
    RunsSince(cfg, s.enqueued, s1, after);
    var n := Exec(cfg, s1, after);
    if n.closer == Closer.Closed {
      ClosedDrained(cfg, n);
      UpToPrefix(s.enqueued, n.enqueued, n.dequeued);
    }
    hide Step;
  }

  lemma UpToPrefix<M>(a: seq<M>, b: seq<M>, c: seq<M>)
    requires a <= b && b[..|a|] <= c
    ensures a <= c
  {
  }

  /** The worker is about to look at its queue, or has the message in hand that was first in it. */
  ghost predicate TakesFirst<M>(s: Sys<M>, n: Sys<M>)
    requires s.queue != []
  {
    && n.worker == s.worker
    && if n.pc.Polling? then s.queue <= n.queue else n.pc == Sending(s.queue[0], false)
  }

  lemma {:induction false} StepTakesFirst<M>(cfg: Config, s: Sys<M>, n: Sys<M>, a: Action<M>)
    requires s.queue != [] && TakesFirst(s, n) && Enabled(cfg, n, a) && !a.Deliver? && !a.Restart?
    requires Orderly(n)
    ensures TakesFirst(s, Step(cfg, n, a))
  {
    hide Flushed, Send, MaybeSetFb, DirBuffers.Closed, Take, TryQueue, Enqueue, Restarted, Pipelines.Get, Pipelines.Put;
    match a
    case Queue(p, m) =>
      TryQueueOnly(cfg, n, p, Buf(n.prods[p].id, m));
    case Unblock(p) =>
      EnqueueOnly(n, p, n.prods[p].buf);
    case Start(_, pooled) =>
      GetOnly(n, pooled);
    case With(pooled) =>
      GetOnly(n, pooled);
    case Release(id) =>
      PutOnly(n.(held := n.held - multiset{id}), id);
    case _ =>
      if n.queue != [] {
        TakeOnly(n, false);
      }
  }

  lemma PutOnly<M>(s: Sys<M>, id: nat)
    ensures var n := Pipelines.Put(s, id);
      n.worker == s.worker && n.pc == s.pc && n.queue == s.queue
  {
  }

  /** Queued messages come first: between two of the worker's steps no batch is sent, and nothing else done,
      until the message at the head of the queue is. */
  lemma {:induction false} QueueFirst<M>(cfg: Config, s: Sys<M>, n: Sys<M>, actions: seq<Action<M>>)
    requires s.queue != [] && TakesFirst(s, n) && Orderly(n) && Fifo(cfg, n)
    requires forall k :: 0 <= k < |actions| ==> !actions[k].Deliver? && !actions[k].Restart?
    ensures TakesFirst(s, Exec(cfg, n, actions))
    decreases actions
  {
    hide TakesFirst, Step, Enabled, Orderly, Fifo;
    if actions != [] {
      if Enabled(cfg, n, actions[0]) {
        StepTakesFirst(cfg, s, n, actions[0]);
        StepOrderly(cfg, n, actions[0]);
        StepFifo(cfg, n, actions[0]);
        QueueFirst(cfg, s, Step(cfg, n, actions[0]), actions[1..]);
      } else {
        QueueFirst(cfg, s, n, actions[1..]);
      }
    }
  }

  // Catching up

  /** The next thing the worker does on the way to an empty queue. */
  function Onto<M>(s: Sys<M>): Action<M> {
    match s.pc
    case Starting => Init(Calls(Done, true, Done))
    case Polling => Poll
    case Selecting => Receive
    case _ => Deliver(Done)
  }

  function Behind<M>(s: Sys<M>): nat {
    match s.pc
    case Selecting => 3 * |s.queue|
    case Polling => 3 * |s.queue| + 1
    case _ => 3 * |s.queue| + 2
  }

  /** The worker runs, and has not begun to drain. */
  predicate Serving<M>(s: Sys<M>) {
    !DrainPhase(s.pc) && !s.pc.Exited?
  }

  lemma {:induction false} StepsOnto<M>(cfg: Config, s: Sys<M>)
    requires Serving(s) && (s.pc.Selecting? ==> s.queue != [])
    ensures Enabled(cfg, s, Onto(s)) && OfWorker(Onto(s)) && Clean(Onto(s))
    ensures var n := Step(cfg, s, Onto(s));
      Serving(n) && n.past == s.past && n.enqueued == s.enqueued && n.prods == s.prods && Behind(n) < Behind(s)
  {
    hide Flushed, Send, MaybeSetFb, DirBuffers.Closed, Take, TryQueue, Enqueue, Restarted, Pipelines.Get, Pipelines.Put;
    match s.pc
    case Sending(_, _) =>
      Delivers(cfg, s, Done);
    case _ =>
      if s.queue != [] {
        TakeOnly(s, false);
      }
  }

  /** A serving worker comes to an empty queue. */
  lemma {:induction false} Settles<M>(cfg: Config, s: Sys<M>) returns (path: seq<Action<M>>)
    requires Serving(s)
    ensures Proper(cfg, s, path) && |path| <= Behind(s) && forall k :: 0 <= k < |path| ==> Clean(path[k])
    ensures var n := Exec(cfg, s, path);
      n.pc.Selecting? && n.queue == [] && n.past == s.past && n.enqueued == s.enqueued && n.prods == s.prods
    decreases Behind(s)
  {
    hide Step, Enabled, Behind, Onto, Clean, Serving;
    if s.pc.Selecting? && s.queue == [] {
      path := [];
    } else {
      StepsOnto(cfg, s);
      var a := Onto(s);
      var more := Settles(cfg, Step(cfg, s, a));
      path := [a] + more;
      assert path[1..] == more;
    }
  }

  /** So a producer of a serving instance need not wait for ever: at most 3n + 2 steps of the worker make room
      for it. */
  lemma {:induction false} WaitEnds<M>(cfg: Config, s: Sys<M>, p: nat) returns (path: seq<Action<M>>)
    requires Serving(s) && cfg.capacity > 0 && p < |s.prods| && s.prods[p].Blocked?
    ensures Proper(cfg, s, path) && |path| <= 3 * |s.queue| + 2 && Enabled(cfg, Exec(cfg, s, path), Unblock(p))
  {
    path := Settles(cfg, s);
    hide Exec;
  }

  /** The ticker's flush, with an empty queue. */
  lemma {:induction false} TickDelivers<M>(cfg: Config, s: Sys<M>, calls: Calls, found: seq<M>)
    requires s.pc.Selecting? && s.queue == [] && Fifo(cfg, s) && Ordered(s, found) && calls.first == Done
    ensures var n := Step(cfg, s, Tick(calls));
      Received(n.worker.peer) == found + (s.past + s.enqueued) && !n.worker.fb && !n.worker.dir.writing
  {
    hide Ordered, Flushed, Received, Fifo, Step, Tidy;
    var n := Step(cfg, s, Tick(calls));
    Ticked(cfg, s, calls);
    AllTaken(cfg, s);
    OrderedTidy(s, found);
    EndsFallback(cfg, s.worker, calls);
    TicksOrdered(cfg, s, calls, found);
    OrderedSays(n, found);
    assert Received(n.worker.peer) + [] == Received(n.worker.peer);
  }

  lemma Ticked<M>(cfg: Config, s: Sys<M>, calls: Calls)
    requires s.pc.Selecting?
    ensures Step(cfg, s, Tick(calls)) == s.(worker := Flushed(cfg, s.worker, calls), pc := Polling)
  {
    hide Flushed;
  }

  lemma OrderedTidy<M>(s: Sys<M>, found: seq<M>)
    requires Ordered(s, found) && !s.pc.Starting?
    ensures Tidy(s.worker)
  {
  }

  lemma EndsFallback<M>(cfg: Config, w: Worker<M>, calls: Calls)
    requires Tidy(w) && calls.first == Done
    ensures !Flushed(cfg, w, calls).fb
  {
    FlushInOrder(w, cfg.reconnector, calls.reconnects, calls.second);
    hide Flush, Tidy;
  }

  lemma AllTaken<M>(cfg: Config, s: Sys<M>)
    requires Fifo(cfg, s) && s.queue == []
    ensures s.dequeued == s.enqueued
  {
  }

  /** From any moment of a clean run before the worker drains, at most 3n + 3 steps of the worker bring the
      peer everything the files held at first and everything queued since, in order, however much of it the
      fallback holds; the worker is then back in direct mode. */
  lemma {:induction false} CatchesUpAnytime<M>(
    cfg: Config, producers: nat, files: map<Name, seq<seq<M>>>, actions: seq<Action<M>>)
    returns (path: seq<Action<M>>, calls: Calls)
    requires cfg.behavior == Fallback && forall k :: 0 <= k < |actions| ==> Clean(actions[k])
    requires Serving(Exec(cfg, First(producers, files), actions))
    ensures var s := Exec(cfg, First(producers, files), actions);
      && Proper(cfg, s, path) && |path| <= 3 * |s.queue| + 2
      && Enabled(cfg, Exec(cfg, s, path), Tick(calls))
      && var n := Step(cfg, Exec(cfg, s, path), Tick(calls));
        Received(n.worker.peer) == Arranged(NewDir(files)) + (s.past + s.enqueued) && !n.worker.fb
  {
    hide Exec, Ordered, FilesClosed, Clean, Conserved, Arranged, Received, Fifo, Orderly;
    var s, found := Exec(cfg, First(producers, files), actions), Arranged(NewDir(files));
    FirstStates(cfg, producers, files);
    FirstOrderly(cfg, producers, files);
    RunsOrderly(cfg, First(producers, files), actions);
    RunsOrdered(cfg, First(producers, files), actions, found);
    RunsFilesClosed(cfg, First(producers, files), actions);
    path := Settles(cfg, s);
    RunsOrdered(cfg, s, path, found);
    RunsFifo(cfg, s, path);
    calls := Calls(Done, true, Done);
    TickDelivers(cfg, Exec(cfg, s, path), calls, found);
    hide Step;
  }

  lemma {:induction false} RunsFilesClosed<M>(cfg: Config, s: Sys<M>, actions: seq<Action<M>>)
    requires FilesClosed(s)
    ensures FilesClosed(Exec(cfg, s, actions))
    decreases actions
  {
    hide FilesClosed, Step, Enabled;
    if actions != [] {
      if Enabled(cfg, s, actions[0]) {
        StepFilesClosed(cfg, s, actions[0]);
        RunsFilesClosed(cfg, Step(cfg, s, actions[0]), actions[1..]);
      } else {
        RunsFilesClosed(cfg, s, actions[1..]);
      }
    }
  }
}
