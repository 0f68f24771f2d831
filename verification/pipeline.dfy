/** Producers, the bounded queue, the worker goroutine and Close as a transition system: every
    interleaving, every outcome of the client's calls, and new starts over the same directory. */
module Pipelines {
  import opened Results
  import opened DirBuffers
  import opened Workers

  /** A buffer of the pool with the message built in it. */
  datatype Buf<+M> = Buf(id: nat, m: M)

  /** A goroutine that logs: it holds an empty buffer behind the closed check, or waits for the queue. */
  datatype Producer<+M> = Idle | Building(id: nat) | Blocked(buf: Buf<M>)

  datatype Pc<+M> = Starting | Polling | Selecting | Sending(buf: Buf<M>, draining: bool) | Draining | Exited

  datatype Closer = Open | Closing | FallbackClosed | Closed

  datatype Config = Config(capacity: nat, behavior: Behavior, reconnector: bool)

  /** The ends of a flush's client calls. */
  datatype Calls = Calls(first: Outcome, reconnects: bool, second: Outcome)

  /** The instance: queue, producers, the field buffers loggers hold, pool (next is the first buffer not made
      yet), worker and Close. mark is the length of enqueued when Close began. Histories of this life: messages
      submitted to the queue, enqueued, dequeued and dropped, buffers got and put back; past is what earlier
      lives dequeued, promised what they had enqueued when their Close began. */
  datatype Sys<M> = Sys(
    queue: seq<Buf<M>>, prods: seq<Producer<M>>, held: multiset<nat>, pool: multiset<nat>, next: nat,
    pc: Pc<M>, worker: Worker<M>, closer: Closer, mark: nat,
    submitted: multiset<M>, enqueued: seq<M>, dequeued: seq<M>, dropped: seq<M>,
    gets: multiset<nat>, puts: multiset<nat>, past: seq<M>, promised: seq<M>)

  datatype Action<+M> =
    | Start(p: nat, pooled: Option<nat>)
    | With(pooled: Option<nat>)
    | Release(id: nat)
    | Queue(p: nat, m: M)
    | Unblock(p: nat)
    | Init(calls: Calls)
    | Poll
    | Receive
    | Tick(calls: Calls)
    | SeeClose
    | Drain
    | Deliver(o: Outcome)
    | CloseBegin
    | CloseFallback
    | CloseClient
    | Restart

  predicate Enabled<M(==)>(cfg: Config, s: Sys<M>, a: Action<M>) {
    match a
    case Start(p, pooled) =>
      p < |s.prods| && s.prods[p].Idle? && s.closer == Open && (pooled.Some? ==> pooled.value in s.pool)
    case With(pooled) => pooled.Some? ==> pooled.value in s.pool
    case Release(id) => id in s.held
    case Queue(p, _) => p < |s.prods| && s.prods[p].Building?
    case Unblock(p) => p < |s.prods| && s.prods[p].Blocked? && |s.queue| < cfg.capacity
    case Init(_) => s.pc.Starting?
    case Poll => s.pc.Polling?
    case Receive => s.pc.Selecting? && s.queue != []
    case Tick(_) => s.pc.Selecting?
    case SeeClose => s.pc.Selecting? && s.closer != Open
    case Drain => s.pc.Draining?
    case Deliver(_) => s.pc.Sending?
    case CloseBegin => s.closer == Open
    case CloseFallback => s.closer == Closing && s.pc.Exited?
    case CloseClient => s.closer == FallbackClosed
    case Restart => s.closer == Closed
  }

  function Take<M>(s: Sys<M>, draining: bool): Sys<M>
    requires s.queue != []
  {
    s.(queue := s.queue[1..], dequeued := s.dequeued + [s.queue[0].m], pc := Sending(s.queue[0], draining))
  }

  /** The buffer the pool gives: one that was put back, or a new one. */
  function Got<M>(s: Sys<M>, pooled: Option<nat>): nat {
    if pooled.Some? then pooled.value else s.next
  }

  function Get<M>(s: Sys<M>, pooled: Option<nat>): Sys<M> {
    var id := Got(s, pooled);
    s.(gets := s.gets + multiset{id}, pool := s.pool - multiset{id},
       next := if pooled.Some? then s.next else s.next + 1)
  }

  function Put<M>(s: Sys<M>, id: nat): Sys<M> {
    s.(pool := s.pool + multiset{id}, puts := s.puts + multiset{id})
  }

  function Enqueue<M>(s: Sys<M>, p: nat, buf: Buf<M>): Sys<M>
    requires p < |s.prods|
  {
    s.(prods := s.prods[p := Idle], queue := s.queue + [buf], enqueued := s.enqueued + [buf.m])
  }

  /** queueMessage, its first select. */
  function TryQueue<M>(cfg: Config, s: Sys<M>, p: nat, buf: Buf<M>): Sys<M>
    requires p < |s.prods|
  {
    var n := s.(submitted := s.submitted + multiset{buf.m});
    if |s.queue| < cfg.capacity then Enqueue(n, p, buf)
    else if cfg.behavior == Loose then Put(n.(prods := n.prods[p := Idle], dropped := n.dropped + [buf.m]), buf.id)
    else n.(prods := n.prods[p := Blocked(buf)])
  }

  function Flushed<M>(cfg: Config, w: Worker<M>, calls: Calls): Worker<M> {
    Flush(w, cfg.reconnector, calls.first, calls.reconnects, calls.second).0
  }

  /** A new process over the directory: nothing but the files survives. */
  function Restarted<M>(s: Sys<M>): Sys<M> {
    Sys([], seq(|s.prods|, _ => Idle), multiset{}, multiset{}, 0, Starting,
        s.worker.(fb := false, dir := NewDir(s.worker.dir.files)), Open, 0,
        multiset{}, [], [], [], multiset{}, multiset{}, s.past + s.dequeued, s.promised + UpTo(s.enqueued, s.mark))
  }

  function Step<M>(cfg: Config, s: Sys<M>, a: Action<M>): Sys<M>
    requires Enabled(cfg, s, a)
  {
    match a
    case Start(p, pooled) => Get(s, pooled).(prods := s.prods[p := Building(Got(s, pooled))])
    case With(pooled) => Get(s, pooled).(held := s.held + multiset{Got(s, pooled)})
    case Release(id) => Put(s.(held := s.held - multiset{id}), id)
    case Queue(p, m) => TryQueue(cfg, s, p, Buf(s.prods[p].id, m))
    case Unblock(p) => Enqueue(s, p, s.prods[p].buf)
    case Init(calls) => s.(worker := Flushed(cfg, MaybeSetFb(s.worker, cfg.behavior), calls), pc := Polling)
    case Poll => if s.queue != [] then Take(s, false) else s.(pc := Selecting)
    case Receive => Take(s, false)
    case Tick(calls) => s.(worker := Flushed(cfg, s.worker, calls), pc := Polling)
    case SeeClose => s.(pc := Draining)
    case Drain => if s.queue != [] then Take(s, true) else s.(pc := Exited)
    case Deliver(o) =>
      Put(s.(worker := Send(s.worker, cfg.behavior, s.pc.buf.m, o), pc := if s.pc.draining then Draining else Polling),
          s.pc.buf.id)
    case CloseBegin => s.(closer := Closing, mark := |s.enqueued|)
    case CloseFallback => s.(closer := FallbackClosed, worker := s.worker.(dir := DirBuffers.Closed(s.worker.dir)))
    case CloseClient => s.(closer := Closed)
    case Restart => Restarted(s)
  }

  /** A run: actions that are not enabled when their turn comes are passed over. */
  function Exec<M(==)>(cfg: Config, s: Sys<M>, actions: seq<Action<M>>): Sys<M>
    decreases actions
  {
    if actions == [] then s
    else Exec(cfg, if Enabled(cfg, s, actions[0]) then Step(cfg, s, actions[0]) else s, actions[1..])
  }

  /** A first start with some producers over a directory with any two files. */
  function First<M>(producers: nat, files: map<Name, seq<seq<M>>>): Sys<M> {
    Sys([], seq(producers, _ => Idle), multiset{}, multiset{}, 0, Starting,
        Worker(false, NewDir(files), [], [], []), Open, 0, multiset{}, [], [], [], multiset{}, multiset{}, [], [])
  }

  // The queue

  function Messages<M>(queue: seq<Buf<M>>): seq<M> {
    if queue == [] then [] else [queue[0].m] + Messages(queue[1..])
  }

  lemma {:induction false} MessagesMore<M>(queue: seq<Buf<M>>, buf: Buf<M>)
    ensures Messages(queue + [buf]) == Messages(queue) + [buf.m]
  {
    if queue == [] {
      assert queue + [buf] == [buf];
    } else {
      assert (queue + [buf])[1..] == queue[1..] + [buf];
      MessagesMore(queue[1..], buf);
    }
  }

  lemma {:induction false} MessagesSize<M>(queue: seq<Buf<M>>)
    ensures |Messages(queue)| == |queue|
  {
    if queue != [] {
      MessagesSize(queue[1..]);
    }
  }

  function BlockedOf<M>(p: Producer<M>): multiset<M> {
    if p.Blocked? then multiset{p.buf.m} else multiset{}
  }

  /** What the producers hold together, each what f says. */
  function Sum<M, T>(f: Producer<M> -> multiset<T>, prods: seq<Producer<M>>): multiset<T> {
    if prods == [] then multiset{} else Sum(f, prods[..|prods| - 1]) + f(prods[|prods| - 1])
  }

  lemma {:induction false} SumUpdate<M, T>(f: Producer<M> -> multiset<T>, prods: seq<Producer<M>>, p: nat,
                                           x: Producer<M>)
    requires p < |prods|
    ensures Sum(f, prods[p := x]) + f(prods[p]) == Sum(f, prods) + f(x)
  {
    var n := |prods| - 1;
    var last := f(prods[n]);
    if p == n {
      assert prods[p := x][..n] == prods[..n];
    } else {
      assert prods[p := x][..n] == prods[..n][p := x];
      SumUpdate(f, prods[..n], p, x);
      var a, b := Sum(f, prods[..n][p := x]), Sum(f, prods[..n]);
      assert a + last + f(prods[p]) == (a + f(prods[p])) + last;
      assert b + last + f(x) == (b + f(x)) + last;
    }
  }

  lemma {:induction false} SumOfIdle<M, T>(f: Producer<M> -> multiset<T>, prods: seq<Producer<M>>)
    requires f(Idle) == multiset{} && forall p :: 0 <= p < |prods| ==> prods[p].Idle?
    ensures Sum(f, prods) == multiset{}
  {
    if prods != [] {
      SumOfIdle(f, prods[..|prods| - 1]);
    }
  }

  lemma PlusNone<T>(a: multiset<T>)
    ensures a + multiset{} == a
  {
  }

  /** The messages of the blocked producers. */
  function BlockedAll<M>(prods: seq<Producer<M>>): multiset<M> {
    Sum(p => BlockedOf(p), prods)
  }

  lemma BlockedUpdate<M>(prods: seq<Producer<M>>, p: nat, x: Producer<M>)
    requires p < |prods|
    ensures BlockedAll(prods[p := x]) + BlockedOf(prods[p]) == BlockedAll(prods) + BlockedOf(x)
    ensures BlockedOf(prods[p]) == multiset{} ==> BlockedAll(prods[p := x]) == BlockedAll(prods) + BlockedOf(x)
  {
    SumUpdate(p => BlockedOf(p), prods, p, x);
    PlusNone(BlockedAll(prods[p := x]));
  }

  /** Messages leave the queue in the order they entered it, the queue keeps its bound, and every message
      submitted entered, was dropped, or waits. */
  ghost predicate Fifo<M>(cfg: Config, s: Sys<M>) {
    && s.enqueued == s.dequeued + Messages(s.queue) && |s.queue| <= cfg.capacity
    && s.submitted == multiset(s.enqueued) + multiset(s.dropped) + BlockedAll(s.prods)
    && (cfg.behavior != Loose ==> s.dropped == [])
  }

  lemma EnqueueFifo<M>(cfg: Config, s: Sys<M>, p: nat, buf: Buf<M>)
    requires p < |s.prods| && |s.queue| < cfg.capacity
    requires s.enqueued == s.dequeued + Messages(s.queue) && (cfg.behavior != Loose ==> s.dropped == [])
    requires s.submitted + BlockedOf(s.prods[p])
          == multiset(s.enqueued) + multiset(s.dropped) + BlockedAll(s.prods) + multiset{buf.m}
    ensures Fifo(cfg, Enqueue(s, p, buf))
  {
    hide BlockedAll, BlockedOf, Messages;
    MessagesMore(s.queue, buf);
    Regroup(s.dequeued, Messages(s.queue), [buf.m]);
    BlockedUpdate(s.prods, p, Idle);
    assert BlockedOf<M>(Idle) == multiset{} by { NotBlocked<M>(Idle); }
    Cancel(s.submitted, BlockedOf(s.prods[p]), multiset(s.enqueued), multiset(s.dropped), BlockedAll(s.prods),
           BlockedAll(s.prods[p := Idle]), buf.m);
    assert multiset(s.enqueued + [buf.m]) == multiset(s.enqueued) + multiset{buf.m};
  }

  lemma NotBlocked<M>(p: Producer<M>)
    ensures !p.Blocked? ==> BlockedOf(p) == multiset{}
    ensures p.Blocked? ==> BlockedOf(p) == multiset{p.buf.m}
  {
  }

  lemma Cancel<M>(sub: multiset<M>, was: multiset<M>, enq: multiset<M>, drop: multiset<M>, all: multiset<M>,
                  rest: multiset<M>, m: M)
    requires sub + was == enq + drop + all + multiset{m} && rest + was == all
    ensures sub == enq + multiset{m} + drop + rest
  {
    forall x
      ensures sub[x] == (enq + multiset{m} + drop + rest)[x]
    {
      assert (sub + was)[x] == (enq + drop + all + multiset{m})[x];
      assert (rest + was)[x] == all[x];
    }
  }

  lemma TakeFifo<M>(cfg: Config, s: Sys<M>, draining: bool)
    requires Fifo(cfg, s) && s.queue != []
    ensures Fifo(cfg, Take(s, draining))
  {
    hide BlockedAll;
    Regroup(s.dequeued, [s.queue[0].m], Messages(s.queue[1..]));
  }

  lemma TryQueueFifo<M>(cfg: Config, s: Sys<M>, p: nat, buf: Buf<M>)
    requires Fifo(cfg, s) && p < |s.prods| && s.prods[p].Building?
    ensures Fifo(cfg, TryQueue(cfg, s, p, buf))
  {
    hide BlockedAll, BlockedOf, Messages;
    NotBlocked(s.prods[p]);
    NotBlocked<M>(Idle);
    NotBlocked(Blocked(buf));
    if |s.queue| < cfg.capacity {
      EnqueueFifo(cfg, s.(submitted := s.submitted + multiset{buf.m}), p, buf);
    } else {
      BlockedUpdate(s.prods, p, Idle);
      BlockedUpdate(s.prods, p, Blocked(buf));
      PlusNone(BlockedAll(s.prods));
      assert multiset(s.dropped + [buf.m]) == multiset(s.dropped) + multiset{buf.m};
    }
  }

  lemma StepFifo<M>(cfg: Config, s: Sys<M>, a: Action<M>)
    requires Fifo(cfg, s) && Enabled(cfg, s, a)
    ensures Fifo(cfg, Step(cfg, s, a))
  {
    hide BlockedAll, BlockedOf, Messages, Enqueue, TryQueue, Take, Flushed, Send, MaybeSetFb, DirBuffers.Closed;
    match a
    case Start(p, pooled) =>
      var x: Producer<M> := Building(if pooled.Some? then pooled.value else s.next);
      NotBlocked(s.prods[p]);
      NotBlocked(x);
      BlockedUpdate(s.prods, p, x);
      PlusNone(BlockedAll(s.prods));
    case Queue(p, m) =>
      TryQueueFifo(cfg, s, p, Buf(s.prods[p].id, m));
    case Unblock(p) =>
      NotBlocked(s.prods[p]);
      EnqueueFifo(cfg, s, p, s.prods[p].buf);
    case Poll =>
      if s.queue != [] {
        TakeFifo(cfg, s, false);
      }
    case Receive =>
      TakeFifo(cfg, s, false);
    case Drain =>
      if s.queue != [] {
        TakeFifo(cfg, s, true);
      }
    case Restart =>
      FreshFifo(cfg, Restarted(s));
    case _ =>
  }

  lemma FreshFifo<M>(cfg: Config, s: Sys<M>)
    requires s.queue == [] && s.enqueued == [] && s.dequeued == [] && s.dropped == [] && s.submitted == multiset{}
    requires forall p :: 0 <= p < |s.prods| ==> s.prods[p].Idle?
    ensures Fifo(cfg, s)
  {
    SumOfIdle(p => BlockedOf(p), s.prods);
  }

  /** In every run messages leave the queue as a prefix of the order they entered it, and with Block or
      Fallback every message submitted has entered it or waits for it. */
  lemma {:induction false} RunsFifo<M>(cfg: Config, s: Sys<M>, actions: seq<Action<M>>)
    requires Fifo(cfg, s)
    ensures Fifo(cfg, Exec(cfg, s, actions))
    ensures Exec(cfg, s, actions).dequeued <= Exec(cfg, s, actions).enqueued
    decreases actions
  {
    if actions != [] {
      if Enabled(cfg, s, actions[0]) {
        StepFifo(cfg, s, actions[0]);
        RunsFifo(cfg, Step(cfg, s, actions[0]), actions[1..]);
      } else {
        RunsFifo(cfg, s, actions[1..]);
      }
    }
  }

  /** A message is dropped only by a Loose instance whose queue holds exactly as many as it can. */
  lemma {:induction false} DropsWhenFull<M>(cfg: Config, files: map<Name, seq<seq<M>>>, producers: nat,
                                            actions: seq<Action<M>>, a: Action<M>)
    requires Enabled(cfg, Exec(cfg, First(producers, files), actions), a) && !a.Restart?
    ensures var s := Exec(cfg, First(producers, files), actions);
      Step(cfg, s, a).dropped != s.dropped ==> cfg.behavior == Loose && |s.queue| == cfg.capacity
  {
    hide Exec, Step, Enabled, Fifo;
    FreshFifo(cfg, First(producers, files));
    RunsFifo(cfg, First(producers, files), actions);
    DropsOnly(cfg, Exec(cfg, First(producers, files), actions), a);
  }

  lemma {:induction false} DropsOnly<M>(cfg: Config, s: Sys<M>, a: Action<M>)
    requires Fifo(cfg, s) && Enabled(cfg, s, a) && !a.Restart?
    ensures Step(cfg, s, a).dropped != s.dropped ==> cfg.behavior == Loose && |s.queue| == cfg.capacity
  {
    assert |s.queue| <= cfg.capacity;
    hide Fifo, Messages, Flushed, Send, MaybeSetFb, DirBuffers.Closed;
  }

  /** A full queue makes the producer of a Block or Fallback instance wait, until there is room again. */
  lemma {:induction false} FullQueueBlocks<M>(cfg: Config, s: Sys<M>, p: nat, m: M)
    requires Enabled(cfg, s, Queue(p, m))
    ensures var n := Step(cfg, s, Queue(p, m));
      && (n.prods[p].Blocked? <==> |s.queue| >= cfg.capacity && cfg.behavior != Loose)
      && (n.prods[p].Blocked? ==> n.worker == s.worker && !Enabled(cfg, n, Unblock(p)))
  {
  }

  /** A waiting producer goes on exactly when its message enters the queue, or with a new process. */
  lemma {:induction false} StepBlocked<M>(cfg: Config, s: Sys<M>, a: Action<M>, p: nat)
    requires p < |s.prods| && s.prods[p].Blocked? && Enabled(cfg, s, a)
    ensures var n := Step(cfg, s, a);
      p < |n.prods| && (n.prods[p] == s.prods[p] <==> a != Unblock(p) && !a.Restart?)
  {
    hide Flushed, Send, MaybeSetFb, DirBuffers.Closed, TryQueue, Get, Take;
    match a
    case Queue(q, m) =>
      QueueLeaves(cfg, s, q, Buf(s.prods[q].id, m));
    case Start(q, pooled) =>
      GetLeaves(s, pooled);
    case With(pooled) =>
      GetLeaves(s, pooled);
    case _ =>
      if s.queue != [] {
        TakeLeaves(s, a.Drain?);
      }
  }

  lemma QueueLeaves<M>(cfg: Config, s: Sys<M>, q: nat, buf: Buf<M>)
    requires q < |s.prods|
    ensures |TryQueue(cfg, s, q, buf).prods| == |s.prods|
    ensures forall p :: 0 <= p < |s.prods| && p != q ==> TryQueue(cfg, s, q, buf).prods[p] == s.prods[p]
  {
  }

  lemma GetLeaves<M>(s: Sys<M>, pooled: Option<nat>)
    ensures Get(s, pooled).prods == s.prods
  {
  }

  lemma TakeLeaves<M>(s: Sys<M>, draining: bool)
    requires s.queue != []
    ensures Take(s, draining).prods == s.prods
  {
  }

  /** The queue has no room at any action of a run, and there is no new process. */
  predicate NeverRoom<M(==)>(cfg: Config, s: Sys<M>, actions: seq<Action<M>>)
    decreases actions
  {
    actions != [] ==>
      && |s.queue| >= cfg.capacity && !actions[0].Restart?
      && NeverRoom(cfg, if Enabled(cfg, s, actions[0]) then Step(cfg, s, actions[0]) else s, actions[1..])
  }

  /** So in every run a producer that waits goes on waiting while the queue has no room. */
  lemma {:induction false} RunsBlocked<M>(cfg: Config, s: Sys<M>, actions: seq<Action<M>>, p: nat)
    requires p < |s.prods| && s.prods[p].Blocked? && NeverRoom(cfg, s, actions)
    ensures p < |Exec(cfg, s, actions).prods| && Exec(cfg, s, actions).prods[p] == s.prods[p]
    decreases actions
  {
    if actions != [] {
      if Enabled(cfg, s, actions[0]) {
        assert actions[0] != Unblock(p);
        StepBlocked(cfg, s, actions[0], p);
        RunsBlocked(cfg, Step(cfg, s, actions[0]), actions[1..], p);
      } else {
        RunsBlocked(cfg, s, actions[1..], p);
      }
      hide Step;
    }
  }

  // Buffers

  function IdOf<M>(p: Producer<M>): multiset<nat> {
    match p
    case Idle => multiset{}
    case Building(id) => multiset{id}
    case Blocked(buf) => multiset{buf.id}
  }

  function Ids<M>(prods: seq<Producer<M>>): multiset<nat> {
    Sum(p => IdOf(p), prods)
  }

  function QueueIds<M>(queue: seq<Buf<M>>): multiset<nat> {
    if queue == [] then multiset{} else multiset{queue[0].id} + QueueIds(queue[1..])
  }

  function HandId<M>(pc: Pc<M>): multiset<nat> {
    if pc.Sending? then multiset{pc.buf.id} else multiset{}
  }

  /** In the worker's hand, and with the loggers. */
  function Aside<M>(s: Sys<M>): multiset<nat> {
    HandId(s.pc) + s.held
  }

  /** The buffers outside the pool: with producers, in the queue, in the worker's hand, with loggers. */
  function Out<M>(s: Sys<M>): multiset<nat> {
    Ids(s.prods) + (QueueIds(s.queue) + Aside(s))
  }

  /** Each buffer made so far is in exactly one place, and each time one was got from the pool it was put
      back once, or is still out. */
  ghost predicate Owned<M>(s: Sys<M>) {
    && (forall id: nat :: (s.pool + Out(s))[id] == if id < s.next then 1 else 0)
    && s.gets == s.puts + Out(s)
  }

  lemma IdsUpdate<M>(prods: seq<Producer<M>>, p: nat, x: Producer<M>)
    requires p < |prods|
    ensures Ids(prods[p := x]) + IdOf(prods[p]) == Ids(prods) + IdOf(x)
    ensures IdOf(prods[p]) == multiset{} ==> Ids(prods[p := x]) == Ids(prods) + IdOf(x)
  {
    SumUpdate(p => IdOf(p), prods, p, x);
    PlusNone(Ids(prods[p := x]));
  }

  lemma {:induction false} QueueIdsMore<M>(queue: seq<Buf<M>>, buf: Buf<M>)
    ensures QueueIds(queue + [buf]) == QueueIds(queue) + multiset{buf.id}
  {
    if queue == [] {
      assert queue + [buf] == [buf];
    } else {
      assert (queue + [buf])[1..] == queue[1..] + [buf];
      QueueIdsMore(queue[1..], buf);
    }
  }

  /** Passing a buffer on between producers, queue and worker leaves the buffers outside as they are. */
  lemma MovesOwned<M>(s: Sys<M>, n: Sys<M>)
    requires Owned(s) && Out(n) == Out(s)
    requires n.pool == s.pool && n.next == s.next && n.gets == s.gets && n.puts == s.puts
    ensures Owned(n)
  {
  }

  /** A buffer put back leaves the outside for the pool. */
  lemma PutOwned<M>(s: Sys<M>, n: Sys<M>, id: nat)
    requires Owned(s) && Out(n) + multiset{id} == Out(s)
    requires n.pool == s.pool + multiset{id} && n.puts == s.puts + multiset{id} && n.next == s.next && n.gets == s.gets
    ensures Owned(n)
  {
    hide Out;
    forall k: nat
      ensures (n.pool + Out(n))[k] == if k < n.next then 1 else 0
    {
      assert (Out(n) + multiset{id})[k] == Out(s)[k];
      assert (s.pool + Out(s))[k] == if k < s.next then 1 else 0;
    }
    assert n.puts + Out(n) == s.puts + (Out(n) + multiset{id});
  }

  /** A buffer got, from the pool or new, leaves the pool for the outside. */
  lemma GetOwned<M>(s: Sys<M>, n: Sys<M>, id: nat)
    requires Owned(s) && Out(n) == Out(s) + multiset{id} && n.gets == s.gets + multiset{id} && n.puts == s.puts
    requires n.pool == s.pool - multiset{id}
    requires if id in s.pool then n.next == s.next else id == s.next && n.next == s.next + 1
    ensures Owned(n)
  {
    hide Out;
    forall k: nat
      ensures (n.pool + Out(n))[k] == if k < n.next then 1 else 0
    {
      assert (s.pool + Out(s))[k] == if k < s.next then 1 else 0;
    }
  }

  lemma EnqueueOut<M>(s: Sys<M>, p: nat, buf: Buf<M>)
    requires p < |s.prods| && IdOf(s.prods[p]) == multiset{buf.id}
    ensures Out(Enqueue(s, p, buf)) == Out(s)
  {
    IdsUpdate(s.prods, p, Idle);
    QueueIdsMore(s.queue, buf);
    hide Ids, QueueIds;
    var left, moved := Ids(s.prods[p := Idle]), multiset{buf.id};
    assert left + moved == Ids(s.prods);
    assert (left + moved) + (QueueIds(s.queue) + Aside(s)) == left + ((QueueIds(s.queue) + moved) + Aside(s));
  }

  lemma TakeOut<M>(s: Sys<M>, draining: bool)
    requires s.queue != [] && !s.pc.Sending?
    ensures Out(Take(s, draining)) == Out(s)
  {
    hide Ids;
  }

  lemma {:induction false} QueueOwned<M>(cfg: Config, s: Sys<M>, p: nat, buf: Buf<M>)
    requires Owned(s) && p < |s.prods| && s.prods[p] == Building(buf.id)
    ensures Owned(TryQueue(cfg, s, p, buf))
  {
    hide Owned, Out;
    var n := TryQueue(cfg, s, p, buf);
    if |s.queue| < cfg.capacity {
      var t := s.(submitted := s.submitted + multiset{buf.m});
      SameOut(s, t);
      MovesOwned(s, t);
      EnqueueOwned(t, p, buf);
    } else if cfg.behavior == Loose {
      ProducerOut(s, n, p, Idle);
      PlusNone(Out(s));
      PutOwned(s, n, buf.id);
    } else {
      ProducerOut(s, n, p, Blocked(buf));
      SameLeft(Out(n), Out(s), multiset{buf.id});
      MovesOwned(s, n);
    }
  }

  /** A producer's change of place. */
  lemma {:induction false} ProducerOut<M>(s: Sys<M>, n: Sys<M>, p: nat, x: Producer<M>)
    requires p < |s.prods| && n.prods == s.prods[p := x] && n.queue == s.queue && Aside(n) == Aside(s)
    ensures Out(n) + IdOf(s.prods[p]) == Out(s) + IdOf(x)
  {
    IdsUpdate(s.prods, p, x);
    hide Ids, QueueIds, Aside, IdOf;
    AroundSum(Ids(n.prods), IdOf(s.prods[p]), Ids(s.prods), IdOf(x), QueueIds(s.queue) + Aside(s));
  }

  lemma AroundSum<T>(a: multiset<T>, b: multiset<T>, c: multiset<T>, d: multiset<T>, rest: multiset<T>)
    requires a + b == c + d
    ensures (a + rest) + b == (c + rest) + d
  {
    assert (a + rest) + b == (a + b) + rest;
    assert (c + rest) + d == (c + d) + rest;
  }

  lemma SameLeft<T>(a: multiset<T>, b: multiset<T>, c: multiset<T>)
    requires a + c == b + c
    ensures a == b
  {
    forall x
      ensures a[x] == b[x]
    {
      assert (a + c)[x] == (b + c)[x];
    }
  }

  lemma {:induction false} StartOwned<M>(s: Sys<M>, p: nat, pooled: Option<nat>)
    requires Owned(s) && p < |s.prods| && s.prods[p].Idle? && (pooled.Some? ==> pooled.value in s.pool)
    ensures Owned(Get(s, pooled).(prods := s.prods[p := Building(Got(s, pooled))]))
  {
    var id := Got(s, pooled);
    var n := Get(s, pooled).(prods := s.prods[p := Building(id)]);
    NotPooled(s);
    ProducerOut(s, n, p, Building(id));
    hide Owned, Out;
    PlusNone(Out(n));
    GetOwned(s, n, id);
  }

  lemma {:induction false} WithOwned<M>(s: Sys<M>, pooled: Option<nat>)
    requires Owned(s) && (pooled.Some? ==> pooled.value in s.pool)
    ensures Owned(Get(s, pooled).(held := s.held + multiset{Got(s, pooled)}))
  {
    var id := Got(s, pooled);
    var n := Get(s, pooled).(held := s.held + multiset{id});
    NotPooled(s);
    assert Aside(n) == Aside(s) + multiset{id};
    AsideOut(n, s, id);
    hide Owned, Out, Aside;
    GetOwned(s, n, id);
  }

  lemma {:induction false} ReleaseOwned<M>(s: Sys<M>, id: nat)
    requires Owned(s) && id in s.held
    ensures Owned(Put(s.(held := s.held - multiset{id}), id))
  {
    var n := Put(s.(held := s.held - multiset{id}), id);
    assert Aside(n) + multiset{id} == Aside(s);
    AsideOut(s, n, id);
    hide Owned, Out, Aside;
    PutOwned(s, n, id);
  }

  lemma {:induction false} DeliverOwned<M>(s: Sys<M>, w: Worker<M>, pc: Pc<M>)
    requires Owned(s) && s.pc.Sending? && !pc.Sending?
    ensures Owned(Put(s.(worker := w, pc := pc), s.pc.buf.id))
  {
    var n := Put(s.(worker := w, pc := pc), s.pc.buf.id);
    assert Aside(n) + multiset{s.pc.buf.id} == Aside(s);
    AsideOut(s, n, s.pc.buf.id);
    hide Owned, Out, Aside;
    PutOwned(s, n, s.pc.buf.id);
  }

  lemma SameOut<M>(s: Sys<M>, n: Sys<M>)
    requires n.prods == s.prods && n.queue == s.queue && Aside(n) == Aside(s)
    ensures Out(n) == Out(s)
  {
  }

  /** What is aside changes by a buffer. */
  lemma {:induction false} AsideOut<M>(s: Sys<M>, n: Sys<M>, id: nat)
    requires n.prods == s.prods && n.queue == s.queue && Aside(n) + multiset{id} == Aside(s)
    ensures Out(n) + multiset{id} == Out(s)
  {
    hide Ids, QueueIds, Aside;
  }

  lemma {:induction false} StepOwned<M>(cfg: Config, s: Sys<M>, a: Action<M>)
    requires Owned(s) && Enabled(cfg, s, a)
    ensures Owned(Step(cfg, s, a))
  {
    hide Owned, Out, Get, Got, Put, TryQueue, Enqueue, Take, Restarted, Flushed, Send, MaybeSetFb, DirBuffers.Closed;
    match a
    case Start(p, pooled) =>
      StartOwned(s, p, pooled);
    case With(pooled) =>
      WithOwned(s, pooled);
    case Release(id) =>
      ReleaseOwned(s, id);
    case Queue(p, m) =>
      QueueOwned(cfg, s, p, Buf(s.prods[p].id, m));
    case Unblock(p) =>
      EnqueueOwned(s, p, s.prods[p].buf);
    case Poll =>
      LooksOwned(s, Step(cfg, s, a), false);
    case Receive =>
      TakeOwned(s, false);
    case Drain =>
      LooksOwned(s, Step(cfg, s, a), true);
    case Deliver(o) =>
      DeliverOwned(s, Send(s.worker, cfg.behavior, s.pc.buf.m, o), if s.pc.draining then Draining else Polling);
    case Restart =>
      RestartOwned(s);
    case _ =>
      SameOwned(s, Step(cfg, s, a));
  }

  lemma RestartOwned<M>(s: Sys<M>)
    ensures Owned(Restarted(s))
  {
    FreshOwned(Restarted(s));
  }

  lemma SameOwned<M>(s: Sys<M>, n: Sys<M>)
    requires Owned(s) && n.prods == s.prods && n.queue == s.queue && Aside(n) == Aside(s)
    requires n.pool == s.pool && n.next == s.next && n.gets == s.gets && n.puts == s.puts
    ensures Owned(n)
  {
    hide Owned, Out;
    SameOut(s, n);
    MovesOwned(s, n);
  }

  /** The worker looks into the queue. */
  lemma LooksOwned<M>(s: Sys<M>, n: Sys<M>, draining: bool)
    requires Owned(s) && !s.pc.Sending?
    requires if s.queue != [] then n == Take(s, draining) else n == s.(pc := n.pc) && !n.pc.Sending?
    ensures Owned(n)
  {
    hide Owned, Take;
    if s.queue != [] {
      TakeOwned(s, draining);
    } else {
      SameOwned(s, n);
    }
  }

  lemma EnqueueOwned<M>(s: Sys<M>, p: nat, buf: Buf<M>)
    requires Owned(s) && p < |s.prods| && IdOf(s.prods[p]) == multiset{buf.id}
    ensures Owned(Enqueue(s, p, buf))
  {
    hide Owned, Out;
    EnqueueOut(s, p, buf);
    MovesOwned(s, Enqueue(s, p, buf));
  }

  lemma TakeOwned<M>(s: Sys<M>, draining: bool)
    requires Owned(s) && s.queue != [] && !s.pc.Sending?
    ensures Owned(Take(s, draining))
  {
    hide Owned, Out;
    TakeOut(s, draining);
    MovesOwned(s, Take(s, draining));
  }

  lemma NotPooled<M>(s: Sys<M>)
    requires Owned(s)
    ensures s.next !in s.pool
  {
    assert (s.pool + Out(s))[s.next] == 0;
  }

  lemma FreshOwned<M>(s: Sys<M>)
    requires s.queue == [] && s.pc.Starting? && s.pool == multiset{} && s.held == multiset{} && s.next == 0
    requires s.gets == multiset{} && s.puts == multiset{}
    requires forall p :: 0 <= p < |s.prods| ==> s.prods[p].Idle?
    ensures Owned(s)
  {
    SumOfIdle(p => IdOf(p), s.prods);
  }

  /** In every run each buffer is in exactly one place and put back exactly once. */
  lemma {:induction false} RunsOwned<M>(cfg: Config, s: Sys<M>, actions: seq<Action<M>>)
    requires Owned(s)
    ensures Owned(Exec(cfg, s, actions))
    decreases actions
  {
    if actions != [] {
      if Enabled(cfg, s, actions[0]) {
        StepOwned(cfg, s, actions[0]);
        RunsOwned(cfg, Step(cfg, s, actions[0]), actions[1..]);
      } else {
        RunsOwned(cfg, s, actions[1..]);
      }
    }
  }
}
