/** A server's reading loop over the transport phase. */
module Sessions {
  import opened Results
  import opened Iterators
  import opened Transport
  import opened TransportPhases
  import opened Decoder

  /** The caller takes the event that was just returned and skips its record. */
  method Take(t: TransportPhase, iter: Iterator, e: Entry)
    requires t.Valid(iter) && Typestate(t.View(iter, e.Value())) && RecordLive(t.View(iter, e.Value()))
    requires e.record == t.Current(iter)
    modifies t`out, iter, t.packedIter, t.compIter
    ensures t.Valid(iter) && t.View(iter, e.Value()) == Taken(old(t.View(iter, e.Value())))
  {
    hide Skipped;
    var record := e.record;
    var start, pairs := record.pos, record.items;
    record.Skip();
    t.out := t.out + [Delivered(Event(e.tag, e.time, pairs, record.src[start..record.pos]))];
  }

  /** One turn of the loop. */
  lemma {:induction false} RunTurn(env: Env, ph: Phase)
    requires Typestate(ph)
    ensures Live(ph)
    ensures var (n, err) := Transport.Next(env, ph);
      if err.Some? then Run(env, ph) == (n.out, err.value)
      else
        && Typestate(n) && RecordLive(n) && Typestate(Taken(n)) && Run(env, ph) == Run(env, Taken(n))
        && (Unread(Taken(n)) < Unread(ph)
            || (Unread(Taken(n)) == Unread(ph) && SubUnread(Taken(n)) < SubUnread(ph)))
  {
    hide Transport.Next, Taken;
    NextOrderly(env, ph);
    var n := Transport.Next(env, ph).0;
    if Transport.Next(env, ph).1.None? {
      TakenSound(n);
    }
  }

  /** Next and Skip in turn until Next fails: what has gone out then is what Run says. */
  method Serve(t: TransportPhase, iter: Iterator, e: Entry) returns (err: Failure)
    requires t.Valid(iter) && Typestate(t.View(iter, e.Value()))
    modifies t, iter, e, t.packedIter, t.compIter
    ensures t.Valid(iter) && (t.out, err) == Run(t.env, old(t.View(iter, e.Value())))
  {
    hide Transport.Next, Taken, Run, Unread, SubUnread;
    ghost var start := t.View(iter, e.Value());
    while true
      invariant t.Valid(iter) && Typestate(t.View(iter, e.Value()))
      invariant t.packedIter == old(t.packedIter) || t.packedIter == null || fresh(t.packedIter)
      invariant t.compIter == old(t.compIter) || t.compIter == null || fresh(t.compIter)
      invariant Run(t.env, t.View(iter, e.Value())) == Run(t.env, start)
      decreases Unread(t.View(iter, e.Value())), SubUnread(t.View(iter, e.Value()))
    {
      ghost var before := t.View(iter, e.Value());
      RunTurn(t.env, before);
      var x := t.Next(iter, e);
      if x.Some? {
        return x.value;
      }
      Take(t, iter, e);
    }
  }
}
