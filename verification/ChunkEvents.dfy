/** The event queues of a chunk are the queues of mdevq.c: what happens to a chunk when it is walked onto
    and cleaned is what running those queues makes happen, call by call. */
module ChunkEvents {
  import opened Chunks
  import opened Delivery
  import Q = EventQueue

  // The callback of mddecoder.c that an event stands for, with the chunk as its data.
  function HandlerOf(e: Event): Q.Handler {
    Q.Handler(match e case StartTakeIn => 0 case DoneTakeIn => 1 case DoneTakeOut => 2, 0)
  }

  function EventOf(h: Q.Handler): Event {
    if h.callback == 0 then StartTakeIn else if h.callback == 1 then DoneTakeIn else DoneTakeOut
  }

  function HandlersOf(events: seq<Event>): (hs: seq<Q.Handler>)
    ensures |hs| == |events| && forall i :: 0 <= i < |hs| ==> hs[i] == HandlerOf(events[i])
  {
    seq(|events|, i requires 0 <= i < |events| => HandlerOf(events[i]))
  }

  // The queues hold the chunk's events.
  predicate Represents(q: Q.Queues, c: Chunk) {
    q.takeIn == HandlersOf(c.takeIn) && q.takeOut == HandlersOf(c.takeOut)
  }

  // What calling these handlers on a chunk, in order, does to it and makes the core operations hear.
  function Calls(c: Chunk, handlers: seq<Q.Handler>): (Chunk, seq<Callback>)
    decreases handlers
  {
    if handlers == [] then (c, [])
    else
      var (c1, cb) := RunEvent(c, EventOf(handlers[0]));
      var (c2, cbs) := Calls(c1, handlers[1..]);
      (c2, [cb] + cbs)
  }

  lemma {:induction false} RunEventsIsCalls(c: Chunk, events: seq<Event>)
    ensures RunEvents(c, events) == Calls(c, HandlersOf(events))
    decreases events
  {
    if events != [] {
      assert HandlersOf(events)[1..] == HandlersOf(events[1..]);
      RunEventsIsCalls(RunEvent(c, events[0]).0, events[1..]);
    }
  }

  /** A new chunk has empty queues, and attaching an event to a chunk is adding its handler to the queue
      of that type. */
  lemma AttachIsAdd(q: Q.Queues, c: Chunk, e: Event)
    ensures Represents(Q.Run([]), NewChunk(c.order))
    ensures Represents(q, c) ==>
              && Represents(Q.Apply(q, Q.AddEvent(Q.RunOnTakeIn, HandlerOf(e))), c.(takeIn := c.takeIn + [e]))
              && Represents(Q.Apply(q, Q.AddEvent(Q.RunOnTakeOut, HandlerOf(e))), c.(takeOut := c.takeOut + [e]))
  {
    assert HandlersOf(c.takeIn + [e]) == HandlersOf(c.takeIn) + [HandlerOf(e)];
    assert HandlersOf(c.takeOut + [e]) == HandlersOf(c.takeOut) + [HandlerOf(e)];
  }

  // All callbacks of mddecoder.c return zero.
  const SUCCEED: Q.Outcome := (past, h) => 0

  lemma {:induction false} NoError(past: seq<Q.Handler>, handlers: seq<Q.Handler>)
    ensures Q.FirstError(SUCCEED, past, handlers) == 0
    decreases |handlers|
  {
    if handlers != [] {
      NoError(past, handlers[..|handlers| - 1]);
    }
  }

  /** Walking onto a chunk is running its take-in queue: the handlers that leave the queue, called, in
      order, are those whose callbacks are heard, before the load itself; the queue is left empty and the
      run reports no error. */
  lemma LoadIsRun(q: Q.Queues, c: Chunk, past: seq<Q.Handler>)
    requires Represents(q, c)
    ensures var q' := Q.Apply(q, Q.RunQueue(Q.RunOnTakeIn));
            var (c', cbs) := Calls(c.(takeIn := []), q.Pending(Q.RunOnTakeIn));
            && Represents(q', LoadChunk(c).0)
            && q'.fates == q.fates + Q.FatesOf(Q.RunOnTakeIn, q.Pending(Q.RunOnTakeIn), true)
            && LoadChunk(c) == (c', cbs + [Load(c'.meta, c'.order)])
    ensures Q.FirstError(SUCCEED, past, q.Pending(Q.RunOnTakeIn)) == 0
  {
    var bare := c.(takeIn := []);
    RunEventsIsCalls(bare, c.takeIn);
    RunKeepsQueues(bare, c.takeIn);
    NoError(past, q.takeIn);
  }

  /** Cleaning a chunk is running its take-out queue. */
  lemma DropIsRun(q: Q.Queues, c: Chunk, past: seq<Q.Handler>)
    requires Represents(q, c)
    ensures var q' := Q.Apply(q, Q.RunQueue(Q.RunOnTakeOut));
            && Represents(q', DropChunk(c).0)
            && q'.fates == q.fates + Q.FatesOf(Q.RunOnTakeOut, q.Pending(Q.RunOnTakeOut), true)
            && DropChunk(c) == Calls(c.(takeOut := []), q.Pending(Q.RunOnTakeOut))
    ensures Q.FirstError(SUCCEED, past, q.Pending(Q.RunOnTakeOut)) == 0
  {
    var bare := c.(takeOut := []);
    RunEventsIsCalls(bare, c.takeOut);
    RunKeepsQueues(bare, c.takeOut);
    NoError(past, q.takeOut);
  }

  /** So when a chunk that has been walked onto and cleaned is freed, its queues drop nothing: every
      handler ever added to them has been called, once. A chunk that is freed earlier drops exactly what
      it still has attached. */
  lemma FreeDropsTheRest(ops: seq<Q.Op>, c: Chunk, evtype: Q.EventType)
    requires Represents(Q.Run(ops), c)
    ensures Q.Apply(Q.Run(ops), Q.Deinit).fates == Q.Run(ops).fates <==> c.takeIn == [] && c.takeOut == []
    ensures Represents(Q.Run(ops), DropChunk(LoadChunk(c).0).0) ==>
              Q.Added(ops, evtype) == Q.Left(Q.Run(ops).fates, evtype)
  {
    var q := Q.Run(ops);
    assert |Q.Apply(q, Q.Deinit).fates| == |q.fates| + |c.takeIn| + |c.takeOut|;
    if c.takeIn == [] && c.takeOut == [] {
      assert Q.Apply(q, Q.Deinit).fates == q.fates;
    }
    DeliveredIsBare(c);
    Q.ExactlyOnceFifo(ops, evtype);
  }

  lemma DeliveredIsBare(c: Chunk)
    ensures DropChunk(LoadChunk(c).0).0.takeIn == [] && DropChunk(LoadChunk(c).0).0.takeOut == []
  {
    RunKeepsQueues(c.(takeIn := []), c.takeIn);
    var l := LoadChunk(c).0;
    RunKeepsQueues(l.(takeOut := []), l.takeOut);
  }
}
