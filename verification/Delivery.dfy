/** What happens to a chunk once a pack holds it: its take-in events run when the driver walks onto it
    (md_bufll_first, md_bufll_next), its take-out events when the pack is cleaned (md_add_to_garbage).
    The observable part is the sequence of callbacks into the core operations. */
module Delivery {
  import opened Types
  import opened Chunks
  import opened Chunking
  import opened Garbage

  // The calls into md_core_ops_t that concern delivery. LastTakeOut stands for the callback and the
  // release of the metadata object that follows it.
  datatype Callback =
    | FirstTakeIn(meta: Option<nat>, size: nat)
    | LastTakeIn(meta: Option<nat>)
    | Load(meta: Option<nat>, order: int)
    | LastTakeOut(meta: Option<nat>)

  // md_start_take_in, md_done_take_in, md_done_take_out
  function RunEvent(c: Chunk, e: Event): (Chunk, Callback) {
    match e
    case StartTakeIn => (c, FirstTakeIn(c.meta, c.size))
    case DoneTakeIn => (c.(size := ToggleDone(c.size)), LastTakeIn(c.meta))
    case DoneTakeOut => (c, LastTakeOut(c.meta))
  }

  // md_evq_run_queue over a chunk's own events, in insertion order
  function RunEvents(c: Chunk, events: seq<Event>): (Chunk, seq<Callback>)
    decreases events
  {
    if events == [] then (c, [])
    else
      var (c1, cb) := RunEvent(c, events[0]);
      var (c2, cbs) := RunEvents(c1, events[1..]);
      (c2, [cb] + cbs)
  }

  // The driver walks onto a chunk: its take-in queue is run and emptied, then will_load_chunk.
  function LoadChunk(c: Chunk): (Chunk, seq<Callback>) {
    var (c1, cbs) := RunEvents(c.(takeIn := []), c.takeIn);
    (c1, cbs + [Load(c1.meta, c1.order)])
  }

  // The pack is cleaned: the take-out queue is run and emptied.
  function DropChunk(c: Chunk): (Chunk, seq<Callback>) {
    RunEvents(c.(takeOut := []), c.takeOut)
  }

  // The take-out callbacks of a cleaned pack, in order.
  function DropTrace(cs: seq<Chunk>): seq<Callback> {
    if cs == [] then [] else DropTrace(cs[..|cs| - 1]) + DropChunk(cs[|cs| - 1]).1
  }

  // What the driver copies: chunk->size bytes from the start of the array. A size beyond what was
  // written would pick up bytes that no file put there; they are shown as zeros.
  function ReadBySize(c: Chunk): seq<Byte> {
    if c.size <= |c.data| then c.data[..c.size] else c.data + Zeros(c.size - |c.data|)
  }

  /** A chunk as the decoder hands it over loads with its done mark cleared before the driver can see
      its size, so that the driver reads exactly the data. */
  lemma LoadReadsData(c: Chunk, meta: Meta, k: nat, data: seq<Byte>)
    requires (c == MidChunk(meta, k, data) && |data| % PADDING == 0)
             || c == LastChunk(meta, k, data)
    ensures var (c1, cbs) := LoadChunk(c);
            && ReadBySize(c1) == c.data && !IsDone(c1.size) && c1.takeIn == [] && c1.takeOut == c.takeOut
            && c1.data == c.data && c1.order == c.order && c1.meta == c.meta
            && cbs == if c == LastChunk(meta, k, data) then [LastTakeIn(Some(meta.id)), Load(Some(meta.id), k)]
                      else if k == 0 && meta.unseen then [FirstTakeIn(Some(meta.id), |data|), Load(Some(meta.id), k)]
                      else [Load(Some(meta.id), k)]
  {
    PadIsNextMultiple(data);
    var bare := c.(takeIn := []);
    if c.takeIn != [] {
      var e := c.takeIn[0];
      assert c.takeIn == [e] && c.takeIn[1..] == [];
      assert RunEvents(bare, c.takeIn) == (RunEvent(bare, e).0, [RunEvent(bare, e).1] + []);
    }
  }

  /** Walking onto the same chunk again runs no event: the mark is never toggled back. */
  lemma LoadTwice(c: Chunk)
    ensures var (c1, _) := LoadChunk(c);
            LoadChunk(c1) == (c1, [Load(c1.meta, c1.order)])
  {
    RunKeepsQueues(c.(takeIn := []), c.takeIn);
    var (c1, _) := LoadChunk(c);
    assert c1.(takeIn := []) == c1;
    assert [] + [Load(c1.meta, c1.order)] == [Load(c1.meta, c1.order)];
  }

  lemma {:induction false} RunKeepsQueues(c: Chunk, events: seq<Event>)
    ensures RunEvents(c, events).0 == c.(size := RunEvents(c, events).0.size)
    decreases events
  {
    if events != [] {
      RunKeepsQueues(RunEvent(c, events[0]).0, events[1..]);
    }
  }

  // ---------------------------------------------------------------- in place

  // The calls made so far into the core operations.
  class Log {
    var trace: seq<Callback>
  }

  // One callback on the chunk it was attached to.
  method RunEventOn(c: BufChunk, e: Event, log: Log)
    modifies c`size, log
    ensures var (v, cb) := RunEvent(old(c.View()), e);
            c.View() == v && log.trace == old(log.trace) + [cb]
  {
    match e {
      case StartTakeIn =>
        log.trace := log.trace + [FirstTakeIn(c.metadata, c.size)];
      case DoneTakeIn =>
        c.size := ToggleDone(c.size);
        log.trace := log.trace + [LastTakeIn(c.metadata)];
      case DoneTakeOut =>
        log.trace := log.trace + [LastTakeOut(c.metadata)];
    }
  }

  method RunAll(c: BufChunk, events: seq<Event>, log: Log)
    modifies c`size, log
    ensures var (v, cbs) := RunEvents(old(c.View()), events);
            c.View() == v && log.trace == old(log.trace) + cbs
  {
    ghost var all := RunEvents(c.View(), events);
    var i := 0;
    ghost var start := log.trace;
    assert events[0..] == events;
    while i < |events|
      invariant 0 <= i <= |events|
      invariant var (v, cbs) := RunEvents(c.View(), events[i..]);
                v == all.0 && log.trace + cbs == start + all.1
    {
      ghost var cbs := RunEvents(c.View(), events[i..]).1;
      assert events[i..][0] == events[i] && events[i..][1..] == events[i + 1..];
      ghost var before := log.trace;
      RunEventOn(c, events[i], log);
      assert before + cbs == log.trace + cbs[1..];
      i := i + 1;
    }
    assert events[i..] == [];
  }

  // md_evq_run_queue(MD_EVENT_RUN_ON_TAKE_IN) followed by md_will_load_chunk_exec
  method LoadOn(c: BufChunk, log: Log)
    modifies c`size, c`takeIn, log
    ensures var (v, cbs) := LoadChunk(old(c.View()));
            c.View() == v && log.trace == old(log.trace) + cbs
  {
    var events := c.takeIn;
    c.takeIn := [];
    RunAll(c, events, log);
    log.trace := log.trace + [Load(c.metadata, c.order)];
  }

  // md_add_to_garbage
  method AddToGarbage(c: BufChunk, log: Log, g: GarbageRing<BufChunk?>)
    requires g.Valid()
    modifies c`size, c`takeOut, log, g, g.chunks
    ensures g.Valid() && g.view == Add(old(g.view), g.size, c)
    ensures var (v, cbs) := DropChunk(old(c.View()));
            c.View() == v && log.trace == old(log.trace) + cbs
  {
    var events := c.takeOut;
    c.takeOut := [];
    RunAll(c, events, log);
    g.Insert(c);
  }
}
