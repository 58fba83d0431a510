/** The decoder-to-driver pipeline as one state machine: any number of decoder threads, each decoding
    one file, the bounded chunk queue, and one driver thread that keeps requesting packs.

    A step is one critical section under the queue's or the decoder's mutex, or one piece of work on
    data that only one thread holds. Steps of different threads interleave freely. */
module Pipeline {
  import opened Types
  import opened Chunks
  import opened Chunking
  import opened Delivery
  import opened BufList

  datatype Config = Config(bufSize: nat, maxNum: nat, files: seq<seq<Byte>>) {
    // An aligned buffer size (the settings have 24 * 16 * 4) and room for at least one chunk.
    predicate Valid() {
      bufSize > 0 && bufSize % PADDING == 0 && maxNum > 0
    }

    // The bytes that thread t decodes.
    function File(t: nat): seq<Byte> {
      if t < |files| then files[t] else []
    }
  }

  // Where a decoder thread is: not started; in md_decoder_wait; feeding bytes; in md_buf_add with a
  // chunk (`last` when called from md_decoder_done); between that md_buf_add and the clearing of
  // curr_decoder; gone; gone without having cleared curr_decoder.
  datatype Phase = Unborn | Waiting | Decoding | Adding(chunk: Chunk, last: bool) | Clearing | Exited | Abandoned

  // `meta` is the metadata object, once the thread has taken over the engine.
  datatype Thread = Thread(phase: Phase, rest: seq<Byte>, chunk: Option<Chunk>, meta: Meta)

  // The driver: between packs; in md_buf_get_pack; walking a pack and then cleaning it.
  datatype Consumer = Idle | Wanting(count: nat, mode: PackMode) | Holding(pack: seq<Chunk>, loaded: nat, dropped: nat)

  // `handed` and `put` are history: the threads that became curr_decoder, in order, with their
  // metadata, and all chunks ever added to the queue. `delivered` is what the driver has copied,
  // `trace` the callbacks made. `oldMeta` is the address in the static of md_add_decoded_byte.
  datatype State = State(curr: Option<nat>, threads: seq<Thread>, oldMeta: Option<nat>, queue: seq<Chunk>,
                         consumer: Consumer, delivered: seq<Byte>, trace: seq<Callback>,
                         handed: seq<Meta>, put: seq<Chunk>)

  function Init(cfg: Config): State {
    State(None, seq(|cfg.files|, t requires 0 <= t < |cfg.files| => Thread(Unborn, cfg.files[t], None, Meta(t, 0, true))),
          None, [], Idle, [], [], [], [])
  }

  function Marks(cs: seq<Chunk>): (marks: seq<bool>)
    ensures |marks| == |cs| && forall i :: 0 <= i < |cs| ==> marks[i] == IsDone(cs[i].size)
  {
    seq(|cs|, i requires 0 <= i < |cs| => IsDone(cs[i].size))
  }

  // ---------------------------------------------------------------- steps

  datatype Step =
    | Spawn(t: nat)                        // md_decoder_start: the thread starts waiting
    | Acquire(t: nat, addr: nat)           // md_decoder_wait lets it through; its metadata goes to `addr`
    | FeedByte(t: nat)                     // md_add_decoded_byte, up to md_buf_add
    | Put(t: nat)                          // md_buf_add finds room
    | Done(t: nat)                         // md_decoder_done, up to md_buf_add
    | Release(t: nat)                      // md_decoder_done clears curr_decoder
    | Want(count: nat, mode: PackMode)     // the driver asks for a pack
    | Take(noMore: set<nat>)               // md_buf_get_pack stops waiting and cuts the pack
    | LoadNext                             // md_bufll_first / md_bufll_next, and the driver's copy
    | DropNext                             // md_buf_clean_pack, one chunk

  predicate Is(s: State, t: nat, phase: Phase) {
    t < |s.threads| && s.threads[t].phase == phase
  }

  predicate Enabled(cfg: Config, s: State, step: Step) {
    match step
    case Spawn(t) => Is(s, t, Unborn)
    case Acquire(t, _) => Is(s, t, Waiting) && s.curr == None
    case FeedByte(t) => Is(s, t, Decoding) && s.threads[t].rest != []
    case Put(t) => t < |s.threads| && s.threads[t].phase.Adding? && |s.queue| < cfg.maxNum
    case Done(t) => Is(s, t, Decoding) && s.threads[t].rest == []
    case Release(t) => Is(s, t, Clearing)
    case Want(count, mode) => s.consumer == Idle && 1 <= count
    case Take(noMore) => s.consumer.Wanting?
        && !PackBlocked(Marks(s.queue), s.consumer.count, s.consumer.mode, s.curr == None)
    case LoadNext => s.consumer.Holding? && s.consumer.loaded < |s.consumer.pack|
    case DropNext => s.consumer.Holding? && s.consumer.loaded >= |s.consumer.pack| > s.consumer.dropped
  }

  function WithThread(s: State, t: nat, th: Thread): State
    requires t < |s.threads|
  {
    s.(threads := s.threads[t := th])
  }

  function AfterAcquire(cfg: Config, s: State, t: nat, addr: nat): State
    requires Enabled(cfg, s, Acquire(t, addr))
  {
    var meta := Meta(t, addr, s.oldMeta != Some(addr));
    WithThread(s, t, s.threads[t].(phase := Decoding, meta := meta)).(curr := Some(t), handed := s.handed + [meta])
  }

  function AfterFeed(cfg: Config, s: State, t: nat): State
    requires Enabled(cfg, s, FeedByte(t))
  {
    var th := s.threads[t];
    var r := Feed(th.chunk, th.meta, s.oldMeta, th.rest[0], cfg.bufSize);
    var phase := if r.failed then Abandoned else if r.out.Some? then Adding(r.out.value, false) else Decoding;
    WithThread(s, t, Thread(phase, th.rest[1..], r.chunk, th.meta)).(oldMeta := r.oldMeta)
  }

  function AfterPutThread(th: Thread): Thread
    requires th.phase.Adding?
  {
    th.(phase := if th.phase.last then Clearing else Decoding)
  }

  function AfterPut(cfg: Config, s: State, t: nat): State
    requires Enabled(cfg, s, Put(t))
  {
    var th := s.threads[t];
    var c := th.phase.chunk;
    WithThread(s, t, AfterPutThread(th)).(queue := s.queue + [c], put := s.put + [c])
  }

  function AfterDoneThread(th: Thread, bufSize: nat): Thread {
    match (if th.chunk.None? then None else Finish(th.chunk.value, th.meta, bufSize))
    case None => th.(phase := Abandoned)
    case Some(c) => th.(phase := Adding(c, true), chunk := None)
  }

  function AfterDone(cfg: Config, s: State, t: nat): State
    requires Enabled(cfg, s, Done(t))
  {
    WithThread(s, t, AfterDoneThread(s.threads[t], cfg.bufSize))
  }

  function AfterTake(cfg: Config, s: State, noMore: set<nat>): State
    requires Enabled(cfg, s, Take(noMore))
  {
    var n := CutOf(Marks(s.queue), s.consumer.count, noMore).len;
    s.(consumer := Holding(s.queue[..n], 0, 0), queue := s.queue[n..])
  }

  function AfterLoad(cfg: Config, s: State): State
    requires Enabled(cfg, s, LoadNext)
  {
    var h := s.consumer;
    var (c, cbs) := LoadChunk(h.pack[h.loaded]);
    s.(consumer := Holding(h.pack[h.loaded := c], h.loaded + 1, h.dropped),
       delivered := s.delivered + ReadBySize(c), trace := s.trace + cbs)
  }

  function AfterDrop(cfg: Config, s: State): State
    requires Enabled(cfg, s, DropNext)
  {
    var h := s.consumer;
    var (_, cbs) := DropChunk(h.pack[h.dropped]);
    s.(consumer := if h.dropped + 1 == |h.pack| then Idle else h.(dropped := h.dropped + 1), trace := s.trace + cbs)
  }

  function Apply(cfg: Config, s: State, step: Step): State
    requires Enabled(cfg, s, step)
  {
    match step
    case Spawn(t) => WithThread(s, t, s.threads[t].(phase := Waiting))
    case Acquire(t, addr) => AfterAcquire(cfg, s, t, addr)
    case FeedByte(t) => AfterFeed(cfg, s, t)
    case Put(t) => AfterPut(cfg, s, t)
    case Done(t) => AfterDone(cfg, s, t)
    case Release(t) => WithThread(s, t, s.threads[t].(phase := Exited)).(curr := None)
    case Want(count, mode) => s.(consumer := Wanting(count, mode))
    case Take(noMore) => AfterTake(cfg, s, noMore)
    case LoadNext => AfterLoad(cfg, s)
    case DropNext => AfterDrop(cfg, s)
  }

  // A run is the sequence of steps taken from the initial state.
  predicate IsRun(cfg: Config, run: seq<Step>)
    decreases |run|, 0
  {
    run == [] || (IsRun(cfg, run[..|run| - 1]) && Enabled(cfg, After(cfg, run[..|run| - 1]), run[|run| - 1]))
  }

  function After(cfg: Config, run: seq<Step>): State
    requires IsRun(cfg, run)
    decreases |run|, 1
  {
    if run == [] then Init(cfg) else Apply(cfg, After(cfg, run[..|run| - 1]), run[|run| - 1])
  }

  ghost predicate Reachable(cfg: Config, s: State) {
    exists run :: IsRun(cfg, run) && After(cfg, run) == s
  }

  // ---------------------------------------------------------------- what the files amount to

  // All chunks of the handed-over files, in handover order.
  function Flatten(cfg: Config, handed: seq<Meta>): seq<Chunk>
    requires cfg.Valid()
  {
    if handed == [] then []
    else
      var n := |handed| - 1;
      Flatten(cfg, handed[..n]) + FileChunks(handed[n], cfg.File(handed[n].id), cfg.bufSize)
  }

  // The threads handed the engine.
  function Ids(handed: seq<Meta>): (r: seq<nat>)
    ensures |r| == |handed| && forall i :: 0 <= i < |r| ==> r[i] == handed[i].id
  {
    seq(|handed|, i requires 0 <= i < |handed| => handed[i].id)
  }

  // A chunk exactly as a decoder hands it over.
  predicate WellFormed(c: Chunk, bufSize: nat) {
    && c.meta.Some? && c.order >= 0
    && ((c == MidChunk(MetaOf(c), c.order, c.data) && |c.data| == bufSize)
        || (c == LastChunk(MetaOf(c), c.order, c.data) && |c.data| % PADDING == 0))
  }

  // What a chunk shows of its file's metadata.
  function MetaOf(c: Chunk): Meta
    requires c.meta.Some?
  {
    Meta(c.meta.value, 0, c.takeIn != [])
  }

  lemma {:induction false} FlattenWellFormed(cfg: Config, handed: seq<Meta>, i: nat)
    requires cfg.Valid() && i < |Flatten(cfg, handed)|
    ensures WellFormed(Flatten(cfg, handed)[i], cfg.bufSize)
    decreases |handed|
  {
    var n := |handed| - 1;
    var before := Flatten(cfg, handed[..n]);
    if i < |before| {
      FlattenWellFormed(cfg, handed[..n], i);
    } else {
      PieceAt(handed[n], 0, cfg.File(handed[n].id), cfg.bufSize, i - |before|);
      PadIsNextMultiple(Flatten(cfg, handed)[i].data);
    }
  }

  // ---------------------------------------------------------------- the invariant

  predicate Active(phase: Phase) {
    phase.Decoding? || phase.Adding? || phase.Clearing? || phase.Abandoned?
  }

  predicate NotYet(phase: Phase) {
    phase.Unborn? || phase.Waiting?
  }

  // The threads handed the engine are distinct, and have left the wait.
  ghost predicate HandedOk(handed: seq<Meta>, threads: seq<Thread>) {
    && (forall i, j :: 0 <= i < j < |handed| ==> handed[i].id != handed[j].id)
    && (forall t <- Ids(handed) :: t < |threads| && !NotYet(threads[t].phase))
  }

  // One thread, given whether it holds the engine and whether it was ever handed it.
  ghost predicate PhaseOk(cfg: Config, t: nat, th: Thread, current: bool, handed: bool)
    requires cfg.Valid()
  {
    && (Active(th.phase) <==> current)
    && (NotYet(th.phase) <==> !handed)
    && (NotYet(th.phase) ==> th.rest == cfg.File(t) && th.chunk == None)
    && (th.phase.Exited? ==> Deliverable(|cfg.File(t)|, cfg.bufSize))
  }

  ghost predicate ThreadsOk(cfg: Config, threads: seq<Thread>, curr: Option<nat>, handed: seq<Meta>)
    requires cfg.Valid()
  {
    forall t: nat :: t < |threads| ==> PhaseOk(cfg, t, threads[t], curr == Some(t), t in Ids(handed))
  }

  // Who has been handed the engine, and who holds it.
  ghost predicate HandedInv(cfg: Config, s: State)
    requires cfg.Valid()
  {
    && |s.threads| == |cfg.files|
    && HandedOk(s.handed, s.threads)
    && ThreadsOk(cfg, s.threads, s.curr, s.handed)
    && (s.curr.Some? ==> s.curr.value < |s.threads| && s.handed != []
                         && s.threads[s.curr.value].meta == s.handed[|s.handed| - 1]
                         && s.handed[|s.handed| - 1].id == s.curr.value)
  }

  // The number and the data of the chunk a decoder holds.
  function ChunkNo(chunk: Option<Chunk>): nat {
    if chunk.Some? && chunk.value.order >= 0 then chunk.value.order else 0
  }

  function ChunkData(chunk: Option<Chunk>): seq<Byte> {
    if chunk.Some? then chunk.value.data else []
  }

  // A thread in the middle of its file.
  ghost predicate MidFile(cfg: Config, t: nat, th: Thread, oldMeta: Option<nat>)
    requires cfg.Valid()
  {
    var k, data := ChunkNo(th.chunk), ChunkData(th.chunk);
    && HoldsPrefix(th.chunk, k, data, cfg.bufSize) && OldMetaOk(oldMeta, th.meta, k)
    && TailLen(|data| + |th.rest|, cfg.bufSize) == TailLen(|cfg.File(t)|, cfg.bufSize)
    && k + NumPieces(|data| + |th.rest|, cfg.bufSize) == NumPieces(|cfg.File(t)|, cfg.bufSize)
    && (th.chunk.None? ==> th.rest == cfg.File(t))
  }

  ghost predicate ThreadOk(cfg: Config, t: nat, th: Thread, oldMeta: Option<nat>)
    requires cfg.Valid()
  {
    match th.phase
    case Decoding => MidFile(cfg, t, th, oldMeta)
    case Adding(c, last) =>
      && c.meta == Some(t)
      && if last then th.chunk == None && th.rest == [] && Deliverable(|cfg.File(t)|, cfg.bufSize)
         else MidFile(cfg, t, th, oldMeta) && th.chunk.Some?
    case Clearing => Deliverable(|cfg.File(t)|, cfg.bufSize)
    case Abandoned => MidFile(cfg, t, th, oldMeta) && th.rest == [] && !Deliverable(|cfg.File(t)|, cfg.bufSize)
    case _ => true
  }

  // The chunks of the current file that have yet to reach the queue (for an abandoned thread: that
  // never will).
  function FutureOf(cfg: Config, th: Thread): seq<Chunk>
    requires cfg.Valid()
  {
    var held := Pieces(th.meta, ChunkNo(th.chunk), ChunkData(th.chunk) + th.rest, cfg.bufSize);
    match th.phase
    case Decoding => held
    case Abandoned => held
    case Adding(c, last) => if last then [c] else [c] + held
    case _ => []
  }

  function Future(cfg: Config, s: State): seq<Chunk>
    requires cfg.Valid()
  {
    if s.curr.Some? && s.curr.value < |s.threads| then FutureOf(cfg, s.threads[s.curr.value]) else []
  }

  // Everything put in the queue so far, followed by what the current decoder still has to put, is
  // the simple splitting of the files handed over.
  ghost predicate StreamInv(cfg: Config, s: State)
    requires cfg.Valid() && HandedInv(cfg, s)
  {
    && (s.curr.Some? ==> ThreadOk(cfg, s.curr.value, s.threads[s.curr.value], s.oldMeta))
    && s.put + Future(cfg, s) == Flatten(cfg, s.handed)
  }

  // How many of the chunks ever put have left the queue, been loaded, been dropped.
  function NumTaken(s: State): int {
    |s.put| - |s.queue|
  }

  function NumLoaded(s: State): int {
    if s.consumer.Holding? then NumTaken(s) - |s.consumer.pack| + s.consumer.loaded else NumTaken(s)
  }

  function NumDropped(s: State): int {
    if s.consumer.Holding? then NumTaken(s) - |s.consumer.pack| + s.consumer.dropped else NumTaken(s)
  }

  // A pack is a stretch of the chunks ever put that ends where `taken` do; those walked onto have
  // been loaded, and cleaning starts only when all have.
  ghost predicate PackOk(put: seq<Chunk>, taken: int, pack: seq<Chunk>, loaded: nat, dropped: nat) {
    && |pack| <= taken <= |put| && loaded <= |pack| && dropped < |pack|
    && (dropped > 0 ==> loaded == |pack|)
    && forall i :: 0 <= i < |pack| ==>
         pack[i] == if i < loaded then LoadChunk(put[taken - |pack| + i]).0 else put[taken - |pack| + i]
  }

  ghost predicate QueueOk(maxNum: nat, queue: seq<Chunk>, put: seq<Chunk>, consumer: Consumer) {
    && |queue| <= maxNum
    && |queue| <= |put| && queue == put[|put| - |queue|..]
    && (consumer.Wanting? ==> 1 <= consumer.count)
    && (consumer.Holding? ==> PackOk(put, |put| - |queue|, consumer.pack, consumer.loaded, consumer.dropped))
  }

  ghost predicate QueueInv(cfg: Config, s: State) {
    QueueOk(cfg.maxNum, s.queue, s.put, s.consumer)
  }

  // Callbacks, apart from those of take-out events, that loading these chunks makes.
  function LoadTrace(cs: seq<Chunk>): seq<Callback> {
    if cs == [] then [] else LoadTrace(cs[..|cs| - 1]) + LoadChunk(cs[|cs| - 1]).1
  }

  // The callbacks of a trace that are (`outs`) or are not last_chunk_take_out.
  function Select(trace: seq<Callback>, outs: bool): seq<Callback> {
    if trace == [] then []
    else
      var cb := trace[|trace| - 1];
      Select(trace[..|trace| - 1], outs) + (if cb.LastTakeOut? == outs then [cb] else [])
  }

  // What the driver has copied and called, when it has loaded n chunks and dropped d.
  ghost predicate OutOk(put: seq<Chunk>, n: int, d: int, delivered: seq<Byte>, trace: seq<Callback>) {
    && 0 <= n <= |put| && 0 <= d <= |put|
    && delivered == FlatData(put[..n])
    && Select(trace, false) == LoadTrace(put[..n])
    && Select(trace, true) == DropTrace(put[..d])
  }

  ghost predicate OutInv(cfg: Config, s: State) {
    OutOk(s.put, NumLoaded(s), NumDropped(s), s.delivered, s.trace)
  }

  // The decoder side and the driver side of the invariant; they meet in `put`.
  ghost predicate DecoderInv(cfg: Config, s: State)
    requires cfg.Valid()
  {
    HandedInv(cfg, s) && StreamInv(cfg, s)
  }

  ghost predicate DriverInv(cfg: Config, s: State) {
    QueueInv(cfg, s) && OutInv(cfg, s)
  }

  ghost predicate Inv(cfg: Config, s: State)
    requires cfg.Valid()
  {
    DecoderInv(cfg, s) && DriverInv(cfg, s)
  }

  lemma PutWellFormed(cfg: Config, s: State, i: nat)
    requires cfg.Valid() && DecoderInv(cfg, s) && i < |s.put|
    ensures WellFormed(s.put[i], cfg.bufSize)
  {
    assert s.put[i] == Flatten(cfg, s.handed)[i];
    FlattenWellFormed(cfg, s.handed, i);
  }
}
