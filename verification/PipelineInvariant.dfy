/** Every reachable state of the pipeline satisfies its invariant, step by step. */
module PipelineInvariant {
  import opened Types
  import opened Chunks
  import opened Chunking
  import opened Delivery
  import opened BufList
  import opened Pipeline

  lemma InitKeeps(cfg: Config)
    requires cfg.Valid()
    ensures Inv(cfg, Init(cfg))
  {
  }

  // Each step leaves one side alone, or touches it only through `put`.
  lemma DriverFrame(cfg: Config, s: State, s': State)
    requires DriverInv(cfg, s)
    requires s'.queue == s.queue && s'.put == s.put && s'.consumer == s.consumer
    requires s'.delivered == s.delivered && s'.trace == s.trace
    ensures DriverInv(cfg, s')
  {
  }

  lemma DecoderFrame(cfg: Config, s: State, s': State)
    requires cfg.Valid() && DecoderInv(cfg, s)
    requires s'.curr == s.curr && s'.threads == s.threads && s'.oldMeta == s.oldMeta
    requires s'.handed == s.handed && s'.put == s.put
    ensures DecoderInv(cfg, s')
  {
  }

  lemma CurrentHands(cfg: Config, s: State, s': State, t: nat)
    requires cfg.Valid() && HandedInv(cfg, s) && t < |s.threads| && s.curr == Some(t)
    requires s'.curr == s.curr && s'.handed == s.handed
    requires |s'.threads| == |s.threads| && s'.threads == s.threads[t := s'.threads[t]]
    requires s'.threads[t].meta == s.threads[t].meta
    requires Active(s'.threads[t].phase)
    ensures HandedInv(cfg, s')
  {
  }

  // A step of the current decoder moves chunks from what it still has to put to what it has put.
  lemma CurrentStep(cfg: Config, s: State, s': State, t: nat)
    requires cfg.Valid() && DecoderInv(cfg, s) && t < |s.threads| && s.curr == Some(t)
    requires s'.curr == s.curr && s'.handed == s.handed
    requires |s'.threads| == |s.threads| && s'.threads == s.threads[t := s'.threads[t]]
    requires s'.threads[t].meta == s.threads[t].meta
    requires Active(s'.threads[t].phase) && ThreadOk(cfg, t, s'.threads[t], s'.oldMeta)
    requires s'.put + FutureOf(cfg, s'.threads[t]) == s.put + FutureOf(cfg, s.threads[t])
    ensures DecoderInv(cfg, s')
  {
    CurrentHands(cfg, s, s', t);
  }

  lemma SpawnKeeps(cfg: Config, s: State, t: nat)
    requires cfg.Valid() && DecoderInv(cfg, s) && Enabled(cfg, s, Spawn(t))
    ensures DecoderInv(cfg, Apply(cfg, s, Spawn(t)))
  {
    assert PhaseOk(cfg, t, s.threads[t], s.curr == Some(t), t in Ids(s.handed));
    assert HandedInv(cfg, Apply(cfg, s, Spawn(t)));
  }

  lemma FlattenGrows(cfg: Config, handed: seq<Meta>, m: Meta)
    requires cfg.Valid()
    ensures Flatten(cfg, handed + [m]) == Flatten(cfg, handed) + FileChunks(m, cfg.File(m.id), cfg.bufSize)
  {
    assert (handed + [m])[..|handed|] == handed;
  }

  lemma AcquireKeeps(cfg: Config, s: State, t: nat, addr: nat)
    requires cfg.Valid() && DecoderInv(cfg, s) && Enabled(cfg, s, Acquire(t, addr))
    ensures DecoderInv(cfg, Apply(cfg, s, Acquire(t, addr)))
  {
    var s' := Apply(cfg, s, Acquire(t, addr));
    AcquireHands(cfg, s, t, addr);
    FlattenGrows(cfg, s.handed, s'.threads[t].meta);
    AcquireThread(cfg, t, s'.threads[t], s.oldMeta);
    assert s.put + [] == s.put;
  }

  lemma AcquireThread(cfg: Config, t: nat, th: Thread, oldMeta: Option<nat>)
    requires cfg.Valid() && th.phase == Decoding && th.rest == cfg.File(t) && th.chunk == None
    requires OldMetaOk(oldMeta, th.meta, 0)
    ensures ThreadOk(cfg, t, th, oldMeta)
    ensures FutureOf(cfg, th) == FileChunks(th.meta, cfg.File(t), cfg.bufSize)
  {
    assert [] + cfg.File(t) == cfg.File(t);
  }

  lemma IdsGrow(handed: seq<Meta>, m: Meta)
    ensures Ids(handed + [m]) == Ids(handed) + [m.id]
  {
  }

  lemma AcquireHands(cfg: Config, s: State, t: nat, addr: nat)
    requires cfg.Valid() && HandedInv(cfg, s) && Enabled(cfg, s, Acquire(t, addr))
    ensures HandedInv(cfg, Apply(cfg, s, Acquire(t, addr)))
    ensures t !in Ids(s.handed)
  {
    IdsGrow(s.handed, Meta(t, addr, s.oldMeta != Some(addr)));
    assert forall i :: 0 <= i < |s.handed| ==> s.handed[i].id == Ids(s.handed)[i];
  }

  lemma FeedKeeps(cfg: Config, s: State, t: nat)
    requires cfg.Valid() && DecoderInv(cfg, s) && Enabled(cfg, s, FeedByte(t))
    ensures DecoderInv(cfg, Apply(cfg, s, FeedByte(t)))
  {
    var th := s.threads[t];
    assert s.curr == Some(t);
    FeedThread(cfg, t, th, s.oldMeta);
    CurrentStep(cfg, s, Apply(cfg, s, FeedByte(t)), t);
  }

  lemma FeedThread(cfg: Config, t: nat, th: Thread, oldMeta: Option<nat>)
    requires cfg.Valid() && th.phase.Decoding? && ThreadOk(cfg, t, th, oldMeta) && th.rest != [] && th.meta.id == t
    ensures var r := Feed(th.chunk, th.meta, oldMeta, th.rest[0], cfg.bufSize);
            var phase := if r.out.Some? then Adding(r.out.value, false) else Decoding;
            var th' := Thread(phase, th.rest[1..], r.chunk, th.meta);
            && !r.failed && ThreadOk(cfg, t, th', r.oldMeta) && FutureOf(cfg, th') == FutureOf(cfg, th)
  {
    FeedFile(cfg, t, th, oldMeta);
    FeedFuture(cfg, t, th, oldMeta);
  }

  lemma FeedFile(cfg: Config, t: nat, th: Thread, oldMeta: Option<nat>)
    requires cfg.Valid() && MidFile(cfg, t, th, oldMeta) && th.rest != []
    ensures var r := Feed(th.chunk, th.meta, oldMeta, th.rest[0], cfg.bufSize);
            && !r.failed && r.chunk.Some? && (r.out.Some? ==> r.out.value.meta == Some(th.meta.id))
            && forall phase :: MidFile(cfg, t, Thread(phase, th.rest[1..], r.chunk, th.meta), r.oldMeta)
  {
    FeedRefines(th.chunk, th.meta, oldMeta, ChunkNo(th.chunk), ChunkData(th.chunk), th.rest, cfg.bufSize);
    RollCounts(|th.rest|, cfg.bufSize);
  }

  lemma FeedFuture(cfg: Config, t: nat, th: Thread, oldMeta: Option<nat>)
    requires cfg.Valid() && MidFile(cfg, t, th, oldMeta) && th.rest != []
    ensures var r := Feed(th.chunk, th.meta, oldMeta, th.rest[0], cfg.bufSize);
            Pieces(th.meta, ChunkNo(th.chunk), ChunkData(th.chunk) + th.rest, cfg.bufSize)
            == (if r.out.Some? then [r.out.value] else [])
               + Pieces(th.meta, ChunkNo(r.chunk), ChunkData(r.chunk) + th.rest[1..], cfg.bufSize)
  {
    FeedRefines(th.chunk, th.meta, oldMeta, ChunkNo(th.chunk), ChunkData(th.chunk), th.rest, cfg.bufSize);
  }

  // A full chunk before n bytes adds one piece and changes nothing about the tail.
  lemma RollCounts(n: nat, bufSize: nat)
    requires bufSize > 0 && n > 0
    ensures TailLen(bufSize + n, bufSize) == TailLen(n, bufSize)
    ensures NumPieces(bufSize + n, bufSize) == 1 + NumPieces(n, bufSize)
  {
  }

  lemma DoneKeeps(cfg: Config, s: State, t: nat)
    requires cfg.Valid() && DecoderInv(cfg, s) && Enabled(cfg, s, Done(t))
    ensures DecoderInv(cfg, Apply(cfg, s, Done(t)))
  {
    var s' := Apply(cfg, s, Done(t));
    var th := s.threads[t];
    assert s.curr == Some(t);
    assert ChunkData(th.chunk) + th.rest == ChunkData(th.chunk);
    if th.chunk.Some? {
      FinishRefines(th.chunk.value, th.meta, ChunkNo(th.chunk), ChunkData(th.chunk), cfg.bufSize);
    }
    CurrentStep(cfg, s, s', t);
  }

  lemma PutParts(put: seq<Chunk>, queue: seq<Chunk>, c: Chunk)
    requires |queue| <= |put| && queue == put[|put| - |queue|..]
    ensures queue + [c] == (put + [c])[|put + [c]| - |queue + [c]|..]
  {
  }

  lemma PutPack(put: seq<Chunk>, c: Chunk, taken: int, pack: seq<Chunk>, loaded: nat, dropped: nat)
    requires PackOk(put, taken, pack, loaded, dropped)
    ensures PackOk(put + [c], taken, pack, loaded, dropped)
  {
  }

  lemma PutKeepsQueue(cfg: Config, s: State, t: nat)
    requires QueueInv(cfg, s) && Enabled(cfg, s, Put(t))
    ensures QueueInv(cfg, Apply(cfg, s, Put(t)))
    ensures NumLoaded(Apply(cfg, s, Put(t))) == NumLoaded(s) && NumDropped(Apply(cfg, s, Put(t))) == NumDropped(s)
  {
    var c := s.threads[t].phase.chunk;
    PutParts(s.put, s.queue, c);
    if s.consumer.Holding? {
      PutPack(s.put, c, NumTaken(s), s.consumer.pack, s.consumer.loaded, s.consumer.dropped);
    }
  }

  lemma PutOut(put: seq<Chunk>, c: Chunk, n: int, d: int, delivered: seq<Byte>, trace: seq<Callback>)
    requires OutOk(put, n, d, delivered, trace)
    ensures OutOk(put + [c], n, d, delivered, trace)
  {
    assert (put + [c])[..n] == put[..n] && (put + [c])[..d] == put[..d];
  }

  lemma PutKeepsDriver(cfg: Config, s: State, t: nat)
    requires DriverInv(cfg, s) && Enabled(cfg, s, Put(t))
    ensures DriverInv(cfg, Apply(cfg, s, Put(t)))
  {
    PutKeepsQueue(cfg, s, t);
    PutOut(s.put, s.threads[t].phase.chunk, NumLoaded(s), NumDropped(s), s.delivered, s.trace);
  }

  lemma PutKeeps(cfg: Config, s: State, t: nat)
    requires cfg.Valid() && DecoderInv(cfg, s) && Enabled(cfg, s, Put(t))
    ensures DecoderInv(cfg, Apply(cfg, s, Put(t)))
  {
    var th := s.threads[t];
    assert s.curr == Some(t);
    PutThread(cfg, t, th, s.oldMeta);
    ConcatAssociates(s.put, [th.phase.chunk], FutureOf(cfg, AfterPutThread(th)));
    CurrentStep(cfg, s, Apply(cfg, s, Put(t)), t);
  }

  lemma PutThread(cfg: Config, t: nat, th: Thread, oldMeta: Option<nat>)
    requires cfg.Valid() && th.phase.Adding? && ThreadOk(cfg, t, th, oldMeta)
    ensures ThreadOk(cfg, t, AfterPutThread(th), oldMeta)
    ensures FutureOf(cfg, th) == [th.phase.chunk] + FutureOf(cfg, AfterPutThread(th))
  {
  }

  lemma ReleaseKeeps(cfg: Config, s: State, t: nat)
    requires cfg.Valid() && DecoderInv(cfg, s) && Enabled(cfg, s, Release(t))
    ensures DecoderInv(cfg, Apply(cfg, s, Release(t)))
  {
    assert s.curr == Some(t);
    assert HandedInv(cfg, Apply(cfg, s, Release(t)));
  }

  lemma TakeParts(put: seq<Chunk>, queue: seq<Chunk>, n: nat)
    requires 0 < n <= |queue| <= |put| && queue == put[|put| - |queue|..]
    ensures queue[n..] == put[|put| - |queue[n..]|..]
    ensures PackOk(put, |put| - |queue[n..]|, queue[..n], 0, 0)
  {
  }

  // A pack is never empty.
  lemma TakesSome(cfg: Config, s: State, noMore: set<nat>) returns (n: nat)
    requires QueueInv(cfg, s) && Enabled(cfg, s, Take(noMore))
    ensures 0 < n <= |s.queue|
    ensures Apply(cfg, s, Take(noMore)) == s.(consumer := Holding(s.queue[..n], 0, 0), queue := s.queue[n..])
  {
    CutSize(Marks(s.queue), s.consumer.count, noMore);
    n := CutOf(Marks(s.queue), s.consumer.count, noMore).len;
  }

  lemma TakeKeepsQueue(cfg: Config, s: State, noMore: set<nat>)
    requires QueueInv(cfg, s) && Enabled(cfg, s, Take(noMore))
    ensures var s' := Apply(cfg, s, Take(noMore));
            QueueInv(cfg, s') && NumLoaded(s') == NumLoaded(s) && NumDropped(s') == NumDropped(s)
  {
    var n := TakesSome(cfg, s, noMore);
    TakeParts(s.put, s.queue, n);
  }

  lemma TakeKeeps(cfg: Config, s: State, noMore: set<nat>)
    requires DriverInv(cfg, s) && Enabled(cfg, s, Take(noMore))
    ensures DriverInv(cfg, Apply(cfg, s, Take(noMore)))
  {
    TakeKeepsQueue(cfg, s, noMore);
  }

  lemma SelectConcat(a: seq<Callback>, b: seq<Callback>, outs: bool)
    ensures Select(a + b, outs) == Select(a, outs) + Select(b, outs)
    decreases |b|
  {
    if b == [] {
      assert a + b == a;
    } else {
      var n := |b| - 1;
      assert (a + b)[..|a + b| - 1] == a + b[..n];
      SelectConcat(a, b[..n], outs);
    }
  }

  lemma WellFormedLoads(c: Chunk, bufSize: nat)
    requires WellFormed(c, bufSize) && bufSize % PADDING == 0
    ensures ReadBySize(LoadChunk(c).0) == c.data && LoadChunk(c).0.takeOut == c.takeOut
    ensures LoadChunk(c).0.meta == c.meta
    ensures LoadChunk(c).1 == if IsDone(c.size) then [LastTakeIn(c.meta), Load(c.meta, c.order)]
                              else if c.takeIn != [] then [FirstTakeIn(c.meta, bufSize), Load(c.meta, c.order)]
                              else [Load(c.meta, c.order)]
    ensures IsDone(c.size) <==> c.takeOut != []
    ensures c.takeOut == [] || c.takeOut == [DoneTakeOut]
  {
    PadIsNextMultiple(c.data);
    LoadReadsData(c, MetaOf(c), c.order, c.data);
  }

  // No chunk loads with a take-out callback, and none drops with anything else.
  lemma CallbackKinds(c: Chunk, bufSize: nat)
    requires WellFormed(c, bufSize) && bufSize % PADDING == 0
    ensures forall outs :: Select(LoadChunk(c).1, outs) == if outs then [] else LoadChunk(c).1
    ensures forall outs :: Select(DropChunk(c).1, outs) == if outs then DropChunk(c).1 else []
    ensures DropChunk(LoadChunk(c).0).1 == DropChunk(c).1
            == if c.takeOut == [] then [] else [LastTakeOut(c.meta)]
  {
    WellFormedLoads(c, bufSize);
    var cbs := LoadChunk(c).1;
    assert |cbs| > 1 ==> cbs == [cbs[0]] + [cbs[1]];
    forall outs ensures Select(cbs, outs) == if outs then [] else cbs {
      if |cbs| == 1 {
        SelectSingle(cbs[0], outs);
      } else {
        SelectSingle(cbs[0], outs);
        SelectSingle(cbs[1], outs);
        SelectConcat([cbs[0]], [cbs[1]], outs);
      }
    }
    DropIs(c);
    DropIs(LoadChunk(c).0);
    SelectSingle(LastTakeOut(c.meta), true);
    SelectSingle(LastTakeOut(c.meta), false);
  }

  lemma SelectSingle(cb: Callback, outs: bool)
    ensures Select([cb], outs) == if cb.LastTakeOut? == outs then [cb] else []
  {
    assert [cb][..0] == [];
  }

  lemma DropIs(c: Chunk)
    requires c.takeOut == [] || c.takeOut == [DoneTakeOut]
    ensures DropChunk(c).1 == if c.takeOut == [] then [] else [LastTakeOut(c.meta)]
  {
    if c.takeOut != [] {
      var bare := c.(takeOut := []);
      assert c.takeOut[0] == DoneTakeOut && c.takeOut[1..] == [];
      assert RunEvents(bare, c.takeOut).1 == [RunEvent(bare, DoneTakeOut).1] + RunEvents(bare, []).1;
    }
  }

  // Adding callbacks to the trace, when the driver moves on by one chunk of `put`.
  lemma TraceGrows(cs: seq<Chunk>, n: nat)
    requires n < |cs|
    ensures LoadTrace(cs[..n + 1]) == LoadTrace(cs[..n]) + LoadChunk(cs[n]).1
    ensures DropTrace(cs[..n + 1]) == DropTrace(cs[..n]) + DropChunk(cs[n]).1
    ensures FlatData(cs[..n + 1]) == FlatData(cs[..n]) + cs[n].data
  {
    assert cs[..n + 1][..n] == cs[..n];
  }

  lemma LoadKeepsQueue(cfg: Config, s: State)
    requires QueueInv(cfg, s) && Enabled(cfg, s, LoadNext)
    ensures QueueInv(cfg, Apply(cfg, s, LoadNext))
    ensures 0 <= NumLoaded(s) < |s.put| && s.consumer.pack[s.consumer.loaded] == s.put[NumLoaded(s)]
    ensures NumLoaded(Apply(cfg, s, LoadNext)) == NumLoaded(s) + 1
    ensures NumDropped(Apply(cfg, s, LoadNext)) == NumDropped(s)
  {
    var h := s.consumer;
    LoadPack(s.put, NumTaken(s), h.pack, h.loaded, h.dropped);
  }

  lemma LoadPack(put: seq<Chunk>, taken: int, pack: seq<Chunk>, loaded: nat, dropped: nat)
    requires PackOk(put, taken, pack, loaded, dropped) && loaded < |pack|
    ensures pack[loaded] == put[taken - |pack| + loaded]
    ensures PackOk(put, taken, pack[loaded := LoadChunk(pack[loaded]).0], loaded + 1, dropped)
  {
  }

  // The output side, as a fact about sequences: the driver moves on to cs[n].
  lemma LoadOutput(cs: seq<Chunk>, n: nat, delivered: seq<Byte>, trace: seq<Callback>, bufSize: nat)
    requires n < |cs| && WellFormed(cs[n], bufSize) && bufSize % PADDING == 0
    requires delivered == FlatData(cs[..n]) && Select(trace, false) == LoadTrace(cs[..n])
    ensures var (c, cbs) := LoadChunk(cs[n]);
            && delivered + ReadBySize(c) == FlatData(cs[..n + 1])
            && Select(trace + cbs, false) == LoadTrace(cs[..n + 1])
            && Select(trace + cbs, true) == Select(trace, true)
  {
    var cbs := LoadChunk(cs[n]).1;
    WellFormedLoads(cs[n], bufSize);
    CallbackKinds(cs[n], bufSize);
    TraceGrows(cs, n);
    SelectConcat(trace, cbs, false);
    SelectConcat(trace, cbs, true);
  }

  lemma LoadKeepsDriver(cfg: Config, s: State)
    requires cfg.Valid() && DriverInv(cfg, s) && Enabled(cfg, s, LoadNext)
    requires 0 <= NumLoaded(s) < |s.put| && WellFormed(s.put[NumLoaded(s)], cfg.bufSize)
    ensures DriverInv(cfg, Apply(cfg, s, LoadNext))
  {
    LoadKeepsQueue(cfg, s);
    LoadOutput(s.put, NumLoaded(s), s.delivered, s.trace, cfg.bufSize);
  }

  lemma DropKeepsQueue(cfg: Config, s: State)
    requires QueueInv(cfg, s) && Enabled(cfg, s, DropNext)
    ensures QueueInv(cfg, Apply(cfg, s, DropNext))
    ensures 0 <= NumDropped(s) < |s.put|
    ensures s.consumer.pack[s.consumer.dropped] == LoadChunk(s.put[NumDropped(s)]).0
    ensures NumLoaded(Apply(cfg, s, DropNext)) == NumLoaded(s)
    ensures NumDropped(Apply(cfg, s, DropNext)) == NumDropped(s) + 1
  {
  }

  lemma DropKeepsDriver(cfg: Config, s: State)
    requires cfg.Valid() && DriverInv(cfg, s) && Enabled(cfg, s, DropNext)
    requires 0 <= NumDropped(s) < |s.put| && WellFormed(s.put[NumDropped(s)], cfg.bufSize)
    ensures DriverInv(cfg, Apply(cfg, s, DropNext))
  {
    DropKeepsQueue(cfg, s);
    var n := NumDropped(s);
    var c := s.put[n];
    CallbackKinds(c, cfg.bufSize);
    TraceGrows(s.put, n);
    SelectConcat(s.trace, DropChunk(c).1, false);
    SelectConcat(s.trace, DropChunk(c).1, true);
  }

  lemma StepKeepsDecoders(cfg: Config, s: State, step: Step)
    requires cfg.Valid() && DecoderInv(cfg, s) && Enabled(cfg, s, step)
    ensures DecoderInv(cfg, Apply(cfg, s, step))
  {
    match step {
      case Spawn(t) => SpawnKeeps(cfg, s, t);
      case Acquire(t, addr) => AcquireKeeps(cfg, s, t, addr);
      case FeedByte(t) => FeedKeeps(cfg, s, t);
      case Put(t) => PutKeeps(cfg, s, t);
      case Done(t) => DoneKeeps(cfg, s, t);
      case Release(t) => ReleaseKeeps(cfg, s, t);
      case _ => DecoderFrame(cfg, s, Apply(cfg, s, step));
    }
  }

  ghost predicate AllWellFormed(cs: seq<Chunk>, bufSize: nat) {
    forall i :: 0 <= i < |cs| ==> WellFormed(cs[i], bufSize)
  }

  // The driver's side asks of the chunks put only that they are well-formed.
  lemma StepKeepsDriver(cfg: Config, s: State, step: Step)
    requires cfg.Valid() && DriverInv(cfg, s) && AllWellFormed(s.put, cfg.bufSize) && Enabled(cfg, s, step)
    ensures DriverInv(cfg, Apply(cfg, s, step))
  {
    match step {
      case Put(t) => PutKeepsDriver(cfg, s, t);
      case Want(count, mode) =>
      case Take(noMore) => TakeKeeps(cfg, s, noMore);
      case LoadNext =>
        LoadKeepsQueue(cfg, s);
        LoadKeepsDriver(cfg, s);
      case DropNext =>
        DropKeepsQueue(cfg, s);
        DropKeepsDriver(cfg, s);
      case _ => DriverFrame(cfg, s, Apply(cfg, s, step));
    }
  }

  lemma StepKeeps(cfg: Config, s: State, step: Step)
    requires cfg.Valid() && Inv(cfg, s) && Enabled(cfg, s, step)
    ensures Inv(cfg, Apply(cfg, s, step))
  {
    StepKeepsDecoders(cfg, s, step);
    forall i | 0 <= i < |s.put|
      ensures WellFormed(s.put[i], cfg.bufSize)
    {
      PutWellFormed(cfg, s, i);
    }
    StepKeepsDriver(cfg, s, step);
  }

  /** The invariant holds after every run. */
  lemma {:induction false} RunKeeps(cfg: Config, run: seq<Step>)
    requires cfg.Valid() && IsRun(cfg, run)
    ensures Inv(cfg, After(cfg, run))
    decreases |run|
  {
    if run == [] {
      InitKeeps(cfg);
    } else {
      var before := run[..|run| - 1];
      RunKeeps(cfg, before);
      StepKeeps(cfg, After(cfg, before), run[|run| - 1]);
    }
  }

  lemma ReachableInv(cfg: Config, s: State)
    requires cfg.Valid() && Reachable(cfg, s)
    ensures Inv(cfg, s)
  {
    var run :| IsRun(cfg, run) && After(cfg, run) == s;
    RunKeeps(cfg, run);
  }

  lemma StepReaches(cfg: Config, s: State, step: Step)
    requires Reachable(cfg, s) && Enabled(cfg, s, step)
    ensures Reachable(cfg, Apply(cfg, s, step))
  {
    var run :| IsRun(cfg, run) && After(cfg, run) == s;
    var longer := run + [step];
    assert longer[..|longer| - 1] == run;
    assert IsRun(cfg, longer) && After(cfg, longer) == Apply(cfg, s, step);
  }

  // Only Spawn bears a thread, and only Acquire hands over the engine.
  lemma BearsNone(cfg: Config, s: State, step: Step)
    requires Enabled(cfg, s, step) && !step.Spawn?
    ensures var s' := Apply(cfg, s, step);
            && |s'.threads| == |s.threads|
            && (forall t: nat :: t < |s.threads| ==> (Is(s', t, Unborn) <==> Is(s, t, Unborn)))
            && s'.handed == if step.Acquire? then s.handed + [Meta(step.t, step.addr, s.oldMeta != Some(step.addr))] else s.handed
  {
  }
}
