/** What stops, errors and flushes cost: where every chunk ever queued has gone, when a file has lost one,
    and what still reaches the driver. */
module PipelineLoss {
  import opened Types
  import opened Chunks
  import opened Chunking
  import opened Delivery
  import opened Pipeline
  import opened PipelineInvariant
  import opened PipelineSafety
  import opened PipelineCallbacks
  import opened PipelineStops

  // ---------------------------------------------------------------- what was not flushed

  // The first n chunks but the flushed ones.
  function Kept(put: seq<Chunk>, n: nat, flushed: set<nat>): seq<Chunk>
    requires n <= |put|
  {
    if n == 0 then [] else Kept(put, n - 1, flushed) + if n - 1 in flushed then [] else [put[n - 1]]
  }

  // Where they stand.
  function Places(n: nat, flushed: set<nat>): (r: seq<nat>)
    ensures forall i :: 0 <= i < |r| ==> r[i] < n
    ensures forall i, j :: 0 <= i < j < |r| ==> r[i] < r[j]
  {
    if n == 0 then [] else Places(n - 1, flushed) + if n - 1 in flushed then [] else [n - 1]
  }

  lemma {:induction false} KeptAt(put: seq<Chunk>, n: nat, flushed: set<nat>)
    requires n <= |put|
    ensures |Kept(put, n, flushed)| == |Places(n, flushed)|
    ensures forall i :: 0 <= i < |Places(n, flushed)| ==> Kept(put, n, flushed)[i] == put[Places(n, flushed)[i]]
  {
    if n > 0 {
      KeptAt(put, n - 1, flushed);
    }
  }

  // What lies further on does not matter.
  lemma {:induction false} KeptSame(put: seq<Chunk>, put': seq<Chunk>, n: nat, flushed: set<nat>, flushed': set<nat>)
    requires n <= |put| && n <= |put'| && put[..n] == put'[..n]
    requires forall i: nat :: i < n ==> (i in flushed <==> i in flushed')
    ensures Kept(put, n, flushed) == Kept(put', n, flushed')
    decreases n
  {
    if n > 0 {
      assert put[..n][..n - 1] == put[..n - 1] && put'[..n][..n - 1] == put'[..n - 1];
      assert put[n - 1] == put[..n][n - 1] && put'[n - 1] == put'[..n][n - 1];
      KeptSame(put, put', n - 1, flushed, flushed');
    }
  }

  // A stretch without a flushed chunk, and one of flushed chunks only.
  lemma {:induction false} KeptAll(put: seq<Chunk>, n: nat, m: nat, flushed: set<nat>)
    requires n <= m <= |put| && forall i: nat :: n <= i < m ==> i !in flushed
    ensures Kept(put, m, flushed) == Kept(put, n, flushed) + put[n..m]
    decreases m
  {
    if n < m {
      KeptAll(put, n, m - 1, flushed);
      assert put[n..m] == put[n..m - 1] + [put[m - 1]];
    } else {
      assert put[n..m] == [];
    }
  }

  lemma {:induction false} KeptNone(put: seq<Chunk>, n: nat, m: nat, flushed: set<nat>)
    requires n <= m <= |put| && forall i: nat :: n <= i < m ==> i in flushed
    ensures Kept(put, m, flushed) == Kept(put, n, flushed)
    decreases m
  {
    if n < m {
      KeptNone(put, n, m - 1, flushed);
    }
  }

  // ---------------------------------------------------------------- where every chunk is

  // Of the chunks ever put, the last are queued, the driver has taken the others in order but for those
  // flushed.
  ghost predicate WhereOk(put: seq<Chunk>, queue: seq<Chunk>, taken: seq<Chunk>, flushed: set<nat>) {
    && |queue| <= |put| && queue == put[|put| - |queue|..]
    && (forall i <- flushed :: i < |put| - |queue|)
    && taken == Kept(put, |put| - |queue|, flushed)
  }

  lemma WherePut(put: seq<Chunk>, queue: seq<Chunk>, taken: seq<Chunk>, flushed: set<nat>, c: Chunk)
    requires WhereOk(put, queue, taken, flushed)
    ensures WhereOk(put + [c], queue + [c], taken, flushed)
  {
    var n := |put| - |queue|;
    assert (put + [c])[..n] == put[..n];
    KeptSame(put, put + [c], n, flushed, flushed);
  }

  lemma WhereTake(put: seq<Chunk>, queue: seq<Chunk>, taken: seq<Chunk>, flushed: set<nat>, k: nat)
    requires WhereOk(put, queue, taken, flushed) && k <= |queue|
    ensures WhereOk(put, queue[k..], taken + queue[..k], flushed)
  {
    var n := |put| - |queue|;
    KeptAll(put, n, n + k, flushed);
    assert put[n..n + k] == queue[..k];
  }

  lemma WhereFlush(put: seq<Chunk>, queue: seq<Chunk>, taken: seq<Chunk>, flushed: set<nat>, more: set<nat>)
    requires WhereOk(put, queue, taken, flushed)
    requires forall i: nat :: i in more <==> |put| - |queue| <= i < |put|
    ensures WhereOk(put, [], taken, flushed + more)
  {
    var n: nat := |put| - |queue|;
    KeptSame(put, put, n, flushed, flushed + more);
    KeptNone(put, n, |put|, flushed + more);
  }

  lemma WhereKept(put: seq<Chunk>, queue: seq<Chunk>, taken: seq<Chunk>, flushed: set<nat>)
    requires WhereOk(put, queue, taken, flushed)
    ensures taken + queue == Kept(put, |put|, flushed)
  {
    KeptAll(put, |put| - |queue|, |put|, flushed);
    assert put[|put| - |queue|..|put|] == queue;
  }

  // ---------------------------------------------------------------- the driver's side

  // The pipeline as the driver sees it: nothing but what it has taken and what is queued was ever put.
  function Seen(g: Gated): State {
    g.p.(put := g.taken + g.p.queue)
  }

  ghost predicate SideInv(cfg: Config, g: Gated) {
    && WhereOk(g.p.put, g.p.queue, g.taken, g.flushed)
    && AllWellFormed(g.p.put, cfg.bufSize)
    && DriverInv(cfg, Seen(g))
  }

  lemma KeptWellFormed(put: seq<Chunk>, n: nat, flushed: set<nat>, bufSize: nat)
    requires n <= |put| && AllWellFormed(put, bufSize)
    ensures AllWellFormed(Kept(put, n, flushed), bufSize)
  {
    KeptAt(put, n, flushed);
  }

  lemma SeenWellFormed(cfg: Config, g: Gated)
    requires WhereOk(g.p.put, g.p.queue, g.taken, g.flushed) && AllWellFormed(g.p.put, cfg.bufSize)
    ensures AllWellFormed(Seen(g).put, cfg.bufSize)
  {
    WhereKept(g.p.put, g.p.queue, g.taken, g.flushed);
    KeptWellFormed(g.p.put, |g.p.put|, g.flushed, cfg.bufSize);
  }

  // A step of the pipeline is the same step of what the driver sees.
  lemma SeenPut(cfg: Config, g: Gated, t: nat)
    requires CanTake(cfg, g, Do(Put(t)))
    ensures Seen(PipelineStops.After(cfg, g, Do(Put(t)))) == Apply(cfg, Seen(g), Put(t))
  {
    var c := g.p.threads[t].phase.chunk;
    assert g.taken + [] == g.taken;
    ConcatAssociates(g.taken, g.p.queue, [c]);
  }

  lemma SeenTake(cfg: Config, g: Gated, noMore: set<nat>)
    requires CanTake(cfg, g, Do(Take(noMore))) && QueueInv(cfg, Seen(g))
    ensures Seen(PipelineStops.After(cfg, g, Do(Take(noMore)))) == Apply(cfg, Seen(g), Take(noMore))
  {
    var n := TakesSome(cfg, Seen(g), noMore);
    ConcatAssociates(g.taken, g.p.queue[..n], g.p.queue[n..]);
    assert g.p.queue[..n] + g.p.queue[n..] == g.p.queue;
  }

  lemma SeenSteps(cfg: Config, g: Gated, st: Step)
    requires CanTake(cfg, g, Do(st)) && QueueInv(cfg, Seen(g))
    ensures Enabled(cfg, Seen(g), st)
    ensures Seen(PipelineStops.After(cfg, g, Do(st))) == Apply(cfg, Seen(g), st)
  {
    match st {
      case Put(t) => SeenPut(cfg, g, t);
      case Take(noMore) => SeenTake(cfg, g, noMore);
      case _ => assert g.taken + [] == g.taken;
    }
  }

  // A flush leaves what the driver holds and has put out as it is.
  lemma PackShrinks(put: seq<Chunk>, n: nat, pack: seq<Chunk>, loaded: nat, dropped: nat)
    requires n <= |put| && PackOk(put, n, pack, loaded, dropped)
    ensures PackOk(put[..n], n, pack, loaded, dropped)
  {
  }

  lemma OutShrinks(put: seq<Chunk>, m: nat, n: int, d: int, delivered: seq<Byte>, trace: seq<Callback>)
    requires OutOk(put, n, d, delivered, trace) && n <= m <= |put| && d <= m
    ensures OutOk(put[..m], n, d, delivered, trace)
  {
    assert put[..m][..n] == put[..n] && put[..m][..d] == put[..d];
  }

  lemma FlushedView(cfg: Config, s: State, n: nat)
    requires DriverInv(cfg, s) && n == |s.put| - |s.queue|
    ensures DriverInv(cfg, s.(queue := [], put := s.put[..n]))
  {
    if s.consumer.Holding? {
      PackShrinks(s.put, n, s.consumer.pack, s.consumer.loaded, s.consumer.dropped);
    }
    OutShrinks(s.put, n, NumLoaded(s), NumDropped(s), s.delivered, s.trace);
  }

  lemma FlushSide(cfg: Config, g: Gated)
    requires SideInv(cfg, g)
    ensures SideInv(cfg, PipelineStops.After(cfg, g, Flush))
  {
    var g' := PipelineStops.After(cfg, g, Flush);
    WhereFlush(g.p.put, g.p.queue, g.taken, g.flushed, Queued(g.p));
    FlushedView(cfg, Seen(g), |g.taken|);
    assert Seen(g').put == Seen(g).put[..|g.taken|];
  }

  lemma DoWhere(cfg: Config, g: Gated, st: Step)
    requires SideInv(cfg, g) && CanTake(cfg, g, Do(st))
    ensures var g' := PipelineStops.After(cfg, g, Do(st));
            WhereOk(g'.p.put, g'.p.queue, g'.taken, g'.flushed)
  {
    match st {
      case Put(t) => WherePut(g.p.put, g.p.queue, g.taken, g.flushed, g.p.threads[t].phase.chunk);
      case Take(noMore) =>
        var n := TakesSome(cfg, Seen(g), noMore);
        WhereTake(g.p.put, g.p.queue, g.taken, g.flushed, n);
      case _ => assert g.taken + [] == g.taken;
    }
  }

  lemma DoSide(cfg: Config, g: Gated, st: Step)
    requires cfg.Valid() && SideInv(cfg, g) && CanTake(cfg, g, Do(st))
    requires st.Put? ==> WellFormed(g.p.threads[st.t].phase.chunk, cfg.bufSize)
    ensures SideInv(cfg, PipelineStops.After(cfg, g, Do(st)))
  {
    DoWhere(cfg, g, st);
    SeenWellFormed(cfg, g);
    SeenSteps(cfg, g, st);
    StepKeepsDriver(cfg, Seen(g), st);
  }

  lemma SideFrame(cfg: Config, g: Gated, g': Gated)
    requires SideInv(cfg, g)
    requires g'.p.put == g.p.put && g'.p.queue == g.p.queue && g'.taken == g.taken && g'.flushed == g.flushed
    requires g'.p.delivered == g.p.delivered && g'.p.trace == g.p.trace
    requires g'.p.consumer == g.p.consumer || (g.p.consumer.Wanting? && g'.p.consumer == Idle)
    ensures SideInv(cfg, g')
  {
  }

  lemma StepSide(cfg: Config, g: Gated, step: GatedStep)
    requires cfg.Valid() && SideInv(cfg, g) && CanTake(cfg, g, step)
    requires step.Do? && step.step.Put? ==> WellFormed(g.p.threads[step.step.t].phase.chunk, cfg.bufSize)
    ensures SideInv(cfg, PipelineStops.After(cfg, g, step))
  {
    match step {
      case Do(st) => DoSide(cfg, g, st);
      case Flush => FlushSide(cfg, g);
      case _ => SideFrame(cfg, g, PipelineStops.After(cfg, g, step));
    }
  }

  // ---------------------------------------------------------------- the decoders' side

  // A file handed over, of which `mine` are the chunks put so far. Unless a chunk was refused, they and
  // those to come are its splitting; if one was, they fall short of it.
  ghost predicate FileOk(cfg: Config, t: nat, th: Thread, m: Meta, mine: seq<Chunk>, oldMeta: Option<nat>,
                         current: bool, refused: bool)
    requires cfg.Valid()
  {
    var all := FileChunks(m, cfg.File(t), cfg.bufSize);
    && (th.phase.Adding? ==> WellFormed(th.phase.chunk, cfg.bufSize))
    && (th.phase.Adding? && !th.phase.last ==> |ChunkData(th.chunk)| == 1)
    && if refused
       then |mine| + |FutureOf(cfg, th)| < |all| && NearEnd(th, cfg.bufSize)
       else mine + FutureOf(cfg, th) == all && (current ==> th.meta == m && ThreadOk(cfg, t, th, oldMeta))
  }

  // After a refusal a decoder adds no chunk but the last, which holds one byte.
  ghost predicate NearEnd(th: Thread, bufSize: nat) {
    && (th.phase.Decoding? ==> th.rest == [] && th.chunk.Some? && |ChunkData(th.chunk)| == 1
                               && HoldsPrefix(th.chunk, ChunkNo(th.chunk), ChunkData(th.chunk), bufSize))
    && (th.phase.Adding? ==> th.phase.last)
  }

  ghost predicate FilesOk(cfg: Config, threads: seq<Thread>, handed: seq<Meta>, put: seq<Chunk>, oldMeta: Option<nat>,
                          curr: Option<nat>, refused: set<nat>)
    requires cfg.Valid()
  {
    forall t <- Ids(handed) :: t < |threads|
      && FileOk(cfg, t, threads[t], FileMeta(handed, t), Of(put, t), oldMeta, curr == Some(t), t in refused)
  }

  ghost predicate HandsOk(cfg: Config, threads: seq<Thread>, handed: seq<Meta>, curr: Option<nat>) {
    && HandedOk(handed, threads)
    && (curr.Some? ==> curr.value in Ids(handed))
    && (forall t: nat :: t < |threads| && NotYet(threads[t].phase) ==> threads[t].rest == cfg.File(t))
  }

  ghost predicate LossInv(cfg: Config, g: Gated)
    requires cfg.Valid()
  {
    && HandsOk(cfg, g.p.threads, g.p.handed, g.p.curr)
    && FilesOk(cfg, g.p.threads, g.p.handed, g.p.put, g.p.oldMeta, g.p.curr, g.refused)
  }

  lemma OwnChunks(put: seq<Chunk>, own: seq<Chunk>, t: nat, f: nat)
    requires forall i :: 0 <= i < |own| ==> own[i].meta == Some(t)
    ensures Of(put + own, f) == if f == t then Of(put, f) + own else Of(put, f)
  {
    OfConcat(put, own, f);
    OfOneFile(own, t, f);
  }

  // A step of the current decoder.
  lemma CurrentFiles(cfg: Config, g: Gated, g': Gated, t: nat, own: seq<Chunk>)
    requires cfg.Valid() && LossInv(cfg, g) && g.p.curr == Some(t) && t < |g.p.threads|
    requires g'.p.handed == g.p.handed && g'.p.put == g.p.put + own
    requires |g'.p.threads| == |g.p.threads| && g'.p.threads == g.p.threads[t := g'.p.threads[t]]
    requires !NotYet(g'.p.threads[t].phase)
    requires g'.p.curr == g.p.curr || g'.p.curr == None
    requires g'.refused == g.refused || g'.refused == g.refused + {t}
    requires forall i :: 0 <= i < |own| ==> own[i].meta == Some(t)
    requires FileOk(cfg, t, g'.p.threads[t], FileMeta(g.p.handed, t), Of(g.p.put, t) + own, g'.p.oldMeta,
                    g'.p.curr == Some(t), t in g'.refused)
    ensures LossInv(cfg, g')
  {
    forall f | f in Ids(g'.p.handed)
      ensures f < |g'.p.threads|
      ensures FileOk(cfg, f, g'.p.threads[f], FileMeta(g'.p.handed, f), Of(g'.p.put, f), g'.p.oldMeta,
                     g'.p.curr == Some(f), f in g'.refused)
    {
      OwnChunks(g.p.put, own, t, f);
    }
  }

  lemma CurrentStays(cfg: Config, g: Gated, g': Gated, t: nat)
    requires cfg.Valid() && LossInv(cfg, g) && g.p.curr == Some(t) && t < |g.p.threads|
    requires g'.p.handed == g.p.handed && g'.p.put == g.p.put
    requires |g'.p.threads| == |g.p.threads| && g'.p.threads == g.p.threads[t := g'.p.threads[t]]
    requires !NotYet(g'.p.threads[t].phase)
    requires g'.p.curr == g.p.curr || g'.p.curr == None
    requires g'.refused == g.refused || g'.refused == g.refused + {t}
    requires FileOk(cfg, t, g'.p.threads[t], FileMeta(g.p.handed, t), Of(g.p.put, t), g'.p.oldMeta,
                    g'.p.curr == Some(t), t in g'.refused)
    ensures LossInv(cfg, g')
  {
    assert g.p.put + [] == g.p.put && Of(g.p.put, t) + [] == Of(g.p.put, t);
    CurrentFiles(cfg, g, g', t, []);
  }

  // What the current decoder is known to be.
  lemma Mine(cfg: Config, g: Gated, t: nat) returns (th: Thread, m: Meta, mine: seq<Chunk>)
    requires cfg.Valid() && GatedInv(cfg, g) && LossInv(cfg, g) && t < |g.p.threads| && Active(g.p.threads[t].phase)
    ensures th == g.p.threads[t] && m == FileMeta(g.p.handed, t) && mine == Of(g.p.put, t)
    ensures g.p.curr == Some(t) && FileOk(cfg, t, th, m, mine, g.p.oldMeta, true, t in g.refused)
    ensures CurrentOk(g.p.put, g.refused, t, th)
  {
    IsCurrent(cfg, g, t);
    th, m, mine := g.p.threads[t], FileMeta(g.p.handed, t), Of(g.p.put, t);
  }

  lemma FeedWellFormed(cfg: Config, t: nat, th: Thread, oldMeta: Option<nat>)
    requires cfg.Valid() && MidFile(cfg, t, th, oldMeta) && th.rest != []
    ensures var out := Feed(th.chunk, th.meta, oldMeta, th.rest[0], cfg.bufSize).out;
            out.Some? ==> WellFormed(out.value, cfg.bufSize)
    ensures var r := Feed(th.chunk, th.meta, oldMeta, th.rest[0], cfg.bufSize);
            r.out.Some? ==> |ChunkData(r.chunk)| == 1
  {
    var k, data := ChunkNo(th.chunk), ChunkData(th.chunk);
    if |data| == cfg.bufSize {
      PadIsNextMultiple(data);
      var events := if oldMeta != Some(th.meta.addr) then [StartTakeIn] else [];
      assert [] + events == events;
      assert Feed(th.chunk, th.meta, oldMeta, th.rest[0], cfg.bufSize).out == Some(MidChunk(th.meta, k, data));
    }
  }

  lemma FeedFiles(cfg: Config, g: Gated, t: nat)
    requires cfg.Valid() && GatedInv(cfg, g) && LossInv(cfg, g) && CanTake(cfg, g, Do(FeedByte(t)))
    ensures LossInv(cfg, PipelineStops.After(cfg, g, Do(FeedByte(t))))
  {
    var th, m, mine := Mine(cfg, g, t);
    FeedThread(cfg, t, th, g.p.oldMeta);
    FeedWellFormed(cfg, t, th, g.p.oldMeta);
    CurrentStays(cfg, g, PipelineStops.After(cfg, g, Do(FeedByte(t))), t);
  }

  // md_decoder_done, of a decoder that holds `data` as the last of its file.
  lemma DoneThread(cfg: Config, th: Thread, chunk: Chunk)
    requires cfg.Valid() && th.chunk == Some(chunk) && th.rest == []
    requires HoldsPrefix(th.chunk, ChunkNo(th.chunk), ChunkData(th.chunk), cfg.bufSize)
    ensures var last := LastChunk(th.meta, ChunkNo(th.chunk), ChunkData(th.chunk));
            && WellFormed(last, cfg.bufSize) && last.meta == Some(th.meta.id)
            && Pieces(th.meta, ChunkNo(th.chunk), ChunkData(th.chunk) + th.rest, cfg.bufSize) == [last]
            && Finish(chunk, th.meta, cfg.bufSize)
               == if AdjustRefused(|ChunkData(th.chunk)|, cfg.bufSize) then None else Some(last)
  {
    var data := ChunkData(th.chunk);
    assert data + th.rest == data;
    PadIsNextMultiple(data);
    FinishRefines(chunk, th.meta, ChunkNo(th.chunk), data, cfg.bufSize);
  }

  lemma DoneFile(cfg: Config, t: nat, th: Thread, m: Meta, mine: seq<Chunk>, oldMeta: Option<nat>, refused: bool)
    requires cfg.Valid() && th.phase.Decoding? && th.rest == [] && th.meta.id == t
    requires FileOk(cfg, t, th, m, mine, oldMeta, true, refused)
    ensures FileOk(cfg, t, AfterDoneThread(th, cfg.bufSize), m, mine, oldMeta, true, refused)
  {
    assert ChunkData(th.chunk) + th.rest == ChunkData(th.chunk);
    if th.chunk.Some? {
      DoneThread(cfg, th, th.chunk.value);
    }
  }

  lemma DoneFiles(cfg: Config, g: Gated, t: nat)
    requires cfg.Valid() && GatedInv(cfg, g) && LossInv(cfg, g) && CanTake(cfg, g, Do(Done(t)))
    ensures LossInv(cfg, PipelineStops.After(cfg, g, Do(Done(t))))
  {
    var th, m, mine := Mine(cfg, g, t);
    DoneFile(cfg, t, th, m, mine, g.p.oldMeta, t in g.refused);
    CurrentStays(cfg, g, PipelineStops.After(cfg, g, Do(Done(t))), t);
  }

  lemma PutFiles(cfg: Config, g: Gated, t: nat)
    requires cfg.Valid() && GatedInv(cfg, g) && LossInv(cfg, g) && CanTake(cfg, g, Do(Put(t)))
    ensures WellFormed(g.p.threads[t].phase.chunk, cfg.bufSize)
    ensures LossInv(cfg, PipelineStops.After(cfg, g, Do(Put(t))))
  {
    var th, m, mine := Mine(cfg, g, t);
    var c := th.phase.chunk;
    if t !in g.refused {
      PutThread(cfg, t, th, g.p.oldMeta);
      ConcatAssociates(mine, [c], FutureOf(cfg, AfterPutThread(th)));
    }
    CurrentFiles(cfg, g, PipelineStops.After(cfg, g, Do(Put(t))), t, [c]);
  }

  lemma ReleaseFiles(cfg: Config, g: Gated, t: nat)
    requires cfg.Valid() && GatedInv(cfg, g) && LossInv(cfg, g) && CanTake(cfg, g, Do(Release(t)))
    ensures LossInv(cfg, PipelineStops.After(cfg, g, Do(Release(t))))
  {
    var th, m, mine := Mine(cfg, g, t);
    CurrentStays(cfg, g, PipelineStops.After(cfg, g, Do(Release(t))), t);
  }

  lemma {:induction false} FewerPieces(n: nat, m: nat, bufSize: nat)
    requires bufSize > 0 && n <= m
    ensures NumPieces(n, bufSize) <= NumPieces(m, bufSize)
    decreases n
  {
    if n > bufSize {
      FewerPieces(n - bufSize, m - bufSize, bufSize);
    }
  }

  // A refused chunk is one that the file goes without.
  lemma FailFile(cfg: Config, t: nat, th: Thread, m: Meta, mine: seq<Chunk>, oldMeta: Option<nat>, refused: bool, finish: bool)
    requires cfg.Valid() && th.phase.Adding? && FileOk(cfg, t, th, m, mine, oldMeta, true, refused)
    ensures FileOk(cfg, t, AfterFailure(th, finish), m, mine, oldMeta, true, true)
  {
    var data := ChunkData(th.chunk);
    assert data + [] == data;
    FewerPieces(|data|, |data + th.rest|, cfg.bufSize);
  }

  lemma FailFiles(cfg: Config, g: Gated, t: nat, finish: bool)
    requires cfg.Valid() && GatedInv(cfg, g) && LossInv(cfg, g) && CanTake(cfg, g, AddFails(t, finish))
    ensures LossInv(cfg, PipelineStops.After(cfg, g, AddFails(t, finish)))
  {
    var th, m, mine := Mine(cfg, g, t);
    FailFile(cfg, t, th, m, mine, g.p.oldMeta, t in g.refused, finish);
    CurrentStays(cfg, g, PipelineStops.After(cfg, g, AddFails(t, finish)), t);
  }

  // A step of a thread that has not been handed the engine.
  lemma OutsiderFiles(cfg: Config, g: Gated, g': Gated, t: nat)
    requires cfg.Valid() && LossInv(cfg, g) && t < |g.p.threads| && NotYet(g.p.threads[t].phase)
    requires |g'.p.threads| == |g.p.threads| && g'.p == WithThread(g.p, t, g'.p.threads[t]) && g'.refused == g.refused
    requires NotYet(g'.p.threads[t].phase) ==> g'.p.threads[t].rest == g.p.threads[t].rest
    ensures LossInv(cfg, g')
  {
    assert t !in Ids(g.p.handed);
  }

  lemma MetaStays(handed: seq<Meta>, m: Meta, f: nat)
    ensures FileMeta(handed + [m], f) == if m.id == f then m else FileMeta(handed, f)
  {
    assert (handed + [m])[..|handed|] == handed;
  }

  lemma {:induction false} NoneOf(put: seq<Chunk>, f: nat)
    requires forall i :: 0 <= i < |put| ==> put[i].meta != Some(f)
    ensures Of(put, f) == []
  {
    if put != [] {
      NoneOf(put[..|put| - 1], f);
    }
  }

  lemma AcquireHandsOk(cfg: Config, g: Gated, t: nat, addr: nat)
    requires cfg.Valid() && LossInv(cfg, g) && CanTake(cfg, g, Do(Acquire(t, addr)))
    ensures var p := Apply(cfg, g.p, Acquire(t, addr));
            HandsOk(cfg, p.threads, p.handed, p.curr) && Ids(p.handed) == Ids(g.p.handed) + [t]
    ensures t !in Ids(g.p.handed)
  {
    IdsGrow(g.p.handed, Meta(t, addr, g.p.oldMeta != Some(addr)));
    assert forall i :: 0 <= i < |g.p.handed| ==> g.p.handed[i].id == Ids(g.p.handed)[i];
  }

  lemma AcquireFiles(cfg: Config, g: Gated, t: nat, addr: nat)
    requires cfg.Valid() && GatedInv(cfg, g) && LossInv(cfg, g) && CanTake(cfg, g, Do(Acquire(t, addr)))
    ensures LossInv(cfg, PipelineStops.After(cfg, g, Do(Acquire(t, addr))))
  {
    var g' := PipelineStops.After(cfg, g, Do(Acquire(t, addr)));
    AcquireHandsOk(cfg, g, t, addr);
    NothingYet(cfg, g, t);
    NoneOf(g.p.put, t);
    AcquireThread(cfg, t, g'.p.threads[t], g.p.oldMeta);
    forall f | f in Ids(g'.p.handed)
      ensures f < |g'.p.threads|
      ensures FileOk(cfg, f, g'.p.threads[f], FileMeta(g'.p.handed, f), Of(g'.p.put, f), g'.p.oldMeta,
                     g'.p.curr == Some(f), f in g'.refused)
    {
      MetaStays(g.p.handed, g'.p.threads[t].meta, f);
    }
  }

  lemma FilesFrame(cfg: Config, g: Gated, g': Gated)
    requires cfg.Valid() && LossInv(cfg, g)
    requires g'.p.threads == g.p.threads && g'.p.handed == g.p.handed && g'.p.put == g.p.put
    requires g'.p.oldMeta == g.p.oldMeta && g'.p.curr == g.p.curr && g'.refused == g.refused
    ensures LossInv(cfg, g')
  {
  }

  lemma StepFiles(cfg: Config, g: Gated, step: GatedStep)
    requires cfg.Valid() && GatedInv(cfg, g) && LossInv(cfg, g) && CanTake(cfg, g, step)
    ensures LossInv(cfg, PipelineStops.After(cfg, g, step))
    ensures step.Do? && step.step.Put? ==> WellFormed(g.p.threads[step.step.t].phase.chunk, cfg.bufSize)
  {
    match step {
      case Do(FeedByte(t)) => FeedFiles(cfg, g, t);
      case Do(Done(t)) => DoneFiles(cfg, g, t);
      case Do(Put(t)) => PutFiles(cfg, g, t);
      case Do(Acquire(t, addr)) => AcquireFiles(cfg, g, t, addr);
      case Do(Release(t)) => ReleaseFiles(cfg, g, t);
      case Do(Spawn(t)) => OutsiderFiles(cfg, g, PipelineStops.After(cfg, g, step), t);
      case AddFails(t, finish) => FailFiles(cfg, g, t, finish);
      case Leave(t) => OutsiderFiles(cfg, g, PipelineStops.After(cfg, g, step), t);
      case _ => FilesFrame(cfg, g, PipelineStops.After(cfg, g, step));
    }
  }

  // ---------------------------------------------------------------- over runs

  ghost predicate Sound(cfg: Config, g: Gated)
    requires cfg.Valid()
  {
    GatedInv(cfg, g) && LossInv(cfg, g) && SideInv(cfg, g)
  }

  lemma StepSound(cfg: Config, g: Gated, step: GatedStep)
    requires cfg.Valid() && Sound(cfg, g) && CanTake(cfg, g, step)
    ensures Sound(cfg, PipelineStops.After(cfg, g, step))
  {
    StepOk(cfg, g, step);
    StepFiles(cfg, g, step);
    StepSide(cfg, g, step);
  }

  lemma {:induction false} RunSound(cfg: Config, g: Gated, run: seq<GatedStep>, g': Gated)
    requires cfg.Valid() && Sound(cfg, g) && Reaches(cfg, g, run, g')
    ensures Sound(cfg, g')
    decreases run
  {
    if run != [] {
      StepSound(cfg, g, run[0]);
      RunSound(cfg, PipelineStops.After(cfg, g, run[0]), run[1..], g');
    }
  }

  lemma InitSound(cfg: Config)
    requires cfg.Valid()
    ensures Sound(cfg, PipelineStops.Init(cfg))
  {
    InitOk(cfg);
    assert LossInv(cfg, PipelineStops.Init(cfg));
    assert Kept([], 0, {}) == [];
  }

  // What the run did to file t: one of its adds was refused; a flush met one of its chunks in the queue.
  ghost predicate Refuses(run: seq<GatedStep>, t: nat) {
    exists i :: 0 <= i < |run| && run[i].AddFails? && run[i].t == t
  }

  ghost predicate FlushMeets(cfg: Config, g: Gated, run: seq<GatedStep>, t: nat)
    decreases run
  {
    && run != [] && CanTake(cfg, g, run[0])
    && ((run[0].Flush? && HasChunk(g.p.queue, t)) || FlushMeets(cfg, PipelineStops.After(cfg, g, run[0]), run[1..], t))
  }

  ghost predicate HasChunk(cs: seq<Chunk>, t: nat) {
    exists i :: 0 <= i < |cs| && cs[i].meta == Some(t)
  }

  ghost predicate HasFlushed(put: seq<Chunk>, n: nat, flushed: set<nat>, t: nat)
    requires n <= |put|
  {
    exists i :: 0 <= i < n && i in flushed && put[i].meta == Some(t)
  }

  lemma RefusesFirst(run: seq<GatedStep>, t: nat)
    requires run != []
    ensures Refuses(run, t) <==> (run[0].AddFails? && run[0].t == t) || Refuses(run[1..], t)
  {
    if Refuses(run, t) && !(run[0].AddFails? && run[0].t == t) {
      var i :| 0 <= i < |run| && run[i].AddFails? && run[i].t == t;
      assert run[1..][i - 1] == run[i];
    }
    if Refuses(run[1..], t) {
      var i :| 0 <= i < |run[1..]| && run[1..][i].AddFails? && run[1..][i].t == t;
      assert run[i + 1] == run[1..][i];
    }
  }

  lemma {:induction false} RefusedIs(cfg: Config, g: Gated, run: seq<GatedStep>, g': Gated, t: nat)
    requires Reaches(cfg, g, run, g')
    ensures t in g'.refused <==> t in g.refused || Refuses(run, t)
    decreases run
  {
    if run != [] {
      RefusesFirst(run, t);
      RefusedIs(cfg, PipelineStops.After(cfg, g, run[0]), run[1..], g', t);
    }
  }

  lemma FlushFlushes(put: seq<Chunk>, queue: seq<Chunk>, flushed: set<nat>, more: set<nat>, t: nat)
    requires |queue| <= |put| && queue == put[|put| - |queue|..]
    requires forall i: nat :: i in more <==> |put| - |queue| <= i < |put|
    ensures HasFlushed(put, |put|, flushed + more, t) <==> HasFlushed(put, |put|, flushed, t) || HasChunk(queue, t)
  {
    var n: nat := |put| - |queue|;
    if HasChunk(queue, t) {
      var i :| 0 <= i < |queue| && queue[i].meta == Some(t);
      assert n + i in flushed + more && put[n + i] == queue[i];
    }
    if HasFlushed(put, |put|, flushed + more, t) && !HasFlushed(put, |put|, flushed, t) {
      var i :| 0 <= i < |put| && i in flushed + more && put[i].meta == Some(t);
      assert queue[i - n] == put[i];
    }
  }

  lemma PutFlushes(put: seq<Chunk>, c: Chunk, flushed: set<nat>, t: nat)
    requires forall i <- flushed :: i < |put|
    ensures HasFlushed(put + [c], |put| + 1, flushed, t) <==> HasFlushed(put, |put|, flushed, t)
  {
    if HasFlushed(put, |put|, flushed, t) {
      var i :| 0 <= i < |put| && i in flushed && put[i].meta == Some(t);
      assert (put + [c])[i] == put[i];
    }
  }

  lemma StepFlushes(cfg: Config, g: Gated, step: GatedStep, t: nat)
    requires WhereOk(g.p.put, g.p.queue, g.taken, g.flushed) && CanTake(cfg, g, step)
    ensures var g' := PipelineStops.After(cfg, g, step);
            HasFlushed(g'.p.put, |g'.p.put|, g'.flushed, t)
            <==> HasFlushed(g.p.put, |g.p.put|, g.flushed, t) || (step.Flush? && HasChunk(g.p.queue, t))
  {
    match step {
      case Flush => FlushFlushes(g.p.put, g.p.queue, g.flushed, Queued(g.p), t);
      case Do(Put(u)) => PutFlushes(g.p.put, g.p.threads[u].phase.chunk, g.flushed, t);
      case _ =>
    }
  }

  lemma {:induction false} FlushedIs(cfg: Config, g: Gated, run: seq<GatedStep>, g': Gated, t: nat)
    requires cfg.Valid() && Sound(cfg, g) && Reaches(cfg, g, run, g')
    ensures HasFlushed(g'.p.put, |g'.p.put|, g'.flushed, t)
            <==> HasFlushed(g.p.put, |g.p.put|, g.flushed, t) || FlushMeets(cfg, g, run, t)
    decreases run
  {
    if run != [] {
      StepSound(cfg, g, run[0]);
      StepFlushes(cfg, g, run[0], t);
      FlushedIs(cfg, PipelineStops.After(cfg, g, run[0]), run[1..], g', t);
    }
  }

  // ---------------------------------------------------------------- when a file loses a chunk

  lemma {:induction false} KeptOf(put: seq<Chunk>, n: nat, flushed: set<nat>, t: nat)
    requires n <= |put|
    ensures HasFlushed(put, n, flushed, t) ==> |Of(Kept(put, n, flushed), t)| < |Of(put[..n], t)|
    ensures !HasFlushed(put, n, flushed, t) ==> Of(Kept(put, n, flushed), t) == Of(put[..n], t)
    decreases n
  {
    if n > 0 {
      KeptOf(put, n - 1, flushed, t);
      OfGrows(put, n - 1, t);
      KeptOfSnoc(put, n - 1, flushed, t);
      HasFlushedSnoc(put, n - 1, flushed, t);
    }
  }

  lemma KeptOfSnoc(put: seq<Chunk>, n: nat, flushed: set<nat>, t: nat)
    requires n < |put|
    ensures Of(Kept(put, n + 1, flushed), t)
            == Of(Kept(put, n, flushed), t) + if n !in flushed && put[n].meta == Some(t) then [put[n]] else []
  {
    var before := Kept(put, n, flushed);
    if n !in flushed {
      assert (before + [put[n]])[..|before|] == before;
    } else {
      assert before + [] == before;
    }
  }

  lemma HasFlushedSnoc(put: seq<Chunk>, n: nat, flushed: set<nat>, t: nat)
    requires n < |put|
    ensures HasFlushed(put, n + 1, flushed, t) <==> HasFlushed(put, n, flushed, t) || (n in flushed && put[n].meta == Some(t))
  {
    if n in flushed && put[n].meta == Some(t) {
      assert HasFlushed(put, n + 1, flushed, t);
    }
  }

  // As a fact about sequences: what is kept of a file is all of it exactly when nothing was taken from it.
  lemma AllOrLess(kept: seq<Chunk>, mine: seq<Chunk>, future: seq<Chunk>, all: seq<Chunk>, refused: bool, flushed: bool)
    requires if refused then |mine| + |future| < |all| else mine + future == all
    requires if flushed then |kept| < |mine| else kept == mine
    ensures kept + future == all <==> !refused && !flushed
  {
  }

  lemma KeptIs(g: Gated, t: nat)
    requires WhereOk(g.p.put, g.p.queue, g.taken, g.flushed)
    ensures if HasFlushed(g.p.put, |g.p.put|, g.flushed, t) then |Of(g.taken + g.p.queue, t)| < |Of(g.p.put, t)|
            else Of(g.taken + g.p.queue, t) == Of(g.p.put, t)
  {
    WhereKept(g.p.put, g.p.queue, g.taken, g.flushed);
    KeptOf(g.p.put, |g.p.put|, g.flushed, t);
    assert g.p.put[..|g.p.put|] == g.p.put;
  }

  lemma FileIs(cfg: Config, g: Gated, t: nat)
    requires cfg.Valid() && LossInv(cfg, g) && t in Ids(g.p.handed)
    ensures t < |g.p.threads|
    ensures var all := FileChunks(FileMeta(g.p.handed, t), cfg.File(t), cfg.bufSize);
            var future := FutureOf(cfg, g.p.threads[t]);
            if t in g.refused then |Of(g.p.put, t)| + |future| < |all| else Of(g.p.put, t) + future == all
  {
  }

  lemma FileKept(cfg: Config, g: Gated, t: nat)
    requires cfg.Valid() && LossInv(cfg, g) && WhereOk(g.p.put, g.p.queue, g.taken, g.flushed) && t in Ids(g.p.handed)
    ensures t < |g.p.threads|
    ensures Of(g.taken + g.p.queue, t) + FutureOf(cfg, g.p.threads[t])
            == FileChunks(FileMeta(g.p.handed, t), cfg.File(t), cfg.bufSize)
            <==> t !in g.refused && !HasFlushed(g.p.put, |g.p.put|, g.flushed, t)
  {
    FileIs(cfg, g, t);
    KeptIs(g, t);
    AllOrLess(Of(g.taken + g.p.queue, t), Of(g.p.put, t), FutureOf(cfg, g.p.threads[t]),
              FileChunks(FileMeta(g.p.handed, t), cfg.File(t), cfg.bufSize),
              t in g.refused, HasFlushed(g.p.put, |g.p.put|, g.flushed, t));
  }

  /** When a file loses a chunk, exactly, over all runs with stops, errors, flushes and resumptions: what the
      driver has taken of it, what is queued and what its decoder has still to add are its splitting, chunk
      for chunk and in order, if and only if none of its adds was refused and no flush met one of its chunks
      in the queue. In particular what was taken and queued of a file that is through is all of it exactly
      then. */
  lemma LostExactly(cfg: Config, run: seq<GatedStep>, g: Gated, t: nat)
    requires cfg.Valid() && Reaches(cfg, PipelineStops.Init(cfg), run, g) && t in Ids(g.p.handed)
    ensures t < |g.p.threads|
    ensures var all := FileChunks(FileMeta(g.p.handed, t), cfg.File(t), cfg.bufSize);
            var lost := Refuses(run, t) || FlushMeets(cfg, PipelineStops.Init(cfg), run, t);
            && (Of(g.taken + g.p.queue, t) + FutureOf(cfg, g.p.threads[t]) == all <==> !lost)
            && (g.p.threads[t].phase.Exited? ==> (Of(g.taken + g.p.queue, t) == all <==> !lost))
  {
    InitSound(cfg);
    RunSound(cfg, PipelineStops.Init(cfg), run, g);
    FileKept(cfg, g, t);
    RefusedIs(cfg, PipelineStops.Init(cfg), run, g, t);
    FlushedIs(cfg, PipelineStops.Init(cfg), run, g, t);
    assert Of(g.taken + g.p.queue, t) + [] == Of(g.taken + g.p.queue, t);
  }

  lemma {:induction false} ReachesMore(cfg: Config, g: Gated, run: seq<GatedStep>, g': Gated, step: GatedStep)
    requires Reaches(cfg, g, run, g') && CanTake(cfg, g', step)
    ensures Reaches(cfg, g, run + [step], PipelineStops.After(cfg, g', step))
    decreases run
  {
    if run == [] {
      assert [step][1..] == [];
    } else {
      ReachesMore(cfg, PipelineStops.After(cfg, g, run[0]), run[1..], g', step);
      assert (run + [step])[1..] == run[1..] + [step];
    }
  }

  // One file of one byte, buffers of four.
  const ONE_BYTE := Config(4, 2, [[7]])

  ghost predicate Comes(g: Gated) {
    exists run :: Reaches(ONE_BYTE, PipelineStops.Init(ONE_BYTE), run, g)
  }

  lemma ComesOn(g: Gated, step: GatedStep, g': Gated)
    requires Comes(g) && CanTake(ONE_BYTE, g, step) && PipelineStops.After(ONE_BYTE, g, step) == g'
    ensures Comes(g')
  {
    var run :| Reaches(ONE_BYTE, PipelineStops.Init(ONE_BYTE), run, g);
    ReachesMore(ONE_BYTE, PipelineStops.Init(ONE_BYTE), run, g, step);
  }

  const META := Meta(0, 0, true)

  // Its states once its decoder is current.
  function OneByteAt(phase: Phase, rest: seq<Byte>, chunk: Option<Chunk>, queue: seq<Chunk>, put: seq<Chunk>): State {
    State(Some(0), [Thread(phase, rest, chunk, META)], None, queue, Idle, [], [], [META], put)
  }

  function Open(p: State): Gated {
    Gated(p, true, true, {}, [], {})
  }

  lemma OneByteStarts()
    ensures Comes(Open(OneByteAt(Decoding, [7], None, [], [])))
  {
    var g := PipelineStops.Init(ONE_BYTE);
    assert Reaches(ONE_BYTE, g, [], g);
    var waiting := Open(State(None, [Thread(Waiting, [7], None, META)], None, [], Idle, [], [], [], []));
    ComesOn(g, Do(Spawn(0)), waiting);
    ComesOn(waiting, Do(Acquire(0, 0)), Open(OneByteAt(Decoding, [7], None, [], [])));
  }

  lemma OneByteFeeds(held: Chunk)
    requires held == Chunk(0, 1, [7], None, [], [])
    ensures Comes(Open(OneByteAt(Decoding, [], Some(held), [], [])))
  {
    OneByteStarts();
    assert [] + [7] == [7] && [7][1..] == [];
    assert Feed(None, META, None, 7, 4) == FeedResult(Some(held), None, None, false);
    ComesOn(Open(OneByteAt(Decoding, [7], None, [], [])), Do(FeedByte(0)), Open(OneByteAt(Decoding, [], Some(held), [], [])));
  }

  lemma OneByteQueues(c: Chunk)
    requires c == LastChunk(META, 0, [7])
    ensures Comes(Open(OneByteAt(Clearing, [], None, [c], [c])))
  {
    var held := Chunk(0, 1, [7], None, [], []);
    OneByteFeeds(held);
    FinishRefines(held, META, 0, [7], 4);
    var adding := Open(OneByteAt(Adding(c, true), [], None, [], []));
    ComesOn(Open(OneByteAt(Decoding, [], Some(held), [], [])), Do(Done(0)), adding);
    ComesOn(adding, Do(Put(0)), Open(OneByteAt(Clearing, [], None, [c], [c])));
  }

  lemma OneByteFlushed(c: Chunk)
    requires c == LastChunk(META, 0, [7])
    ensures Comes(Gated(OneByteAt(Clearing, [], None, [], [c]), true, false, {}, [], {0}))
  {
    OneByteQueues(c);
    var queued := Open(OneByteAt(Clearing, [], None, [c], [c]));
    assert Queued(queued.p) == {0};
    ComesOn(queued, Flush, Gated(OneByteAt(Clearing, [], None, [], [c]), true, false, {}, [], {0}));
  }

  /** A flush does lose a file of which no chunk is refused: its only chunk is queued, flushed before the
      driver takes it, and the decoder ends as if all were well. */
  lemma FlushLoses() returns (run: seq<GatedStep>, g: Gated)
    ensures ONE_BYTE.Valid() && Reaches(ONE_BYTE, PipelineStops.Init(ONE_BYTE), run, g)
    ensures Is(g.p, 0, Exited) && g.run && g.p.consumer == Idle && g.p.queue == [] && g.p.delivered == []
    ensures 0 in Ids(g.p.handed) && !Refuses(run, 0) && FlushMeets(ONE_BYTE, PipelineStops.Init(ONE_BYTE), run, 0)
  {
    var c := LastChunk(META, 0, [7]);
    OneByteFlushed(c);
    var resumed := Open(OneByteAt(Clearing, [], None, [], [c])).(flushed := {0});
    ComesOn(resumed.(run := false), Resume, resumed);
    g := resumed.(p := OneByteAt(Exited, [], None, [], [c]).(curr := None));
    ComesOn(resumed, Do(Release(0)), g);
    run :| Reaches(ONE_BYTE, PipelineStops.Init(ONE_BYTE), run, g);
    OneByteFate(run, g);
  }

  lemma OneByteFate(run: seq<GatedStep>, g: Gated)
    requires Reaches(ONE_BYTE, PipelineStops.Init(ONE_BYTE), run, g)
    requires |g.p.put| == 1 && g.p.put[0].meta == Some(0) && g.p.handed == [META] && g.refused == {} && g.flushed == {0}
    ensures 0 in Ids(g.p.handed) && !Refuses(run, 0) && FlushMeets(ONE_BYTE, PipelineStops.Init(ONE_BYTE), run, 0)
  {
    assert Ids(g.p.handed)[0] == 0;
    InitSound(ONE_BYTE);
    RefusedIs(ONE_BYTE, PipelineStops.Init(ONE_BYTE), run, g, 0);
    FlushedIs(ONE_BYTE, PipelineStops.Init(ONE_BYTE), run, g, 0);
    assert HasFlushed(g.p.put, 1, g.flushed, 0);
  }

  /** Where every chunk ever queued is, after any run: the last of them are in the queue, and the others, but
      for those that a flush met, are what the driver has taken, in order. */
  lemma EveryChunk(cfg: Config, run: seq<GatedStep>, g: Gated)
    requires cfg.Valid() && Reaches(cfg, PipelineStops.Init(cfg), run, g)
    ensures WhereOk(g.p.put, g.p.queue, g.taken, g.flushed)
  {
    InitSound(cfg);
    RunSound(cfg, PipelineStops.Init(cfg), run, g);
  }

  // ---------------------------------------------------------------- what reaches the driver

  lemma KeptBlocks(put: seq<Chunk>, n: nat, flushed: set<nat>)
    requires n <= |put| && OneBlock(put) && Upwards(put)
    ensures OneBlock(Kept(put, n, flushed)) && Upwards(Kept(put, n, flushed))
  {
    KeptAt(put, n, flushed);
    var ps, kept := Places(n, flushed), Kept(put, n, flushed);
    forall i, k, j | 0 <= i < k < j < |kept| && kept[i].meta == kept[j].meta
      ensures kept[k].meta == kept[j].meta
    {
      assert ps[i] < ps[k] < ps[j];
    }
    forall i, j | 0 <= i < j < |kept| && kept[i].meta == kept[j].meta
      ensures kept[i].order < kept[j].order && !IsDone(kept[i].size)
    {
      assert ps[i] < ps[j];
    }
  }

  lemma CopiedAndInPack(cfg: Config, g: Gated)
    requires DriverInv(cfg, Seen(g))
    ensures g.p.delivered + InPack(g.p) == FlatData(g.taken)
  {
    DeliveredAndOnTheWay(cfg, Seen(g));
    FlatDataConcat(g.taken, g.p.queue);
    var a, b, q := g.p.delivered + InPack(g.p), FlatData(g.taken), FlatData(g.p.queue);
    assert a + q == b + q;
    assert |a| == |b| && (a + q)[..|a|] == a && (b + q)[..|b|] == b;
  }

  /** What reaches the driver through stops, errors, flushes and resumptions: what it has copied and the rest
      of its pack are the bytes of the chunks it took, in order; and those, with the queued ones after them,
      are still one block for each file, numbered upwards, with no done mark before the last of them. */
  lemma DriverThroughStops(cfg: Config, run: seq<GatedStep>, g: Gated)
    requires cfg.Valid() && Reaches(cfg, PipelineStops.Init(cfg), run, g)
    ensures g.p.delivered + InPack(g.p) == FlatData(g.taken)
    ensures OneBlock(g.taken + g.p.queue) && Upwards(g.taken + g.p.queue)
  {
    InitSound(cfg);
    RunSound(cfg, PipelineStops.Init(cfg), run, g);
    CopiedAndInPack(cfg, g);
    SeenBlocks(cfg, g);
  }

  lemma SeenBlocks(cfg: Config, g: Gated)
    requires cfg.Valid() && Sound(cfg, g)
    ensures OneBlock(Seen(g).put) && Upwards(Seen(g).put) && AllWellFormed(Seen(g).put, cfg.bufSize)
  {
    WhereKept(g.p.put, g.p.queue, g.taken, g.flushed);
    KeptBlocks(g.p.put, |g.p.put|, g.flushed);
    SeenWellFormed(cfg, g);
  }

  // Whether a done-marked chunk of file f is among these.
  ghost predicate HasDone(cs: seq<Chunk>, f: nat) {
    exists i :: 0 <= i < |cs| && cs[i].meta == Some(f) && IsDone(cs[i].size)
  }

  lemma DropCounts(c: Chunk, f: nat, bufSize: nat)
    requires bufSize % PADDING == 0 && WellFormed(c, bufSize)
    ensures multiset(DropChunk(c).1)[LastTakeOut(Some(f))] == if c.meta == Some(f) && IsDone(c.size) then 1 else 0
  {
    WellFormedLoads(c, bufSize);
    DropIs(c);
  }

  lemma {:induction false} DropsCount(cs: seq<Chunk>, f: nat, bufSize: nat)
    requires bufSize % PADDING == 0 && AllWellFormed(cs, bufSize) && Upwards(cs)
    ensures multiset(DropTrace(cs))[LastTakeOut(Some(f))] == if HasDone(cs, f) then 1 else 0
  {
    if cs != [] {
      var before, c := cs[..|cs| - 1], cs[|cs| - 1];
      UpwardsPrefix(cs, |cs| - 1, bufSize);
      DropsCount(before, f, bufSize);
      DropCounts(c, f, bufSize);
      assert before + [c] == cs;
      HasDoneSnoc(before, c, f);
    }
  }

  lemma HasDoneSnoc(cs: seq<Chunk>, c: Chunk, f: nat)
    requires Upwards(cs + [c])
    ensures HasDone(cs + [c], f) <==> HasDone(cs, f) || (c.meta == Some(f) && IsDone(c.size))
    ensures c.meta == Some(f) ==> !HasDone(cs, f)
  {
    var all := cs + [c];
    assert all[|cs|] == c;
    if HasDone(cs, f) {
      var i :| 0 <= i < |cs| && cs[i].meta == Some(f) && IsDone(cs[i].size);
      assert all[i] == cs[i];
    }
  }

  lemma {:induction false} SelectCounts(trace: seq<Callback>, cb: Callback)
    requires cb.LastTakeOut?
    ensures multiset(trace)[cb] == multiset(Select(trace, true))[cb]
  {
    if trace != [] {
      SelectCounts(trace[..|trace| - 1], cb);
      assert trace == trace[..|trace| - 1] + [trace[|trace| - 1]];
    }
  }

  lemma UpwardsPrefix(cs: seq<Chunk>, n: nat, bufSize: nat)
    requires n <= |cs| && Upwards(cs) && AllWellFormed(cs, bufSize)
    ensures Upwards(cs[..n]) && AllWellFormed(cs[..n], bufSize)
  {
  }

  // Nothing of a file follows its done mark, in the pack, in the queue or in a decoder.
  lemma NothingFollows(cfg: Config, g: Gated, f: nat)
    requires cfg.Valid() && Sound(cfg, g)
    requires 0 <= NumDropped(Seen(g)) <= |Seen(g).put| && HasDone(Seen(g).put[..NumDropped(Seen(g))], f)
    ensures forall i :: NumDropped(Seen(g)) <= i < |Seen(g).put| ==> Seen(g).put[i].meta != Some(f)
    ensures Is(g.p, f, Decoding) ==> g.p.curr != Some(f)
    ensures f < |g.p.threads| && g.p.threads[f].phase.Adding? ==> g.p.curr != Some(f)
  {
    SeenBlocks(cfg, g);
    var s := Seen(g);
    var i :| 0 <= i < NumDropped(s) && s.put[i].meta == Some(f) && IsDone(s.put[i].size);
    WhereKept(g.p.put, g.p.queue, g.taken, g.flushed);
    KeptAt(g.p.put, |g.p.put|, g.flushed);
    assert g.p.put[Places(|g.p.put|, g.flushed)[i]] == s.put[i];
  }

  lemma ReleasedIs(cfg: Config, g: Gated, f: nat)
    requires cfg.Valid() && Sound(cfg, g)
    ensures 0 <= NumDropped(Seen(g)) <= |g.taken|
    ensures multiset(g.p.trace)[LastTakeOut(Some(f))] == if HasDone(g.taken[..NumDropped(Seen(g))], f) then 1 else 0
  {
    var s := Seen(g);
    var d := NumDropped(s);
    SeenBlocks(cfg, g);
    UpwardsPrefix(s.put, d, cfg.bufSize);
    DropsCount(s.put[..d], f, cfg.bufSize);
    SelectCounts(g.p.trace, LastTakeOut(Some(f)));
    assert s.put[..d] == g.taken[..d];
  }

  lemma UnusedAfterDone(cfg: Config, g: Gated, f: nat, d: nat)
    requires cfg.Valid() && Sound(cfg, g) && d == NumDropped(Seen(g)) <= |g.taken| && HasDone(g.taken[..d], f)
    ensures forall c <- g.taken[d..] :: c.meta != Some(f)
    ensures forall c <- g.p.queue :: c.meta != Some(f)
    ensures f < |g.p.threads| ==> !g.p.threads[f].phase.Decoding? && !g.p.threads[f].phase.Adding?
  {
    assert Seen(g).put[..d] == g.taken[..d];
    NothingFollows(cfg, g, f);
    FilesDiffer(g.taken, g.p.queue, d, f);
    if f < |g.p.threads| {
      assert OwnOk(f, g.p.threads[f], g.p.curr);
    }
  }

  /** The life of metadata through stops, errors, flushes and resumptions: it is released at most once, and
      exactly when the driver has dropped the done-marked chunk of its file; by then nothing that the driver
      still holds, that is queued, or that a decoder fills or adds belongs to that file. */
  lemma ReleasedThroughStops(cfg: Config, run: seq<GatedStep>, g: Gated, f: nat)
    requires cfg.Valid() && Reaches(cfg, PipelineStops.Init(cfg), run, g)
    ensures 0 <= NumDropped(Seen(g)) <= |g.taken|
    ensures var released := multiset(g.p.trace)[LastTakeOut(Some(f))];
            && released <= 1 && (released == 1 <==> HasDone(g.taken[..NumDropped(Seen(g))], f))
            && (released == 1 ==>
                  && (forall c <- g.taken[NumDropped(Seen(g))..] :: c.meta != Some(f))
                  && (forall c <- g.p.queue :: c.meta != Some(f))
                  && (f < |g.p.threads| ==> !g.p.threads[f].phase.Decoding? && !g.p.threads[f].phase.Adding?))
  {
    InitSound(cfg);
    RunSound(cfg, PipelineStops.Init(cfg), run, g);
    ReleasedIs(cfg, g, f);
    if HasDone(g.taken[..NumDropped(Seen(g))], f) {
      UnusedAfterDone(cfg, g, f, NumDropped(Seen(g)));
    }
  }

  lemma FilesDiffer(taken: seq<Chunk>, queue: seq<Chunk>, d: nat, f: nat)
    requires d <= |taken| && forall i :: d <= i < |taken + queue| ==> (taken + queue)[i].meta != Some(f)
    ensures forall c <- taken[d..] :: c.meta != Some(f)
    ensures forall c <- queue :: c.meta != Some(f)
  {
    forall i | 0 <= i < |taken| - d
      ensures taken[d..][i].meta != Some(f)
    {
      assert (taken + queue)[d + i] == taken[d..][i];
    }
    forall i | 0 <= i < |queue|
      ensures queue[i].meta != Some(f)
    {
      assert (taken + queue)[|taken| + i] == queue[i];
    }
  }
}
