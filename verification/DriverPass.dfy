/** What a driver does with a pack (drivers/pulseaudio/mdpaudio.c): it walks the pack from first to
    next, hands each chunk's bytes to the sound system, and cleans the pack. */
module DriverPass {
  import opened Types
  import opened Chunks
  import opened Delivery
  import opened Garbage
  import opened BufList
  import opened Pipeline
  import opened PipelineInvariant

  // The chunk objects of the pack, and their values before the walk.
  ghost predicate PackOf(pack: Pack, chunks: seq<BufChunk>, views: seq<Chunk>)
    reads pack, pack.nodes
  {
    && pack.Valid() && |chunks| == |views| == |pack.nodes|
    && (forall k :: 0 <= k < |chunks| ==> chunks[k] == pack.nodes[k].chunk)
    && forall j, k :: 0 <= j < k < |chunks| ==> chunks[j] != chunks[k]
  }

  // After the driver has walked onto the first n chunks.
  ghost predicate Walked(chunks: seq<BufChunk>, views: seq<Chunk>, n: nat, log: Log, trace0: seq<Callback>)
    reads chunks, log
  {
    && n <= |chunks| == |views|
    && (forall k :: 0 <= k < n ==> chunks[k].View() == LoadChunk(views[k]).0)
    && (forall k :: n <= k < |chunks| ==> chunks[k].View() == views[k])
    && log.trace == trace0 + LoadTrace(views[..n])
  }

  // The arrays of the chunks hold their data. The walk writes to none of them.
  ghost predicate ArraysHold(chunks: seq<BufChunk>, views: seq<Chunk>)
    reads set c <- chunks :: c.buffer
  {
    && |chunks| == |views|
    && forall k :: 0 <= k < |chunks| ==>
         |views[k].data| <= chunks[k].buffer.Length && chunks[k].buffer[..|views[k].data|] == views[k].data
  }

  ghost predicate AllWellFormed(views: seq<Chunk>, bufSize: nat) {
    bufSize % PADDING == 0 && forall k :: 0 <= k < |views| ==> WellFormed(views[k], bufSize)
  }

  // Where the walk is when the driver holds `chunk`, having copied the bytes of the first n.
  ghost predicate WalkAt(pack: Pack, chunk: BufChunk?, chunks: seq<BufChunk>, views: seq<Chunk>, n: nat, log: Log,
                         trace0: seq<Callback>)
    reads pack, pack.nodes, chunks, log
  {
    && PackOf(pack, chunks, views) && n <= |chunks|
    && if n == |chunks| then chunk == null && Walked(chunks, views, n, log, trace0)
       else chunk == chunks[n] && pack.pos == n && Walked(chunks, views, n + 1, log, trace0)
  }

  // md_bufll_first, as the start of the walk
  method StartWalk(pack: Pack, log: Log, ghost chunks: seq<BufChunk>, ghost views: seq<Chunk>) returns (chunk: BufChunk?)
    requires PackOf(pack, chunks, views) && (chunks != [] ==> chunks[0].View() == views[0])
    modifies pack`curr, pack`pos, log, if chunks == [] then {} else {chunks[0]}
    ensures PackOf(pack, chunks, views)
    ensures if chunks == [] then chunk == null && log.trace == old(log.trace)
            else chunk == chunks[0] && pack.pos == 0 && chunks[0].View() == LoadChunk(views[0]).0
                 && log.trace == old(log.trace) + LoadChunk(views[0]).1
  {
    chunk := pack.First(log);
  }

  // md_bufll_next, as a step of it
  method StepWalk(pack: Pack, log: Log, ghost chunks: seq<BufChunk>, ghost views: seq<Chunk>, ghost n: nat)
    returns (chunk: BufChunk?)
    requires PackOf(pack, chunks, views) && n < |chunks| && pack.pos == n
    requires n + 1 < |chunks| ==> chunks[n + 1].View() == views[n + 1]
    modifies pack`curr, pack`pos, log, if n + 1 < |chunks| then {chunks[n + 1]} else {}
    ensures PackOf(pack, chunks, views)
    ensures if n + 1 == |chunks| then chunk == null && log.trace == old(log.trace)
            else chunk == chunks[n + 1] && pack.pos == n + 1 && chunks[n + 1].View() == LoadChunk(views[n + 1]).0
                 && log.trace == old(log.trace) + LoadChunk(views[n + 1]).1
  {
    assert n + 1 < |chunks| ==> pack.curr.next == pack.nodes[n + 1];
    chunk := pack.Next(log);
  }

  // The calls of pa_stream_write: the data of the first n chunks, one call each.
  ghost predicate Copied(views: seq<Chunk>, n: nat, writes: seq<seq<Byte>>) {
    |writes| == n <= |views| && forall k :: 0 <= k < n ==> writes[k] == views[k].data
  }

  lemma CopiedGrows(views: seq<Chunk>, n: nat, writes: seq<seq<Byte>>, bytes: seq<Byte>)
    requires Copied(views, n, writes) && n < |views| && bytes == views[n].data
    ensures Copied(views, n + 1, writes + [bytes])
  {
  }

  // pa_stream_write refuses the chunk with this number, if any.
  predicate Refuses(failAt: Option<nat>, n: nat) {
    failAt.Some? && failAt.value < n
  }

  /** One pass over a pack of chunks as decoders hand them over: the driver gets exactly their data, in
      order; every take-in event runs once, before the bytes of its chunk are read, and every take-out
      event once, in order, when the pack is cleaned; the chunks go to the garbage in that order. When a
      write is refused the pass ends there: the chunks before it have been written, that one has been
      loaded too, and nothing is cleaned. */
  method PlayPack(pack: Pack, log: Log, g: GarbageRing<BufChunk?>, failAt: Option<nat>, ghost chunks: seq<BufChunk>,
                  ghost views: seq<Chunk>, ghost bufSize: nat)
    returns (writes: seq<seq<Byte>>, ret: int)
    requires PackOf(pack, chunks, views) && AllWellFormed(views, bufSize) && g.Valid()
    requires Walked(chunks, views, 0, log, log.trace) && ArraysHold(chunks, views)
    modifies pack`curr, pack`pos, log, chunks, g, g.chunks
    ensures g.Valid() && ret == if Refuses(failAt, |chunks|) then -22 else 0
    ensures ret == 0 ==> Copied(views, |views|, writes) && g.view == AddAll(old(g.view), g.size, chunks)
                         && log.trace == old(log.trace) + LoadTrace(views) + DropTrace(views)
    ensures ret != 0 ==> Copied(views, failAt.value, writes) && g.view == old(g.view)
                         && log.trace == old(log.trace) + LoadTrace(views[..failAt.value + 1])
  {
    writes, ret := Walk(pack, log, failAt, chunks, views, bufSize);
    if ret == 0 {
      CleanUp(pack, log, g, chunks, views, bufSize);
    }
  }

  // How the loop over the pack ends.
  ghost predicate WalkEnds(pack: Pack, chunks: seq<BufChunk>, views: seq<Chunk>, log: Log, trace0: seq<Callback>,
                           failAt: Option<nat>, writes: seq<seq<Byte>>, ret: int)
    reads pack, pack.nodes, chunks, log
  {
    && PackOf(pack, chunks, views)
    && if Refuses(failAt, |chunks|)
       then ret == -22 && Copied(views, failAt.value, writes)
            && log.trace == trace0 + LoadTrace(views[..failAt.value + 1])
       else ret == 0 && Copied(views, |views|, writes) && log.trace == trace0 + LoadTrace(views)
            && forall k :: 0 <= k < |chunks| ==> chunks[k].View() == LoadChunk(views[k]).0
  }

  // The loop over the pack.
  method Walk(pack: Pack, log: Log, failAt: Option<nat>, ghost chunks: seq<BufChunk>, ghost views: seq<Chunk>,
              ghost bufSize: nat)
    returns (writes: seq<seq<Byte>>, ret: int)
    requires PackOf(pack, chunks, views) && AllWellFormed(views, bufSize)
    requires Walked(chunks, views, 0, log, log.trace) && ArraysHold(chunks, views)
    modifies pack`curr, pack`pos, log, chunks
    ensures WalkEnds(pack, chunks, views, log, old(log.trace), failAt, writes, ret)
  {
    ghost var trace0 := log.trace;
    writes := [];
    var i: nat := 0;
    var chunk := Begin(pack, log, failAt, chunks, views);
    while chunk != null
      invariant LoopAt(pack, chunk, chunks, views, i, log, trace0, failAt, writes)
      decreases |chunks| - i
    {
      if failAt == Some(i) {
        Refused(pack, chunk, chunks, views, i, log, trace0, failAt, writes);
        return writes, -22;
      }
      writes, chunk := Round(pack, chunk, log, failAt, chunks, views, i, trace0, writes, bufSize);
      i := i + 1;
    }
    AtEnd(pack, chunks, views, i, log, trace0, failAt, writes);
    ret := 0;
  }

  lemma Refused(pack: Pack, chunk: BufChunk, chunks: seq<BufChunk>, views: seq<Chunk>, n: nat, log: Log,
                trace0: seq<Callback>, failAt: Option<nat>, writes: seq<seq<Byte>>)
    requires LoopAt(pack, chunk, chunks, views, n, log, trace0, failAt, writes) && failAt == Some(n)
    ensures WalkEnds(pack, chunks, views, log, trace0, failAt, writes, -22)
  {
  }

  lemma AtEnd(pack: Pack, chunks: seq<BufChunk>, views: seq<Chunk>, n: nat, log: Log, trace0: seq<Callback>,
              failAt: Option<nat>, writes: seq<seq<Byte>>)
    requires LoopAt(pack, null, chunks, views, n, log, trace0, failAt, writes)
    ensures WalkEnds(pack, chunks, views, log, trace0, failAt, writes, 0)
  {
    assert views[..n] == views;
  }

  // pa_stream_write takes curr_chunk->size bytes from the start of the array.
  lemma Readable(pack: Pack, chunk: BufChunk, chunks: seq<BufChunk>, views: seq<Chunk>, n: nat, log: Log,
                 trace0: seq<Callback>, bufSize: nat)
    requires WalkAt(pack, chunk, chunks, views, n, log, trace0) && ArraysHold(chunks, views) && AllWellFormed(views, bufSize)
    ensures n < |chunks| == |views| && chunk == chunks[n] && chunk.size <= chunk.buffer.Length
    ensures chunk.buffer[..chunk.size] == views[n].data
  {
    LoadReadsData(views[n], MetaOf(views[n]), views[n].order, views[n].data);
    assert chunk.View() == LoadChunk(views[n]).0;
  }

  // The loop before its n-th round.
  ghost predicate LoopAt(pack: Pack, chunk: BufChunk?, chunks: seq<BufChunk>, views: seq<Chunk>, n: nat, log: Log,
                         trace0: seq<Callback>, failAt: Option<nat>, writes: seq<seq<Byte>>)
    reads pack, pack.nodes, chunks, log, set c <- chunks :: c.buffer
  {
    && WalkAt(pack, chunk, chunks, views, n, log, trace0) && ArraysHold(chunks, views)
    && Copied(views, n, writes) && !Refuses(failAt, n)
  }

  method Round(pack: Pack, chunk: BufChunk, log: Log, ghost failAt: Option<nat>, ghost chunks: seq<BufChunk>,
               ghost views: seq<Chunk>, ghost n: nat, ghost trace0: seq<Callback>, writes: seq<seq<Byte>>, ghost bufSize: nat)
    returns (writes': seq<seq<Byte>>, chunk': BufChunk?)
    requires LoopAt(pack, chunk, chunks, views, n, log, trace0, failAt, writes) && AllWellFormed(views, bufSize)
    requires failAt != Some(n)
    modifies pack`curr, pack`pos, log, chunks
    ensures n < |chunks| && LoopAt(pack, chunk', chunks, views, n + 1, log, trace0, failAt, writes')
  {
    Readable(pack, chunk, chunks, views, n, log, trace0, bufSize);
    CopiedGrows(views, n, writes, chunk.buffer[..chunk.size]);
    writes' := writes + [chunk.buffer[..chunk.size]];
    chunk' := Advance(pack, chunk, log, chunks, views, n, trace0);
  }

  method Advance(pack: Pack, chunk: BufChunk, log: Log, ghost chunks: seq<BufChunk>, ghost views: seq<Chunk>,
                 ghost n: nat, ghost trace0: seq<Callback>) returns (chunk': BufChunk?)
    requires n < |chunks| && WalkAt(pack, chunk, chunks, views, n, log, trace0) && ArraysHold(chunks, views)
    modifies pack`curr, pack`pos, log, chunks
    ensures WalkAt(pack, chunk', chunks, views, n + 1, log, trace0) && ArraysHold(chunks, views)
  {
    chunk' := Continue(pack, chunk, log, chunks, views, n, trace0);
  }

  method Begin(pack: Pack, log: Log, ghost failAt: Option<nat>, ghost chunks: seq<BufChunk>, ghost views: seq<Chunk>)
    returns (chunk: BufChunk?)
    requires PackOf(pack, chunks, views) && Walked(chunks, views, 0, log, log.trace) && ArraysHold(chunks, views)
    modifies pack`curr, pack`pos, log, chunks
    ensures LoopAt(pack, chunk, chunks, views, 0, log, old(log.trace), failAt, [])
  {
    ghost var trace0 := log.trace;
    chunk := StartWalk(pack, log, chunks, views);
    AfterStep(pack, chunk, chunks, views, 0, log, trace0);
  }

  method Continue(pack: Pack, chunk: BufChunk, log: Log, ghost chunks: seq<BufChunk>, ghost views: seq<Chunk>,
                  ghost n: nat, ghost trace0: seq<Callback>) returns (chunk': BufChunk?)
    requires n < |chunks| && WalkAt(pack, chunk, chunks, views, n, log, trace0)
    modifies pack`curr, pack`pos, log, chunks
    ensures WalkAt(pack, chunk', chunks, views, n + 1, log, trace0)
  {
    assert log.trace == trace0 + LoadTrace(views[..n + 1]);
    chunk' := StepWalk(pack, log, chunks, views, n);
    AfterStep(pack, chunk', chunks, views, n + 1, log, trace0);
  }

  // The walk is at its n-th chunk once that one has been loaded after the n before it.
  lemma AfterStep(pack: Pack, chunk: BufChunk?, chunks: seq<BufChunk>, views: seq<Chunk>, n: nat, log: Log,
                  trace0: seq<Callback>)
    requires PackOf(pack, chunks, views) && n <= |chunks|
    requires forall k :: 0 <= k < n ==> chunks[k].View() == LoadChunk(views[k]).0
    requires forall k :: n < k < |chunks| ==> chunks[k].View() == views[k]
    requires if n == |chunks| then chunk == null && log.trace == trace0 + LoadTrace(views[..n])
             else chunk == chunks[n] && pack.pos == n && chunks[n].View() == LoadChunk(views[n]).0
                  && log.trace == trace0 + LoadTrace(views[..n]) + LoadChunk(views[n]).1
    ensures WalkAt(pack, chunk, chunks, views, n, log, trace0)
  {
    if n < |chunks| {
      TraceGrows(views, n);
      ConcatAssociates(trace0, LoadTrace(views[..n]), LoadChunk(views[n]).1);
    }
  }

  ghost function LoadedViews(views: seq<Chunk>): (r: seq<Chunk>)
    ensures |r| == |views| && forall k :: 0 <= k < |r| ==> r[k] == LoadChunk(views[k]).0
  {
    seq(|views|, k requires 0 <= k < |views| => LoadChunk(views[k]).0)
  }

  // Walking onto chunks leaves what cleaning them does as it was.
  lemma {:induction false} LoadedDrop(views: seq<Chunk>, bufSize: nat)
    requires AllWellFormed(views, bufSize)
    ensures DropTrace(LoadedViews(views)) == DropTrace(views)
  {
    if views != [] {
      var n := |views| - 1;
      LoadedDrop(views[..n], bufSize);
      assert LoadedViews(views)[..n] == LoadedViews(views[..n]);
      CallbackKinds(views[n], bufSize);
    }
  }

  lemma HoldsLoaded(chunks: seq<BufChunk>, views: seq<Chunk>)
    requires |chunks| == |views| && forall j, k :: 0 <= j < k < |chunks| ==> chunks[j] != chunks[k]
    requires forall k :: 0 <= k < |chunks| ==> chunks[k].View() == LoadChunk(views[k]).0
    ensures Holds(chunks, LoadedViews(views), 0)
  {
  }

  lemma CleanedAll(ring: Ring<BufChunk?>, trace: seq<Callback>, ring0: Ring<BufChunk?>, trace0: seq<Callback>,
                   size: nat, chunks: seq<BufChunk>, views: seq<Chunk>)
    requires CleanedTo(ring, trace, ring0, trace0, size, chunks, views, |chunks|)
    ensures ring == AddAll(ring0, size, chunks) && trace == trace0 + DropTrace(views)
  {
    assert chunks[..|chunks|] == chunks && views[..|chunks|] == views;
  }

  // md_buf_clean_pack after the walk
  method CleanUp(pack: Pack, log: Log, g: GarbageRing<BufChunk?>, ghost chunks: seq<BufChunk>,
                 ghost views: seq<Chunk>, ghost bufSize: nat)
    requires PackOf(pack, chunks, views) && AllWellFormed(views, bufSize) && g.Valid()
    requires forall k :: 0 <= k < |chunks| ==> chunks[k].View() == LoadChunk(views[k]).0
    modifies log, g, g.chunks, chunks
    ensures log.trace == old(log.trace) + DropTrace(views)
    ensures g.Valid() && g.view == AddAll(old(g.view), g.size, chunks)
  {
    ghost var ring0, trace0 := g.view, log.trace;
    HoldsLoaded(chunks, views);
    LoadedDrop(views, bufSize);
    pack.CleanPack(log, g, chunks, LoadedViews(views));
    CleanedAll(g.view, log.trace, ring0, trace0, g.size, chunks, LoadedViews(views));
  }
}
