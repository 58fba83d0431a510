/** The callbacks that a run of the pipeline makes: for every file they follow one grammar, however
    packs cut the file, and its metadata is released once, when nothing refers to it any more. */
module PipelineCallbacks {
  import opened Types
  import opened Chunks
  import opened Chunking
  import opened Delivery
  import opened Pipeline
  import opened PipelineInvariant
  import opened PipelineSafety

  // ---------------------------------------------------------------- the grammar

  function LoadsUpTo(f: nat, n: nat): (r: seq<Callback>)
    ensures |r| == n && forall i :: 0 <= i < n ==> r[i] == Load(Some(f), i)
  {
    seq(n, i => Load(Some(f), i))
  }

  // The start of a file of two chunks or more: heard only if its metadata is at an unseen address.
  function Opening(f: nat, bufSize: nat, unseen: bool): seq<Callback> {
    if unseen then [FirstTakeIn(Some(f), bufSize)] else []
  }

  // Everything the core operations hear about file f when it has m chunks.
  function Grammar(f: nat, m: nat, bufSize: nat, unseen: bool): seq<Callback> {
    if m == 0 then []
    else if m == 1 then [LastTakeIn(Some(f)), Load(Some(f), 0), LastTakeOut(Some(f))]
    else Opening(f, bufSize, unseen) + LoadsUpTo(f, m - 1)
         + [LastTakeIn(Some(f)), Load(Some(f), m - 1), LastTakeOut(Some(f))]
  }

  function NumChunks(cfg: Config, f: nat): nat
    requires cfg.Valid()
  {
    NumPieces(|cfg.File(f)|, cfg.bufSize)
  }

  // The metadata with which file f was handed over, if it was.
  function FileMeta(handed: seq<Meta>, f: nat): Meta {
    if handed == [] then Meta(f, 0, true)
    else if handed[|handed| - 1].id == f then handed[|handed| - 1]
    else FileMeta(handed[..|handed| - 1], f)
  }

  // Whether first_chunk_take_in is attached to file f.
  function Unseen(handed: seq<Meta>, f: nat): bool {
    FileMeta(handed, f).unseen
  }

  // The callbacks about file f, and the chunks of file f.
  function About(trace: seq<Callback>, f: nat): seq<Callback> {
    if trace == [] then []
    else
      var cb := trace[|trace| - 1];
      About(trace[..|trace| - 1], f) + (if cb.meta == Some(f) then [cb] else [])
  }

  function Of(cs: seq<Chunk>, f: nat): seq<Chunk> {
    if cs == [] then []
    else
      var c := cs[|cs| - 1];
      Of(cs[..|cs| - 1], f) + (if c.meta == Some(f) then [c] else [])
  }

  lemma {:induction false} AboutConcat(a: seq<Callback>, b: seq<Callback>, f: nat)
    ensures About(a + b, f) == About(a, f) + About(b, f)
    decreases |b|
  {
    if b == [] {
      assert a + b == a;
    } else {
      var n := |b| - 1;
      assert (a + b)[..|a + b| - 1] == a + b[..n];
      AboutConcat(a, b[..n], f);
    }
  }

  lemma {:induction false} AboutOneFile(cbs: seq<Callback>, g: Option<nat>, f: nat)
    requires forall i :: 0 <= i < |cbs| ==> cbs[i].meta == g
    ensures About(cbs, f) == if g == Some(f) then cbs else []
  {
    if cbs != [] {
      AboutOneFile(cbs[..|cbs| - 1], g, f);
    }
  }

  lemma {:induction false} OfConcat(a: seq<Chunk>, b: seq<Chunk>, f: nat)
    ensures Of(a + b, f) == Of(a, f) + Of(b, f)
    decreases |b|
  {
    if b == [] {
      assert a + b == a;
    } else {
      var n := |b| - 1;
      assert (a + b)[..|a + b| - 1] == a + b[..n];
      OfConcat(a, b[..n], f);
    }
  }

  lemma OfPrefix(cs: seq<Chunk>, n: nat, f: nat)
    requires n <= |cs|
    ensures Of(cs[..n], f) <= Of(cs, f)
  {
    assert cs[..n] + cs[n..] == cs;
    OfConcat(cs[..n], cs[n..], f);
  }

  lemma OfGrows(cs: seq<Chunk>, n: nat, f: nat)
    requires n < |cs|
    ensures Of(cs[..n + 1], f) == Of(cs[..n], f) + if cs[n].meta == Some(f) then [cs[n]] else []
  {
    assert cs[..n + 1][..n] == cs[..n];
  }

  // ---------------------------------------------------------------- the invariant on the trace

  // The part of the trace about each file: loads of its chunks, then drops of its chunks.
  ghost predicate TraceIs(trace: seq<Callback>, loaded: seq<Chunk>, dropped: seq<Chunk>) {
    forall f: nat :: About(trace, f) == LoadTrace(Of(loaded, f)) + DropTrace(Of(dropped, f))
  }

  ghost predicate TraceInv(s: State) {
    && 0 <= NumLoaded(s) <= |s.put| && 0 <= NumDropped(s) <= |s.put|
    && TraceIs(s.trace, s.put[..NumLoaded(s)], s.put[..NumDropped(s)])
  }

  lemma {:induction false} NoDrops(cs: seq<Chunk>, f: nat)
    requires forall i :: 0 <= i < |cs| && cs[i].meta == Some(f) ==> cs[i].takeOut == []
    ensures DropTrace(Of(cs, f)) == []
  {
    if cs != [] {
      var n := |cs| - 1;
      NoDrops(cs[..n], f);
      if cs[n].meta == Some(f) {
        DropIs(cs[n]);
        DropSnoc(Of(cs[..n], f), cs[n]);
      } else {
        assert Of(cs, f) == Of(cs[..n], f);
      }
    }
  }

  lemma DropSnoc(cs: seq<Chunk>, c: Chunk)
    ensures DropTrace(cs + [c]) == DropTrace(cs) + DropChunk(c).1
    ensures LoadTrace(cs + [c]) == LoadTrace(cs) + LoadChunk(c).1
  {
    assert (cs + [c])[..|cs|] == cs;
  }

  lemma AboutGrows(trace: seq<Callback>, c: Chunk, cbs: seq<Callback>, f: nat)
    requires forall i :: 0 <= i < |cbs| ==> cbs[i].meta == c.meta
    ensures About(trace + cbs, f) == if c.meta == Some(f) then About(trace, f) + cbs else About(trace, f)
  {
    AboutConcat(trace, cbs, f);
    AboutOneFile(cbs, c.meta, f);
  }

  // Traces, as facts about sequences: `mine` new callbacks join the loads, or the drops.
  lemma LoadJoins(all: seq<Callback>, loads: seq<Callback>, drops: seq<Callback>, cbs: seq<Callback>)
    requires all == loads + drops && drops == []
    ensures all + cbs == (loads + cbs) + drops
  {
  }

  lemma DropJoins(all: seq<Callback>, loads: seq<Callback>, drops: seq<Callback>, cbs: seq<Callback>)
    requires all == loads + drops
    ensures all + cbs == loads + (drops + cbs)
  {
  }

  lemma LoadOf(cs: seq<Chunk>, n: nat, f: nat)
    requires n < |cs|
    ensures LoadTrace(Of(cs[..n + 1], f))
            == if cs[n].meta == Some(f) then LoadTrace(Of(cs[..n], f)) + LoadChunk(cs[n]).1 else LoadTrace(Of(cs[..n], f))
    ensures DropTrace(Of(cs[..n + 1], f))
            == if cs[n].meta == Some(f) then DropTrace(Of(cs[..n], f)) + DropChunk(cs[n]).1 else DropTrace(Of(cs[..n], f))
  {
    OfGrows(cs, n, f);
    if cs[n].meta == Some(f) {
      DropSnoc(Of(cs[..n], f), cs[n]);
    } else {
      assert Of(cs[..n], f) + [] == Of(cs[..n], f);
    }
  }

  // The trace about f when the driver loads one more chunk, or drops one.
  lemma LoadAbout(cs: seq<Chunk>, n: nat, d: nat, trace: seq<Callback>, cbs: seq<Callback>, f: nat)
    requires d <= |cs| && n < |cs| && cbs == LoadChunk(cs[n]).1
    requires forall i :: 0 <= i < |cbs| ==> cbs[i].meta == cs[n].meta
    requires cs[n].meta == Some(f) ==> DropTrace(Of(cs[..d], f)) == []
    requires About(trace, f) == LoadTrace(Of(cs[..n], f)) + DropTrace(Of(cs[..d], f))
    ensures About(trace + cbs, f) == LoadTrace(Of(cs[..n + 1], f)) + DropTrace(Of(cs[..d], f))
  {
    AboutGrows(trace, cs[n], cbs, f);
    LoadOf(cs, n, f);
    if cs[n].meta == Some(f) {
      LoadJoins(About(trace, f), LoadTrace(Of(cs[..n], f)), DropTrace(Of(cs[..d], f)), cbs);
    }
  }

  lemma DropAbout(cs: seq<Chunk>, n: nat, d: nat, trace: seq<Callback>, cbs: seq<Callback>, f: nat)
    requires d < |cs| && n <= |cs| && cbs == DropChunk(cs[d]).1
    requires forall i :: 0 <= i < |cbs| ==> cbs[i].meta == cs[d].meta
    requires About(trace, f) == LoadTrace(Of(cs[..n], f)) + DropTrace(Of(cs[..d], f))
    ensures About(trace + cbs, f) == LoadTrace(Of(cs[..n], f)) + DropTrace(Of(cs[..d + 1], f))
  {
    AboutGrows(trace, cs[d], cbs, f);
    LoadOf(cs, d, f);
    if cs[d].meta == Some(f) {
      DropJoins(About(trace, f), LoadTrace(Of(cs[..n], f)), DropTrace(Of(cs[..d], f)), cbs);
    }
  }

  lemma CountsInRange(cfg: Config, s: State)
    requires QueueInv(cfg, s)
    ensures 0 <= NumDropped(s) <= NumLoaded(s) <= |s.put|
  {
  }

  // No chunk among the first d that shares its file with chunk n is the last of it.
  ghost predicate NoneDropped(cs: seq<Chunk>, n: nat, d: nat) {
    n < |cs| && d <= |cs| && forall i :: 0 <= i < d && cs[i].meta == cs[n].meta ==> cs[i].takeOut == []
  }

  // What loading the next chunk needs to know about it.
  lemma LoadFacts(cfg: Config, s: State, n: nat, d: nat)
    requires cfg.Valid() && DecoderInv(cfg, s) && d <= n < |s.put|
    ensures NoneDropped(s.put, n, d)
    ensures forall i :: 0 <= i < |LoadChunk(s.put[n]).1| ==> LoadChunk(s.put[n]).1[i].meta == s.put[n].meta
  {
    LoadMetas(cfg, s, n);
    PrefixContiguous(cfg, s);
  }

  lemma LoadMetas(cfg: Config, s: State, n: nat)
    requires cfg.Valid() && DecoderInv(cfg, s) && n < |s.put|
    ensures forall i :: 0 <= i < |LoadChunk(s.put[n]).1| ==> LoadChunk(s.put[n]).1[i].meta == s.put[n].meta
  {
    PutWellFormed(cfg, s, n);
    WellFormedLoads(s.put[n], cfg.bufSize);
  }

  lemma LoadTraceIs(cs: seq<Chunk>, n: nat, d: nat, trace: seq<Callback>)
    requires d <= n < |cs| && NoneDropped(cs, n, d)
    requires forall i :: 0 <= i < |LoadChunk(cs[n]).1| ==> LoadChunk(cs[n]).1[i].meta == cs[n].meta
    requires TraceIs(trace, cs[..n], cs[..d])
    ensures TraceIs(trace + LoadChunk(cs[n]).1, cs[..n + 1], cs[..d])
  {
    forall f: nat
      ensures About(trace + LoadChunk(cs[n]).1, f) == LoadTrace(Of(cs[..n + 1], f)) + DropTrace(Of(cs[..d], f))
    {
      if cs[n].meta == Some(f) {
        NoDrops(cs[..d], f);
      }
      LoadAbout(cs, n, d, trace, LoadChunk(cs[n]).1, f);
    }
  }

  lemma DropTraceIs(cs: seq<Chunk>, n: nat, d: nat, trace: seq<Callback>, bufSize: nat)
    requires d < |cs| && n <= |cs| && WellFormed(cs[d], bufSize) && bufSize % PADDING == 0
    requires TraceIs(trace, cs[..n], cs[..d])
    ensures TraceIs(trace + DropChunk(cs[d]).1, cs[..n], cs[..d + 1])
  {
    CallbackKinds(cs[d], bufSize);
    forall f: nat
      ensures About(trace + DropChunk(cs[d]).1, f) == LoadTrace(Of(cs[..n], f)) + DropTrace(Of(cs[..d + 1], f))
    {
      DropAbout(cs, n, d, trace, DropChunk(cs[d]).1, f);
    }
  }

  lemma TraceInvFrom(s: State, n: nat, d: nat)
    requires n == NumLoaded(s) <= |s.put| && d == NumDropped(s) <= |s.put|
    requires TraceIs(s.trace, s.put[..n], s.put[..d])
    ensures TraceInv(s)
  {
  }

  // What loading, or dropping, a chunk does to the quantities that the trace depends on.
  ghost predicate Moves(s: State, s': State, cbs: seq<Callback>, loaded: nat, dropped: nat) {
    && s'.trace == s.trace + cbs && s'.put == s.put
    && NumLoaded(s') == NumLoaded(s) + loaded && NumDropped(s') == NumDropped(s) + dropped
  }

  lemma LoadMoves(cfg: Config, s: State)
    requires QueueInv(cfg, s) && Enabled(cfg, s, LoadNext)
    ensures 0 <= NumDropped(s) <= NumLoaded(s) < |s.put|
    ensures Moves(s, Apply(cfg, s, LoadNext), LoadChunk(s.put[NumLoaded(s)]).1, 1, 0)
  {
    LoadKeepsQueue(cfg, s);
  }

  lemma LoadKeepsTrace(cfg: Config, s: State, s': State, n: nat, d: nat)
    requires cfg.Valid() && DecoderInv(cfg, s) && TraceInv(s)
    requires n == NumLoaded(s) && d == NumDropped(s) && d <= n < |s.put|
    requires Moves(s, s', LoadChunk(s.put[n]).1, 1, 0)
    ensures TraceInv(s')
  {
    LoadFacts(cfg, s, n, d);
    LoadTraceIs(s.put, n, d, s.trace);
    TraceInvFrom(s', n + 1, d);
  }

  lemma DropMoves(cfg: Config, s: State)
    requires QueueInv(cfg, s) && Enabled(cfg, s, DropNext)
    ensures 0 <= NumDropped(s) < |s.put| && NumLoaded(s) <= |s.put|
    ensures Moves(s, Apply(cfg, s, DropNext), DropChunk(LoadChunk(s.put[NumDropped(s)]).0).1, 0, 1)
  {
    DropKeepsQueue(cfg, s);
  }

  lemma DropKeepsTrace(cfg: Config, s: State, s': State, n: nat, d: nat)
    requires cfg.Valid() && DecoderInv(cfg, s) && TraceInv(s)
    requires n == NumLoaded(s) <= |s.put| && d == NumDropped(s) < |s.put|
    requires Moves(s, s', DropChunk(LoadChunk(s.put[d]).0).1, 0, 1)
    ensures TraceInv(s')
  {
    PutWellFormed(cfg, s, d);
    CallbackKinds(s.put[d], cfg.bufSize);
    DropTraceIs(s.put, n, d, s.trace, cfg.bufSize);
    TraceInvFrom(s', n, d + 1);
  }

  // Every other step leaves the trace and the chunks loaded and dropped alone.
  lemma OthersKeepTrace(cfg: Config, s: State, step: Step)
    requires cfg.Valid() && Inv(cfg, s) && Enabled(cfg, s, step) && !step.LoadNext? && !step.DropNext?
    requires TraceInv(s)
    ensures TraceInv(Apply(cfg, s, step))
  {
    var s' := Apply(cfg, s, step);
    var n, d := NumLoaded(s), NumDropped(s);
    OthersKeepCounts(cfg, s, step);
    assert s'.put[..n] == s.put[..n] && s'.put[..d] == s.put[..d];
    TraceInvFrom(s', n, d);
  }

  lemma OthersKeepCounts(cfg: Config, s: State, step: Step)
    requires cfg.Valid() && Inv(cfg, s) && Enabled(cfg, s, step) && !step.LoadNext? && !step.DropNext?
    ensures var s' := Apply(cfg, s, step);
            NumLoaded(s') == NumLoaded(s) && NumDropped(s') == NumDropped(s) && s.put <= s'.put && s'.trace == s.trace
  {
    match step {
      case Take(noMore) => TakeKeepsQueue(cfg, s, noMore);
      case _ =>
    }
  }

  lemma StepKeepsTrace(cfg: Config, s: State, step: Step)
    requires cfg.Valid() && Inv(cfg, s) && Enabled(cfg, s, step) && TraceInv(s)
    ensures TraceInv(Apply(cfg, s, step))
  {
    if step.LoadNext? {
      LoadMoves(cfg, s);
      LoadKeepsTrace(cfg, s, Apply(cfg, s, step), NumLoaded(s), NumDropped(s));
    } else if step.DropNext? {
      DropMoves(cfg, s);
      DropKeepsTrace(cfg, s, Apply(cfg, s, step), NumLoaded(s), NumDropped(s));
    } else {
      OthersKeepTrace(cfg, s, step);
    }
  }

  lemma {:induction false} RunKeepsTrace(cfg: Config, run: seq<Step>)
    requires cfg.Valid() && IsRun(cfg, run)
    ensures TraceInv(After(cfg, run))
    decreases |run|
  {
    if run != [] {
      var before, step := run[..|run| - 1], run[|run| - 1];
      RunKeepsTrace(cfg, before);
      RunKeeps(cfg, before);
      StepKeepsTrace(cfg, After(cfg, before), step);
    }
  }

  lemma ReachableTrace(cfg: Config, s: State)
    requires cfg.Valid() && Reachable(cfg, s)
    ensures Inv(cfg, s) && 0 <= NumDropped(s) <= NumLoaded(s) <= |s.put| && TraceInv(s)
  {
    var run :| IsRun(cfg, run) && After(cfg, run) == s;
    RunKeeps(cfg, run);
    RunKeepsTrace(cfg, run);
    CountsInRange(cfg, s);
  }

  // ---------------------------------------------------------------- every file follows the grammar

  lemma {:induction false} OfFlatten(cfg: Config, handed: seq<Meta>, f: nat)
    requires cfg.Valid() && Distinct(handed)
    ensures FileMeta(handed, f).id == f
    ensures Of(Flatten(cfg, handed), f)
            == if f in Ids(handed) then FileChunks(FileMeta(handed, f), cfg.File(f), cfg.bufSize) else []
    decreases |handed|
  {
    if handed != [] {
      var n := |handed| - 1;
      OfFlatten(cfg, handed[..n], f);
      OfLastFile(cfg, handed, f);
      IdsSplit(handed, f);
      if handed[n].id == f {
        NotBefore(handed);
      }
    }
  }

  lemma OfLastFile(cfg: Config, handed: seq<Meta>, f: nat)
    requires cfg.Valid() && handed != []
    ensures var n := |handed| - 1;
            Of(Flatten(cfg, handed), f)
            == Of(Flatten(cfg, handed[..n]), f)
               + if handed[n].id == f then FileChunks(handed[n], cfg.File(f), cfg.bufSize) else []
  {
    var n := |handed| - 1;
    var own := FileChunks(handed[n], cfg.File(handed[n].id), cfg.bufSize);
    OfConcat(Flatten(cfg, handed[..n]), own, f);
    FileIsOneFile(cfg, handed[n]);
    OfOneFile(own, handed[n].id, f);
  }

  lemma {:induction false} MetaIs(handed: seq<Meta>, i: nat)
    requires Distinct(handed) && i < |handed|
    ensures FileMeta(handed, handed[i].id) == handed[i]
    decreases |handed|
  {
    if i < |handed| - 1 {
      MetaIs(handed[..|handed| - 1], i);
    }
  }

  lemma IdsSplit(handed: seq<Meta>, f: nat)
    requires handed != []
    ensures f in Ids(handed) <==> f in Ids(handed[..|handed| - 1]) || handed[|handed| - 1].id == f
  {
    var n := |handed| - 1;
    assert Ids(handed) == Ids(handed[..n]) + [handed[n].id];
  }

  lemma NotBefore(handed: seq<Meta>)
    requires Distinct(handed) && handed != []
    ensures handed[|handed| - 1].id !in Ids(handed[..|handed| - 1])
  {
    assert forall i :: 0 <= i < |handed| - 1 ==> Ids(handed[..|handed| - 1])[i] == handed[i].id;
  }

  lemma {:induction false} OfOneFile(cs: seq<Chunk>, t: nat, f: nat)
    requires forall i :: 0 <= i < |cs| ==> cs[i].meta == Some(t)
    ensures Of(cs, f) == if t == f then cs else []
  {
    if cs != [] {
      OfOneFile(cs[..|cs| - 1], t, f);
    }
  }

  // The loads of the first a of a file's m chunks.
  function LoadPart(f: nat, a: nat, m: nat, bufSize: nat, unseen: bool): seq<Callback>
    requires a <= m
  {
    if a == 0 then []
    else if a < m then Opening(f, bufSize, unseen) + LoadsUpTo(f, a)
    else if m == 1 then [LastTakeIn(Some(f)), Load(Some(f), 0)]
    else Opening(f, bufSize, unseen) + LoadsUpTo(f, m - 1) + [LastTakeIn(Some(f)), Load(Some(f), m - 1)]
  }

  // What loading chunk i of the m chunks of file f makes the core operations hear.
  function ChunkCallbacks(f: nat, i: nat, m: nat, bufSize: nat, unseen: bool): seq<Callback> {
    if i + 1 == m then [LastTakeIn(Some(f)), Load(Some(f), i)]
    else if i == 0 then Opening(f, bufSize, unseen) + [Load(Some(f), i)]
    else [Load(Some(f), i)]
  }

  lemma LoadsAs(cfg: Config, m: Meta, i: nat)
    requires cfg.Valid() && i < NumChunks(cfg, m.id)
    ensures LoadChunk(FileChunks(m, cfg.File(m.id), cfg.bufSize)[i]).1
            == ChunkCallbacks(m.id, i, NumChunks(cfg, m.id), cfg.bufSize, m.unseen)
  {
    var c := FileChunks(m, cfg.File(m.id), cfg.bufSize)[i];
    FilePiece(cfg, m, i);
    WellFormedLoads(c, cfg.bufSize);
    PieceAt(m, 0, cfg.File(m.id), cfg.bufSize, i);
  }

  lemma DropsAs(cfg: Config, m: Meta, i: nat)
    requires cfg.Valid() && i < NumChunks(cfg, m.id)
    ensures DropChunk(FileChunks(m, cfg.File(m.id), cfg.bufSize)[i]).1
            == if i + 1 == NumChunks(cfg, m.id) then [LastTakeOut(Some(m.id))] else []
  {
    var c := FileChunks(m, cfg.File(m.id), cfg.bufSize)[i];
    FilePiece(cfg, m, i);
    WellFormedLoads(c, cfg.bufSize);
    DropIs(c);
  }

  lemma {:induction false} LoadTraceOfFile(cfg: Config, m: Meta, a: nat)
    requires cfg.Valid() && a <= NumChunks(cfg, m.id)
    ensures LoadTrace(FileChunks(m, cfg.File(m.id), cfg.bufSize)[..a])
            == LoadPart(m.id, a, NumChunks(cfg, m.id), cfg.bufSize, m.unseen)
    ensures DropTrace(FileChunks(m, cfg.File(m.id), cfg.bufSize)[..a])
            == if a == NumChunks(cfg, m.id) && a > 0 then [LastTakeOut(Some(m.id))] else []
  {
    if a > 0 {
      LoadTraceOfFile(cfg, m, a - 1);
      TraceGrows(FileChunks(m, cfg.File(m.id), cfg.bufSize), a - 1);
      LoadsAs(cfg, m, a - 1);
      DropsAs(cfg, m, a - 1);
      LoadPartGrows(m.id, a - 1, NumChunks(cfg, m.id), cfg.bufSize, m.unseen);
    }
  }

  lemma LoadPartGrows(f: nat, i: nat, m: nat, bufSize: nat, unseen: bool)
    requires i < m
    ensures LoadPart(f, i + 1, m, bufSize, unseen) == LoadPart(f, i, m, bufSize, unseen) + ChunkCallbacks(f, i, m, bufSize, unseen)
  {
    if 0 < i < m - 1 {
      LoadsGrow(f, i);
      ConcatAssociates(Opening(f, bufSize, unseen), LoadsUpTo(f, i), [Load(Some(f), i)]);
    } else if i == 0 {
      LoadsGrow(f, 0);
      assert LoadsUpTo(f, 0) + [Load(Some(f), 0)] == [Load(Some(f), 0)];
    }
  }

  lemma LoadsGrow(f: nat, i: nat)
    ensures LoadsUpTo(f, i + 1) == LoadsUpTo(f, i) + [Load(Some(f), i)]
  {
  }

  // The two kinds of trace, put together, are a prefix of the grammar.
  lemma PartsOfGrammar(f: nat, a: nat, b: nat, m: nat, bufSize: nat, unseen: bool)
    requires b <= a <= m
    ensures LoadPart(f, a, m, bufSize, unseen) + (if b == m && b > 0 then [LastTakeOut(Some(f))] else [])
            <= Grammar(f, m, bufSize, unseen)
    ensures b == m ==> LoadPart(f, a, m, bufSize, unseen) + (if b == m && b > 0 then [LastTakeOut(Some(f))] else [])
                       == Grammar(f, m, bufSize, unseen)
  {
    if 0 < a < m {
      assert LoadsUpTo(f, a) == LoadsUpTo(f, m - 1)[..a];
    }
  }

  // How many of f's chunks are among the first n of the files handed over.
  lemma CountIn(cfg: Config, handed: seq<Meta>, n: nat, f: nat) returns (a: nat)
    requires cfg.Valid() && Distinct(handed) && n <= |Flatten(cfg, handed)|
    ensures a == |Of(Flatten(cfg, handed)[..n], f)| <= NumChunks(cfg, f)
    ensures Of(Flatten(cfg, handed)[..n], f) == FileChunks(FileMeta(handed, f), cfg.File(f), cfg.bufSize)[..a]
  {
    OfFlatten(cfg, handed, f);
    OfPrefix(Flatten(cfg, handed), n, f);
    a := |Of(Flatten(cfg, handed)[..n], f)|;
  }

  // The same among the first n ever queued.
  lemma CountOf(cfg: Config, s: State, n: nat, f: nat) returns (a: nat)
    requires cfg.Valid() && DecoderInv(cfg, s) && n <= |s.put|
    ensures a <= NumChunks(cfg, f) && Of(s.put[..n], f) == FileChunks(FileMeta(s.handed, f), cfg.File(f), cfg.bufSize)[..a]
    ensures a == |Of(s.put[..n], f)|
  {
    PutIsPrefix(cfg, s);
    assert Distinct(s.handed);
    a := CountIn(cfg, s.handed, n, f);
    assert s.put[..n] == Flatten(cfg, s.handed)[..n];
  }

  lemma AboutIs(cfg: Config, s: State, f: nat) returns (a: nat, b: nat)
    requires cfg.Valid() && DecoderInv(cfg, s) && TraceInv(s) && NumDropped(s) <= NumLoaded(s)
    ensures b <= a <= NumChunks(cfg, f) && b == |Of(s.put[..NumDropped(s)], f)|
    ensures About(s.trace, f) == LoadPart(f, a, NumChunks(cfg, f), cfg.bufSize, Unseen(s.handed, f))
                                 + if b == NumChunks(cfg, f) && b > 0 then [LastTakeOut(Some(f))] else []
  {
    a := CountOf(cfg, s, NumLoaded(s), f);
    b := CountOf(cfg, s, NumDropped(s), f);
    assert s.put[..NumDropped(s)] == s.put[..NumLoaded(s)][..NumDropped(s)];
    OfPrefix(s.put[..NumLoaded(s)], NumDropped(s), f);
    assert Distinct(s.handed);
    OfFlatten(cfg, s.handed, f);
    LoadTraceOfFile(cfg, FileMeta(s.handed, f), a);
    LoadTraceOfFile(cfg, FileMeta(s.handed, f), b);
  }

  /** For every file, and for any way packs cut it, the callbacks made so far are a prefix of its
      grammar: with m >= 2 chunks, first_chunk_take_in, load 0, ..., load m-2, last_chunk_take_in,
      load m-1, last_chunk_take_out. Each boundary event occurs once, at its place, except that the
      first one is missing exactly when the file's metadata came at the address left in `oldmeta`.
      Once all chunks of the file have been dropped, the grammar is complete. */
  lemma CallbacksFollowGrammar(cfg: Config, s: State, f: nat)
    requires cfg.Valid() && Reachable(cfg, s)
    ensures About(s.trace, f) <= Grammar(f, NumChunks(cfg, f), cfg.bufSize, Unseen(s.handed, f))
    ensures 0 <= NumDropped(s) <= |s.put|
    ensures |Of(s.put[..NumDropped(s)], f)| == NumChunks(cfg, f) ==>
              About(s.trace, f) == Grammar(f, NumChunks(cfg, f), cfg.bufSize, Unseen(s.handed, f))
  {
    ReachableTrace(cfg, s);
    var a, b := AboutIs(cfg, s, f);
    PartsOfGrammar(f, a, b, NumChunks(cfg, f), cfg.bufSize, Unseen(s.handed, f));
  }

  // ---------------------------------------------------------------- the life of metadata

  lemma {:induction false} AboutCounts(trace: seq<Callback>, f: nat, cb: Callback)
    requires cb.meta == Some(f)
    ensures multiset(trace)[cb] == multiset(About(trace, f))[cb]
  {
    if trace != [] {
      var n := |trace| - 1;
      AboutCounts(trace[..n], f, cb);
      assert trace == trace[..n] + [trace[n]];
    }
  }

  lemma PrefixCounts(a: seq<Callback>, b: seq<Callback>, cb: Callback)
    requires a <= b
    ensures multiset(a)[cb] <= multiset(b)[cb]
  {
    assert b == a + b[|a|..];
  }

  lemma GrammarCounts(f: nat, m: nat, bufSize: nat, unseen: bool)
    ensures multiset(Grammar(f, m, bufSize, unseen))[LastTakeOut(Some(f))] <= 1
  {
    if m >= 2 {
      var loads := LoadsUpTo(f, m - 1);
      assert LastTakeOut(Some(f)) !in loads;
      assert multiset(loads)[LastTakeOut(Some(f))] == 0;
    }
  }

  /** Each file's metadata is released at most once in any run. */
  lemma ReleasedAtMostOnce(cfg: Config, s: State, f: nat)
    requires cfg.Valid() && Reachable(cfg, s)
    ensures multiset(s.trace)[LastTakeOut(Some(f))] <= 1
  {
    var cb := LastTakeOut(Some(f));
    CallbacksFollowGrammar(cfg, s, f);
    AboutCounts(s.trace, f, cb);
    PrefixCounts(About(s.trace, f), Grammar(f, NumChunks(cfg, f), cfg.bufSize, Unseen(s.handed, f)), cb);
    GrammarCounts(f, NumChunks(cfg, f), cfg.bufSize, Unseen(s.handed, f));
  }

  /** When the metadata of f is released, which only the last chunk of f does, no chunk that is queued,
      still to be handled in the pack, being added, or held by the current decoder belongs to f. */
  lemma ReleasedWhenUnused(cfg: Config, s: State)
    requires cfg.Valid() && Reachable(cfg, s) && Enabled(cfg, s, DropNext)
    requires s.consumer.pack[s.consumer.dropped].takeOut != []
    ensures var h := s.consumer;
            var f := h.pack[h.dropped].meta;
            && (forall i :: h.dropped < i < |h.pack| ==> h.pack[i].meta != f)
            && (forall c <- s.queue :: c.meta != f)
            && (s.curr.Some? && s.curr == f ==> Is(s, s.curr.value, Clearing))
  {
    ReachableInv(cfg, s);
    DropKeepsQueue(cfg, s);
    PackMetas(cfg, s);
    LaterFilesDiffer(cfg, s, NumDropped(s));
    QueueMetas(cfg, s, NumDropped(s));
  }

  lemma QueueMetas(cfg: Config, s: State, d: nat)
    requires QueueInv(cfg, s) && d < NumTaken(s)
    requires forall i :: d < i < |s.put| ==> s.put[i].meta != s.put[d].meta
    ensures forall c <- s.queue :: c.meta != s.put[d].meta
  {
    forall i | 0 <= i < |s.queue|
      ensures s.queue[i].meta != s.put[d].meta
    {
      assert s.queue[i] == s.put[|s.put| - |s.queue| + i];
    }
  }

  // Walking onto a chunk changes neither its metadata nor its take-out queue.
  lemma LoadKeepsMeta(c: Chunk)
    ensures LoadChunk(c).0.meta == c.meta && LoadChunk(c).0.takeOut == c.takeOut
  {
    RunKeepsQueues(c.(takeIn := []), c.takeIn);
  }

  lemma PackMetas(cfg: Config, s: State)
    requires QueueInv(cfg, s) && s.consumer.Holding?
    ensures forall i :: 0 <= i < |s.consumer.pack| ==>
              var c := s.put[NumTaken(s) - |s.consumer.pack| + i];
              s.consumer.pack[i].meta == c.meta && s.consumer.pack[i].takeOut == c.takeOut
  {
    forall i | 0 <= i < |s.consumer.pack|
      ensures var c := s.put[NumTaken(s) - |s.consumer.pack| + i];
              s.consumer.pack[i].meta == c.meta && s.consumer.pack[i].takeOut == c.takeOut
    {
      LoadKeepsMeta(s.put[NumTaken(s) - |s.consumer.pack| + i]);
    }
  }

  // In a contiguous sequence, nothing after a done chunk belongs to its file.
  lemma NothingAfterDone(cs: seq<Chunk>, d: nat)
    requires Contiguous(cs) && d < |cs| && cs[d].takeOut != []
    ensures forall i :: d < i < |cs| ==> cs[i].meta != cs[d].meta
  {
  }

  // After a done chunk, neither the queue history nor the current decoder has any of its file left.
  lemma LaterFilesDiffer(cfg: Config, s: State, d: nat)
    requires cfg.Valid() && DecoderInv(cfg, s) && d < |s.put| && s.put[d].takeOut != []
    ensures forall i :: d < i < |s.put| ==> s.put[i].meta != s.put[d].meta
    ensures s.curr.Some? && s.curr == s.put[d].meta ==> Is(s, s.curr.value, Clearing)
  {
    PrefixContiguous(cfg, s);
    NothingAfterDone(s.put, d);
    if s.curr.Some? && s.curr == s.put[d].meta {
      FutureIsOther(cfg, s, d);
      FileHasChunk(cfg, s, d);
      NoFutureMeansDone(cfg, s);
    }
  }

  lemma FutureIsOther(cfg: Config, s: State, d: nat)
    requires cfg.Valid() && DecoderInv(cfg, s) && d < |s.put| && s.put[d].takeOut != []
    requires s.curr.Some? && s.curr == s.put[d].meta
    ensures Future(cfg, s) == []
  {
    var all := Flatten(cfg, s.handed);
    assert Distinct(s.handed);
    FlattenContiguous(cfg, s.handed);
    PutIsPrefix(cfg, s);
    assert all[d] == s.put[d];
    NothingAfterDone(all, d);
    FutureFollows(cfg, s);
  }

  lemma FutureFollows(cfg: Config, s: State)
    requires cfg.Valid() && DecoderInv(cfg, s) && s.curr.Some?
    ensures Future(cfg, s) != [] ==>
              |s.put| < |Flatten(cfg, s.handed)| && Flatten(cfg, s.handed)[|s.put|].meta == s.curr
  {
    if Future(cfg, s) != [] {
      FutureOwner(cfg, s);
      assert Flatten(cfg, s.handed)[|s.put|] == Future(cfg, s)[0];
    }
  }

  lemma FileHasChunk(cfg: Config, s: State, d: nat)
    requires cfg.Valid() && DecoderInv(cfg, s) && d < |s.put| && s.put[d].meta.Some?
    ensures NumChunks(cfg, s.put[d].meta.value) > 0
  {
    var f := s.put[d].meta.value;
    OfGrows(s.put, d, f);
    var a := CountOf(cfg, s, d + 1, f);
  }

  lemma FutureOwner(cfg: Config, s: State)
    requires cfg.Valid() && DecoderInv(cfg, s) && s.curr.Some? && Future(cfg, s) != []
    ensures Future(cfg, s)[0].meta == s.curr
  {
    var th := s.threads[s.curr.value];
    var held := Pieces(th.meta, ChunkNo(th.chunk), ChunkData(th.chunk) + th.rest, cfg.bufSize);
    if held != [] {
      PieceAt(th.meta, ChunkNo(th.chunk), ChunkData(th.chunk) + th.rest, cfg.bufSize, 0);
    }
  }

  // A current decoder with nothing to come is clearing, or its file is empty.
  lemma NoFutureMeansDone(cfg: Config, s: State)
    requires cfg.Valid() && DecoderInv(cfg, s) && s.curr.Some? && Future(cfg, s) == []
    requires NumChunks(cfg, s.curr.value) > 0
    ensures Is(s, s.curr.value, Clearing)
  {
    var th := s.threads[s.curr.value];
    PiecesNonEmpty(th.meta, ChunkNo(th.chunk), ChunkData(th.chunk) + th.rest, cfg.bufSize);
  }
}
