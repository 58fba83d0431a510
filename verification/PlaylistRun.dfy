/** The playlist driving the pipeline: loading a chunk calls into the playlist, and the playlist starts
    decoder threads. The claims are over whole runs, under every interleaving with the decoders. */
module PlaylistRun {
  import opened Types
  import opened Chunks
  import opened Chunking
  import opened Delivery
  import opened BufList
  import opened Timing
  import opened Pipeline
  import opened PipelineInvariant
  import opened PipelineSafety
  import opened PipelineCallbacks
  import opened PipelineProgress
  import opened PipelineRequests
  import opened Playlist

  // Thread t of the pipeline decodes entry t of the playlist.
  datatype PlayConfig = PlayConfig(cfg: Config, su: Setup) {
    predicate Valid() {
      cfg.Valid() && |su.metas| == |cfg.files| > 0
    }

    function Count(): nat {
      |cfg.files|
    }
  }

  datatype PlayState = PlayState(pipe: State, player: Player)

  // md_play_async for each of these files: the decoder's thread starts waiting for the engine. There
  // is one thread per file here, so that a second start of the same file shows only in `started`.
  function SpawnAll(cfg: Config, s: State, ts: seq<nat>): State {
    if ts == [] then s
    else
      var s1 := SpawnAll(cfg, s, ts[..|ts| - 1]);
      var t := ts[|ts| - 1];
      if Enabled(cfg, s1, Spawn(t)) then Apply(cfg, s1, Spawn(t)) else s1
  }

  function Start(pc: PlayConfig): PlayState {
    var p := Play(pc.su);
    PlayState(SpawnAll(pc.cfg, Init(pc.cfg), p.started), p)
  }

  // Threads are started by the playlist alone.
  predicate CanStep(pc: PlayConfig, s: PlayState, step: Step) {
    !step.Spawn? && Enabled(pc.cfg, s.pipe, step)
  }

  // What a step makes the playlist hear. The playlist takes no part in take-out events.
  function Heard(pc: PlayConfig, s: PlayState, step: Step): seq<Callback>
    requires CanStep(pc, s, step)
  {
    if step.LoadNext? then LoadChunk(s.pipe.consumer.pack[s.pipe.consumer.loaded]).1 else []
  }

  function PlayerAfter(pc: PlayConfig, s: PlayState, step: Step): (p: Player)
    requires CanStep(pc, s, step)
    ensures s.player.started <= p.started
  {
    StartedGrows(pc.su, s.player, Heard(pc, s, step));
    OnAll(pc.su, s.player, Heard(pc, s, step))
  }

  // The calls of md_play_async that a step makes.
  function NewStarts(pc: PlayConfig, s: PlayState, step: Step): (more: seq<nat>)
    requires CanStep(pc, s, step)
    ensures PlayerAfter(pc, s, step).started == s.player.started + more
  {
    PlayerAfter(pc, s, step).started[|s.player.started|..]
  }

  function Next(pc: PlayConfig, s: PlayState, step: Step): PlayState
    requires CanStep(pc, s, step)
  {
    PlayState(SpawnAll(pc.cfg, Apply(pc.cfg, s.pipe, step), NewStarts(pc, s, step)), PlayerAfter(pc, s, step))
  }

  predicate IsPlayRun(pc: PlayConfig, run: seq<Step>)
    decreases |run|, 0
  {
    run == [] || (IsPlayRun(pc, run[..|run| - 1]) && CanStep(pc, Played(pc, run[..|run| - 1]), run[|run| - 1]))
  }

  function Played(pc: PlayConfig, run: seq<Step>): PlayState
    requires IsPlayRun(pc, run)
    decreases |run|, 1
  {
    if run == [] then Start(pc) else Next(pc, Played(pc, run[..|run| - 1]), run[|run| - 1])
  }

  ghost predicate PlayReachable(pc: PlayConfig, s: PlayState) {
    exists run :: IsPlayRun(pc, run) && Played(pc, run) == s
  }

  // ---------------------------------------------------------------- every run of it is one of the pipeline

  // Spawning changes nothing but the threads, of which it takes the given ones out of Unborn.
  lemma {:induction false} SpawnAllOnly(cfg: Config, s: State, ts: seq<nat>)
    ensures var s' := SpawnAll(cfg, s, ts);
            && s' == s.(threads := s'.threads) && |s'.threads| == |s.threads|
            && Work(s') <= Work(s)
            && (Reachable(cfg, s) ==> Reachable(cfg, s'))
            && forall t: nat :: Is(s', t, Unborn) <==> Is(s, t, Unborn) && t !in ts
    decreases |ts|
  {
    if ts != [] {
      var n := |ts| - 1;
      var s1 := SpawnAll(cfg, s, ts[..n]);
      SpawnAllOnly(cfg, s, ts[..n]);
      if Enabled(cfg, s1, Spawn(ts[n])) {
        DecoderStepWorks(cfg, s1, Spawn(ts[n]));
        if Reachable(cfg, s1) {
          StepReaches(cfg, s1, Spawn(ts[n]));
        }
      }
      assert forall t: nat :: t in ts <==> t in ts[..n] || t == ts[n];
    }
  }

  lemma InitReachable(cfg: Config)
    ensures Reachable(cfg, Init(cfg))
  {
    assert IsRun(cfg, []) && After(cfg, []) == Init(cfg);
  }

  lemma {:induction false} RunIsPipelineRun(pc: PlayConfig, run: seq<Step>)
    requires IsPlayRun(pc, run)
    ensures Reachable(pc.cfg, Played(pc, run).pipe)
    decreases |run|
  {
    if run == [] {
      InitReachable(pc.cfg);
      SpawnAllOnly(pc.cfg, Init(pc.cfg), Play(pc.su).started);
    } else {
      var before, step := run[..|run| - 1], run[|run| - 1];
      RunIsPipelineRun(pc, before);
      NextReachable(pc, Played(pc, before), step);
    }
  }

  lemma NextReachable(pc: PlayConfig, s: PlayState, step: Step)
    requires CanStep(pc, s, step) && Reachable(pc.cfg, s.pipe)
    ensures Reachable(pc.cfg, Next(pc, s, step).pipe)
  {
    StepReaches(pc.cfg, s.pipe, step);
    SpawnAllOnly(pc.cfg, Apply(pc.cfg, s.pipe, step), NewStarts(pc, s, step));
  }

  /** Whatever is true of every reachable pipeline state is therefore true here. */
  lemma PlayIsPipeline(pc: PlayConfig, s: PlayState)
    requires PlayReachable(pc, s)
    ensures Reachable(pc.cfg, s.pipe)
  {
    var run :| IsPlayRun(pc, run) && Played(pc, run) == s;
    RunIsPipelineRun(pc, run);
  }

  // ---------------------------------------------------------------- where the driver is in the files

  function UpTo(k: nat): (r: seq<nat>)
    ensures |r| == k && forall i :: 0 <= i < k ==> r[i] == i
  {
    seq(k, i => i)
  }

  lemma UpToGrows(k: nat)
    ensures UpTo(k) + [k] == UpTo(k + 1)
  {
  }

  lemma InUpTo(k: nat, x: nat)
    ensures x in UpTo(k) <==> x < k
  {
    if x < k {
      assert UpTo(k)[x] == x;
    }
  }

  lemma UpToPrefix(k: nat, n: nat)
    ensures UpTo(k) <= UpTo(n) <==> k <= n
  {
  }

  // The files handed over so far are the first of the playlist, in its order.
  predicate InPlaylistOrder(ms: seq<Meta>) {
    Ids(ms) == UpTo(|ms|)
  }

  lemma OrderDistinct(ms: seq<Meta>)
    requires InPlaylistOrder(ms)
    ensures Distinct(ms) && forall i :: 0 <= i < |ms| ==> ms[i].id == i
  {
    assert forall i :: 0 <= i < |ms| ==> ms[i].id == Ids(ms)[i];
  }

  lemma OrderGrows(ms: seq<Meta>, m: Meta)
    requires InPlaylistOrder(ms) && m.id == |ms|
    ensures InPlaylistOrder(ms + [m])
  {
    IdsGrow(ms, m);
    UpToGrows(|ms|);
  }

  lemma FileIsMeta(ms: seq<Meta>, f: nat)
    requires InPlaylistOrder(ms) && f < |ms|
    ensures FileMeta(ms, f) == ms[f] && ms[f].id == f
  {
    OrderDistinct(ms);
    MetaIs(ms, f);
  }

  lemma {:induction false} StartIs(cfg: Config, ms: seq<Meta>, f: nat)
    requires cfg.Valid() && InPlaylistOrder(ms) && f <= |ms|
    ensures |Flatten(cfg, ms[..f])| == ChunksOf(cfg, f)
    decreases f
  {
    if f > 0 {
      StartIs(cfg, ms, f - 1);
      OrderDistinct(ms);
      assert ms[..f][..f - 1] == ms[..f - 1];
    }
  }

  lemma {:induction false} FlattenPrefix(cfg: Config, ms: seq<Meta>, f: nat)
    requires cfg.Valid() && f <= |ms|
    ensures Flatten(cfg, ms[..f]) <= Flatten(cfg, ms)
    decreases |ms| - f
  {
    if f < |ms| {
      FlattenPrefix(cfg, ms, f + 1);
      assert ms[..f + 1][..f] == ms[..f];
    } else {
      assert ms[..f] == ms;
    }
  }

  lemma PrefixAt(before: seq<Chunk>, own: seq<Chunk>, all: seq<Chunk>, i: nat)
    requires before + own <= all && i < |own|
    ensures |before| + i < |all| && all[|before| + i] == own[i]
  {
    assert (before + own)[|before| + i] == own[i];
  }

  // Where file f stands among the chunks of all files handed over.
  lemma FileSpan(cfg: Config, ms: seq<Meta>, f: nat) returns (before: seq<Chunk>)
    requires cfg.Valid() && InPlaylistOrder(ms) && f < |ms|
    ensures |before| == ChunksOf(cfg, f)
    ensures before + FileChunks(ms[f], cfg.File(f), cfg.bufSize) <= Flatten(cfg, ms)
  {
    before := Flatten(cfg, ms[..f]);
    OrderDistinct(ms);
    StartIs(cfg, ms, f);
    FlattenPrefix(cfg, ms, f + 1);
    assert ms[..f + 1][..f] == ms[..f];
  }

  lemma ChunkOfFile(cfg: Config, ms: seq<Meta>, f: nat, i: nat)
    requires cfg.Valid() && InPlaylistOrder(ms) && f < |ms| && i < NumChunks(cfg, f)
    ensures ChunksOf(cfg, f) + i < |Flatten(cfg, ms)|
    ensures Flatten(cfg, ms)[ChunksOf(cfg, f) + i] == FileChunks(ms[f], cfg.File(f), cfg.bufSize)[i]
  {
    var before := FileSpan(cfg, ms, f);
    PrefixAt(before, FileChunks(ms[f], cfg.File(f), cfg.bufSize), Flatten(cfg, ms), i);
  }

  // ---------------------------------------------------------------- which files are on time

  // What the file before f leaves in decoder_start_event.
  function LeftOver(pc: PlayConfig, ms: seq<Meta>, f: nat): nat
    requires pc.Valid() && f < pc.Count()
    decreases f, 0
  {
    if f == 0 then 0 else EventAfter(Counting(pc, ms, f - 1), pc.su.Total(f - 1), NumChunks(pc.cfg, f - 1))
  }

  // The start event that counts for file f when the files were handed over with metadata `ms`.
  function Counting(pc: PlayConfig, ms: seq<Meta>, f: nat): nat
    requires pc.Valid() && f < pc.Count()
    decreases f, 1
  {
    CountingEvent(pc.su, f, pc.cfg.bufSize, Unseen(ms, f), LeftOver(pc, ms, f))
  }

  // The start event of file f can be computed, should it be announced.
  predicate EventComputes(pc: PlayConfig, ms: seq<Meta>, f: nat)
    requires pc.Valid() && f < pc.Count()
  {
    Unseen(ms, f) ==> HasEvent(pc.su, f, pc.cfg.bufSize)
  }

  predicate OnTimeFile(pc: PlayConfig, ms: seq<Meta>, f: nat)
    requires pc.Valid() && f < pc.Count()
  {
    EventComputes(pc, ms, f) && OnTime(Counting(pc, ms, f), NumChunks(pc.cfg, f), pc.su.Total(f))
  }

  // Every file handed over that has a successor is on time.
  ghost predicate AllOnTime(pc: PlayConfig, ms: seq<Meta>)
    requires pc.Valid()
  {
    forall f: nat :: f + 1 < pc.Count() && f in Ids(ms) ==> OnTimeFile(pc, ms, f)
  }

  // A file that is late, with all files before it handed over.
  ghost predicate LateAt(pc: PlayConfig, ms: seq<Meta>, f: nat)
    requires pc.Valid()
  {
    f + 1 < pc.Count() && (forall g: nat :: g <= f ==> g in Ids(ms)) && !OnTimeFile(pc, ms, f)
  }

  // Handing over later files changes nothing for the ones before.
  lemma {:induction false} CountingStays(pc: PlayConfig, ms: seq<Meta>, m: Meta, f: nat)
    requires pc.Valid() && f < pc.Count() && m.id > f
    ensures Unseen(ms + [m], f) == Unseen(ms, f) && Counting(pc, ms + [m], f) == Counting(pc, ms, f)
    decreases f
  {
    assert (ms + [m])[..|ms|] == ms;
    if f > 0 {
      CountingStays(pc, ms, m, f - 1);
    }
  }

  lemma LeftOverStays(pc: PlayConfig, ms: seq<Meta>, m: Meta, f: nat)
    requires pc.Valid() && f < pc.Count() && m.id >= f
    ensures LeftOver(pc, ms + [m], f) == LeftOver(pc, ms, f)
  {
    if f > 0 {
      CountingStays(pc, ms, m, f - 1);
    }
  }

  lemma LateStays(pc: PlayConfig, ms: seq<Meta>, m: Meta, f: nat)
    requires pc.Valid() && LateAt(pc, ms, f) && m.id !in Ids(ms)
    ensures LateAt(pc, ms + [m], f)
  {
    CountingStays(pc, ms, m, f);
    IdsGrow(ms, m);
  }

  // ---------------------------------------------------------------- the invariant

  // Files before f have been played: those that f - 1 comes after were on time.
  ghost predicate OnTimeUpTo(pc: PlayConfig, ms: seq<Meta>, f: nat)
    requires pc.Valid() && f <= pc.Count()
  {
    forall g: nat :: g + 1 < f ==> OnTimeFile(pc, ms, g)
  }

  // The number of files started before file f begins to play: f itself was not if f - 1 was late.
  function StartedBefore(pc: PlayConfig, ms: seq<Meta>, f: nat): nat
    requires pc.Valid() && f < pc.Count()
  {
    if f == 0 || OnTimeFile(pc, ms, f - 1) then f + 1 else f
  }

  // The playlist when i chunks of file f have been loaded. If f was never started, none ever will.
  ghost predicate PlayerOk(pc: PlayConfig, ms: seq<Meta>, p: Player, f: nat, i: nat)
    requires pc.Valid() && f <= pc.Count()
  {
    if f == pc.Count() then !p.faulted && p.curr == None && p.started == UpTo(f)
    else
      var k := StartedBefore(pc, ms, f);
      && At(pc.su, p, UpTo(k), f, i, Unseen(ms, f) || k == f, Counting(pc, ms, f))
      && (i > 0 ==> k == f + 1 && (f + 1 < pc.Count() ==> EventComputes(pc, ms, f)))
      && (i == 0 && k == f + 1 ==> p.startEvent == LeftOver(pc, ms, f))
  }

  // The driver has loaded i chunks of file f and all chunks of the files before it.
  ghost predicate Position(pc: PlayConfig, s: State, f: nat, i: nat)
    requires pc.Valid()
  {
    && f <= |s.handed| <= pc.Count() && InPlaylistOrder(s.handed)
    && NumLoaded(s) == ChunksOf(pc.cfg, f) + i
    && (f == |s.handed| ==> i == 0)
    && (f < |s.handed| ==> i < NumChunks(pc.cfg, f))
  }

  ghost predicate Spawned(s: PlayState) {
    forall t: nat :: t < |s.pipe.threads| ==> (Is(s.pipe, t, Unborn) <==> t !in s.player.started)
  }

  ghost predicate Playing(pc: PlayConfig, s: PlayState, f: nat, i: nat)
    requires pc.Valid()
  {
    && Position(pc, s.pipe, f, i) && OnTimeUpTo(pc, s.pipe.handed, f)
    && PlayerOk(pc, s.pipe.handed, s.player, f, i) && Spawned(s)
  }

  // The calls of md_play_async are no longer in the order of the playlist, or the program has stopped
  // before it made them all.
  predicate Spoilt(pc: PlayConfig, p: Player) {
    !(p.started <= UpTo(pc.Count())) || (p.faulted && |p.started| < pc.Count())
  }

  lemma StartPlays(pc: PlayConfig)
    requires pc.Valid()
    ensures Playing(pc, Start(pc), 0, 0)
  {
    var s := Start(pc);
    SpawnAllOnly(pc.cfg, Init(pc.cfg), [0]);
    assert s.player.started == UpTo(1);
    assert Ids(s.pipe.handed) == UpTo(0);
    assert forall t: nat :: t < pc.Count() ==> Is(Init(pc.cfg), t, Unborn);
  }

  lemma StartedShape(pc: PlayConfig, ms: seq<Meta>, p: Player, f: nat, i: nat) returns (k: nat)
    requires pc.Valid() && f <= pc.Count() && PlayerOk(pc, ms, p, f, i)
    ensures p.started == UpTo(k) && k <= pc.Count()
    ensures f == pc.Count() ==> k == f
    ensures f < pc.Count() ==> k == StartedBefore(pc, ms, f) || (StartedBefore(pc, ms, f) == f + 1 && i > 0 && k == f + 2)
  {
    k := |p.started|;
    UpToGrows(f + 1);
  }

  // All threads handed the engine have been started.
  lemma HandedStarted(cfg: Config, s: PlayState, k: nat)
    requires cfg.Valid() && HandedInv(cfg, s.pipe) && Spawned(s)
    requires InPlaylistOrder(s.pipe.handed) && s.player.started == UpTo(k)
    ensures |s.pipe.handed| <= k
  {
    var h := |s.pipe.handed|;
    if h > 0 {
      InUpTo(h, h - 1);
      InUpTo(k, h - 1);
      assert !Is(s.pipe, h - 1, Unborn);
    }
  }

  // How many files have been started, against how many have been handed the engine.
  lemma StartedIs(pc: PlayConfig, s: PlayState, f: nat, i: nat) returns (k: nat)
    requires pc.Valid() && Inv(pc.cfg, s.pipe) && Playing(pc, s, f, i)
    ensures s.player.started == UpTo(k) && |s.pipe.handed| <= k <= |s.pipe.handed| + 1 && k <= pc.Count()
    ensures f < |s.pipe.handed| ==> StartedBefore(pc, s.pipe.handed, f) == f + 1
    ensures f == pc.Count() ==> k == f
    ensures f < pc.Count() && i == 0 ==> k == StartedBefore(pc, s.pipe.handed, f)
  {
    k := StartedShape(pc, s.pipe.handed, s.player, f, i);
    HandedStarted(pc.cfg, s, k);
  }

  // ---------------------------------------------------------------- steps

  // A step that loads nothing leaves the playlist alone and bears no thread.
  lemma QuietStep(pc: PlayConfig, s: PlayState, step: Step)
    requires CanStep(pc, s, step) && !step.LoadNext?
    ensures Next(pc, s, step) == PlayState(Apply(pc.cfg, s.pipe, step), s.player)
  {
    assert NewStarts(pc, s, step) == [];
  }

  lemma QuietKeepsLoaded(cfg: Config, s: State, step: Step)
    requires cfg.Valid() && Inv(cfg, s) && Enabled(cfg, s, step) && !step.LoadNext?
    ensures NumLoaded(Apply(cfg, s, step)) == NumLoaded(s)
  {
    if step.DropNext? {
      DropMoves(cfg, s);
    } else {
      OthersKeepCounts(cfg, s, step);
    }
  }

  // A thread that takes over the engine is the next in the playlist.
  lemma NextToAcquire(pc: PlayConfig, s: PlayState, f: nat, i: nat, t: nat)
    requires pc.Valid() && Inv(pc.cfg, s.pipe) && Playing(pc, s, f, i) && Is(s.pipe, t, Waiting)
    ensures t == |s.pipe.handed| < pc.Count()
  {
    var k := StartedIs(pc, s, f, i);
    InUpTo(k, t);
    InUpTo(|s.pipe.handed|, t);
    assert PhaseOk(pc.cfg, t, s.pipe.threads[t], s.pipe.curr == Some(t), t in Ids(s.pipe.handed));
    assert t in s.player.started;
  }

  lemma HasChunks(cfg: Config, f: nat)
    requires cfg.Valid() && AllDeliverable(cfg) && f < |cfg.files|
    ensures NumChunks(cfg, f) > 0
  {
    assert Deliverable(|cfg.File(f)|, cfg.bufSize);
  }

  lemma AcquirePosition(pc: PlayConfig, s: State, s': State, f: nat, i: nat, m: Meta)
    requires pc.Valid() && AllDeliverable(pc.cfg) && Position(pc, s, f, i) && NumLoaded(s') == NumLoaded(s)
    requires s'.handed == s.handed + [m] && m.id == |s.handed| < pc.Count()
    ensures Position(pc, s', f, i)
  {
    OrderGrows(s.handed, m);
    if f < pc.Count() {
      HasChunks(pc.cfg, f);
    }
  }

  lemma AcquirePlayer(pc: PlayConfig, ms: seq<Meta>, m: Meta, p: Player, f: nat, i: nat)
    requires pc.Valid() && m.id == |ms| && f <= |ms| < pc.Count() && (f == |ms| ==> i == 0)
    requires OnTimeUpTo(pc, ms, f) && PlayerOk(pc, ms, p, f, i)
    ensures OnTimeUpTo(pc, ms + [m], f) && PlayerOk(pc, ms + [m], p, f, i)
  {
    forall g: nat | g + 1 < f
      ensures OnTimeFile(pc, ms + [m], g)
    {
      assert OnTimeFile(pc, ms, g);
      CountingStays(pc, ms, m, g);
    }
    if f > 0 {
      CountingStays(pc, ms, m, f - 1);
    }
    LeftOverStays(pc, ms, m, f);
    if f < |ms| {
      CountingStays(pc, ms, m, f);
    }
  }

  lemma QuietKeeps(pc: PlayConfig, s: PlayState, step: Step, f: nat, i: nat)
    requires pc.Valid() && AllDeliverable(pc.cfg) && Inv(pc.cfg, s.pipe) && Playing(pc, s, f, i)
    requires CanStep(pc, s, step) && !step.LoadNext?
    ensures Playing(pc, Next(pc, s, step), f, i)
  {
    QuietStep(pc, s, step);
    QuietKeepsLoaded(pc.cfg, s.pipe, step);
    QuietKeepsSpawned(pc, s, step);
    BearsNone(pc.cfg, s.pipe, step);
    if step.Acquire? {
      NextToAcquire(pc, s, f, i, step.t);
      var m := Meta(step.t, step.addr, s.pipe.oldMeta != Some(step.addr));
      AcquirePosition(pc, s.pipe, Apply(pc.cfg, s.pipe, step), f, i, m);
      AcquirePlayer(pc, s.pipe.handed, m, s.player, f, i);
    }
  }

  lemma QuietKeepsSpawned(pc: PlayConfig, s: PlayState, step: Step)
    requires CanStep(pc, s, step) && Spawned(s)
    ensures Spawned(PlayState(Apply(pc.cfg, s.pipe, step), s.player))
  {
    BearsNone(pc.cfg, s.pipe, step);
  }

  // The chunk after those loaded, when there is one, is chunk i of file f.
  lemma NextChunk(cfg: Config, put: seq<Chunk>, ms: seq<Meta>, f: nat, i: nat)
    requires cfg.Valid() && InPlaylistOrder(ms) && put <= Flatten(cfg, ms) && ChunksOf(cfg, f) + i < |put|
    requires f <= |ms| && (f == |ms| ==> i == 0) && (f < |ms| ==> i < NumChunks(cfg, f))
    ensures f < |ms| && put[ChunksOf(cfg, f) + i] == FileChunks(ms[f], cfg.File(f), cfg.bufSize)[i]
  {
    StartIs(cfg, ms, |ms|);
    assert ms[..|ms|] == ms;
    if f < |ms| {
      ChunkOfFile(cfg, ms, f, i);
    }
  }

  lemma LoadsChunk(pc: PlayConfig, s: State, f: nat, i: nat)
    requires pc.Valid() && Position(pc, s, f, i) && s.put <= Flatten(pc.cfg, s.handed)
    requires 0 <= NumLoaded(s) < |s.put|
    ensures f < |s.handed| && i < NumChunks(pc.cfg, f)
    ensures s.put[NumLoaded(s)] == FileChunks(s.handed[f], pc.cfg.File(f), pc.cfg.bufSize)[i]
  {
    NextChunk(pc.cfg, s.put, s.handed, f, i);
  }

  function CallbacksAt(pc: PlayConfig, ms: seq<Meta>, f: nat, i: nat): seq<Callback>
    requires pc.Valid()
  {
    ChunkCallbacks(f, i, NumChunks(pc.cfg, f), pc.cfg.bufSize, Unseen(ms, f))
  }

  // What the driver loads is chunk i of file f, and the playlist hears exactly that.
  lemma LoadIs(pc: PlayConfig, s: PlayState, f: nat, i: nat)
    requires pc.Valid() && Inv(pc.cfg, s.pipe) && Position(pc, s.pipe, f, i) && CanStep(pc, s, LoadNext)
    ensures f < |s.pipe.handed| && i < NumChunks(pc.cfg, f)
    ensures Heard(pc, s, LoadNext) == CallbacksAt(pc, s.pipe.handed, f, i)
  {
    PutIsPrefix(pc.cfg, s.pipe);
    LoadKeepsQueue(pc.cfg, s.pipe);
    LoadsChunk(pc, s.pipe, f, i);
    FileIsMeta(s.pipe.handed, f);
    LoadsAs(pc.cfg, s.pipe.handed[f], i);
  }

  lemma NextPosition(pc: PlayConfig, s: State, s': State, f: nat, i: nat)
    requires pc.Valid() && AllDeliverable(pc.cfg) && Position(pc, s, f, i) && f < |s.handed|
    requires s'.handed == s.handed && NumLoaded(s') == NumLoaded(s) + 1
    ensures if i + 1 < NumChunks(pc.cfg, f) then Position(pc, s', f, i + 1) else Position(pc, s', f + 1, 0)
  {
    if f + 1 < |s.handed| {
      HasChunks(pc.cfg, f + 1);
    }
  }

  // Loading a chunk, apart from what it makes of the playlist.
  lemma LoadMoves(pc: PlayConfig, s: PlayState, f: nat, i: nat)
    requires pc.Valid() && AllDeliverable(pc.cfg) && Inv(pc.cfg, s.pipe) && Position(pc, s.pipe, f, i) && Spawned(s)
    requires CanStep(pc, s, LoadNext)
    ensures f < |s.pipe.handed| && i < NumChunks(pc.cfg, f)
    ensures var s' := Next(pc, s, LoadNext);
            && s'.player == OnAll(pc.su, s.player, CallbacksAt(pc, s.pipe.handed, f, i))
            && s'.pipe.handed == s.pipe.handed
            && (if i + 1 < NumChunks(pc.cfg, f) then Position(pc, s'.pipe, f, i + 1) else Position(pc, s'.pipe, f + 1, 0))
            && Spawned(s')
  {
    LoadIs(pc, s, f, i);
    LoadKeepsQueue(pc.cfg, s.pipe);
    SpawnsWhatIsStarted(pc, s);
    NextPosition(pc, s.pipe, Next(pc, s, LoadNext).pipe, f, i);
  }

  lemma SpawnsWhatIsStarted(pc: PlayConfig, s: PlayState)
    requires CanStep(pc, s, LoadNext) && Spawned(s)
    ensures var s', pipe1 := Next(pc, s, LoadNext), Apply(pc.cfg, s.pipe, LoadNext);
            Spawned(s') && s'.pipe.handed == s.pipe.handed && NumLoaded(s'.pipe) == NumLoaded(pipe1)
  {
    var pipe1, more := Apply(pc.cfg, s.pipe, LoadNext), NewStarts(pc, s, LoadNext);
    BearsNone(pc.cfg, s.pipe, LoadNext);
    SpawnAllOnly(pc.cfg, pipe1, more);
    KeepsSpawned(s, pipe1, Next(pc, s, LoadNext), more);
  }

  lemma KeepsSpawned(s: PlayState, pipe1: State, s': PlayState, more: seq<nat>)
    requires Spawned(s) && |pipe1.threads| == |s.pipe.threads| == |s'.pipe.threads|
    requires forall t: nat :: t < |s.pipe.threads| ==> (Is(pipe1, t, Unborn) <==> Is(s.pipe, t, Unborn))
    requires forall t: nat :: Is(s'.pipe, t, Unborn) <==> Is(pipe1, t, Unborn) && t !in more
    requires s'.player.started == s.player.started + more
    ensures Spawned(s')
  {
  }

  lemma NotPrefix(a: seq<nat>, f: nat, n: nat)
    requires a == UpTo(f + 1) + [f + 2]
    ensures !(a <= UpTo(n))
  {
    assert a[f + 1] == f + 2;
  }

  // What the last chunk of file f makes of the playlist.
  ghost predicate LastDone(pc: PlayConfig, ms: seq<Meta>, p: Player, f: nat)
    requires pc.Valid() && f < pc.Count()
  {
    && Between(pc.su, p, f + 1)
    && (f + 1 == pc.Count() ==> p.started == UpTo(f + 1))
    && (f + 1 < pc.Count() && OnTimeFile(pc, ms, f) ==> p.started == UpTo(f + 2) && p.startEvent == LeftOver(pc, ms, f + 1))
    && (f + 1 < pc.Count() && !OnTimeFile(pc, ms, f) ==> p.started == UpTo(f + 1) || Spoilt(pc, p))
  }

  lemma LastStarts(pc: PlayConfig, ms: seq<Meta>, p: Player, f: nat)
    requires pc.Valid() && f < pc.Count() && NumChunks(pc.cfg, f) > 0
    requires StartedBefore(pc, ms, f) == f + 1 && PlayerOk(pc, ms, p, f, NumChunks(pc.cfg, f) - 1)
    ensures LastDone(pc, ms, OnAll(pc.su, p, CallbacksAt(pc, ms, f, NumChunks(pc.cfg, f) - 1)), f)
  {
    var m := NumChunks(pc.cfg, f);
    var p' := OnAll(pc.su, p, CallbacksAt(pc, ms, f, m - 1));
    LastChunkStep(pc.su, p, UpTo(f + 1), f, m, pc.cfg.bufSize, Unseen(ms, f), Counting(pc, ms, f));
    UpToGrows(f + 1);
    if p'.started == UpTo(f + 1) + [f + 2] {
      NotPrefix(p'.started, f, pc.Count());
    }
  }

  lemma LastKeeps(pc: PlayConfig, ms: seq<Meta>, p: Player, f: nat)
    requires pc.Valid() && f < pc.Count() && OnTimeUpTo(pc, ms, f) && (f == 0 || OnTimeFile(pc, ms, f - 1))
    requires LastDone(pc, ms, p, f)
    ensures if Spoilt(pc, p) then f + 1 < pc.Count() && !OnTimeFile(pc, ms, f)
            else OnTimeUpTo(pc, ms, f + 1) && PlayerOk(pc, ms, p, f + 1, 0)
  {
    UpToPrefix(f + 1, pc.Count());
    UpToPrefix(f + 2, pc.Count());
  }

  lemma MidKeeps(pc: PlayConfig, ms: seq<Meta>, p: Player, f: nat, i: nat)
    requires pc.Valid() && f < pc.Count() && StartedBefore(pc, ms, f) == f + 1 && PlayerOk(pc, ms, p, f, i)
    requires i + 1 < NumChunks(pc.cfg, f) && (f + 1 < pc.Count() ==> EventComputes(pc, ms, f))
    ensures PlayerOk(pc, ms, OnAll(pc.su, p, CallbacksAt(pc, ms, f, i)), f, i + 1)
  {
    MidChunkStep(pc.su, p, UpTo(f + 1), f, i, NumChunks(pc.cfg, f), pc.cfg.bufSize, Unseen(ms, f), Counting(pc, ms, f));
  }

  // Or the program stops at the first chunk.
  lemma MidSpoils(pc: PlayConfig, ms: seq<Meta>, p: Player, f: nat)
    requires pc.Valid() && f + 1 < pc.Count() && StartedBefore(pc, ms, f) == f + 1 && PlayerOk(pc, ms, p, f, 0)
    requires 1 < NumChunks(pc.cfg, f) && !EventComputes(pc, ms, f)
    ensures Spoilt(pc, OnAll(pc.su, p, CallbacksAt(pc, ms, f, 0))) && !OnTimeFile(pc, ms, f)
  {
    FaultStep(pc.su, p, f, NumChunks(pc.cfg, f), pc.cfg.bufSize);
  }

  lemma InOrder(pc: PlayConfig, ms: seq<Meta>, p: Player, f: nat, i: nat)
    requires pc.Valid() && f <= pc.Count() && PlayerOk(pc, ms, p, f, i)
    ensures !Spoilt(pc, p)
  {
    var k := StartedShape(pc, ms, p, f, i);
    UpToPrefix(k, pc.Count());
  }

  lemma PlayerAfterLoad(pc: PlayConfig, ms: seq<Meta>, p: Player, p': Player, f: nat, i: nat) returns (f': nat, i': nat)
    requires pc.Valid() && f < pc.Count() && i < NumChunks(pc.cfg, f)
    requires OnTimeUpTo(pc, ms, f) && PlayerOk(pc, ms, p, f, i) && StartedBefore(pc, ms, f) == f + 1
    requires p' == OnAll(pc.su, p, CallbacksAt(pc, ms, f, i))
    ensures if i + 1 < NumChunks(pc.cfg, f) then f' == f && i' == i + 1 else f' == f + 1 && i' == 0
    ensures if Spoilt(pc, p') then f + 1 < pc.Count() && !OnTimeFile(pc, ms, f)
            else OnTimeUpTo(pc, ms, f') && PlayerOk(pc, ms, p', f', i')
  {
    if i + 1 < NumChunks(pc.cfg, f) {
      f', i' := f, i + 1;
      if f + 1 < pc.Count() && !EventComputes(pc, ms, f) {
        MidSpoils(pc, ms, p, f);
      } else {
        MidKeeps(pc, ms, p, f, i);
        InOrder(pc, ms, p', f, i + 1);
      }
    } else {
      f', i' := f + 1, 0;
      LastStarts(pc, ms, p, f);
      LastKeeps(pc, ms, p', f);
    }
  }

  // Loading keeps the invariant, or is the point at which a late file spoils the order.
  lemma LoadKeepsPlaying(pc: PlayConfig, s: PlayState, f: nat, i: nat) returns (f': nat, i': nat)
    requires pc.Valid() && AllDeliverable(pc.cfg) && Inv(pc.cfg, s.pipe) && Playing(pc, s, f, i)
    requires CanStep(pc, s, LoadNext)
    ensures Holds(pc, Next(pc, s, LoadNext), f', i')
  {
    LoadMoves(pc, s, f, i);
    var _ := StartedIs(pc, s, f, i);
    f', i' := AfterLoad(pc, s.player, Next(pc, s, LoadNext), f, i);
  }

  lemma AfterLoad(pc: PlayConfig, p: Player, s': PlayState, f: nat, i: nat) returns (f': nat, i': nat)
    requires pc.Valid() && f < |s'.pipe.handed| <= pc.Count() && InPlaylistOrder(s'.pipe.handed)
    requires i < NumChunks(pc.cfg, f) && StartedBefore(pc, s'.pipe.handed, f) == f + 1
    requires OnTimeUpTo(pc, s'.pipe.handed, f) && PlayerOk(pc, s'.pipe.handed, p, f, i)
    requires s'.player == OnAll(pc.su, p, CallbacksAt(pc, s'.pipe.handed, f, i))
    requires if i + 1 < NumChunks(pc.cfg, f) then Position(pc, s'.pipe, f, i + 1) else Position(pc, s'.pipe, f + 1, 0)
    requires Spawned(s')
    ensures Holds(pc, s', f', i')
  {
    f', i' := PlayerAfterLoad(pc, s'.pipe.handed, p, s'.player, f, i);
    if Spoilt(pc, s'.player) {
      f' := f;
      LateNow(pc, s'.pipe.handed, f);
    }
  }

  lemma LateNow(pc: PlayConfig, ms: seq<Meta>, f: nat)
    requires pc.Valid() && InPlaylistOrder(ms) && f < |ms| && f + 1 < pc.Count() && !OnTimeFile(pc, ms, f)
    ensures LateAt(pc, ms, f)
  {
    forall g: nat | g <= f
      ensures g in Ids(ms)
    {
      InUpTo(|ms|, g);
    }
  }

  // What holds after every run: the driver is in file f after i chunks, or the order is spoilt and
  // file f was late.
  ghost predicate Holds(pc: PlayConfig, s: PlayState, f: nat, i: nat)
    requires pc.Valid()
  {
    if Spoilt(pc, s.player) then LateAt(pc, s.pipe.handed, f) else Playing(pc, s, f, i)
  }

  lemma StaysSpoilt(pc: PlayConfig, s: PlayState, step: Step, f: nat)
    requires pc.Valid() && Inv(pc.cfg, s.pipe) && CanStep(pc, s, step)
    requires Spoilt(pc, s.player) && LateAt(pc, s.pipe.handed, f)
    ensures Spoilt(pc, Next(pc, s, step).player) && LateAt(pc, Next(pc, s, step).pipe.handed, f)
  {
    BearsNone(pc.cfg, s.pipe, step);
    SpawnAllOnly(pc.cfg, Apply(pc.cfg, s.pipe, step), NewStarts(pc, s, step));
    if s.player.faulted {
      FaultStays(pc.su, s.player, Heard(pc, s, step));
    }
    if step.Acquire? {
      AcquireHands(pc.cfg, s.pipe, step.t, step.addr);
      LateStays(pc, s.pipe.handed, Meta(step.t, step.addr, s.pipe.oldMeta != Some(step.addr)), f);
    }
  }

  lemma NextPlays(pc: PlayConfig, s: PlayState, step: Step, f: nat, i: nat) returns (f': nat, i': nat)
    requires pc.Valid() && AllDeliverable(pc.cfg) && Inv(pc.cfg, s.pipe) && Holds(pc, s, f, i) && CanStep(pc, s, step)
    ensures Holds(pc, Next(pc, s, step), f', i')
  {
    f', i' := f, i;
    if Spoilt(pc, s.player) {
      StaysSpoilt(pc, s, step, f);
    } else if step.LoadNext? {
      f', i' := LoadKeepsPlaying(pc, s, f, i);
    } else {
      QuietStep(pc, s, step);
      QuietKeeps(pc, s, step, f, i);
    }
  }

  /** The invariant of whole runs: files are started in order, and the driver is where the playlist
      thinks it is, unless some file was late. */
  lemma {:induction false} RunPlays(pc: PlayConfig, run: seq<Step>) returns (f: nat, i: nat)
    requires pc.Valid() && AllDeliverable(pc.cfg) && IsPlayRun(pc, run)
    ensures Holds(pc, Played(pc, run), f, i)
    decreases |run|
  {
    if run == [] {
      f, i := 0, 0;
      StartPlays(pc);
      assert [0] <= UpTo(pc.Count());
    } else {
      var before := run[..|run| - 1];
      f, i := RunPlays(pc, before);
      RunIsPipelineRun(pc, before);
      ReachableInv(pc.cfg, Played(pc, before).pipe);
      f, i := NextPlays(pc, Played(pc, before), run[|run| - 1], f, i);
    }
  }

  lemma ReachablePlays(pc: PlayConfig, s: PlayState) returns (f: nat, i: nat)
    requires pc.Valid() && AllDeliverable(pc.cfg) && PlayReachable(pc, s)
    ensures Inv(pc.cfg, s.pipe) && Reachable(pc.cfg, s.pipe) && Holds(pc, s, f, i)
    ensures AllOnTime(pc, s.pipe.handed) ==> Playing(pc, s, f, i)
  {
    var run :| IsPlayRun(pc, run) && Played(pc, run) == s;
    RunIsPipelineRun(pc, run);
    ReachableInv(pc.cfg, s.pipe);
    f, i := RunPlays(pc, run);
  }

  // ---------------------------------------------------------------- the theorems

  /** Safety of the playlist: when every file handed over that has a successor is on time, the calls of
      md_play_async so far are the beginning of the playlist, each file once; files take over the engine
      in playlist order; at most one decoder is queued for it; and no callback has met a null entry. */
  lemma PlaysInOrder(pc: PlayConfig, s: PlayState) returns (k: nat)
    requires pc.Valid() && AllDeliverable(pc.cfg) && PlayReachable(pc, s) && AllOnTime(pc, s.pipe.handed)
    ensures s.player.started == UpTo(k) && 1 <= k <= pc.Count() && !s.player.faulted
    ensures InPlaylistOrder(s.pipe.handed) && |s.pipe.handed| <= k <= |s.pipe.handed| + 1
    ensures forall t: nat :: Is(s.pipe, t, Waiting) ==> t == k - 1 == |s.pipe.handed|
  {
    var f, i := ReachablePlays(pc, s);
    k := StartedIs(pc, s, f, i);
    NotFaulted(pc, s.pipe.handed, s.player, f, i);
    forall t: nat | Is(s.pipe, t, Waiting)
      ensures t == k - 1 == |s.pipe.handed|
    {
      NextToAcquire(pc, s, f, i, t);
      InUpTo(k, t);
      assert t in s.player.started;
    }
  }

  lemma NotFaulted(pc: PlayConfig, ms: seq<Meta>, p: Player, f: nat, i: nat)
    requires pc.Valid() && f <= pc.Count() && PlayerOk(pc, ms, p, f, i)
    ensures !p.faulted && p.started != []
  {
    UpToGrows(f + 1);
  }

  /** Every step of the composition decreases the work left, so its runs are bounded. */
  lemma PlayStepsDecreaseWork(pc: PlayConfig, s: PlayState, step: Step)
    requires pc.Valid() && PlayReachable(pc, s) && CanStep(pc, s, step)
    ensures 0 <= Work(Next(pc, s, step).pipe) < Work(s.pipe)
  {
    PlayIsPipeline(pc, s);
    StepsDecreaseWork(pc.cfg, s.pipe, step);
    NextReachable(pc, s, step);
    ReachableInv(pc.cfg, Next(pc, s, step).pipe);
    WorkNotNegative(pc.cfg, Next(pc, s, step).pipe);
    SpawnAllOnly(pc.cfg, Apply(pc.cfg, s.pipe, step), NewStarts(pc, s, step));
  }

  ghost predicate PlayStuck(pc: PlayConfig, s: PlayState) {
    forall step :: !CanStep(pc, s, step)
  }

  // All has been played: every file was started, once and in order, and delivered in full.
  ghost predicate PlayedAll(pc: PlayConfig, s: PlayState)
    requires pc.Valid()
  {
    s.player.started == UpTo(pc.Count()) && Complete(pc.cfg, s.pipe)
  }

  // With no decoder current and everything loaded, the driver is at the end of what was handed over.
  lemma AllLoaded(pc: PlayConfig, s: PlayState, f: nat, i: nat)
    requires pc.Valid() && Inv(pc.cfg, s.pipe) && Position(pc, s.pipe, f, i)
    requires s.pipe.curr == None && s.pipe.queue == [] && !s.pipe.consumer.Holding?
    ensures f == |s.pipe.handed| && i == 0
  {
    assert s.pipe.put == Flatten(pc.cfg, s.pipe.handed);
    if f < |s.pipe.handed| {
      ChunkOfFile(pc.cfg, s.pipe.handed, f, i);
    }
  }

  // Where a run of the composition can end when all files are deliverable and the driver has not
  // overcommitted.
  lemma StuckPipe(pc: PlayConfig, s: PlayState)
    requires pc.Valid() && AllDeliverable(pc.cfg) && Inv(pc.cfg, s.pipe) && PlayStuck(pc, s)
    requires !Overcommitted(pc.cfg, s.pipe)
    ensures s.pipe.curr == None && s.pipe.queue == [] && !s.pipe.consumer.Holding?
    ensures forall t: nat :: !Is(s.pipe, t, Waiting)
  {
    assert !CanStep(pc, s, Want(1, Exact)) && !CanStep(pc, s, LoadNext) && !CanStep(pc, s, DropNext);
    assert !CanStep(pc, s, Take({}));
    DriverWaits(pc.cfg, s.pipe);
    DriverBlocked(pc.cfg, s.pipe);
    if s.pipe.curr.Some? {
      var t := s.pipe.curr.value;
      assert !CanStep(pc, s, FeedByte(t)) && !CanStep(pc, s, Done(t)) && !CanStep(pc, s, Put(t)) && !CanStep(pc, s, Release(t));
      CurrentBlocked(pc.cfg, s.pipe);
    }
    forall t: nat ensures !Is(s.pipe, t, Waiting) {
      assert !CanStep(pc, s, Acquire(t, 0));
    }
  }

  // A thread that was started but not handed the engine waits for it.
  lemma NotInLimbo(cfg: Config, s: PlayState, t: nat, k: nat)
    requires cfg.Valid() && HandedInv(cfg, s.pipe) && Spawned(s) && t < |s.pipe.threads|
    requires InPlaylistOrder(s.pipe.handed) && s.player.started == UpTo(k) && |s.pipe.handed| <= t < k
    ensures Is(s.pipe, t, Waiting)
  {
    InUpTo(|s.pipe.handed|, t);
    InUpTo(k, t);
    assert PhaseOk(cfg, t, s.pipe.threads[t], s.pipe.curr == Some(t), t in Ids(s.pipe.handed));
  }

  lemma LastWasOnTime(pc: PlayConfig, ms: seq<Meta>)
    requires pc.Valid() && AllOnTime(pc, ms) && InPlaylistOrder(ms) && |ms| < pc.Count()
    ensures StartedBefore(pc, ms, |ms|) == |ms| + 1
  {
    var f := |ms|;
    if f > 0 {
      InUpTo(f, f - 1);
      assert OnTimeFile(pc, ms, f - 1);
    }
  }

  lemma EndOfPlaylist(pc: PlayConfig, s: PlayState, f: nat)
    requires pc.Valid() && Inv(pc.cfg, s.pipe) && Playing(pc, s, f, 0) && f == |s.pipe.handed|
    requires AllOnTime(pc, s.pipe.handed)
    requires forall t: nat :: !Is(s.pipe, t, Waiting)
    ensures f == pc.Count() && s.player.started == UpTo(f)
  {
    var k := StartedIs(pc, s, f, 0);
    if f < pc.Count() {
      LastWasOnTime(pc, s.pipe.handed);
      NotInLimbo(pc.cfg, s, f, k);
    }
  }

  lemma OnTimeRunsThrough(pc: PlayConfig, s: PlayState)
    requires pc.Valid() && AllDeliverable(pc.cfg) && PlayReachable(pc, s) && PlayStuck(pc, s)
    requires AllOnTime(pc, s.pipe.handed) && !Overcommitted(pc.cfg, s.pipe)
    ensures PlayedAll(pc, s)
  {
    var f, i := ReachablePlays(pc, s);
    StuckPipe(pc, s);
    AllLoaded(pc, s, f, i);
    EndOfPlaylist(pc, s, f);
    NoneUnborn(pc, s, f);
    StuckIsComplete(pc.cfg, s.pipe);
  }

  // With every file started and nothing left to do here, the pipeline is stuck too.
  lemma NoneUnborn(pc: PlayConfig, s: PlayState, k: nat)
    requires pc.Valid() && PlayStuck(pc, s) && Spawned(s) && s.player.started == UpTo(k) && k == |s.pipe.threads|
    ensures Stuck(pc.cfg, s.pipe)
  {
    forall step ensures !Enabled(pc.cfg, s.pipe, step) {
      assert !CanStep(pc, s, step);
      if step.Spawn? {
        InUpTo(k, step.t);
      }
    }
  }

  lemma PlayedAllDelivers(pc: PlayConfig, s: PlayState)
    requires pc.Valid() && PlayReachable(pc, s) && PlayedAll(pc, s)
    ensures AllDeliverable(pc.cfg)
  {
    PlayIsPipeline(pc, s);
    ReachableInv(pc.cfg, s.pipe);
    forall t: nat | t < |pc.cfg.files|
      ensures Deliverable(|pc.cfg.File(t)|, pc.cfg.bufSize)
    {
      assert Is(s.pipe, t, Exited);
      assert PhaseOk(pc.cfg, t, s.pipe.threads[t], false, t in Ids(s.pipe.handed));
    }
  }

  lemma PlayedAllWasOnTime(pc: PlayConfig, s: PlayState)
    requires pc.Valid() && PlayReachable(pc, s) && PlayedAll(pc, s)
    ensures AllDeliverable(pc.cfg) && AllOnTime(pc, s.pipe.handed) && !Overcommitted(pc.cfg, s.pipe)
  {
    PlayedAllDelivers(pc, s);
    var f, i := ReachablePlays(pc, s);
    assert !Spoilt(pc, s.player);
    AllLoaded(pc, s, f, i);
    var h := |s.pipe.handed|;
    InUpTo(h, h);
    assert h < pc.Count() ==> h in Ids(s.pipe.handed);
  }

  /** The central claim, with its exact condition, as far as guards go (PlaylistSignals adds the wakeups):
      when the composition can do nothing more, the
      sequence of md_play_async calls is exactly the playlist and everything has been delivered if and
      only if every file is deliverable, every file handed over that has a successor was on time, and
      the driver has not asked for exactly more chunks than the queue holds. */
  lemma PlaylistExactly(pc: PlayConfig, s: PlayState)
    requires pc.Valid() && PlayReachable(pc, s) && PlayStuck(pc, s)
    ensures PlayedAll(pc, s)
            <==> AllDeliverable(pc.cfg) && AllOnTime(pc, s.pipe.handed) && !Overcommitted(pc.cfg, s.pipe)
  {
    if PlayedAll(pc, s) {
      PlayedAllWasOnTime(pc, s);
    } else if AllDeliverable(pc.cfg) && AllOnTime(pc, s.pipe.handed) && !Overcommitted(pc.cfg, s.pipe) {
      OnTimeRunsThrough(pc, s);
    }
  }

  // Two chunks, a bit rate of at least 615 that fits an int, whole-byte samples, as many bytes as
  // announced, and the chunk count that md_set_metadata computes from it without leaving an int.
  predicate Ordinary(pc: PlayConfig, f: nat)
    requires pc.Valid() && f < pc.Count() && pc.cfg.bufSize == 1536
  {
    var m := pc.su.metas[f];
    && NumChunks(pc.cfg, f) >= 2 && 615 <= BitRate(m) < INT_LIMIT && m.bps % 8 == 0
    && |pc.cfg.File(f)| == EmittedBytes(m) && SourceCount(m, 1536) == Some(m.totalBufChunks)
  }

  lemma OrdinaryIsOnTime(pc: PlayConfig, ms: seq<Meta>, f: nat)
    requires pc.Valid() && f + 1 < pc.Count() && pc.cfg.bufSize == 1536 && pc.su.switch == USeconds(60000000)
    requires Ordinary(pc, f) && (f > 0 ==> Ordinary(pc, f - 1))
    requires Unseen(ms, f) || f == 0 || |pc.cfg.File(f - 1)| % 1536 != 0
    ensures OnTimeFile(pc, ms, f)
  {
    PredictionWholeBytes(pc.su.metas[f], Meta(f, 0, true), pc.cfg.File(f), 1536);
    DefaultSuffices(pc.su, f, NumChunks(pc.cfg, f));
    if f > 0 {
      PredictionWholeBytes(pc.su.metas[f - 1], Meta(f - 1, 0, true), pc.cfg.File(f - 1), 1536);
    }
  }

  // With the built-in settings, files with a successor are ordinary, and each one comes at a new address or
  // after a file whose length is not a multiple of the buffer size.
  ghost predicate OrdinaryPlaylist(pc: PlayConfig, ms: seq<Meta>)
    requires pc.Valid()
  {
    && pc.cfg.bufSize == 1536 && pc.su.switch == USeconds(60000000)
    && (forall f: nat :: f + 1 < pc.Count() ==> Ordinary(pc, f))
    && (forall f: nat :: f + 1 < pc.Count() ==> Unseen(ms, f) || f == 0 || |pc.cfg.File(f - 1)| % 1536 != 0)
  }

  lemma OrdinaryOnTime(pc: PlayConfig, ms: seq<Meta>)
    requires pc.Valid() && OrdinaryPlaylist(pc, ms)
    ensures AllOnTime(pc, ms)
  {
    forall f: nat | f + 1 < pc.Count()
      ensures OnTimeFile(pc, ms, f)
    {
      assert f > 0 ==> Ordinary(pc, f - 1);
      OrdinaryIsOnTime(pc, ms, f);
    }
  }

  // ---------------------------------------------------------------- requests

  ghost predicate PlayReachableAsking(pc: PlayConfig, ok: Requests, s: PlayState) {
    exists run :: IsPlayRun(pc, run) && Asks(run, ok) && Played(pc, run) == s
  }

  lemma PlayedSnoc(pc: PlayConfig, run: seq<Step>, step: Step)
    requires IsPlayRun(pc, run) && CanStep(pc, Played(pc, run), step)
    ensures IsPlayRun(pc, run + [step]) && Played(pc, run + [step]) == Next(pc, Played(pc, run), step)
  {
    assert (run + [step])[..|run + [step]| - 1] == run;
  }

  lemma PlayAskingStep(pc: PlayConfig, ok: Requests, s: PlayState, step: Step)
    requires PlayReachableAsking(pc, ok, s) && CanStep(pc, s, step)
    requires step.Want? ==> ok(step.count, step.mode)
    ensures PlayReachableAsking(pc, ok, Next(pc, s, step))
  {
    var run :| IsPlayRun(pc, run) && Asks(run, ok) && Played(pc, run) == s;
    var longer := run + [step];
    AsksSnoc(run, ok, step);
    PlayedSnoc(pc, run, step);
    assert IsPlayRun(pc, longer) && Asks(longer, ok) && Played(pc, longer) == Next(pc, s, step);
  }

  lemma {:induction false} PlayWaitsOnRequest(pc: PlayConfig, ok: Requests, run: seq<Step>)
    requires IsPlayRun(pc, run) && Asks(run, ok)
    ensures var c := Played(pc, run).pipe.consumer;
            c.Wanting? ==> c.count >= 1 && ok(c.count, c.mode)
    decreases |run|
  {
    if run == [] {
      SpawnAllOnly(pc.cfg, Init(pc.cfg), Play(pc.su).started);
    } else {
      var before, step := run[..|run| - 1], run[|run| - 1];
      var s := Played(pc, before);
      PlayWaitsOnRequest(pc, ok, before);
      SpawnAllOnly(pc.cfg, Apply(pc.cfg, s.pipe, step), NewStarts(pc, s, step));
      if !step.Want? {
        OthersKeepRequest(pc.cfg, s.pipe, step);
      }
    }
  }

  lemma PlayAsked(pc: PlayConfig, ok: Requests, s: PlayState)
    requires PlayReachableAsking(pc, ok, s)
    ensures s.pipe.consumer.Wanting? ==> s.pipe.consumer.count >= 1 && ok(s.pipe.consumer.count, s.pipe.consumer.mode)
  {
    var run :| IsPlayRun(pc, run) && Asks(run, ok) && Played(pc, run) == s;
    PlayWaitsOnRequest(pc, ok, run);
  }

  // Where the composition can do nothing more, an overcommitted driver faces more chunks than fit.
  lemma PlayOvercommitted(pc: PlayConfig, s: PlayState)
    requires pc.Valid() && AllDeliverable(pc.cfg) && Inv(pc.cfg, s.pipe) && PlayStuck(pc, s) && Overcommitted(pc.cfg, s.pipe)
    ensures TotalChunks(pc.cfg) > pc.cfg.maxNum
  {
    var t := s.pipe.curr.value;
    assert !CanStep(pc, s, FeedByte(t)) && !CanStep(pc, s, Done(t)) && !CanStep(pc, s, Put(t)) && !CanStep(pc, s, Release(t));
    CurrentBlocked(pc.cfg, s.pipe);
    HandedCounts(pc.cfg, s.pipe);
  }

  /** The same with a condition that a driver can check beforehand: with no exact request for more
      than the queue holds, or with no more chunks than that, the playlist is played in full if and only if
      every file is deliverable and every file handed over that has a successor was on time. */
  lemma PlaylistWithSafeRequests(pc: PlayConfig, ok: Requests, s: PlayState)
    requires pc.Valid() && PlayReachableAsking(pc, ok, s) && PlayStuck(pc, s)
    requires TotalChunks(pc.cfg) <= pc.cfg.maxNum || forall c: nat :: c >= 1 && ok(c, Exact) ==> c <= pc.cfg.maxNum
    ensures PlayedAll(pc, s) <==> AllDeliverable(pc.cfg) && AllOnTime(pc, s.pipe.handed)
  {
    assert PlayReachable(pc, s);
    PlaylistExactly(pc, s);
    if AllDeliverable(pc.cfg) && Overcommitted(pc.cfg, s.pipe) {
      PlayIsPipeline(pc, s);
      ReachableInv(pc.cfg, s.pipe);
      PlayAsked(pc, ok, s);
      PlayOvercommitted(pc, s);
    }
  }

  // The driver has asked first, and has been given nothing; only the first file has been started.
  ghost predicate PlayWaits(pc: PlayConfig, ok: Requests, s: PlayState, count: nat) {
    && PlayReachableAsking(pc, ok, s) && s.pipe.consumer == Wanting(count, Exact) && |s.pipe.put| == |s.pipe.queue|
    && |s.pipe.threads| > 0 && !Is(s.pipe, 0, Unborn)
  }

  lemma DecoderKeepsRequest(cfg: Config, p: State, step: Step)
    requires Enabled(cfg, p, step) && OfDecoder(step)
    ensures var p' := Apply(cfg, p, step);
            p'.consumer == p.consumer && |p'.put| - |p'.queue| == |p.put| - |p.queue|
  {
  }

  lemma PlayFillStep(pc: PlayConfig, ok: Requests, s: PlayState, step: Step, count: nat)
    requires PlayWaits(pc, ok, s, count) && OfDecoder(step) && CanStep(pc, s, step)
    ensures PlayWaits(pc, ok, Next(pc, s, step), count)
  {
    PlayAskingStep(pc, ok, s, step);
    QuietStep(pc, s, step);
    BearsNone(pc.cfg, s.pipe, step);
    DecoderKeepsRequest(pc.cfg, s.pipe, step);
  }

  lemma {:induction false} PlayFillUp(pc: PlayConfig, ok: Requests, s: PlayState, count: nat) returns (s': PlayState)
    requires pc.Valid() && PlayWaits(pc, ok, s, count)
    ensures PlayWaits(pc, ok, s', count)
    ensures forall step :: OfDecoder(step) ==> !CanStep(pc, s', step)
    decreases Work(s.pipe)
  {
    s' := s;
    if step :| OfDecoder(step) && CanStep(pc, s, step) {
      PlayFillStep(pc, ok, s, step, count);
      PlayStepsDecreaseWork(pc, s, step);
      s' := PlayFillUp(pc, ok, Next(pc, s, step), count);
    }
  }

  lemma PlayFilledUp(pc: PlayConfig, ok: Requests, s: PlayState, count: nat)
    requires pc.Valid() && AllDeliverable(pc.cfg) && Inv(pc.cfg, s.pipe) && PlayWaits(pc, ok, s, count)
    requires count > pc.cfg.maxNum && NumChunks(pc.cfg, 0) > pc.cfg.maxNum
    requires forall step :: OfDecoder(step) ==> !CanStep(pc, s, step)
    ensures PlayStuck(pc, s) && s.pipe.curr.Some?
  {
    if s.pipe.curr == None {
      assert OfDecoder(Acquire(0, 0));
      assert PhaseOk(pc.cfg, 0, s.pipe.threads[0], false, 0 in Ids(s.pipe.handed));
      PutInFull(pc.cfg, s.pipe, 0);
    } else {
      var t := s.pipe.curr.value;
      assert OfDecoder(FeedByte(t)) && OfDecoder(Done(t)) && OfDecoder(Put(t)) && OfDecoder(Release(t));
      CurrentBlocked(pc.cfg, s.pipe);
    }
  }

  lemma StartWaits(pc: PlayConfig, ok: Requests, count: nat) returns (s: PlayState)
    requires pc.Valid() && count >= 1 && ok(count, Exact)
    ensures PlayWaits(pc, ok, s, count)
  {
    var s0, want := Start(pc), Want(count, Exact);
    assert IsPlayRun(pc, []) && Asks([], ok) && Played(pc, []) == s0;
    SpawnAllOnly(pc.cfg, Init(pc.cfg), [0]);
    assert 0 in [0];
    PlayAskingStep(pc, ok, s0, want);
    QuietStep(pc, s0, want);
    s := Next(pc, s0, want);
  }

  /** The condition is needed: whenever the first file alone has more chunks than the queue holds, every exact
      request for more than that has a run of the composition that blocks for good. */
  lemma PlaylistDeadlock(pc: PlayConfig, ok: Requests, count: nat) returns (s: PlayState)
    requires pc.Valid() && AllDeliverable(pc.cfg) && NumChunks(pc.cfg, 0) > pc.cfg.maxNum
    requires count > pc.cfg.maxNum && ok(count, Exact)
    ensures PlayReachableAsking(pc, ok, s) && PlayStuck(pc, s) && !PlayedAll(pc, s)
  {
    s := StartWaits(pc, ok, count);
    s := PlayFillUp(pc, ok, s, count);
    assert PlayReachable(pc, s);
    PlayIsPipeline(pc, s);
    ReachableInv(pc.cfg, s.pipe);
    PlayFilledUp(pc, ok, s, count);
  }

  // Whatever is played through a queue of this size, a run in which the driver makes only these requests plays
  // the whole playlist, provided that its files allow it.
  ghost predicate AlwaysPlays(ok: Requests, maxNum: nat) {
    forall pc: PlayConfig, s :: pc.Valid() && pc.cfg.maxNum == maxNum && PlayReachableAsking(pc, ok, s) && PlayStuck(pc, s)
      ==> (PlayedAll(pc, s) <==> AllDeliverable(pc.cfg) && AllOnTime(pc, s.pipe.handed))
  }

  // One file, of as many full buffers as the queue holds and one more.
  lemma LongFile(maxNum: nat) returns (pc: PlayConfig)
    requires maxNum > 0
    ensures pc.Valid() && pc.cfg.maxNum == maxNum && pc.Count() == 1
    ensures AllDeliverable(pc.cfg) && NumChunks(pc.cfg, 0) > maxNum
  {
    var file := Zeros(4 * (maxNum + 1));
    pc := PlayConfig(Config(4, maxNum, [file]), Setup(USeconds(0), [Metadata(1, 1, 8, 0, 0)]));
    NumPiecesIs(|file|, 4);
    DeliverableExactly(|file|, 4);
  }

  /** Which requests are safe for every playlist, when a waiting driver looks at its guard in time: exactly
      those sets without an exact request for more chunks than the queue holds. */
  lemma SafeForPlaylistsExactly(ok: Requests, maxNum: nat)
    requires maxNum > 0
    ensures AlwaysPlays(ok, maxNum) <==> forall c: nat :: c >= 1 && ok(c, Exact) ==> c <= maxNum
  {
    if forall c: nat :: c >= 1 && ok(c, Exact) ==> c <= maxNum {
      forall pc: PlayConfig, s | pc.Valid() && pc.cfg.maxNum == maxNum && PlayReachableAsking(pc, ok, s) && PlayStuck(pc, s)
        ensures PlayedAll(pc, s) <==> AllDeliverable(pc.cfg) && AllOnTime(pc, s.pipe.handed)
      {
        PlaylistWithSafeRequests(pc, ok, s);
      }
    } else {
      var c: nat :| c >= 1 && ok(c, Exact) && c > maxNum;
      var pc := LongFile(maxNum);
      var s := PlaylistDeadlock(pc, ok, c);
    }
  }
}
