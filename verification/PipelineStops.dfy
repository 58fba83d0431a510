/** The pipeline with its engine stopped and started again and its queue failing, flushed and resumed, at
    any time and any number of times; md_stop and md_resume (core/mdcore.c) are such sequences. Chunks may
    be lost then; what reaches the queue is still in one piece for each file. */
module PipelineStops {
  import opened Types
  import opened Chunks
  import opened Chunking
  import opened Pipeline

  // `running` is decoder_running, `run` md_bufll.run. The rest is history: the threads one of whose calls
  // of md_buf_add has failed, the chunks the driver has taken, in order, and which of those ever put were
  // flushed.
  datatype Gated = Gated(p: State, running: bool, run: bool, refused: set<nat>, taken: seq<Chunk>, flushed: set<nat>)

  datatype GatedStep =
    | Do(step: Step)
    | StopEngine
    | StartEngine
    | SignalError                        // md_buf_signal_error
    | Flush                              // md_buf_flush
    | Resume                             // md_buf_resume
    | Leave(t: nat)                      // md_decoder_wait returns false
    | AddFails(t: nat, finish: bool)     // md_buf_add returns an error; `finish`: the decoder then still calls md_decoder_done
    | GiveUp                             // md_buf_get_pack returns an error

  function Init(cfg: Config): Gated {
    Gated(Pipeline.Init(cfg), true, true, {}, [], {})
  }

  predicate CanTake(cfg: Config, g: Gated, step: GatedStep) {
    match step
    case Do(st) => Enabled(cfg, g.p, st) && (st.Acquire? ==> g.running) && (st.Put? || st.Take? ==> g.run)
    case Leave(t) => Is(g.p, t, Waiting) && !g.running
    case AddFails(t, _) => t < |g.p.threads| && g.p.threads[t].phase.Adding? && !g.run
    case GiveUp => g.p.consumer.Wanting? && !g.run
    case _ => true
  }

  // A decoder whose chunk was refused. md_decoder_done goes on regardless; otherwise the file ends here.
  function AfterFailure(th: Thread, finish: bool): Thread
    requires th.phase.Adding?
  {
    if th.phase.last then th.(phase := Clearing)
    else if finish then th.(phase := Decoding, rest := [])
    else th.(phase := Abandoned)
  }

  // The chunks that a step of the driver takes off the queue.
  function TakenBy(cfg: Config, p: State, step: Step): seq<Chunk>
    requires Enabled(cfg, p, step)
  {
    if step.Take? then Apply(cfg, p, step).consumer.pack else []
  }

  function Range(lo: int, hi: nat): (r: set<nat>)
    ensures forall i: nat :: i in r <==> lo <= i < hi
  {
    if hi == 0 || hi <= lo then {} else Range(lo, hi - 1) + {hi - 1}
  }

  // Where the queued chunks stand among all ever put.
  function Queued(p: State): set<nat> {
    Range(NumTaken(p), |p.put|)
  }

  function After(cfg: Config, g: Gated, step: GatedStep): Gated
    requires CanTake(cfg, g, step)
  {
    match step
    case Do(st) => g.(p := Apply(cfg, g.p, st), taken := g.taken + TakenBy(cfg, g.p, st))
    case StopEngine => g.(running := false)
    case StartEngine => g.(running := true)
    case SignalError => g.(run := false)
    case Flush => g.(p := g.p.(queue := []), run := false, flushed := g.flushed + Queued(g.p))
    case Resume => g.(run := true)
    case Leave(t) => g.(p := WithThread(g.p, t, g.p.threads[t].(phase := Exited)))
    case AddFails(t, finish) =>
      g.(p := WithThread(g.p, t, AfterFailure(g.p.threads[t], finish)), refused := g.refused + {t})
    case GiveUp => g.(p := g.p.(consumer := Idle))
  }

  predicate Reaches(cfg: Config, g: Gated, run: seq<GatedStep>, g': Gated)
    decreases run
  {
    if run == [] then g == g' else CanTake(cfg, g, run[0]) && Reaches(cfg, After(cfg, g, run[0]), run[1..], g')
  }

  // ---------------------------------------------------------------- files in one piece

  // Every file is one block.
  ghost predicate OneBlock(put: seq<Chunk>) {
    forall i, k, j :: 0 <= i < k < j < |put| && put[i].meta == put[j].meta ==> put[k].meta == put[j].meta
  }

  // It is numbered upwards, with no done mark but on its last chunk.
  ghost predicate Upwards(put: seq<Chunk>) {
    forall i, j :: 0 <= i < j < |put| && put[i].meta == put[j].meta ==> put[i].order < put[j].order && !IsDone(put[i].size)
  }

  // If none of its chunks was refused, it is numbered 0, 1, 2, ....
  ghost predicate Stepwise(put: seq<Chunk>, refused: set<nat>) {
    forall i, j :: 0 <= i < j < |put| && put[i].meta == put[j].meta && NotRefused(put[i], refused) ==>
      put[j].order - put[i].order == j - i
  }

  ghost predicate FromZero(put: seq<Chunk>, refused: set<nat>) {
    && (put != [] && NotRefused(put[0], refused) ==> put[0].order == 0)
    && forall i, j :: 0 <= i < |put| && j == i + 1 < |put| && put[i].meta != put[j].meta && NotRefused(put[j], refused) ==>
         put[j].order == 0
  }

  // And the next file starts only after its done mark.
  ghost predicate EndsDone(put: seq<Chunk>, refused: set<nat>) {
    forall i, j :: 0 <= i < |put| && j == i + 1 < |put| && put[i].meta != put[j].meta && NotRefused(put[i], refused) ==>
      IsDone(put[i].size)
  }

  ghost predicate Blocks(put: seq<Chunk>, refused: set<nat>) {
    OneBlock(put) && Upwards(put) && Stepwise(put, refused) && FromZero(put, refused) && EndsDone(put, refused)
  }

  predicate NotRefused(c: Chunk, refused: set<nat>) {
    c.meta.Some? && c.meta.value !in refused
  }

  // What thread t has added so far is at the end of the queue's history.
  ghost predicate AtTheEnd(put: seq<Chunk>, t: nat) {
    forall i, j :: 0 <= i < j < |put| && put[i].meta == Some(t) ==> put[j].meta == Some(t)
  }

  // It may add a chunk with number n.
  ghost predicate MayAdd(put: seq<Chunk>, refused: set<nat>, t: nat, n: int) {
    && AtTheEnd(put, t)
    && (forall i :: 0 <= i < |put| && put[i].meta == Some(t) ==> put[i].order < n && !IsDone(put[i].size))
    && n >= 0
    && (t !in refused ==> n == if put != [] && put[|put| - 1].meta == Some(t) then put[|put| - 1].order + 1 else 0)
  }

  lemma OneBlockGrows(put: seq<Chunk>, t: nat, c: Chunk)
    requires OneBlock(put) && AtTheEnd(put, t) && c.meta == Some(t)
    ensures OneBlock(put + [c])
  {
    var all := put + [c];
    forall i, k, j | 0 <= i < k < j < |all| && all[i].meta == all[j].meta
      ensures all[k].meta == all[j].meta
    {
      if j < |put| {
        assert put[i].meta == put[j].meta;
        assert put[k].meta == put[j].meta;
      } else {
        assert put[i].meta == Some(t);
        assert put[k].meta == Some(t);
      }
    }
  }

  lemma UpwardsGrows(put: seq<Chunk>, refused: set<nat>, t: nat, c: Chunk)
    requires Upwards(put) && MayAdd(put, refused, t, c.order) && c.meta == Some(t)
    ensures Upwards(put + [c])
  {
  }

  lemma StepwiseGrows(put: seq<Chunk>, refused: set<nat>, t: nat, c: Chunk)
    requires Stepwise(put, refused) && MayAdd(put, refused, t, c.order) && c.meta == Some(t)
    ensures Stepwise(put + [c], refused)
  {
    var all, n := put + [c], |put|;
    forall i, j | 0 <= i < j < |all| && all[i].meta == all[j].meta && NotRefused(all[i], refused)
      ensures all[j].order - all[i].order == j - i
    {
      if j < n {
        assert put[j].order - put[i].order == j - i;
      } else if i < n - 1 {
        assert put[n - 1].meta == Some(t);
        assert put[n - 1].order - put[i].order == n - 1 - i;
      }
    }
  }

  lemma FromZeroGrows(put: seq<Chunk>, refused: set<nat>, t: nat, c: Chunk)
    requires FromZero(put, refused) && MayAdd(put, refused, t, c.order) && c.meta == Some(t)
    ensures FromZero(put + [c], refused)
  {
  }

  lemma EndsDoneGrows(put: seq<Chunk>, refused: set<nat>, c: Chunk)
    requires EndsDone(put, refused)
    requires put != [] && put[|put| - 1].meta != c.meta && NotRefused(put[|put| - 1], refused) ==> IsDone(put[|put| - 1].size)
    ensures EndsDone(put + [c], refused)
  {
  }

  lemma BlocksGrow(put: seq<Chunk>, refused: set<nat>, t: nat, c: Chunk)
    requires Blocks(put, refused) && MayAdd(put, refused, t, c.order) && c.meta == Some(t)
    requires put != [] && put[|put| - 1].meta != c.meta && NotRefused(put[|put| - 1], refused) ==> IsDone(put[|put| - 1].size)
    ensures Blocks(put + [c], refused)
  {
    EndsDoneGrows(put, refused, c);
    OneBlockGrows(put, t, c);
    UpwardsGrows(put, refused, t, c);
    StepwiseGrows(put, refused, t, c);
    FromZeroGrows(put, refused, t, c);
  }

  lemma MayAddNext(put: seq<Chunk>, refused: set<nat>, t: nat, c: Chunk)
    requires MayAdd(put, refused, t, c.order) && c.meta == Some(t) && !IsDone(c.size)
    ensures MayAdd(put + [c], refused, t, c.order + 1)
  {
  }

  lemma BlocksWithRefusal(put: seq<Chunk>, refused: set<nat>, t: nat)
    requires Blocks(put, refused)
    ensures Blocks(put, refused + {t})
  {
  }

  // ---------------------------------------------------------------- the invariant

  // What the current decoder may still add.
  ghost predicate CurrentOk(put: seq<Chunk>, refused: set<nat>, t: nat, th: Thread) {
    match th.phase
    case Decoding => th.meta.id == t && MayAdd(put, refused, t, if th.chunk.Some? then th.chunk.value.order else 0)
    case Adding(c, last) =>
      && th.meta.id == t && c.meta == Some(t) && (IsDone(c.size) <==> last) && MayAdd(put, refused, t, c.order)
      && (!last ==> th.chunk.Some? && th.chunk.value.order == c.order + 1)
    case _ => true
  }

  ghost predicate OwnOk(t: nat, th: Thread, curr: Option<nat>) {
    (Active(th.phase) <==> curr == Some(t)) && (NotYet(th.phase) ==> th.chunk == None)
  }

  ghost predicate ThreadsOk(threads: seq<Thread>, curr: Option<nat>) {
    && (curr.Some? ==> curr.value < |threads|)
    && forall t: nat :: t < |threads| ==> OwnOk(t, threads[t], curr)
  }

  predicate Begun(threads: seq<Thread>, t: nat) {
    t < |threads| && !NotYet(threads[t].phase)
  }

  // Chunks and refusals are those of threads that have been let through.
  ghost predicate OwnersOk(threads: seq<Thread>, put: seq<Chunk>, refused: set<nat>) {
    && (forall i :: 0 <= i < |put| ==> put[i].meta.Some? && Begun(threads, put[i].meta.value))
    && (forall t <- refused :: Begun(threads, t))
  }

  predicate StillAdding(phase: Phase) {
    phase.Decoding? || phase.Adding? || phase.Abandoned?
  }

  // The last chunk is done-marked, unless its file is not finished or had a chunk refused.
  ghost predicate LastOk(threads: seq<Thread>, curr: Option<nat>, put: seq<Chunk>, refused: set<nat>)
    requires curr.Some? ==> curr.value < |threads|
  {
    put != [] && NotRefused(put[|put| - 1], refused)
    && !(curr.Some? && put[|put| - 1].meta == curr && StillAdding(threads[curr.value].phase))
    ==> IsDone(put[|put| - 1].size)
  }

  ghost predicate GatedInv(cfg: Config, g: Gated) {
    && ThreadsOk(g.p.threads, g.p.curr)
    && OwnersOk(g.p.threads, g.p.put, g.refused)
    && Blocks(g.p.put, g.refused)
    && LastOk(g.p.threads, g.p.curr, g.p.put, g.refused)
    && (g.p.curr.Some? ==> CurrentOk(g.p.put, g.refused, g.p.curr.value, g.p.threads[g.p.curr.value]))
  }

  lemma InitOk(cfg: Config)
    ensures GatedInv(cfg, Init(cfg))
  {
  }

  // A step of the current decoder that adds nothing.
  lemma CurrentMoves(cfg: Config, g: Gated, g': Gated, t: nat)
    requires GatedInv(cfg, g) && g.p.curr == Some(t)
    requires g'.p.curr == g.p.curr && g'.p.put == g.p.put && g'.refused == g.refused
    requires |g'.p.threads| == |g.p.threads| && g'.p.threads == g.p.threads[t := g'.p.threads[t]]
    requires StillAdding(g.p.threads[t].phase) && StillAdding(g'.p.threads[t].phase)
    requires CurrentOk(g.p.put, g.refused, t, g'.p.threads[t])
    ensures GatedInv(cfg, g')
  {
    OwnersStay(g.p.threads, g.p.put, g.refused, t, g'.p.threads[t]);
  }

  // The chunk numbers that md_add_decoded_byte leaves behind.
  lemma FeedOrders(th: Thread, oldMeta: Option<nat>, bufSize: nat)
    requires th.rest != []
    ensures var r := Feed(th.chunk, th.meta, oldMeta, th.rest[0], bufSize);
            var n := if th.chunk.Some? then th.chunk.value.order else 0;
            && r.chunk.Some?
            && (r.out.Some? ==> r.out.value.meta == Some(th.meta.id) && r.out.value.order == n
                                && !IsDone(r.out.value.size) && r.chunk.value.order == n + 1)
            && (r.out.None? && !r.failed ==> r.chunk.value.order == n)
  {
    if th.chunk.Some? {
      PadIsNextMultiple(th.chunk.value.data);
    }
  }

  // Only the thread that holds the engine is past the wait.
  lemma IsCurrent(cfg: Config, g: Gated, t: nat)
    requires GatedInv(cfg, g) && t < |g.p.threads| && Active(g.p.threads[t].phase)
    ensures g.p.curr == Some(t) && CurrentOk(g.p.put, g.refused, t, g.p.threads[t])
  {
    assert OwnOk(t, g.p.threads[t], g.p.curr);
  }

  lemma FeedOk(cfg: Config, g: Gated, t: nat)
    requires GatedInv(cfg, g) && CanTake(cfg, g, Do(FeedByte(t)))
    ensures GatedInv(cfg, After(cfg, g, Do(FeedByte(t))))
  {
    IsCurrent(cfg, g, t);
    FeedOrders(g.p.threads[t], g.p.oldMeta, cfg.bufSize);
    CurrentMoves(cfg, g, After(cfg, g, Do(FeedByte(t))), t);
  }

  // And md_decoder_done.
  lemma FinishOrders(chunk: Chunk, meta: Meta, bufSize: nat)
    ensures var r := Finish(chunk, meta, bufSize);
            r.Some? ==> r.value.meta == Some(meta.id) && r.value.order == chunk.order && IsDone(r.value.size)
  {
    PadIsNextMultiple(chunk.data);
  }

  lemma DoneOk(cfg: Config, g: Gated, t: nat)
    requires GatedInv(cfg, g) && CanTake(cfg, g, Do(Done(t)))
    ensures GatedInv(cfg, After(cfg, g, Do(Done(t))))
  {
    IsCurrent(cfg, g, t);
    var th := g.p.threads[t];
    if th.chunk.Some? {
      FinishOrders(th.chunk.value, th.meta, cfg.bufSize);
    }
    CurrentMoves(cfg, g, After(cfg, g, Do(Done(t))), t);
  }

  // One thread changes its phase and stays past the wait, or leaves it.
  lemma OwnersStay(threads: seq<Thread>, put: seq<Chunk>, refused: set<nat>, t: nat, th: Thread)
    requires OwnersOk(threads, put, refused) && t < |threads| && !NotYet(th.phase)
    ensures OwnersOk(threads[t := th], put, refused)
  {
  }

  // The blocks with the chunk that the current decoder adds.
  lemma PutBlocks(threads: seq<Thread>, put: seq<Chunk>, refused: set<nat>, t: nat, c: Chunk)
    requires t < |threads| && threads[t].phase.Adding? && c.meta == Some(t)
    requires Blocks(put, refused) && MayAdd(put, refused, t, c.order) && LastOk(threads, Some(t), put, refused)
    ensures Blocks(put + [c], refused)
  {
    BlocksGrow(put, refused, t, c);
  }

  // The current decoder afterwards.
  lemma PutCurrent(put: seq<Chunk>, refused: set<nat>, t: nat, th: Thread)
    requires th.phase.Adding? && CurrentOk(put, refused, t, th)
    ensures CurrentOk(put + [th.phase.chunk], refused, t, AfterPutThread(th))
    ensures th.phase.last ==> IsDone(th.phase.chunk.size)
  {
    if !th.phase.last {
      MayAddNext(put, refused, t, th.phase.chunk);
    }
  }

  lemma PutOk(cfg: Config, g: Gated, t: nat)
    requires GatedInv(cfg, g) && CanTake(cfg, g, Do(Put(t)))
    ensures GatedInv(cfg, After(cfg, g, Do(Put(t))))
  {
    IsCurrent(cfg, g, t);
    var th := g.p.threads[t];
    PutBlocks(g.p.threads, g.p.put, g.refused, t, th.phase.chunk);
    OwnersStay(g.p.threads, g.p.put, g.refused, t, AfterPutThread(th));
    PutCurrent(g.p.put, g.refused, t, th);
  }

  lemma NothingYet(cfg: Config, g: Gated, t: nat)
    requires GatedInv(cfg, g) && t < |g.p.threads| && NotYet(g.p.threads[t].phase)
    ensures t !in g.refused && MayAdd(g.p.put, g.refused, t, 0) && g.p.threads[t].chunk == None
  {
    assert OwnOk(t, g.p.threads[t], g.p.curr);
    assert forall i :: 0 <= i < |g.p.put| ==> g.p.put[i].meta != Some(t);
  }

  lemma AcquireOk(cfg: Config, g: Gated, t: nat, addr: nat)
    requires GatedInv(cfg, g) && CanTake(cfg, g, Do(Acquire(t, addr)))
    ensures GatedInv(cfg, After(cfg, g, Do(Acquire(t, addr))))
  {
    NothingYet(cfg, g, t);
    OwnersStay(g.p.threads, g.p.put, g.refused, t, After(cfg, g, Do(Acquire(t, addr))).p.threads[t]);
  }

  lemma ReleaseOk(cfg: Config, g: Gated, t: nat)
    requires GatedInv(cfg, g) && CanTake(cfg, g, Do(Release(t)))
    ensures GatedInv(cfg, After(cfg, g, Do(Release(t))))
  {
    IsCurrent(cfg, g, t);
    OwnersStay(g.p.threads, g.p.put, g.refused, t, g.p.threads[t].(phase := Exited));
  }

  lemma SpawnOk(cfg: Config, g: Gated, t: nat)
    requires GatedInv(cfg, g) && CanTake(cfg, g, Do(Spawn(t)))
    ensures GatedInv(cfg, After(cfg, g, Do(Spawn(t))))
  {
    assert OwnOk(t, g.p.threads[t], g.p.curr);
  }

  lemma LeaveOk(cfg: Config, g: Gated, t: nat)
    requires GatedInv(cfg, g) && CanTake(cfg, g, Leave(t))
    ensures GatedInv(cfg, After(cfg, g, Leave(t)))
  {
    assert OwnOk(t, g.p.threads[t], g.p.curr);
    OwnersStay(g.p.threads, g.p.put, g.refused, t, g.p.threads[t].(phase := Exited));
  }

  lemma FailOk(cfg: Config, g: Gated, t: nat, finish: bool)
    requires GatedInv(cfg, g) && CanTake(cfg, g, AddFails(t, finish))
    ensures GatedInv(cfg, After(cfg, g, AddFails(t, finish)))
  {
    IsCurrent(cfg, g, t);
    BlocksWithRefusal(g.p.put, g.refused, t);
    OwnersStay(g.p.threads, g.p.put, g.refused, t, AfterFailure(g.p.threads[t], finish));
  }

  // Steps of the driver and of the gates leave the decoders alone.
  lemma FrameOk(cfg: Config, g: Gated, g': Gated)
    requires GatedInv(cfg, g)
    requires g'.p.threads == g.p.threads && g'.p.curr == g.p.curr && g'.p.put == g.p.put && g'.refused == g.refused
    ensures GatedInv(cfg, g')
  {
  }

  lemma StepOk(cfg: Config, g: Gated, step: GatedStep)
    requires GatedInv(cfg, g) && CanTake(cfg, g, step)
    ensures GatedInv(cfg, After(cfg, g, step))
  {
    match step {
      case Do(FeedByte(t)) => FeedOk(cfg, g, t);
      case Do(Done(t)) => DoneOk(cfg, g, t);
      case Do(Put(t)) => PutOk(cfg, g, t);
      case Do(Acquire(t, addr)) => AcquireOk(cfg, g, t, addr);
      case Do(Release(t)) => ReleaseOk(cfg, g, t);
      case Do(Spawn(t)) => SpawnOk(cfg, g, t);
      case AddFails(t, finish) => FailOk(cfg, g, t, finish);
      case Leave(t) => LeaveOk(cfg, g, t);
      case _ => FrameOk(cfg, g, After(cfg, g, step));
    }
  }

  lemma {:induction false} RunOk(cfg: Config, g: Gated, run: seq<GatedStep>, g': Gated)
    requires GatedInv(cfg, g) && Reaches(cfg, g, run, g')
    ensures GatedInv(cfg, g')
    decreases run
  {
    if run != [] {
      StepOk(cfg, g, run[0]);
      RunOk(cfg, After(cfg, g, run[0]), run[1..], g');
    }
  }

  /** Contiguity through stops, failures, flushes and resumptions: in every state of every run, the chunks of
      each file, in the order in which they were queued, are one block, numbered upwards, with no done mark
      before the last of them; and a file none of whose chunks was refused is numbered 0, 1, 2, ..., and is
      done-marked before the next file starts. At most one decoder is past the wait, and it is the current
      one. */
  lemma ContiguousThroughStops(cfg: Config, run: seq<GatedStep>, g: Gated)
    requires Reaches(cfg, Init(cfg), run, g)
    ensures Blocks(g.p.put, g.refused)
    ensures forall t: nat :: t < |g.p.threads| ==> (Active(g.p.threads[t].phase) <==> g.p.curr == Some(t))
  {
    InitOk(cfg);
    RunOk(cfg, Init(cfg), run, g);
    forall t: nat | t < |g.p.threads|
      ensures Active(g.p.threads[t].phase) <==> g.p.curr == Some(t)
    {
      assert OwnOk(t, g.p.threads[t], g.p.curr);
    }
  }

  // ---------------------------------------------------------------- when chunks are refused

  // A signalled error or a flush has not been followed by a resumption.
  ghost predicate Failing(run: seq<GatedStep>) {
    exists i :: 0 <= i < |run| && (run[i] == SignalError || run[i] == Flush)
                && forall j :: i < j < |run| ==> run[j] != Resume
  }

  lemma FailingFirst(run: seq<GatedStep>)
    requires run != []
    ensures Failing(run) <==>
              Failing(run[1..]) || ((run[0] == SignalError || run[0] == Flush) && forall j :: 0 < j < |run| ==> run[j] != Resume)
  {
    var rest := run[1..];
    if Failing(run) {
      var i :| 0 <= i < |run| && (run[i] == SignalError || run[i] == Flush) && forall j :: i < j < |run| ==> run[j] != Resume;
      if i > 0 {
        assert rest[i - 1] == run[i];
        forall j | i - 1 < j < |rest| ensures rest[j] != Resume {
          assert rest[j] == run[j + 1];
        }
      }
    }
    if Failing(rest) {
      var i :| 0 <= i < |rest| && (rest[i] == SignalError || rest[i] == Flush) && forall j :: i < j < |rest| ==> rest[j] != Resume;
      assert run[i + 1] == rest[i];
      forall j | i + 1 < j < |run| ensures run[j] != Resume {
        assert run[j] == rest[j - 1];
      }
    }
  }

  ghost predicate Resumes(run: seq<GatedStep>) {
    exists i :: 0 <= i < |run| && run[i] == Resume
  }

  lemma ResumesFirst(run: seq<GatedStep>)
    requires run != []
    ensures Resumes(run) <==> run[0] == Resume || Resumes(run[1..])
  {
    if Resumes(run) && run[0] != Resume {
      var i :| 0 <= i < |run| && run[i] == Resume;
      assert run[1..][i - 1] == Resume;
    }
    if Resumes(run[1..]) {
      var i :| 0 <= i < |run[1..]| && run[1..][i] == Resume;
      assert run[i + 1] == Resume;
    }
  }

  lemma {:induction false} GateIs(cfg: Config, g: Gated, run: seq<GatedStep>, g': Gated)
    requires Reaches(cfg, g, run, g')
    ensures !g'.run <==> Failing(run) || (!g.run && !Resumes(run))
    decreases run
  {
    if run != [] {
      GateIs(cfg, After(cfg, g, run[0]), run[1..], g');
      FailingFirst(run);
      ResumesFirst(run);
      assert (forall j :: 0 < j < |run| ==> run[j] != Resume) <==> !Resumes(run[1..]) by {
        assert forall j :: 0 < j < |run| ==> run[j] == run[1..][j - 1];
      }
    }
  }

  /** When md_buf_add refuses a chunk, exactly: after a signalled error or a flush that has not been resumed.
      Stopping and starting the engine has no part in it. */
  lemma RefusedExactly(cfg: Config, run: seq<GatedStep>, g: Gated, t: nat, finish: bool)
    requires Reaches(cfg, Init(cfg), run, g) && t < |g.p.threads| && g.p.threads[t].phase.Adding?
    ensures CanTake(cfg, g, AddFails(t, finish)) <==> Failing(run)
  {
    GateIs(cfg, Init(cfg), run, g);
  }
}
