/** Progress of the pipeline: every step decreases a measure, and a state with no enabled step has
    delivered everything if and only if every file gets through md_decoder_done. */
module PipelineProgress {
  import opened Types
  import opened Chunks
  import opened Chunking
  import opened BufList
  import opened Pipeline
  import opened PipelineInvariant
  import opened PipelineSafety
  import opened PipelineCallbacks

  // ---------------------------------------------------------------- every step decreases a measure

  // The work left in a thread: seven per unread byte, six for a chunk about to be queued (five once
  // queued, two once in a pack), and a constant per phase.
  function ThreadWork(th: Thread): nat {
    7 * |th.rest| +
    match th.phase
    case Unborn => 13
    case Waiting => 12
    case Decoding => 11
    case Adding(_, last) => if last then 8 else 17
    case Clearing => 1
    case Exited => 0
    case Abandoned => 0
  }

  function ThreadsWork(threads: seq<Thread>): nat {
    if threads == [] then 0 else ThreadsWork(threads[..|threads| - 1]) + ThreadWork(threads[|threads| - 1])
  }

  function ConsumerWork(c: Consumer): int {
    match c
    case Idle => 1
    case Wanting(_, _) => 0
    case Holding(pack, loaded, dropped) => 2 * |pack| - loaded - dropped + 1
  }

  function Work(s: State): int {
    ThreadsWork(s.threads) + 5 * |s.queue| + ConsumerWork(s.consumer)
  }

  lemma {:induction false} ThreadsWorkUpdate(threads: seq<Thread>, t: nat, th: Thread)
    requires t < |threads|
    ensures ThreadsWork(threads[t := th]) == ThreadsWork(threads) - ThreadWork(threads[t]) + ThreadWork(th)
  {
    var n := |threads| - 1;
    if t == n {
      assert threads[t := th][..n] == threads[..n];
    } else {
      ThreadsWorkUpdate(threads[..n], t, th);
      assert threads[t := th][..n] == threads[..n][t := th];
    }
  }

  lemma DecoderStepWorks(cfg: Config, s: State, step: Step)
    requires Enabled(cfg, s, step)
    requires !step.Want? && !step.Take? && !step.LoadNext? && !step.DropNext?
    ensures Work(Apply(cfg, s, step)) < Work(s)
  {
    var t := step.t;
    ThreadsWorkUpdate(s.threads, t, Apply(cfg, s, step).threads[t]);
  }

  lemma DriverStepWorks(cfg: Config, s: State, step: Step)
    requires QueueInv(cfg, s) && Enabled(cfg, s, step)
    requires step.Want? || step.Take? || step.LoadNext? || step.DropNext?
    ensures Work(Apply(cfg, s, step)) < Work(s)
  {
    if step.Take? {
      CutSize(Marks(s.queue), s.consumer.count, step.noMore);
    }
  }

  /** Every step of every run decreases the work left, which is never negative: no run goes on
      forever, whatever the schedule. */
  lemma StepsDecreaseWork(cfg: Config, s: State, step: Step)
    requires cfg.Valid() && Reachable(cfg, s) && Enabled(cfg, s, step)
    ensures 0 <= Work(Apply(cfg, s, step)) < Work(s)
  {
    ReachableInv(cfg, s);
    StepKeeps(cfg, s, step);
    if step.Want? || step.Take? || step.LoadNext? || step.DropNext? {
      DriverStepWorks(cfg, s, step);
    } else {
      DecoderStepWorks(cfg, s, step);
    }
    WorkNotNegative(cfg, Apply(cfg, s, step));
  }

  lemma WorkNotNegative(cfg: Config, s: State)
    requires QueueInv(cfg, s)
    ensures Work(s) >= 0
  {
  }

  /** Hence a bound on the length of every run. */
  lemma {:induction false} RunsAreBounded(cfg: Config, run: seq<Step>)
    requires cfg.Valid() && IsRun(cfg, run)
    ensures |run| + Work(After(cfg, run)) <= Work(Init(cfg))
    ensures 0 <= Work(After(cfg, run))
    decreases |run|
  {
    RunKeeps(cfg, run);
    WorkNotNegative(cfg, After(cfg, run));
    if run != [] {
      var before := run[..|run| - 1];
      RunsAreBounded(cfg, before);
      assert Reachable(cfg, After(cfg, before));
      StepsDecreaseWork(cfg, After(cfg, before), run[|run| - 1]);
    }
  }

  // ---------------------------------------------------------------- where runs end

  ghost predicate Stuck(cfg: Config, s: State) {
    forall step :: !Enabled(cfg, s, step)
  }

  // Every file has been handed over, decoded, delivered and cleaned up, and the engine is free.
  ghost predicate Complete(cfg: Config, s: State)
    requires cfg.Valid()
  {
    && (forall t: nat :: t < |cfg.files| ==> Is(s, t, Exited))
    && s.curr == None && s.queue == [] && !s.consumer.Holding?
    && s.delivered == PaddedFiles(cfg, s.handed)
    && (forall t: nat :: t < |cfg.files| <==> t in Ids(s.handed))
    && (forall t: nat :: t < |cfg.files| ==> About(s.trace, t) == Grammar(t, NumChunks(cfg, t), cfg.bufSize, Unseen(s.handed, t)))
  }

  ghost predicate AllDeliverable(cfg: Config)
    requires cfg.Valid()
  {
    forall t: nat :: t < |cfg.files| ==> Deliverable(|cfg.File(t)|, cfg.bufSize)
  }

  // The last chunk in the queue is done-marked when no decoder is current.
  lemma QueueEndsDone(cfg: Config, s: State)
    requires cfg.Valid() && Inv(cfg, s) && s.curr == None && s.queue != []
    ensures IsDone(s.queue[|s.queue| - 1].size)
  {
    FlattenBounded(cfg, s.handed);
    assert s.put == Flatten(cfg, s.handed);
    assert s.queue[|s.queue| - 1] == s.put[|s.put| - 1];
  }

  // The driver asks for exactly so many chunks at once that the queue cannot hold them, while the
  // current decoder waits for room.
  predicate Overcommitted(cfg: Config, s: State) {
    && s.consumer.Wanting? && s.consumer.mode == Exact && s.consumer.count > cfg.maxNum
    && |s.queue| >= cfg.maxNum && s.curr.Some?
  }

  // The driver always has something to do, or waits in md_buf_get_pack.
  lemma DriverWaits(cfg: Config, s: State)
    requires QueueInv(cfg, s)
    requires !Enabled(cfg, s, Want(1, Exact)) && !Enabled(cfg, s, LoadNext) && !Enabled(cfg, s, DropNext)
    requires !Enabled(cfg, s, Take({}))
    ensures s.consumer.Wanting? && PackBlocked(Marks(s.queue), s.consumer.count, s.consumer.mode, s.curr == None)
  {
  }

  // What it waits for then is a decoder, unless it has overcommitted.
  lemma DriverBlocked(cfg: Config, s: State)
    requires cfg.Valid() && Inv(cfg, s) && s.consumer.Wanting?
    requires PackBlocked(Marks(s.queue), s.consumer.count, s.consumer.mode, s.curr == None)
    ensures s.curr == None ==> s.queue == []
    ensures |s.queue| >= cfg.maxNum ==> Overcommitted(cfg, s)
  {
    if s.curr == None && s.queue != [] {
      QueueEndsDone(cfg, s);
    }
  }

  predicate NoneOf(cfg: Config, s: State, t: nat) {
    !Enabled(cfg, s, FeedByte(t)) && !Enabled(cfg, s, Done(t)) && !Enabled(cfg, s, Put(t)) && !Enabled(cfg, s, Release(t))
  }

  // What keeps the current decoder from taking a step.
  lemma CurrentBlocked(cfg: Config, s: State)
    requires cfg.Valid() && DecoderInv(cfg, s) && s.curr.Some? && NoneOf(cfg, s, s.curr.value)
    ensures if |s.queue| >= cfg.maxNum && s.threads[s.curr.value].phase.Adding? then Future(cfg, s) != []
            else Is(s, s.curr.value, Abandoned) && !Deliverable(|cfg.File(s.curr.value)|, cfg.bufSize)
  {
    var t := s.curr.value;
    assert PhaseOk(cfg, t, s.threads[t], true, t in Ids(s.handed));
  }

  lemma NoCurrentBlocked(cfg: Config, s: State)
    requires cfg.Valid() && HandedInv(cfg, s) && s.curr == None
    requires forall t: nat :: !Enabled(cfg, s, Spawn(t)) && !Enabled(cfg, s, Acquire(t, 0))
    ensures forall t: nat :: t < |cfg.files| ==> Is(s, t, Exited) && t in Ids(s.handed)
    ensures AllDeliverable(cfg)
  {
    forall t: nat | t < |cfg.files|
      ensures Is(s, t, Exited) && t in Ids(s.handed) && Deliverable(|cfg.File(t)|, cfg.bufSize)
    {
      assert !Enabled(cfg, s, Spawn(t)) && !Enabled(cfg, s, Acquire(t, 0));
      assert PhaseOk(cfg, t, s.threads[t], false, t in Ids(s.handed));
    }
  }

  lemma EverythingDelivered(cfg: Config, s: State)
    requires cfg.Valid() && Reachable(cfg, s) && s.curr == None && s.queue == [] && !s.consumer.Holding?
    ensures s.delivered == PaddedFiles(cfg, s.handed)
    ensures forall t: nat :: t in Ids(s.handed) ==>
              About(s.trace, t) == Grammar(t, NumChunks(cfg, t), cfg.bufSize, Unseen(s.handed, t))
  {
    ReachableInv(cfg, s);
    Conservation(cfg, s);
    assert FlatData(s.queue) == [];
    AllPut(cfg, s);
    forall t: nat | t in Ids(s.handed)
      ensures About(s.trace, t) == Grammar(t, NumChunks(cfg, t), cfg.bufSize, Unseen(s.handed, t))
    {
      OfFlatten(cfg, s.handed, t);
      CallbacksFollowGrammar(cfg, s, t);
    }
  }

  lemma AllPut(cfg: Config, s: State)
    requires cfg.Valid() && Inv(cfg, s) && s.curr == None && s.queue == [] && !s.consumer.Holding?
    ensures NumDropped(s) == |s.put| && s.put[..NumDropped(s)] == Flatten(cfg, s.handed) && Distinct(s.handed)
  {
    assert s.put[..|s.put|] == s.put;
  }

  lemma AllExited(cfg: Config, s: State)
    requires cfg.Valid() && Inv(cfg, s) && s.curr == None
    requires forall t: nat :: !Enabled(cfg, s, Spawn(t)) && !Enabled(cfg, s, Acquire(t, 0))
    ensures forall t: nat :: t < |cfg.files| <==> t in Ids(s.handed)
    ensures forall t: nat :: t < |cfg.files| ==> Is(s, t, Exited)
    ensures AllDeliverable(cfg)
  {
    NoCurrentBlocked(cfg, s);
  }

  // The parts of Complete that a stuck state without a current decoder has in any case.
  lemma StuckWithoutCurrent(cfg: Config, s: State)
    requires cfg.Valid() && Reachable(cfg, s) && Inv(cfg, s) && Stuck(cfg, s) && s.curr == None
    ensures Complete(cfg, s) && AllDeliverable(cfg)
  {
    DriverWaits(cfg, s);
    DriverBlocked(cfg, s);
    AllExited(cfg, s);
    EverythingDelivered(cfg, s);
  }

  /** Progress, with its exact condition, for requests of any size: in a reachable state where no step is
      enabled, everything has been delivered if and only if every file is deliverable, that is, not
      empty and not one byte short of a multiple of the buffer size, and the driver has not asked for
      exactly more chunks than the queue holds. */
  lemma StuckIsComplete(cfg: Config, s: State)
    requires cfg.Valid() && Reachable(cfg, s) && Stuck(cfg, s)
    ensures Complete(cfg, s) <==> AllDeliverable(cfg) && !Overcommitted(cfg, s)
  {
    ReachableInv(cfg, s);
    if s.curr.Some? {
      DriverWaits(cfg, s);
      DriverBlocked(cfg, s);
      assert NoneOf(cfg, s, s.curr.value);
      CurrentBlocked(cfg, s);
    } else {
      StuckWithoutCurrent(cfg, s);
    }
  }

  /** The same as progress proper: while something is missing, all files are deliverable and the driver
      has not overcommitted, some step is enabled. */
  lemma SomethingEnabled(cfg: Config, s: State) returns (step: Step)
    requires cfg.Valid() && Reachable(cfg, s) && AllDeliverable(cfg) && !Overcommitted(cfg, s) && !Complete(cfg, s)
    ensures Enabled(cfg, s, step)
  {
    if Stuck(cfg, s) {
      StuckIsComplete(cfg, s);
    }
    step :| Enabled(cfg, s, step);
  }
}
