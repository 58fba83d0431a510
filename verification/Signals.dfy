/** The pipeline with its condition variables: threads that find their guard false fall asleep and run
    again only when signalled (or spuriously). The queue has one condition shared by producer and
    driver, and pthread_cond_signal wakes at least one sleeper; the engine has another one. */
module Signals {
  import opened Types
  import opened Chunks
  import opened Chunking
  import opened BufList
  import opened Pipeline
  import opened PipelineInvariant
  import opened PipelineProgress
  import opened PipelineRequests

  // Who sleeps: the current decoder in md_buf_add, the driver in md_buf_get_pack, decoders in
  // md_decoder_wait.
  datatype Sleepy = Sleepy(p: State, producer: bool, driver: bool, waiters: set<nat>)

  // Which sleeper a signal on the queue's condition picks when both sleep.
  datatype Pick = PickProducer | PickDriver | PickBoth

  datatype SStep =
    | Do(step: Step, pick: Pick, woken: set<nat>)   // a step of the pipeline, with the signal it sends
    | ProducerSleeps(t: nat)
    | DriverSleeps
    | WaiterSleeps(t: nat)
    | SpuriousProducer
    | SpuriousDriver
    | SpuriousWaiter(t: nat)

  function Init(cfg: Config): Sleepy {
    Sleepy(Pipeline.Init(cfg), false, false, {})
  }

  predicate DriverMustWait(p: State) {
    p.consumer.Wanting? && PackBlocked(Marks(p.queue), p.consumer.count, p.consumer.mode, p.curr == None)
  }

  // A thread that sleeps takes no step; a signal to decoders wakes one sleeper at least.
  predicate Awake(s: Sleepy, step: Step) {
    && (step.Put? ==> !s.producer)
    && (step.Take? ==> !s.driver)
    && (step.Acquire? ==> step.t !in s.waiters)
  }

  predicate SEnabled(cfg: Config, s: Sleepy, step: SStep) {
    match step
    case Do(st, pick, woken) => Enabled(cfg, s.p, st) && Awake(s, st)
        && (st.Release? ==> woken <= s.waiters && (s.waiters != {} ==> woken != {}))
    case ProducerSleeps(t) => t < |s.p.threads| && s.p.threads[t].phase.Adding? && |s.p.queue| >= cfg.maxNum && !s.producer
    case DriverSleeps => DriverMustWait(s.p) && !s.driver
    case WaiterSleeps(t) => Is(s.p, t, Waiting) && s.p.curr.Some? && t !in s.waiters
    case SpuriousProducer => s.producer
    case SpuriousDriver => s.driver
    case SpuriousWaiter(t) => t in s.waiters
  }

  predicate Spurious(step: SStep) {
    step.SpuriousProducer? || step.SpuriousDriver? || step.SpuriousWaiter?
  }

  // pthread_cond_signal(&md_bufll.cond)
  function SignalQueue(s: Sleepy, pick: Pick): Sleepy {
    if s.producer && s.driver then
      s.(producer := pick == PickDriver, driver := pick == PickProducer)
    else
      s.(producer := false, driver := false)
  }

  /** What the signal can do: wake the one that sleeps, or either of two, or both; never neither. */
  lemma SignalExactly(s: Sleepy, producer: bool, driver: bool)
    ensures (exists pick :: SignalQueue(s, pick) == s.(producer := producer, driver := driver))
            <==> (producer ==> s.producer) && (driver ==> s.driver)
                 && (s.producer || s.driver ==> (s.producer && !producer) || (s.driver && !driver))
  {
    assert SignalQueue(s, PickProducer) == s.(producer := false, driver := s.producer && s.driver);
    assert SignalQueue(s, PickDriver) == s.(producer := s.producer && s.driver, driver := false);
    assert SignalQueue(s, PickBoth) == s.(producer := false, driver := false);
  }

  function SApply(cfg: Config, s: Sleepy, step: SStep): Sleepy
    requires SEnabled(cfg, s, step)
  {
    match step
    case Do(st, pick, woken) =>
      var s' := s.(p := Apply(cfg, s.p, st));
      if st.Put? || st.Take? then SignalQueue(s', pick)
      else if st.Release? then s'.(waiters := s.waiters - woken)
      else s'
    case ProducerSleeps(t) => s.(producer := true)
    case DriverSleeps => s.(driver := true)
    case WaiterSleeps(t) => s.(waiters := s.waiters + {t})
    case SpuriousProducer => s.(producer := false)
    case SpuriousDriver => s.(driver := false)
    case SpuriousWaiter(t) => s.(waiters := s.waiters - {t})
  }

  predicate IsSRun(cfg: Config, run: seq<SStep>)
    decreases |run|, 0
  {
    run == [] || (IsSRun(cfg, run[..|run| - 1]) && SEnabled(cfg, SAfter(cfg, run[..|run| - 1]), run[|run| - 1]))
  }

  function SAfter(cfg: Config, run: seq<SStep>): Sleepy
    requires IsSRun(cfg, run)
    decreases |run|, 1
  {
    if run == [] then Init(cfg) else SApply(cfg, SAfter(cfg, run[..|run| - 1]), run[|run| - 1])
  }

  ghost predicate SReachable(cfg: Config, s: Sleepy) {
    exists run :: IsSRun(cfg, run) && SAfter(cfg, run) == s
  }

  // ---------------------------------------------------------------- invariants

  // The part of the driver's guard that does not depend on the decoders.
  predicate TooFew(p: State) {
    p.consumer.Wanting? && match p.consumer.mode
                           case Exact => |p.queue| < p.consumer.count
                           case Any => p.queue == []
  }

  // The current decoder has a chunk to add and finds the queue full.
  predicate NoRoom(cfg: Config, p: State) {
    && |p.queue| >= cfg.maxNum
    && p.curr.Some? && p.curr.value < |p.threads| && p.threads[p.curr.value].phase.Adding?
  }

  ghost predicate SleepInv(cfg: Config, s: Sleepy) {
    && (s.producer ==> NoRoom(cfg, s.p))
    && (s.driver ==> TooFew(s.p))
    && (s.p.consumer.Wanting? ==> 1 <= s.p.consumer.count)
    && (forall t <- s.waiters :: Is(s.p, t, Waiting))
    && (s.p.curr == None && s.waiters != {} ==> exists t :: Is(s.p, t, Waiting) && t !in s.waiters)
  }

  // What a step does to the quantities that guards depend on.
  lemma StepEffects(cfg: Config, p: State, step: Step)
    requires Enabled(cfg, p, step)
    ensures var p' := Apply(cfg, p, step);
            && (!step.Put? && !step.Take? ==> p'.queue == p.queue)
            && (step.Put? ==> |p'.queue| == |p.queue| + 1)
            && (p'.consumer == p.consumer || step.Want? || step.Take? || p.consumer.Holding?)
            && (step.Want? ==> p.consumer == Idle && p'.consumer == Wanting(step.count, step.mode))
            && (step.Take? ==> p'.consumer.Holding?)
            && (p.consumer.Holding? ==> !p'.consumer.Wanting?)
  {
  }

  lemma ThreadEffects(cfg: Config, p: State, step: Step, t: nat)
    requires Enabled(cfg, p, step)
    ensures var p' := Apply(cfg, p, step);
            && (Is(p, t, Waiting) && !(step.Acquire? && step.t == t) ==> Is(p', t, Waiting))
            && (p'.curr == None ==> p.curr == None || step.Release?)
            && (step.Acquire? ==> p'.curr.Some?)
  {
  }

  // The decoder that found the queue full takes no step while it sleeps.
  lemma NoRoomStays(cfg: Config, p: State, step: Step)
    requires cfg.Valid() && HandedInv(cfg, p) && Enabled(cfg, p, step) && NoRoom(cfg, p)
    requires !step.Put? && !step.Take?
    ensures NoRoom(cfg, Apply(cfg, p, step))
  {
  }

  lemma DoKeepsSleep(cfg: Config, s: Sleepy, step: SStep)
    requires cfg.Valid() && Inv(cfg, s.p) && SleepInv(cfg, s) && SEnabled(cfg, s, step) && step.Do?
    ensures var s' := SApply(cfg, s, step);
            && (s'.producer ==> NoRoom(cfg, s'.p))
            && (s'.driver ==> TooFew(s'.p))
            && (s'.p.consumer.Wanting? ==> 1 <= s'.p.consumer.count)
  {
    StepEffects(cfg, s.p, step.step);
    if s.producer && !step.step.Put? && !step.step.Take? {
      NoRoomStays(cfg, s.p, step.step);
    }
  }

  lemma DoKeepsWaiters(cfg: Config, s: Sleepy, step: SStep)
    requires cfg.Valid() && SleepInv(cfg, s) && SEnabled(cfg, s, step) && step.Do?
    ensures var s' := SApply(cfg, s, step);
            && (forall t <- s'.waiters :: Is(s'.p, t, Waiting))
            && (s'.p.curr == None && s'.waiters != {} ==> exists t :: Is(s'.p, t, Waiting) && t !in s'.waiters)
  {
    var s' := SApply(cfg, s, step);
    forall t | t in s'.waiters
      ensures Is(s'.p, t, Waiting)
    {
      ThreadEffects(cfg, s.p, step.step, t);
    }
    if s'.p.curr == None && s'.waiters != {} {
      var t;
      if step.step.Release? {
        t :| t in step.woken;
      } else {
        ThreadEffects(cfg, s.p, step.step, 0);
        t :| Is(s.p, t, Waiting) && t !in s.waiters;
      }
      ThreadEffects(cfg, s.p, step.step, t);
      assert Is(s'.p, t, Waiting) && t !in s'.waiters;
    }
  }

  lemma StepKeepsSleep(cfg: Config, s: Sleepy, step: SStep)
    requires cfg.Valid() && Inv(cfg, s.p) && SleepInv(cfg, s) && SEnabled(cfg, s, step)
    ensures Inv(cfg, SApply(cfg, s, step).p) && SleepInv(cfg, SApply(cfg, s, step))
  {
    if step.Do? {
      StepKeeps(cfg, s.p, step.step);
      DoKeepsSleep(cfg, s, step);
      DoKeepsWaiters(cfg, s, step);
    } else {
      SleepingKeeps(cfg, s, step);
    }
  }

  // Falling asleep and spurious wakeups.
  lemma SleepingKeeps(cfg: Config, s: Sleepy, step: SStep)
    requires cfg.Valid() && HandedInv(cfg, s.p) && SleepInv(cfg, s) && SEnabled(cfg, s, step) && !step.Do?
    ensures SApply(cfg, s, step).p == s.p && SleepInv(cfg, SApply(cfg, s, step))
  {
    if step.SpuriousWaiter? {
      assert Is(s.p, step.t, Waiting) && step.t !in SApply(cfg, s, step).waiters;
    }
  }

  // The pipeline steps of a run with sleeping are a run of the pipeline.
  lemma {:induction false} SRunIsRun(cfg: Config, run: seq<SStep>)
    requires cfg.Valid() && IsSRun(cfg, run)
    ensures Reachable(cfg, SAfter(cfg, run).p)
    ensures SleepInv(cfg, SAfter(cfg, run))
    decreases |run|
  {
    if run == [] {
      assert IsRun(cfg, []) && After(cfg, []) == Pipeline.Init(cfg);
    } else {
      var before, step := run[..|run| - 1], run[|run| - 1];
      SRunIsRun(cfg, before);
      var s := SAfter(cfg, before);
      ReachableInv(cfg, s.p);
      StepKeepsSleep(cfg, s, step);
      if step.Do? {
        StepReaches(cfg, s.p, step.step);
      }
    }
  }

  lemma SReachableInv(cfg: Config, s: Sleepy)
    requires cfg.Valid() && SReachable(cfg, s)
    ensures Reachable(cfg, s.p) && Inv(cfg, s.p) && SleepInv(cfg, s)
  {
    var run :| IsSRun(cfg, run) && SAfter(cfg, run) == s;
    SRunIsRun(cfg, run);
    ReachableInv(cfg, s.p);
  }

  lemma SStepReaches(cfg: Config, s: Sleepy, step: SStep)
    requires SReachable(cfg, s) && SEnabled(cfg, s, step)
    ensures SReachable(cfg, SApply(cfg, s, step))
  {
    var run :| IsSRun(cfg, run) && SAfter(cfg, run) == s;
    var longer := run + [step];
    assert longer[..|longer| - 1] == run;
    assert IsSRun(cfg, longer) && SAfter(cfg, longer) == SApply(cfg, s, step);
  }

  function Plain(step: Step): SStep {
    Do(step, PickBoth, {})
  }

  /** One shared condition suffices between the two sides: a sleeping producer means a full queue, a
      sleeping driver too few chunks for its request. The two sleep at the same time only if the driver
      has overcommitted. */
  lemma NeverBothAsleep(cfg: Config, s: Sleepy)
    requires cfg.Valid() && SReachable(cfg, s)
    ensures s.producer ==> NoRoom(cfg, s.p)
    ensures s.driver ==> TooFew(s.p)
    ensures s.producer && s.driver ==> Overcommitted(cfg, s.p)
  {
    SReachableInv(cfg, s);
  }

  lemma {:induction false} RunAwake(cfg: Config, run: seq<Step>)
    requires IsRun(cfg, run)
    ensures SReachable(cfg, Sleepy(After(cfg, run), false, false, {}))
    decreases |run|
  {
    if run == [] {
      assert IsSRun(cfg, []) && SAfter(cfg, []) == Init(cfg);
    } else {
      var before, step := run[..|run| - 1], run[|run| - 1];
      RunAwake(cfg, before);
      SStepReaches(cfg, Sleepy(After(cfg, before), false, false, {}), Plain(step));
    }
  }

  /** And then they do: a state of the pipeline can be met with both sides asleep if and only if the driver
      has overcommitted in it while the current decoder has a chunk to add. */
  lemma BothAsleepExactly(cfg: Config, p: State)
    requires cfg.Valid() && Reachable(cfg, p)
    ensures (exists s :: SReachable(cfg, s) && s.p == p && s.producer && s.driver)
            <==> Overcommitted(cfg, p) && NoRoom(cfg, p)
  {
    ReachableInv(cfg, p);
    if Overcommitted(cfg, p) && NoRoom(cfg, p) {
      var run :| IsRun(cfg, run) && After(cfg, run) == p;
      RunAwake(cfg, run);
      var s := Sleepy(p, false, false, {});
      SStepReaches(cfg, s, ProducerSleeps(p.curr.value));
      SStepReaches(cfg, s.(producer := true), DriverSleeps);
      assert SReachable(cfg, s.(producer := true, driver := true));
    } else {
      forall s | SReachable(cfg, s) && s.p == p
        ensures !(s.producer && s.driver)
      {
        NeverBothAsleep(cfg, s);
      }
    }
  }

  // Decoders of this set go to sleep one after the other.
  lemma {:induction false} WaitersSleep(cfg: Config, s: Sleepy, waiters: set<nat>)
    requires SReachable(cfg, s) && s.p.curr.Some? && s.waiters == {} && forall t <- waiters :: Is(s.p, t, Waiting)
    ensures SReachable(cfg, s.(waiters := waiters))
    decreases waiters
  {
    if waiters == {} {
      assert s.(waiters := {}) == s;
    } else {
      var t :| t in waiters;
      WaitersSleep(cfg, s, waiters - {t});
      var before := s.(waiters := waiters - {t});
      SStepReaches(cfg, before, WaiterSleeps(t));
      assert (waiters - {t}) + {t} == waiters;
      assert SApply(cfg, before, WaiterSleeps(t)) == s.(waiters := waiters);
    }
  }

  lemma TheySleep(cfg: Config, s: Sleepy, producer: bool, driver: bool)
    requires SReachable(cfg, s) && !s.producer && !s.driver
    requires (producer ==> NoRoom(cfg, s.p)) && (driver ==> DriverMustWait(s.p))
    ensures SReachable(cfg, s.(producer := producer, driver := driver))
  {
    var s1 := s.(producer := producer);
    if producer {
      SStepReaches(cfg, s, ProducerSleeps(s.p.curr.value));
    } else {
      assert s1 == s;
    }
    if driver {
      SStepReaches(cfg, s1, DriverSleeps);
    } else {
      assert s1.(driver := false) == s1;
    }
  }

  /** Who can be met asleep, exactly, beside a current decoder: any set of those whose guards make them wait. */
  lemma SleepersExactly(cfg: Config, p: State, producer: bool, driver: bool, waiters: set<nat>)
    requires cfg.Valid() && Reachable(cfg, p) && p.curr.Some?
    ensures SReachable(cfg, Sleepy(p, producer, driver, waiters))
            <==> (producer ==> NoRoom(cfg, p)) && (driver ==> DriverMustWait(p)) && (forall t <- waiters :: Is(p, t, Waiting))
  {
    var s := Sleepy(p, producer, driver, waiters);
    if SReachable(cfg, s) {
      SReachableInv(cfg, s);
    }
    if (producer ==> NoRoom(cfg, p)) && (driver ==> DriverMustWait(p)) && (forall t <- waiters :: Is(p, t, Waiting)) {
      var run :| IsRun(cfg, run) && After(cfg, run) == p;
      RunAwake(cfg, run);
      TheySleep(cfg, Sleepy(p, false, false, {}), producer, driver);
      WaitersSleep(cfg, Sleepy(p, producer, driver, {}), waiters);
    }
  }

  // ---------------------------------------------------------------- the wakeup that is missing

  // The driver sleeps although its guard would let it through.
  predicate Stranded(s: Sleepy) {
    s.driver && !DriverMustWait(s.p)
  }

  ghost predicate SStuck(cfg: Config, s: Sleepy) {
    forall step :: SEnabled(cfg, s, step) ==> Spurious(step)
  }

  // Nothing but a spurious wakeup can happen, unless another thread is started.
  ghost predicate Quiescent(cfg: Config, s: Sleepy) {
    forall step :: SEnabled(cfg, s, step) ==> Spurious(step) || (step.Do? && step.step.Spawn?)
  }

  // A sleeping driver keeps a true guard through every step but the clearing of curr_decoder.
  lemma OthersDoNotStrand(cfg: Config, s: Sleepy, step: SStep)
    requires cfg.Valid() && SleepInv(cfg, s) && SEnabled(cfg, s, step) && !Stranded(s)
    requires !(step.Do? && step.step.Release?)
    ensures !Stranded(SApply(cfg, s, step))
  {
    if step.Do? {
      StepEffects(cfg, s.p, step.step);
      if s.driver {
        ThreadEffects(cfg, s.p, step.step, 0);
      }
    }
  }

  lemma ReleaseEffects(cfg: Config, p: State, t: nat)
    requires Enabled(cfg, p, Release(t))
    ensures var p' := Apply(cfg, p, Release(t));
            p'.queue == p.queue && p'.consumer == p.consumer && p'.curr == None
  {
  }

  lemma ReleaseLeavesDone(cfg: Config, p: State, t: nat)
    requires cfg.Valid() && Inv(cfg, p) && Enabled(cfg, p, Release(t)) && p.queue != []
    ensures IsDone(p.queue[|p.queue| - 1].size)
  {
    StepKeeps(cfg, p, Release(t));
    ReleaseEffects(cfg, p, t);
    QueueEndsDone(cfg, Apply(cfg, p, Release(t)));
  }

  // The guard of a driver that has too few chunks, once no decoder is current.
  lemma GuardWithoutCurrent(p: State, p': State)
    requires TooFew(p) && p.consumer.count >= 1 && p'.queue == p.queue && p'.consumer == p.consumer && p'.curr == None
    requires p.queue != [] ==> IsDone(p.queue[|p.queue| - 1].size)
    ensures DriverMustWait(p') <==> p.queue == []
  {
  }

  lemma ReleaseStrands(cfg: Config, s: Sleepy, step: SStep)
    requires SEnabled(cfg, s, step) && step.Do? && step.step.Release?
    requires s.driver ==> TooFew(s.p) && s.p.consumer.count >= 1
    requires s.p.queue != [] ==> IsDone(s.p.queue[|s.p.queue| - 1].size)
    ensures Stranded(SApply(cfg, s, step)) <==> s.driver && s.p.queue != []
  {
    ReleaseEffects(cfg, s.p, step.step.t);
    if s.driver {
      GuardWithoutCurrent(s.p, Apply(cfg, s.p, step.step));
    }
  }

  /** What strands the driver, exactly: md_decoder_done clearing curr_decoder, which does not signal the
      queue's condition, while the driver sleeps on a queue that is not empty. */
  lemma StrandedExactly(cfg: Config, s: Sleepy, step: SStep)
    requires cfg.Valid() && SReachable(cfg, s) && SEnabled(cfg, s, step) && !Stranded(s)
    ensures Stranded(SApply(cfg, s, step))
            <==> step.Do? && step.step.Release? && s.driver && s.p.queue != []
  {
    SReachableInv(cfg, s);
    if step.Do? && step.step.Release? {
      if s.p.queue != [] {
        ReleaseLeavesDone(cfg, s.p, step.step.t);
      }
      ReleaseStrands(cfg, s, step);
    } else {
      OthersDoNotStrand(cfg, s, step);
    }
  }

  // Then nobody can take over the engine.
  lemma NoAcquire(cfg: Config, s: Sleepy, step: Step)
    requires SleepInv(cfg, s) && Quiescent(cfg, s) && step.Acquire?
    ensures !Enabled(cfg, s.p, step)
  {
    if Enabled(cfg, s.p, step) {
      var t := step.t;
      if t in s.waiters {
        t :| Is(s.p, t, Waiting) && t !in s.waiters;
      }
      assert SEnabled(cfg, s, Do(Acquire(t, 0), PickBoth, s.waiters));
    }
  }

  // And a step of the pipeline is blocked by a sleeper only if the driver is stranded.
  lemma BlockedMeansStranded(cfg: Config, s: Sleepy, step: Step)
    requires cfg.Valid() && SleepInv(cfg, s) && Quiescent(cfg, s) && Enabled(cfg, s.p, step) && !step.Spawn?
    ensures Stranded(s)
  {
    assert !SEnabled(cfg, s, Do(step, PickBoth, s.waiters));
    if step.Acquire? {
      NoAcquire(cfg, s, step);
    }
  }

  /** What ends it, exactly: another decoder taking over the engine, after which the driver rightly
      sleeps and is woken by that decoder's chunks, or a spurious wakeup. */
  lemma StrandedEndsExactly(cfg: Config, s: Sleepy, step: SStep)
    requires cfg.Valid() && SReachable(cfg, s) && SEnabled(cfg, s, step) && Stranded(s)
    ensures !Stranded(SApply(cfg, s, step)) <==> step.SpuriousDriver? || (step.Do? && step.step.Acquire?)
  {
    SReachableInv(cfg, s);
    if step.Do? {
      StepEffects(cfg, s.p, step.step);
      ThreadEffects(cfg, s.p, step.step, 0);
      NoCurrentNoPut(cfg, s.p, step.step);
    }
  }

  // Without a current decoder, no decoder takes a step but to enter the wait or to leave it.
  lemma NoCurrentNoPut(cfg: Config, p: State, step: Step)
    requires cfg.Valid() && HandedInv(cfg, p) && Enabled(cfg, p, step) && p.curr == None
    ensures !step.Put? && !step.Release? && !step.FeedByte? && !step.Done?
  {
  }

  /** A driver that asks for one chunk, or for any number, is never stranded. */
  lemma OneChunkNotStranded(cfg: Config, s: Sleepy)
    requires cfg.Valid() && SReachable(cfg, s)
    requires s.p.consumer.Wanting? && (s.p.consumer.mode == Any || s.p.consumer.count == 1)
    ensures !Stranded(s)
  {
    SReachableInv(cfg, s);
  }

  /** Progress at the level of signals, with its exact condition, for runs without a stop or a
      cancellation: when nothing but a spurious wakeup can happen and all files are deliverable,
      everything has been delivered if and only if the driver is neither stranded nor overcommitted. */
  lemma StuckIsCompleteOrStranded(cfg: Config, s: Sleepy)
    requires cfg.Valid() && SReachable(cfg, s) && SStuck(cfg, s) && AllDeliverable(cfg)
    ensures Complete(cfg, s.p) <==> !Stranded(s) && !Overcommitted(cfg, s.p)
  {
    SReachableInv(cfg, s);
    if !Complete(cfg, s.p) && !Overcommitted(cfg, s.p) {
      var step := SomethingEnabled(cfg, s.p);
      if step.Spawn? {
        assert SEnabled(cfg, s, Plain(step));
      }
      BlockedMeansStranded(cfg, s, step);
    }
  }

  // ---------------------------------------------------------------- runs end

  // How many could yet fall asleep.
  function NumAwake(s: Sleepy): int {
    (if s.producer then 0 else 1) + (if s.driver then 0 else 1) + |s.p.threads| - |s.waiters|
  }

  lemma {:induction false} BoundedSet(ts: set<nat>, n: nat)
    requires forall t <- ts :: t < n
    ensures |ts| <= n
    decreases n
  {
    if n == 0 {
      assert ts == {};
    } else {
      BoundedSet(ts - {n - 1}, n - 1);
      assert ts <= (ts - {n - 1}) + {n - 1};
      assert |ts| <= |(ts - {n - 1}) + {n - 1}|;
    }
  }

  lemma AwakeRange(cfg: Config, s: Sleepy)
    requires SleepInv(cfg, s)
    ensures 0 <= NumAwake(s) <= |s.p.threads| + 2
  {
    assert forall t <- s.waiters :: Is(s.p, t, Waiting);
    BoundedSet(s.waiters, |s.p.threads|);
  }

  lemma Ranges(cfg: Config, s: Sleepy)
    requires cfg.Valid() && SReachable(cfg, s)
    ensures 0 <= Work(s.p) && 0 <= NumAwake(s) <= |s.p.threads| + 2
  {
    SReachableInv(cfg, s);
    AwakeRange(cfg, s);
    WorkNotNegative(cfg, s.p);
  }

  lemma SameThreads(cfg: Config, p: State, step: Step)
    requires Enabled(cfg, p, step)
    ensures |Apply(cfg, p, step).threads| == |p.threads|
  {
  }

  lemma DoDecreases(cfg: Config, s: Sleepy, step: SStep)
    requires cfg.Valid() && Reachable(cfg, s.p) && SEnabled(cfg, s, step) && step.Do?
    ensures Work(SApply(cfg, s, step).p) < Work(s.p) && |SApply(cfg, s, step).p.threads| == |s.p.threads|
  {
    StepsDecreaseWork(cfg, s.p, step.step);
    SameThreads(cfg, s.p, step.step);
  }

  lemma SleepDecreases(cfg: Config, s: Sleepy, step: SStep)
    requires SEnabled(cfg, s, step) && !step.Do?
    ensures var s' := SApply(cfg, s, step);
            s'.p == s.p && NumAwake(s') == NumAwake(s) + if Spurious(step) then 1 else -1
  {
  }

  /** Every step that is not a spurious wakeup lowers the work left or, leaving it as it is, the number of
      those awake; a spurious wakeup adds one to that number. */
  lemma SStepsDecrease(cfg: Config, s: Sleepy, step: SStep)
    requires cfg.Valid() && SReachable(cfg, s) && SEnabled(cfg, s, step)
    ensures var s' := SApply(cfg, s, step);
            && |s'.p.threads| == |s.p.threads| && 0 <= Work(s'.p) && 0 <= NumAwake(s') <= |s.p.threads| + 2
            && (step.Do? ==> Work(s'.p) < Work(s.p))
            && (!step.Do? ==> s'.p == s.p && NumAwake(s') == NumAwake(s) + if Spurious(step) then 1 else -1)
  {
    SStepReaches(cfg, s, step);
    Ranges(cfg, SApply(cfg, s, step));
    if step.Do? {
      PipelineReaches(cfg, s);
      DoDecreases(cfg, s, step);
    } else {
      SleepDecreases(cfg, s, step);
    }
  }

  lemma PipelineReaches(cfg: Config, s: Sleepy)
    requires cfg.Valid() && SReachable(cfg, s)
    ensures Reachable(cfg, s.p)
  {
    SReachableInv(cfg, s);
  }

  function SWork(s: Sleepy): int {
    Work(s.p) * (|s.p.threads| + 3) + NumAwake(s)
  }

  function NumSpurious(run: seq<SStep>): nat {
    if run == [] then 0 else NumSpurious(run[..|run| - 1]) + if Spurious(run[|run| - 1]) then 1 else 0
  }

  lemma LexToSum(w: int, w': int, n: nat, a: int, a': int)
    requires w' < w && 0 <= a && a' <= n + 2
    ensures w' * (n + 3) + a' < w * (n + 3) + a
  {
    var d := w - w' - 1;
    assert w * (n + 3) == w' * (n + 3) + (n + 3) + d * (n + 3);
    assert d * (n + 3) >= 0;
  }

  lemma SWorkStep(cfg: Config, s: Sleepy, step: SStep)
    requires cfg.Valid() && SReachable(cfg, s) && SEnabled(cfg, s, step)
    ensures SWork(SApply(cfg, s, step)) <= SWork(s) + if Spurious(step) then 1 else -1
  {
    var s' := SApply(cfg, s, step);
    SStepsDecrease(cfg, s, step);
    if step.Do? {
      Ranges(cfg, s);
      LexToSum(Work(s.p), Work(s'.p), |s.p.threads|, NumAwake(s), NumAwake(s'));
    }
  }

  lemma MulNotNegative(w: int, n: nat)
    requires w >= 0
    ensures w * n >= 0
  {
  }

  lemma SWorkNotNegative(cfg: Config, s: Sleepy)
    requires cfg.Valid() && SReachable(cfg, s)
    ensures SWork(s) >= 0
  {
    Ranges(cfg, s);
    MulNotNegative(Work(s.p), |s.p.threads| + 3);
  }

  /** Hence a bound on every run, however threads sleep and wake: its steps that are not spurious wakeups are
      no more than a number that depends on the files alone, and the spurious wakeups themselves. */
  lemma {:induction false} SRunsAreBounded(cfg: Config, run: seq<SStep>)
    requires cfg.Valid() && IsSRun(cfg, run)
    ensures |run| - NumSpurious(run) <= SWork(Init(cfg)) + NumSpurious(run)
    ensures |run| - NumSpurious(run) + SWork(SAfter(cfg, run)) <= SWork(Init(cfg)) + NumSpurious(run)
    decreases |run|
  {
    assert SReachable(cfg, SAfter(cfg, run));
    SWorkNotNegative(cfg, SAfter(cfg, run));
    if run != [] {
      var before := run[..|run| - 1];
      SRunsAreBounded(cfg, before);
      assert SReachable(cfg, SAfter(cfg, before));
      SWorkStep(cfg, SAfter(cfg, before), run[|run| - 1]);
    }
  }

  // ---------------------------------------------------------------- which requests are safe

  ghost predicate SAsks(run: seq<SStep>, ok: Requests) {
    forall i :: 0 <= i < |run| && run[i].Do? && run[i].step.Want? ==> ok(run[i].step.count, run[i].step.mode)
  }

  ghost predicate SReachableAsking(cfg: Config, ok: Requests, s: Sleepy) {
    exists run :: IsSRun(cfg, run) && SAsks(run, ok) && SAfter(cfg, run) == s
  }

  lemma SAskingStep(cfg: Config, ok: Requests, s: Sleepy, step: SStep)
    requires SReachableAsking(cfg, ok, s) && SEnabled(cfg, s, step)
    requires step.Do? && step.step.Want? ==> ok(step.step.count, step.step.mode)
    ensures SReachableAsking(cfg, ok, SApply(cfg, s, step))
  {
    var run :| IsSRun(cfg, run) && SAsks(run, ok) && SAfter(cfg, run) == s;
    var longer := run + [step];
    assert longer[..|longer| - 1] == run;
    assert IsSRun(cfg, longer) && SAsks(longer, ok) && SAfter(cfg, longer) == SApply(cfg, s, step);
  }

  lemma {:induction false} SWaitsOnRequest(cfg: Config, ok: Requests, run: seq<SStep>)
    requires IsSRun(cfg, run) && SAsks(run, ok)
    ensures var c := SAfter(cfg, run).p.consumer;
            c.Wanting? ==> c.count >= 1 && ok(c.count, c.mode)
    decreases |run|
  {
    if run != [] {
      var before, step := run[..|run| - 1], run[|run| - 1];
      SWaitsOnRequest(cfg, ok, before);
      if step.Do? && !step.step.Want? {
        OthersKeepRequest(cfg, SAfter(cfg, before).p, step.step);
      }
    }
  }

  // One file of one byte, buffers of four, a queue of two.
  const SMALL := Config(4, 2, [[7]])

  const META := Meta(0, 0, true)

  // Its states before anything is taken: the thread, the driver, and what has been queued.
  function At(th: Thread, curr: Option<nat>, consumer: Consumer, queue: seq<Chunk>, handed: seq<Meta>, driver: bool): Sleepy {
    Sleepy(State(curr, [th], None, queue, consumer, [], [], handed, queue), false, driver, {})
  }

  function Th(phase: Phase, rest: seq<Byte>, chunk: Option<Chunk>): Thread {
    Thread(phase, rest, chunk, META)
  }

  // A step that starts no thread and loads no chunk.
  predicate Silent(step: SStep, ok: Requests) {
    step.Do? ==> !step.step.Spawn? && !step.step.LoadNext? && (step.step.Want? ==> ok(step.step.count, step.step.mode))
  }

  // A set of states that no such step leaves.
  ghost predicate Closed(met: Sleepy -> bool, ok: Requests) {
    forall s, step {:trigger SApply(SMALL, s, step)} ::
      met(s) && SEnabled(SMALL, s, step) && Silent(step, ok) ==> met(SApply(SMALL, s, step))
  }

  lemma Meets(met: Sleepy -> bool, ok: Requests, s: Sleepy, step: SStep)
    requires Closed(met, ok) && met(s) && SEnabled(SMALL, s, step) && Silent(step, ok)
    ensures met(SApply(SMALL, s, step))
  {
  }

  lemma SmallStarts(met: Sleepy -> bool, ok: Requests, ask: nat)
    requires Closed(met, ok) && met(At(Th(Waiting, [7], None), None, Idle, [], [], false)) && ask >= 2 && ok(ask, Exact)
    ensures met(At(Th(Decoding, [7], None), Some(0), Wanting(ask, Exact), [], [META], false))
  {
    var s1 := At(Th(Waiting, [7], None), None, Idle, [], [], false);
    var s2 := At(Th(Decoding, [7], None), Some(0), Idle, [], [META], false);
    Meets(met, ok, s1, Plain(Acquire(0, 0)));
    assert SApply(SMALL, s1, Plain(Acquire(0, 0))) == s2;
    Meets(met, ok, s2, Plain(Want(ask, Exact)));
  }

  lemma SmallFeeds(met: Sleepy -> bool, ok: Requests, ask: nat)
    requires Closed(met, ok) && met(At(Th(Decoding, [7], None), Some(0), Wanting(ask, Exact), [], [META], false))
    ensures met(At(Th(Decoding, [], Some(Chunk(0, 1, [7], None, [], []))), Some(0), Wanting(ask, Exact), [], [META], false))
  {
    var th, c := Th(Decoding, [7], None), Chunk(0, 1, [7], None, [], []);
    assert [] + [7] == [7] && th.rest[1..] == [];
    assert Feed(None, META, None, 7, 4) == FeedResult(Some(c), None, None, false);
    var s2 := At(th, Some(0), Wanting(ask, Exact), [], [META], false);
    Meets(met, ok, s2, Plain(FeedByte(0)));
    assert SApply(SMALL, s2, Plain(FeedByte(0))) == At(Th(Decoding, [], Some(c)), Some(0), Wanting(ask, Exact), [], [META], false);
  }

  lemma SmallDecodes(met: Sleepy -> bool, ok: Requests, ask: nat, c: Chunk)
    requires Closed(met, ok) && c == LastChunk(META, 0, [7])
    requires met(At(Th(Decoding, [], Some(Chunk(0, 1, [7], None, [], []))), Some(0), Wanting(ask, Exact), [], [META], false))
    ensures met(At(Th(Adding(c, true), [], None), Some(0), Wanting(ask, Exact), [], [META], false))
  {
    var held := Chunk(0, 1, [7], None, [], []);
    FinishRefines(held, META, 0, [7], 4);
    var s3 := At(Th(Decoding, [], Some(held)), Some(0), Wanting(ask, Exact), [], [META], false);
    Meets(met, ok, s3, Plain(Done(0)));
    assert SApply(SMALL, s3, Plain(Done(0))) == At(Th(Adding(c, true), [], None), Some(0), Wanting(ask, Exact), [], [META], false);
  }

  lemma SmallQueues(met: Sleepy -> bool, ok: Requests, ask: nat, c: Chunk)
    requires Closed(met, ok) && ask >= 2 && c == LastChunk(META, 0, [7])
    requires met(At(Th(Adding(c, true), [], None), Some(0), Wanting(ask, Exact), [], [META], false))
    ensures met(At(Th(Clearing, [], None), Some(0), Wanting(ask, Exact), [c], [META], true))
  {
    var s4 := At(Th(Adding(c, true), [], None), Some(0), Wanting(ask, Exact), [], [META], false);
    var s5 := At(Th(Clearing, [], None), Some(0), Wanting(ask, Exact), [c], [META], false);
    Meets(met, ok, s4, Plain(Put(0)));
    assert SApply(SMALL, s4, Plain(Put(0))) == s5;
    Meets(met, ok, s5, DriverSleeps);
  }

  // From the start of the one decoder to a driver that nobody wakes.
  lemma SmallStrands(met: Sleepy -> bool, ok: Requests, ask: nat) returns (s: Sleepy)
    requires Closed(met, ok) && met(At(Th(Waiting, [7], None), None, Idle, [], [], false)) && ask >= 2 && ok(ask, Exact)
    ensures met(s) && SStuck(SMALL, s) && Stranded(s) && s.p.queue != [] && s.p.consumer == Wanting(ask, Exact)
  {
    var c := LastChunk(META, 0, [7]);
    SmallStarts(met, ok, ask);
    SmallFeeds(met, ok, ask);
    SmallDecodes(met, ok, ask, c);
    SmallQueues(met, ok, ask, c);
    s := SmallClears(met, ok, ask, c);
  }

  lemma SmallClears(met: Sleepy -> bool, ok: Requests, ask: nat, c: Chunk) returns (s: Sleepy)
    requires Closed(met, ok) && ask >= 2 && c == LastChunk(META, 0, [7])
    requires met(At(Th(Clearing, [], None), Some(0), Wanting(ask, Exact), [c], [META], true))
    ensures met(s) && SStuck(SMALL, s) && Stranded(s) && s.p.queue != [] && s.p.consumer == Wanting(ask, Exact)
  {
    var s5 := At(Th(Clearing, [], None), Some(0), Wanting(ask, Exact), [c], [META], true);
    s := At(Th(Exited, [], None), None, Wanting(ask, Exact), [c], [META], true);
    Meets(met, ok, s5, Plain(Release(0)));
    assert SApply(SMALL, s5, Plain(Release(0))) == s;
    assert Marks(s.p.queue)[0];
    NothingMoves(s);
  }

  lemma SmallSpawns(ok: Requests)
    ensures SReachableAsking(SMALL, ok, At(Th(Waiting, [7], None), None, Idle, [], [], false))
  {
    var s0 := Init(SMALL);
    assert IsSRun(SMALL, []) && SAsks([], ok) && SAfter(SMALL, []) == s0;
    assert s0 == At(Th(Unborn, [7], None), None, Idle, [], [], false);
    SAskingStep(SMALL, ok, s0, Plain(Spawn(0)));
    assert SApply(SMALL, s0, Plain(Spawn(0))) == At(Th(Waiting, [7], None), None, Idle, [], [], false);
  }

  /** The missing wakeup does happen, for every exact request of two chunks or more: one file of one byte,
      whose only chunk is queued while the driver looks again and the decoder is still current. Once the
      decoder has cleared itself nothing wakes the driver any more. */
  lemma WakeupIsLost(ok: Requests, ask: nat) returns (s: Sleepy)
    requires ask >= 2 && ok(ask, Exact)
    ensures SMALL.Valid() && AllDeliverable(SMALL)
    ensures SReachableAsking(SMALL, ok, s) && SStuck(SMALL, s) && Stranded(s) && s.p.queue != []
    ensures s.p.consumer == Wanting(ask, Exact)
  {
    DeliverableExactly(1, 4);
    SmallSpawns(ok);
    var met := (s: Sleepy) => SReachableAsking(SMALL, ok, s);
    forall s, step | met(s) && SEnabled(SMALL, s, step) && Silent(step, ok)
      ensures met(SApply(SMALL, s, step))
    {
      SAskingStep(SMALL, ok, s, step);
    }
    s := SmallStrands(met, ok, ask);
  }

  // Whatever is decoded, where a run in which the driver makes only these requests ends, everything has been
  // delivered.
  ghost predicate AlwaysCompletes(ok: Requests) {
    forall cfg: Config, s :: cfg.Valid() && AllDeliverable(cfg) && SReachableAsking(cfg, ok, s) && SStuck(cfg, s)
      ==> Complete(cfg, s.p)
  }

  lemma OneChunkCompletes(cfg: Config, ok: Requests, s: Sleepy)
    requires cfg.Valid() && AllDeliverable(cfg) && SReachableAsking(cfg, ok, s) && SStuck(cfg, s)
    requires forall c: nat :: c >= 1 && ok(c, Exact) ==> c == 1
    ensures Complete(cfg, s.p)
  {
    var run :| IsSRun(cfg, run) && SAsks(run, ok) && SAfter(cfg, run) == s;
    SWaitsOnRequest(cfg, ok, run);
    assert SReachable(cfg, s);
    SReachableInv(cfg, s);
    StuckIsCompleteOrStranded(cfg, s);
    if Stranded(s) {
      OneChunkNotStranded(cfg, s);
    }
  }

  /** Which requests are safe whatever is decoded and however threads sleep and wake: exactly those sets in
      which every exact request is for a single chunk. That runs do end is SRunsAreBounded. */
  lemma SafeRequestsExactly(ok: Requests)
    ensures AlwaysCompletes(ok) <==> forall c: nat :: c >= 1 && ok(c, Exact) ==> c == 1
  {
    if forall c: nat :: c >= 1 && ok(c, Exact) ==> c == 1 {
      forall cfg: Config, s | cfg.Valid() && AllDeliverable(cfg) && SReachableAsking(cfg, ok, s) && SStuck(cfg, s)
        ensures Complete(cfg, s.p)
      {
        OneChunkCompletes(cfg, ok, s);
      }
    } else {
      var c: nat :| c >= 2 && ok(c, Exact);
      var s := WakeupIsLost(ok, c);
      assert SReachable(SMALL, s);
      StuckIsCompleteOrStranded(SMALL, s);
    }
  }

  lemma NothingMoves(s: Sleepy)
    requires s.driver && !s.producer && s.p.consumer.Wanting?
    requires forall t: nat :: t < |s.p.threads| ==> s.p.threads[t].phase == Exited
    ensures SStuck(SMALL, s)
  {
  }
}
