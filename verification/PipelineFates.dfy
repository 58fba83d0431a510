/** Who can do what, and what has become of every decoder and of the driver's request, told from the steps
    taken: for every run with any stops, errors, flushes and resumptions. */
module PipelineFates {
  import opened Types
  import opened Chunks
  import opened Chunking
  import opened BufList
  import opened Pipeline
  import PipelineInvariant
  import opened PipelineStops
  import opened PipelineLoss

  // The first n steps can be taken, and where they lead.
  predicate IsGatedRun(cfg: Config, run: seq<GatedStep>, n: nat)
    requires n <= |run|
    decreases n, 0
  {
    n == 0 || (IsGatedRun(cfg, run, n - 1) && CanTake(cfg, GatedAt(cfg, run, n - 1), run[n - 1]))
  }

  function GatedAt(cfg: Config, run: seq<GatedStep>, n: nat): Gated
    requires n <= |run| && IsGatedRun(cfg, run, n)
    decreases n, 1
  {
    if n == 0 then PipelineStops.Init(cfg) else PipelineStops.After(cfg, GatedAt(cfg, run, n - 1), run[n - 1])
  }

  lemma ReachesNext(cfg: Config, g: Gated, run: seq<GatedStep>, n: nat, g': Gated)
    requires n < |run| && Reaches(cfg, g, run[n..], g')
    ensures CanTake(cfg, g, run[n]) && Reaches(cfg, PipelineStops.After(cfg, g, run[n]), run[n + 1..], g')
  {
    assert run[n..][0] == run[n] && run[n..][1..] == run[n + 1..];
  }

  // A run read step by step from either end.
  lemma {:induction false} ReachesFrom(cfg: Config, run: seq<GatedStep>, n: nat, g: Gated)
    requires n <= |run| && IsGatedRun(cfg, run, n) && Reaches(cfg, GatedAt(cfg, run, n), run[n..], g)
    ensures IsGatedRun(cfg, run, |run|) && GatedAt(cfg, run, |run|) == g
    decreases |run| - n
  {
    if n < |run| {
      ReachesNext(cfg, GatedAt(cfg, run, n), run, n, g);
      ReachesFrom(cfg, run, n + 1, g);
    }
  }

  lemma ReachesIsRun(cfg: Config, run: seq<GatedStep>, g: Gated)
    requires Reaches(cfg, PipelineStops.Init(cfg), run, g)
    ensures IsGatedRun(cfg, run, |run|) && GatedAt(cfg, run, |run|) == g
  {
    assert run[0..] == run;
    ReachesFrom(cfg, run, 0, g);
  }

  // ---------------------------------------------------------------- the gates

  // The engine was stopped and not started again.
  ghost predicate Stopped(run: seq<GatedStep>, n: nat)
    requires n <= |run|
  {
    exists i :: 0 <= i < n && run[i] == StopEngine && forall j :: i < j < n ==> run[j] != StartEngine
  }

  lemma StoppedSnoc(run: seq<GatedStep>, n: nat)
    requires n < |run|
    ensures Stopped(run, n + 1) <==> run[n] == StopEngine || (Stopped(run, n) && run[n] != StartEngine)
  {
  }

  lemma RunningStep(cfg: Config, g: Gated, step: GatedStep)
    requires CanTake(cfg, g, step)
    ensures !PipelineStops.After(cfg, g, step).running <==> step == StopEngine || (!g.running && step != StartEngine)
  {
  }

  lemma {:induction false} RunningIs(cfg: Config, run: seq<GatedStep>, n: nat)
    requires n <= |run| && IsGatedRun(cfg, run, n)
    ensures !GatedAt(cfg, run, n).running <==> Stopped(run, n)
    decreases n
  {
    if n > 0 {
      RunningIs(cfg, run, n - 1);
      RunningStep(cfg, GatedAt(cfg, run, n - 1), run[n - 1]);
      StoppedSnoc(run, n - 1);
    }
  }

  // What the driver waits for: as many chunks as it asked for, or the end of the last file with no decoder at
  // work; or, when it takes any number, a chunk.
  predicate EnoughFor(p: State)
    requires p.consumer.Wanting?
  {
    match p.consumer.mode
    case Exact =>
      p.consumer.count <= |p.queue| || (p.queue != [] && IsDone(p.queue[|p.queue| - 1].size) && p.curr == None)
    case Any => p.queue != []
  }

  // The gates of a decoder in the wait, of one that adds a chunk, and of a driver that waits, by the two flags.
  lemma WaitGates(cfg: Config, g: Gated, t: nat)
    requires Is(g.p, t, Waiting)
    ensures forall addr :: CanTake(cfg, g, Do(Acquire(t, addr))) <==> g.p.curr == None && g.running
    ensures CanTake(cfg, g, Leave(t)) <==> !g.running
  {
  }

  lemma AddGates(cfg: Config, g: Gated, t: nat)
    requires t < |g.p.threads| && g.p.threads[t].phase.Adding?
    ensures CanTake(cfg, g, Do(Put(t))) <==> |g.p.queue| < cfg.maxNum && g.run
    ensures forall finish :: CanTake(cfg, g, AddFails(t, finish)) <==> !g.run
  {
  }

  lemma PackGates(cfg: Config, g: Gated)
    requires g.p.consumer.Wanting?
    ensures forall noMore :: CanTake(cfg, g, Do(Take(noMore))) <==> EnoughFor(g.p) && g.run
    ensures CanTake(cfg, g, GiveUp) <==> !g.run
  {
  }

  /** Which gates are open, exactly, after any run. A waiting decoder takes over an engine without a current
      decoder unless that is stopped, and then leaves instead; a chunk is added to a queue with room, and a
      pack is taken once the driver need not wait, unless an error or a flush has not been resumed, and then
      both calls fail instead. The other steps of a decoder wait for nothing. */
  lemma GatesExactly(cfg: Config, run: seq<GatedStep>, g: Gated, t: nat)
    requires Reaches(cfg, PipelineStops.Init(cfg), run, g)
    ensures Is(g.p, t, Waiting) ==>
              && (forall addr :: CanTake(cfg, g, Do(Acquire(t, addr))) <==> g.p.curr == None && !Stopped(run, |run|))
              && (CanTake(cfg, g, Leave(t)) <==> Stopped(run, |run|))
    ensures t < |g.p.threads| && g.p.threads[t].phase.Adding? ==>
              && (CanTake(cfg, g, Do(Put(t))) <==> |g.p.queue| < cfg.maxNum && !Failing(run))
              && (forall finish :: CanTake(cfg, g, AddFails(t, finish)) <==> Failing(run))
    ensures g.p.consumer.Wanting? ==>
              && (forall noMore :: CanTake(cfg, g, Do(Take(noMore))) <==> EnoughFor(g.p) && !Failing(run))
              && (CanTake(cfg, g, GiveUp) <==> Failing(run))
    ensures Is(g.p, t, Decoding) ==>
              && (CanTake(cfg, g, Do(FeedByte(t))) <==> g.p.threads[t].rest != [])
              && (CanTake(cfg, g, Do(Done(t))) <==> g.p.threads[t].rest == [])
    ensures CanTake(cfg, g, Do(Spawn(t))) <==> Is(g.p, t, Unborn)
    ensures CanTake(cfg, g, Do(Release(t))) <==> Is(g.p, t, Clearing)
  {
    ReachesIsRun(cfg, run, g);
    RunningIs(cfg, run, |run|);
    GateIs(cfg, PipelineStops.Init(cfg), run, g);
    if Is(g.p, t, Waiting) {
      WaitGates(cfg, g, t);
    }
    if t < |g.p.threads| && g.p.threads[t].phase.Adding? {
      AddGates(cfg, g, t);
    }
    if g.p.consumer.Wanting? {
      PackGates(cfg, g);
    }
  }

  // ---------------------------------------------------------------- what a decoder has done

  ghost predicate Did(run: seq<GatedStep>, n: nat, step: Step)
    requires n <= |run|
  {
    exists i :: 0 <= i < n && run[i] == Do(step)
  }

  ghost predicate TookOver(run: seq<GatedStep>, n: nat, t: nat)
    requires n <= |run|
  {
    exists i :: 0 <= i < n && run[i].Do? && run[i].step.Acquire? && run[i].step.t == t
  }

  ghost predicate HasLeft(run: seq<GatedStep>, n: nat, t: nat)
    requires n <= |run|
  {
    exists i :: 0 <= i < n && run[i] == Leave(t)
  }

  ghost predicate WasRefused(run: seq<GatedStep>, n: nat, t: nat)
    requires n <= |run|
  {
    exists i :: 0 <= i < n && run[i].AddFails? && run[i].t == t
  }

  // Its last chunk was added or refused: the one it comes with after all its bytes.
  ghost predicate CameThrough(run: seq<GatedStep>, n: nat, t: nat)
    requires n <= |run|
  {
    exists i :: 0 <= i < n && (run[i] == Do(Put(t)) || (run[i].AddFails? && run[i].t == t)) && Did(run, i, Done(t))
  }

  // An earlier one was refused, and the decoder gave up without calling md_decoder_done.
  ghost predicate GaveUp(run: seq<GatedStep>, n: nat, t: nat)
    requires n <= |run|
  {
    exists i :: 0 <= i < n && run[i] == AddFails(t, false) && !Did(run, i, Done(t))
  }

  // All of that, given the phase of thread t.
  ghost predicate FateOk(cfg: Config, run: seq<GatedStep>, n: nat, t: nat, phase: Phase)
    requires cfg.Valid() && n <= |run|
  {
    var spawned, over, left := Did(run, n, Spawn(t)), TookOver(run, n, t), HasLeft(run, n, t);
    var done, through, gave, released := Did(run, n, Done(t)), CameThrough(run, n, t), GaveUp(run, n, t), Did(run, n, Release(t));
    var whole := Deliverable(|cfg.File(t)|, cfg.bufSize) || WasRefused(run, n, t);
    match phase
    case Unborn => !spawned && !over && !left && !done && !through && !gave && !released
    case Waiting => spawned && !over && !left && !done && !through && !gave && !released
    case Decoding => spawned && over && !left && !done && !through && !gave && !released
    case Adding(_, last) => spawned && over && !left && (done <==> last) && (last ==> whole) && !through && !gave && !released
    case Clearing => spawned && over && !left && done && whole && through && !gave && !released
    case Exited => spawned && (if left then !over && !done && !through && !gave && !released
                               else over && done && whole && through && !gave && released)
    case Abandoned => spawned && over && !left && !through && !released && (if gave then !done else done && !whole)
  }

  lemma DidSnoc(run: seq<GatedStep>, n: nat, step: Step)
    requires n < |run|
    ensures Did(run, n + 1, step) <==> Did(run, n, step) || run[n] == Do(step)
  {
  }

  lemma OverSnoc(run: seq<GatedStep>, n: nat, t: nat)
    requires n < |run|
    ensures TookOver(run, n + 1, t) <==> TookOver(run, n, t) || (run[n].Do? && run[n].step.Acquire? && run[n].step.t == t)
    ensures HasLeft(run, n + 1, t) <==> HasLeft(run, n, t) || run[n] == Leave(t)
    ensures WasRefused(run, n + 1, t) <==> WasRefused(run, n, t) || (run[n].AddFails? && run[n].t == t)
  {
  }

  lemma ThroughSnoc(run: seq<GatedStep>, n: nat, t: nat)
    requires n < |run|
    ensures CameThrough(run, n + 1, t) <==>
              CameThrough(run, n, t) || ((run[n] == Do(Put(t)) || (run[n].AddFails? && run[n].t == t)) && Did(run, n, Done(t)))
    ensures GaveUp(run, n + 1, t) <==> GaveUp(run, n, t) || (run[n] == AddFails(t, false) && !Did(run, n, Done(t)))
  {
  }

  lemma Snocs(run: seq<GatedStep>, n: nat, t: nat)
    requires n < |run|
    ensures Did(run, n + 1, Spawn(t)) <==> Did(run, n, Spawn(t)) || run[n] == Do(Spawn(t))
    ensures Did(run, n + 1, Done(t)) <==> Did(run, n, Done(t)) || run[n] == Do(Done(t))
    ensures Did(run, n + 1, Release(t)) <==> Did(run, n, Release(t)) || run[n] == Do(Release(t))
    ensures TookOver(run, n + 1, t) <==> TookOver(run, n, t) || (run[n].Do? && run[n].step.Acquire? && run[n].step.t == t)
    ensures HasLeft(run, n + 1, t) <==> HasLeft(run, n, t) || run[n] == Leave(t)
    ensures WasRefused(run, n + 1, t) <==> WasRefused(run, n, t) || (run[n].AddFails? && run[n].t == t)
    ensures CameThrough(run, n + 1, t) <==>
              CameThrough(run, n, t) || ((run[n] == Do(Put(t)) || (run[n].AddFails? && run[n].t == t)) && Did(run, n, Done(t)))
    ensures GaveUp(run, n + 1, t) <==> GaveUp(run, n, t) || (run[n] == AddFails(t, false) && !Did(run, n, Done(t)))
  {
    DidSnoc(run, n, Spawn(t));
    DidSnoc(run, n, Done(t));
    DidSnoc(run, n, Release(t));
    OverSnoc(run, n, t);
    ThroughSnoc(run, n, t);
  }

  // Whether a step is one of thread t.
  predicate Of(step: GatedStep, t: nat) {
    match step
    case Do(st) => !st.Want? && !st.Take? && !st.LoadNext? && !st.DropNext? && st.t == t
    case Leave(u) => u == t
    case AddFails(u, _) => u == t
    case _ => false
  }

  lemma OthersStay(cfg: Config, g: Gated, step: GatedStep, t: nat)
    requires CanTake(cfg, g, step) && t < |g.p.threads| && !Of(step, t)
    ensures var p := PipelineStops.After(cfg, g, step).p;
            |p.threads| == |g.p.threads| && p.threads[t] == g.p.threads[t]
  {
  }

  lemma OthersKeepFate(cfg: Config, run: seq<GatedStep>, n: nat, t: nat, phase: Phase)
    requires cfg.Valid() && n < |run| && !Of(run[n], t) && FateOk(cfg, run, n, t, phase)
    ensures FateOk(cfg, run, n + 1, t, phase)
  {
    Snocs(run, n, t);
  }

  // How a thread's own steps change its phase.
  ghost predicate Moves(cfg: Config, t: nat, before: Phase, step: GatedStep, after: Phase, refused: bool)
    requires cfg.Valid()
  {
    match step
    case Do(Spawn(_)) => before == Unborn && after == Waiting
    case Do(Acquire(_, _)) => before == Waiting && after == Decoding
    case Do(FeedByte(_)) => before == Decoding && (after == Decoding || (after.Adding? && !after.last))
    case Do(Done(_)) => before == Decoding
        && (if Deliverable(|cfg.File(t)|, cfg.bufSize) || refused then after.Adding? && after.last else after == Abandoned)
    case Do(Put(_)) => before.Adding? && after == if before.last then Clearing else Decoding
    case Do(Release(_)) => before == Clearing && after == Exited
    case Leave(_) => before == Waiting && after == Exited
    case AddFails(_, finish) => before.Adding? && after == if before.last then Clearing else if finish then Decoding else Abandoned
    case _ => false
  }

  lemma MovesKeepFate(cfg: Config, run: seq<GatedStep>, n: nat, t: nat, phase: Phase, phase': Phase)
    requires cfg.Valid() && n < |run| && Of(run[n], t) && FateOk(cfg, run, n, t, phase)
    requires Moves(cfg, t, phase, run[n], phase', WasRefused(run, n, t))
    ensures FateOk(cfg, run, n + 1, t, phase')
  {
    Snocs(run, n, t);
  }

  // A file of which a chunk was refused ends in a chunk of one byte, which is never refused by its size.
  lemma DoneMoves(cfg: Config, t: nat, th: Thread, m: Meta, mine: seq<Chunk>, oldMeta: Option<nat>, refused: bool)
    requires cfg.Valid() && th.phase.Decoding? && th.rest == [] && th.meta.id == t
    requires FileOk(cfg, t, th, m, mine, oldMeta, true, refused)
    ensures Moves(cfg, t, Decoding, Do(Done(t)), AfterDoneThread(th, cfg.bufSize).phase, refused)
  {
    if refused {
      DoneThread(cfg, th, th.chunk.value);
      AdjustRefusedExactly(1, cfg.bufSize);
    } else {
      DoneFile(cfg, t, th, m, mine, oldMeta, false);
    }
  }

  lemma DoneIs(cfg: Config, g: Gated, t: nat)
    requires cfg.Valid() && GatedInv(cfg, g) && LossInv(cfg, g) && CanTake(cfg, g, Do(Done(t)))
    ensures Moves(cfg, t, Decoding, Do(Done(t)), PipelineStops.After(cfg, g, Do(Done(t))).p.threads[t].phase, t in g.refused)
  {
    var th, m, mine := Mine(cfg, g, t);
    DoneMoves(cfg, t, th, m, mine, g.p.oldMeta, t in g.refused);
  }

  lemma FeedMoves(cfg: Config, g: Gated, t: nat)
    requires cfg.Valid() && GatedInv(cfg, g) && LossInv(cfg, g) && CanTake(cfg, g, Do(FeedByte(t)))
    ensures Moves(cfg, t, Decoding, Do(FeedByte(t)), PipelineStops.After(cfg, g, Do(FeedByte(t))).p.threads[t].phase, t in g.refused)
  {
    var th, m, mine := Mine(cfg, g, t);
    PipelineInvariant.FeedFile(cfg, t, th, g.p.oldMeta);
  }

  lemma StepMoves(cfg: Config, g: Gated, step: GatedStep, t: nat)
    requires cfg.Valid() && GatedInv(cfg, g) && LossInv(cfg, g) && CanTake(cfg, g, step) && Of(step, t)
    ensures t < |g.p.threads| == |PipelineStops.After(cfg, g, step).p.threads|
    ensures Moves(cfg, t, g.p.threads[t].phase, step, PipelineStops.After(cfg, g, step).p.threads[t].phase, t in g.refused)
  {
    match step {
      case Do(Done(_)) => DoneIs(cfg, g, t);
      case Do(FeedByte(_)) => FeedMoves(cfg, g, t);
      case _ =>
    }
  }

  ghost predicate FateHolds(cfg: Config, run: seq<GatedStep>, n: nat, t: nat, g: Gated)
    requires cfg.Valid() && n <= |run|
  {
    && Sound(cfg, g) && t < |g.p.threads| && (t in g.refused <==> WasRefused(run, n, t))
    && FateOk(cfg, run, n, t, g.p.threads[t].phase)
  }

  lemma FateInit(cfg: Config, run: seq<GatedStep>, t: nat)
    requires cfg.Valid() && t < |cfg.files|
    ensures FateHolds(cfg, run, 0, t, PipelineStops.Init(cfg))
  {
    InitSound(cfg);
  }

  // Thread t after a step, whosever it is.
  lemma FateStep(cfg: Config, run: seq<GatedStep>, n: nat, t: nat, g: Gated)
    requires cfg.Valid() && n < |run| && GatedInv(cfg, g) && LossInv(cfg, g) && CanTake(cfg, g, run[n])
    requires t < |g.p.threads| && (t in g.refused <==> WasRefused(run, n, t)) && FateOk(cfg, run, n, t, g.p.threads[t].phase)
    ensures var g' := PipelineStops.After(cfg, g, run[n]);
            |g'.p.threads| == |g.p.threads| && FateOk(cfg, run, n + 1, t, g'.p.threads[t].phase)
  {
    if Of(run[n], t) {
      StepMoves(cfg, g, run[n], t);
      MovesKeepFate(cfg, run, n, t, g.p.threads[t].phase, PipelineStops.After(cfg, g, run[n]).p.threads[t].phase);
    } else {
      OthersStay(cfg, g, run[n], t);
      OthersKeepFate(cfg, run, n, t, g.p.threads[t].phase);
    }
  }

  lemma RefusedStep(cfg: Config, run: seq<GatedStep>, n: nat, t: nat, g: Gated)
    requires n < |run| && CanTake(cfg, g, run[n]) && (t in g.refused <==> WasRefused(run, n, t))
    ensures t in PipelineStops.After(cfg, g, run[n]).refused <==> WasRefused(run, n + 1, t)
  {
    OverSnoc(run, n, t);
  }

  lemma FateNext(cfg: Config, run: seq<GatedStep>, n: nat, t: nat, g: Gated)
    requires cfg.Valid() && n < |run| && CanTake(cfg, g, run[n]) && FateHolds(cfg, run, n, t, g)
    ensures FateHolds(cfg, run, n + 1, t, PipelineStops.After(cfg, g, run[n]))
  {
    StepSound(cfg, g, run[n]);
    RefusedStep(cfg, run, n, t, g);
    FateStep(cfg, run, n, t, g);
  }

  lemma {:induction false} FateIs(cfg: Config, run: seq<GatedStep>, n: nat, t: nat)
    requires cfg.Valid() && n <= |run| && IsGatedRun(cfg, run, n) && t < |cfg.files|
    ensures FateHolds(cfg, run, n, t, GatedAt(cfg, run, n))
    decreases n
  {
    if n == 0 {
      FateInit(cfg, run, t);
    } else {
      var before := GatedAt(cfg, run, n - 1);
      FateIs(cfg, run, n - 1, t);
      FateNext(cfg, run, n - 1, t, before);
    }
  }

  /** What has become of every decoder, exactly, after any run. It waits from its start until it takes over the
      engine or leaves; it has ended well if and only if it left, or cleared curr_decoder; it clears it next if
      and only if its last chunk was added or refused; and it has ended without clearing it if and only if an
      earlier chunk was refused and it gave up there, or all of its file had been added but that last chunk,
      which md_decoder_done did not find or could not pad. */
  lemma FatesExactly(cfg: Config, run: seq<GatedStep>, g: Gated, t: nat)
    requires cfg.Valid() && Reaches(cfg, PipelineStops.Init(cfg), run, g) && t < |cfg.files|
    ensures var n := |run|;
            && t < |g.p.threads|
            && (Is(g.p, t, Unborn) <==> !Did(run, n, Spawn(t)))
            && (Is(g.p, t, Waiting) <==> Did(run, n, Spawn(t)) && !TookOver(run, n, t) && !HasLeft(run, n, t))
            && (Is(g.p, t, Clearing) <==> CameThrough(run, n, t) && !Did(run, n, Release(t)))
            && (Is(g.p, t, Exited) <==> HasLeft(run, n, t) || Did(run, n, Release(t)))
            && (Is(g.p, t, Abandoned)
                <==> GaveUp(run, n, t)
                     || (Did(run, n, Done(t)) && !Deliverable(|cfg.File(t)|, cfg.bufSize) && !WasRefused(run, n, t)))
  {
    ReachesIsRun(cfg, run, g);
    FateIs(cfg, run, |run|, t);
  }

  lemma LastClears(cfg: Config, g: Gated, t: nat, step: GatedStep)
    requires GatedInv(cfg, g) && t < |g.p.threads| && g.p.threads[t].phase.Adding? && g.p.threads[t].phase.last
    requires CanTake(cfg, g, step) && (step == Do(Put(t)) || (step.AddFails? && step.t == t))
    ensures var g' := PipelineStops.After(cfg, g, step);
            g.p.curr == Some(t) && CanTake(cfg, g', Do(Release(t))) && PipelineStops.After(cfg, g', Do(Release(t))).p.curr == None
  {
    IsCurrent(cfg, g, t);
  }

  /** A decoder that comes with its last chunk always frees the engine, whether the chunk is added or refused:
      after either it can clear curr_decoder, and has then done so. */
  lemma LastFreesEngine(cfg: Config, run: seq<GatedStep>, g: Gated, t: nat, step: GatedStep)
    requires cfg.Valid() && Reaches(cfg, PipelineStops.Init(cfg), run, g)
    requires t < |g.p.threads| && g.p.threads[t].phase.Adding? && g.p.threads[t].phase.last
    requires CanTake(cfg, g, step) && (step == Do(Put(t)) || (step.AddFails? && step.t == t))
    ensures var g' := PipelineStops.After(cfg, g, step);
            g.p.curr == Some(t) && CanTake(cfg, g', Do(Release(t))) && PipelineStops.After(cfg, g', Do(Release(t))).p.curr == None
  {
    InitOk(cfg);
    RunOk(cfg, PipelineStops.Init(cfg), run, g);
    LastClears(cfg, g, t, step);
  }

  // ---------------------------------------------------------------- what the driver waits for

  // The driver's last request is for this, and was neither met nor failed since.
  ghost predicate Asked(run: seq<GatedStep>, n: nat, count: nat, mode: PackMode)
    requires n <= |run|
  {
    exists i :: 0 <= i < n && run[i] == Do(Want(count, mode))
                && forall j :: i < j < n ==> run[j] != GiveUp && !(run[j].Do? && (run[j].step.Take? || run[j].step.Want?))
  }

  lemma {:induction false} AskedIs(cfg: Config, run: seq<GatedStep>, n: nat, count: nat, mode: PackMode)
    requires n <= |run| && IsGatedRun(cfg, run, n)
    ensures GatedAt(cfg, run, n).p.consumer == Wanting(count, mode) <==> Asked(run, n, count, mode)
    decreases n
  {
    if n > 0 {
      AskedIs(cfg, run, n - 1, count, mode);
      AskedStep(cfg, run, n - 1, GatedAt(cfg, run, n - 1), count, mode);
    }
  }

  lemma AskedStep(cfg: Config, run: seq<GatedStep>, n: nat, g: Gated, count: nat, mode: PackMode)
    requires n < |run| && CanTake(cfg, g, run[n])
    requires g.p.consumer == Wanting(count, mode) <==> Asked(run, n, count, mode)
    ensures PipelineStops.After(cfg, g, run[n]).p.consumer == Wanting(count, mode) <==> Asked(run, n + 1, count, mode)
  {
    AskedSnoc(run, n, count, mode);
  }

  lemma AskedSnoc(run: seq<GatedStep>, n: nat, count: nat, mode: PackMode)
    requires n < |run|
    ensures Asked(run, n + 1, count, mode) <==>
              run[n] == Do(Want(count, mode))
              || (Asked(run, n, count, mode) && run[n] != GiveUp && !(run[n].Do? && (run[n].step.Take? || run[n].step.Want?)))
  {
  }

  /** The driver waits for a pack, exactly: from its request until that is met or fails. */
  lemma DriverWaitsExactly(cfg: Config, run: seq<GatedStep>, g: Gated, count: nat, mode: PackMode)
    requires Reaches(cfg, PipelineStops.Init(cfg), run, g)
    ensures g.p.consumer == Wanting(count, mode) <==> Asked(run, |run|, count, mode)
  {
    ReachesIsRun(cfg, run, g);
    AskedIs(cfg, run, |run|, count, mode);
  }
}
