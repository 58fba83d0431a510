/** The static variable `oldmeta` of md_add_decoded_byte, over whole runs. It holds an address, and the
    object at that address may have been freed: a file whose metadata is then allocated at the same
    address is taken for the previous one and never gets its first_chunk_take_in. */
module PipelineStatic {
  import opened Types
  import opened Chunking
  import opened Delivery
  import opened BufList
  import opened Pipeline
  import opened PipelineInvariant
  import opened PipelineSafety
  import opened PipelineCallbacks
  import opened PipelineProgress

  // The address of the last of these files that had more than one chunk.
  function LastRolled(cfg: Config, handed: seq<Meta>): Option<nat>
    requires cfg.Valid()
  {
    if handed == [] then None
    else
      var m := handed[|handed| - 1];
      if NumChunks(cfg, m.id) > 1 then Some(m.addr) else LastRolled(cfg, handed[..|handed| - 1])
  }

  // Whether a thread has handed over a first full chunk.
  predicate Rolled(cfg: Config, t: nat, th: Thread)
    requires cfg.Valid()
  {
    match th.phase
    case Adding(_, last) => if last then NumChunks(cfg, t) > 1 else ChunkNo(th.chunk) > 0
    case Clearing => NumChunks(cfg, t) > 1
    case _ => ChunkNo(th.chunk) > 0
  }

  ghost predicate UnseenOk(cfg: Config, handed: seq<Meta>)
    requires cfg.Valid()
  {
    forall i :: 0 <= i < |handed| ==> (handed[i].unseen <==> LastRolled(cfg, handed[..i]) != Some(handed[i].addr))
  }

  // What the static holds.
  ghost predicate StaticOk(cfg: Config, oldMeta: Option<nat>, handed: seq<Meta>, rolled: bool)
    requires cfg.Valid()
  {
    oldMeta == if rolled && handed != [] then Some(handed[|handed| - 1].addr)
               else LastRolled(cfg, if handed == [] then [] else handed[..|handed| - 1])
  }

  ghost predicate StaticInv(cfg: Config, s: State)
    requires cfg.Valid()
  {
    && UnseenOk(cfg, s.handed)
    && if s.curr.Some?
       then s.curr.value < |s.threads| && StaticOk(cfg, s.oldMeta, s.handed, Rolled(cfg, s.curr.value, s.threads[s.curr.value]))
       else s.oldMeta == LastRolled(cfg, s.handed)
  }

  lemma UnseenGrows(cfg: Config, handed: seq<Meta>, m: Meta)
    requires cfg.Valid() && UnseenOk(cfg, handed) && (m.unseen <==> LastRolled(cfg, handed) != Some(m.addr))
    ensures UnseenOk(cfg, handed + [m]) && (handed + [m])[..|handed|] == handed
  {
    forall i | 0 <= i < |handed + [m]|
      ensures (handed + [m])[i].unseen <==> LastRolled(cfg, (handed + [m])[..i]) != Some((handed + [m])[i].addr)
    {
      assert (handed + [m])[..i] == handed[..i];
      if i == |handed| {
        assert handed[..i] == handed;
      }
    }
  }

  lemma AcquireStatic(cfg: Config, s: State, t: nat, addr: nat)
    requires cfg.Valid() && DecoderInv(cfg, s) && StaticInv(cfg, s) && Enabled(cfg, s, Acquire(t, addr))
    ensures StaticInv(cfg, Apply(cfg, s, Acquire(t, addr)))
  {
    assert PhaseOk(cfg, t, s.threads[t], false, t in Ids(s.handed));
    UnseenGrows(cfg, s.handed, Meta(t, addr, s.oldMeta != Some(addr)));
  }

  // What one byte does to the static.
  lemma FeedStatic(cfg: Config, t: nat, th: Thread, oldMeta: Option<nat>)
    requires cfg.Valid() && th.phase.Decoding? && MidFile(cfg, t, th, oldMeta) && th.rest != []
    ensures var r := Feed(th.chunk, th.meta, oldMeta, th.rest[0], cfg.bufSize);
            && !r.failed
            && r.oldMeta == (if r.out.Some? then Some(th.meta.addr) else oldMeta)
            && ChunkNo(r.chunk) == ChunkNo(th.chunk) + (if r.out.Some? then 1 else 0)
  {
    FeedRefines(th.chunk, th.meta, oldMeta, ChunkNo(th.chunk), ChunkData(th.chunk), th.rest, cfg.bufSize);
  }

  lemma FeedKeepsStatic(cfg: Config, s: State, t: nat)
    requires cfg.Valid() && DecoderInv(cfg, s) && StaticInv(cfg, s) && Enabled(cfg, s, FeedByte(t))
    ensures StaticInv(cfg, Apply(cfg, s, FeedByte(t)))
  {
    assert PhaseOk(cfg, t, s.threads[t], s.curr == Some(t), t in Ids(s.handed));
    FeedStatic(cfg, t, s.threads[t], s.oldMeta);
  }

  // At the end of its file, a thread has handed over a full chunk if there are two chunks or more.
  lemma DoneRolled(cfg: Config, t: nat, th: Thread, oldMeta: Option<nat>)
    requires cfg.Valid() && MidFile(cfg, t, th, oldMeta) && th.rest == []
    ensures th.chunk.Some? ==> (ChunkNo(th.chunk) > 0 <==> NumChunks(cfg, t) > 1)
  {
  }

  lemma DoneSameRolled(cfg: Config, t: nat, th: Thread, oldMeta: Option<nat>)
    requires cfg.Valid() && th.phase.Decoding? && MidFile(cfg, t, th, oldMeta) && th.rest == []
    ensures Rolled(cfg, t, AfterDoneThread(th, cfg.bufSize)) == Rolled(cfg, t, th)
  {
    DoneRolled(cfg, t, th, oldMeta);
  }

  lemma DoneKeepsStatic(cfg: Config, s: State, t: nat)
    requires cfg.Valid() && DecoderInv(cfg, s) && StaticInv(cfg, s) && Enabled(cfg, s, Done(t))
    ensures StaticInv(cfg, Apply(cfg, s, Done(t)))
  {
    assert PhaseOk(cfg, t, s.threads[t], s.curr == Some(t), t in Ids(s.handed));
    DoneSameRolled(cfg, t, s.threads[t], s.oldMeta);
    SameStatic(cfg, s, Apply(cfg, s, Done(t)), t);
  }

  lemma SameStatic(cfg: Config, s: State, s': State, t: nat)
    requires cfg.Valid() && StaticInv(cfg, s) && s.curr == s'.curr == Some(t) && t < |s'.threads|
    requires s'.oldMeta == s.oldMeta && s'.handed == s.handed
    requires Rolled(cfg, t, s'.threads[t]) == Rolled(cfg, t, s.threads[t])
    ensures StaticInv(cfg, s')
  {
  }

  lemma ReleaseKeepsStatic(cfg: Config, s: State, t: nat)
    requires cfg.Valid() && DecoderInv(cfg, s) && StaticInv(cfg, s) && Enabled(cfg, s, Release(t))
    ensures StaticInv(cfg, Apply(cfg, s, Release(t)))
  {
    assert PhaseOk(cfg, t, s.threads[t], s.curr == Some(t), t in Ids(s.handed));
  }

  lemma StaticFrame(cfg: Config, s: State, step: Step)
    requires cfg.Valid() && DecoderInv(cfg, s) && StaticInv(cfg, s) && Enabled(cfg, s, step)
    requires step.Spawn? || step.Put? || step.Want? || step.Take? || step.LoadNext? || step.DropNext?
    ensures StaticInv(cfg, Apply(cfg, s, step))
  {
    if step.Spawn? || step.Put? {
      assert PhaseOk(cfg, step.t, s.threads[step.t], s.curr == Some(step.t), step.t in Ids(s.handed));
    }
  }

  lemma StepKeepsStatic(cfg: Config, s: State, step: Step)
    requires cfg.Valid() && DecoderInv(cfg, s) && StaticInv(cfg, s) && Enabled(cfg, s, step)
    ensures StaticInv(cfg, Apply(cfg, s, step))
  {
    match step {
      case Acquire(t, addr) => AcquireStatic(cfg, s, t, addr);
      case FeedByte(t) => FeedKeepsStatic(cfg, s, t);
      case Done(t) => DoneKeepsStatic(cfg, s, t);
      case Release(t) => ReleaseKeepsStatic(cfg, s, t);
      case _ => StaticFrame(cfg, s, step);
    }
  }

  lemma {:induction false} RunKeepsStatic(cfg: Config, run: seq<Step>)
    requires cfg.Valid() && IsRun(cfg, run)
    ensures StaticInv(cfg, After(cfg, run))
    decreases |run|
  {
    if run != [] {
      var before := run[..|run| - 1];
      RunKeepsStatic(cfg, before);
      RunKeeps(cfg, before);
      StepKeepsStatic(cfg, After(cfg, before), run[|run| - 1]);
    }
  }

  /** Which files are taken for an earlier one, exactly: those whose metadata came at the address of the
      last file before them, in handover order, that had more than one chunk. */
  lemma UnseenExactly(cfg: Config, s: State, i: nat)
    requires cfg.Valid() && Reachable(cfg, s) && i < |s.handed|
    ensures Unseen(s.handed, s.handed[i].id) <==> LastRolled(cfg, s.handed[..i]) != Some(s.handed[i].addr)
  {
    var run :| IsRun(cfg, run) && After(cfg, run) == s;
    RunKeeps(cfg, run);
    RunKeepsStatic(cfg, run);
    assert Distinct(s.handed);
    MetaIs(s.handed, i);
  }

  /** The grammar's only gap: a file of two chunks or more, all of them dropped, was announced by
      first_chunk_take_in if and only if its metadata did not come at that address. */
  lemma AnnouncedExactly(cfg: Config, s: State, i: nat)
    requires cfg.Valid() && Reachable(cfg, s) && i < |s.handed|
    ensures var f := s.handed[i].id;
            && 0 <= NumDropped(s) <= |s.put|
            && (NumChunks(cfg, f) >= 2 && |Of(s.put[..NumDropped(s)], f)| == NumChunks(cfg, f) ==>
                  (FirstTakeIn(Some(f), cfg.bufSize) in s.trace
                   <==> LastRolled(cfg, s.handed[..i]) != Some(s.handed[i].addr)))
  {
    var f := s.handed[i].id;
    UnseenExactly(cfg, s, i);
    CallbacksFollowGrammar(cfg, s, f);
    AboutHas(s.trace, f, FirstTakeIn(Some(f), cfg.bufSize));
    if NumChunks(cfg, f) >= 2 {
      GrammarOpens(f, NumChunks(cfg, f), cfg.bufSize, Unseen(s.handed, f));
    }
  }

  lemma {:induction false} AboutHas(trace: seq<Callback>, f: nat, cb: Callback)
    requires cb.meta == Some(f)
    ensures cb in trace <==> cb in About(trace, f)
  {
    if trace != [] {
      AboutHas(trace[..|trace| - 1], f, cb);
    }
  }

  lemma GrammarOpens(f: nat, m: nat, bufSize: nat, unseen: bool)
    requires m >= 2
    ensures FirstTakeIn(Some(f), bufSize) in Grammar(f, m, bufSize, unseen) <==> unseen
  {
    if unseen {
      assert Grammar(f, m, bufSize, unseen)[0] == FirstTakeIn(Some(f), bufSize);
    }
  }

  // ---------------------------------------------------------------- it happens

  // Steps that do not start a thread, in which allocations return `a` and the driver asks for any one chunk.
  predicate Quiet(a: nat, step: Step) {
    match step
    case Spawn(_) => false
    case Acquire(_, addr) => addr == a
    case Want(count, mode) => count == 1 && mode == Any
    case _ => true
  }

  // Thread 0 is the only one that has been started; its metadata, if any, is at `a`.
  ghost predicate OnlyFirst(s: State, a: nat) {
    && (forall t: nat :: t < |s.threads| ==> (Is(s, t, Unborn) <==> t != 0))
    && (forall i :: 0 <= i < |s.handed| ==> s.handed[i].addr == a)
    && (s.consumer.Wanting? ==> s.consumer.mode == Any)
  }

  lemma QuietKeeps(cfg: Config, s: State, step: Step, a: nat)
    requires OnlyFirst(s, a) && Enabled(cfg, s, step) && Quiet(a, step)
    ensures OnlyFirst(Apply(cfg, s, step), a)
  {
    BearsNone(cfg, s, step);
  }

  lemma {:induction false} RunOut(cfg: Config, s: State, a: nat) returns (s': State)
    requires cfg.Valid() && Reachable(cfg, s) && OnlyFirst(s, a)
    ensures Reachable(cfg, s') && OnlyFirst(s', a) && forall step :: Quiet(a, step) ==> !Enabled(cfg, s', step)
    decreases Work(s)
  {
    s' := s;
    if step :| Quiet(a, step) && Enabled(cfg, s, step) {
      StepReaches(cfg, s, step);
      StepsDecreaseWork(cfg, s, step);
      QuietKeeps(cfg, s, step, a);
      s' := RunOut(cfg, Apply(cfg, s, step), a);
    }
  }

  lemma RunOutQuiet(cfg: Config, s: State, a: nat)
    requires cfg.Valid() && Inv(cfg, s) && OnlyFirst(s, a) && |cfg.files| >= 1
    requires Deliverable(|cfg.File(0)|, cfg.bufSize)
    requires forall step :: Quiet(a, step) ==> !Enabled(cfg, s, step)
    ensures s.curr == None && s.queue == [] && !s.consumer.Holding? && Is(s, 0, Exited)
  {
    assert Quiet(a, Want(1, Any)) && Quiet(a, LoadNext) && Quiet(a, DropNext) && Quiet(a, Take({}));
    OneDriverWaits(cfg, s);
    assert !Is(s, 0, Unborn);
    if s.curr.Some? {
      var t := s.curr.value;
      assert Is(s, t, Unborn) <==> t != 0;
      assert Quiet(a, FeedByte(t)) && Quiet(a, Done(t)) && Quiet(a, Put(t)) && Quiet(a, Release(t));
      assert PhaseOk(cfg, t, s.threads[t], true, t in Ids(s.handed));
      CurrentBlocked(cfg, s);
    } else {
      assert Quiet(a, Acquire(0, a));
      assert PhaseOk(cfg, 0, s.threads[0], false, 0 in Ids(s.handed));
    }
  }

  // A driver that asks for any one chunk waits only on an empty queue.
  lemma OneDriverWaits(cfg: Config, s: State)
    requires QueueInv(cfg, s) && (s.consumer.Wanting? ==> s.consumer.mode == Any)
    requires !Enabled(cfg, s, Want(1, Any)) && !Enabled(cfg, s, LoadNext) && !Enabled(cfg, s, DropNext)
    requires !Enabled(cfg, s, Take({}))
    ensures s.consumer.Wanting? && s.queue == []
  {
  }

  lemma FirstIsOver(cfg: Config, s: State, a: nat)
    requires cfg.Valid() && Reachable(cfg, s) && OnlyFirst(s, a) && |cfg.files| >= 2 && NumChunks(cfg, 0) >= 2
    requires s.curr == None && s.queue == [] && !s.consumer.Holding? && Is(s, 0, Exited)
    ensures s.oldMeta == Some(a) && LastTakeOut(Some(0)) in s.trace
  {
    ReachableInv(cfg, s);
    assert PhaseOk(cfg, 0, s.threads[0], false, 0 in Ids(s.handed));
    EverythingDelivered(cfg, s);
    var cb := LastTakeOut(Some(0));
    AboutHas(s.trace, 0, cb);
    var g := Grammar(0, NumChunks(cfg, 0), cfg.bufSize, Unseen(s.handed, 0));
    assert g[|g| - 1] == cb;
    OnlyHanded(cfg, s, a);
    var run :| IsRun(cfg, run) && After(cfg, run) == s;
    RunKeepsStatic(cfg, run);
  }

  lemma OnlyHanded(cfg: Config, s: State, a: nat)
    requires cfg.Valid() && HandedInv(cfg, s) && OnlyFirst(s, a) && 0 in Ids(s.handed)
    ensures |s.handed| == 1 && s.handed[0].id == 0 && s.handed[0].addr == a
  {
    assert s.handed != [] by {
      assert 0 !in Ids([]);
    }
    IsFirst(cfg, s, a, 0);
    IsFirst(cfg, s, a, |s.handed| - 1);
  }

  lemma IsFirst(cfg: Config, s: State, a: nat, i: nat)
    requires cfg.Valid() && HandedInv(cfg, s) && OnlyFirst(s, a) && i < |s.handed|
    ensures s.handed[i].id == 0
  {
    var t := Ids(s.handed)[i];
    assert t in Ids(s.handed);
    assert Is(s, t, Unborn) <==> t != 0;
  }

  /** It does happen: with any first file of two chunks or more, and any second file, there is a run in
      which the first file's metadata has been released, the allocator returns its address again, and
      the second file is taken for the first. */
  lemma AddressComesBack(cfg: Config, a: nat) returns (s: State)
    requires cfg.Valid() && |cfg.files| >= 2 && NumChunks(cfg, 0) >= 2 && Deliverable(|cfg.File(0)|, cfg.bufSize)
    ensures Reachable(cfg, s) && s.curr == Some(1) && |s.handed| == 2 && s.handed[1].id == 1
    ensures LastTakeOut(Some(0)) in s.trace && s.handed[0].addr == s.handed[1].addr == a
    ensures !Unseen(s.handed, 1)
  {
    var s0 := Init(cfg);
    assert IsRun(cfg, []) && After(cfg, []) == s0;
    StepReaches(cfg, s0, Spawn(0));
    var s1 := RunOut(cfg, Apply(cfg, s0, Spawn(0)), a);
    ReachableInv(cfg, s1);
    RunOutQuiet(cfg, s1, a);
    FirstIsOver(cfg, s1, a);
    assert PhaseOk(cfg, 0, s1.threads[0], false, 0 in Ids(s1.handed));
    OnlyHanded(cfg, s1, a);
    assert Is(s1, 1, Unborn);
    var s2 := Apply(cfg, s1, Spawn(1));
    StepReaches(cfg, s1, Spawn(1));
    StepReaches(cfg, s2, Acquire(1, a));
    s := Apply(cfg, s2, Acquire(1, a));
  }
}
