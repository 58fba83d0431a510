/** How much a driver may ask for. An exact request for more chunks than the queue holds can block both
    sides for good, and does so in some run exactly when the files have more chunks than that. */
module PipelineRequests {
  import opened Types
  import opened Chunking
  import opened BufList
  import opened Pipeline
  import opened PipelineInvariant
  import opened PipelineSafety
  import opened PipelineCallbacks
  import opened PipelineProgress

  // Which requests a driver makes.
  type Requests = (nat, PackMode) -> bool

  ghost predicate Asks(run: seq<Step>, ok: Requests) {
    forall i :: 0 <= i < |run| && run[i].Want? ==> ok(run[i].count, run[i].mode)
  }

  ghost predicate ReachableAsking(cfg: Config, ok: Requests, s: State) {
    exists run :: IsRun(cfg, run) && Asks(run, ok) && After(cfg, run) == s
  }

  lemma AskingIsReachable(cfg: Config, ok: Requests, s: State)
    requires ReachableAsking(cfg, ok, s)
    ensures Reachable(cfg, s)
  {
  }

  lemma AsksSnoc(run: seq<Step>, ok: Requests, step: Step)
    requires Asks(run, ok) && (step.Want? ==> ok(step.count, step.mode))
    ensures Asks(run + [step], ok)
  {
  }

  lemma AskingStep(cfg: Config, ok: Requests, s: State, step: Step)
    requires ReachableAsking(cfg, ok, s) && Enabled(cfg, s, step)
    requires step.Want? ==> ok(step.count, step.mode)
    ensures ReachableAsking(cfg, ok, Apply(cfg, s, step))
  {
    var run :| IsRun(cfg, run) && Asks(run, ok) && After(cfg, run) == s;
    var longer := run + [step];
    AsksSnoc(run, ok, step);
    assert longer[..|longer| - 1] == run;
    assert IsRun(cfg, longer) && Asks(longer, ok) && After(cfg, longer) == Apply(cfg, s, step);
  }

  lemma OthersKeepRequest(cfg: Config, s: State, step: Step)
    requires Enabled(cfg, s, step) && !step.Want?
    ensures Apply(cfg, s, step).consumer.Wanting? ==> Apply(cfg, s, step).consumer == s.consumer
  {
  }

  // The request the driver is waiting on is one of those it makes.
  lemma {:induction false} WaitsOnRequest(cfg: Config, ok: Requests, run: seq<Step>)
    requires IsRun(cfg, run) && Asks(run, ok)
    ensures var c := After(cfg, run).consumer;
            c.Wanting? ==> c.count >= 1 && ok(c.count, c.mode)
    decreases |run|
  {
    if run != [] {
      var before, step := run[..|run| - 1], run[|run| - 1];
      WaitsOnRequest(cfg, ok, before);
      if !step.Want? {
        OthersKeepRequest(cfg, After(cfg, before), step);
      }
    }
  }

  // ---------------------------------------------------------------- how many chunks there are

  // The chunks of those of the first k files that are among `ids`.
  function ChunksIn(cfg: Config, ids: seq<nat>, k: nat): nat
    requires cfg.Valid()
  {
    if k == 0 then 0 else ChunksIn(cfg, ids, k - 1) + if k - 1 in ids then NumChunks(cfg, k - 1) else 0
  }

  // The chunks of the first k files.
  function ChunksOf(cfg: Config, k: nat): nat
    requires cfg.Valid()
  {
    if k == 0 then 0 else ChunksOf(cfg, k - 1) + NumChunks(cfg, k - 1)
  }

  function TotalChunks(cfg: Config): nat
    requires cfg.Valid()
  {
    ChunksOf(cfg, |cfg.files|)
  }

  lemma {:induction false} ChunksInBound(cfg: Config, ids: seq<nat>, k: nat)
    requires cfg.Valid()
    ensures ChunksIn(cfg, ids, k) <= ChunksOf(cfg, k)
    ensures (forall t: nat :: t < k ==> t in ids) ==> ChunksIn(cfg, ids, k) == ChunksOf(cfg, k)
    decreases k
  {
    if k > 0 {
      ChunksInBound(cfg, ids, k - 1);
    }
  }

  lemma {:induction false} ChunksInGrows(cfg: Config, ids: seq<nat>, x: nat, k: nat)
    requires cfg.Valid() && x !in ids
    ensures ChunksIn(cfg, ids + [x], k) == ChunksIn(cfg, ids, k) + if x < k then NumChunks(cfg, x) else 0
    decreases k
  {
    if k > 0 {
      ChunksInGrows(cfg, ids, x, k - 1);
    }
  }

  lemma {:induction false} ChunksInEmpty(cfg: Config, k: nat)
    requires cfg.Valid()
    ensures ChunksIn(cfg, [], k) == 0
    decreases k
  {
    if k > 0 {
      ChunksInEmpty(cfg, k - 1);
    }
  }

  lemma {:induction false} FlattenCounts(cfg: Config, handed: seq<Meta>)
    requires cfg.Valid() && Distinct(handed)
    requires forall i :: 0 <= i < |handed| ==> handed[i].id < |cfg.files|
    ensures |Flatten(cfg, handed)| == ChunksIn(cfg, Ids(handed), |cfg.files|)
    decreases |handed|
  {
    if handed == [] {
      ChunksInEmpty(cfg, |cfg.files|);
    } else {
      var n := |handed| - 1;
      FlattenCounts(cfg, handed[..n]);
      NotBefore(handed);
      ChunksInGrows(cfg, Ids(handed[..n]), handed[n].id, |cfg.files|);
      assert Ids(handed) == Ids(handed[..n]) + [handed[n].id];
    }
  }

  lemma HandedInRange(cfg: Config, s: State)
    requires cfg.Valid() && HandedInv(cfg, s)
    ensures forall i :: 0 <= i < |s.handed| ==> s.handed[i].id < |cfg.files|
  {
    forall i | 0 <= i < |s.handed|
      ensures s.handed[i].id < |cfg.files|
    {
      assert Ids(s.handed)[i] in Ids(s.handed);
    }
  }

  lemma {:induction false} ChunksInHas(cfg: Config, ids: seq<nat>, k: nat, t: nat)
    requires cfg.Valid() && t < k && t in ids
    ensures ChunksIn(cfg, ids, k) >= NumChunks(cfg, t)
    decreases k
  {
    if t < k - 1 {
      ChunksInHas(cfg, ids, k - 1, t);
    }
  }

  // All chunks there will ever be of the files handed over.
  lemma HandedCounts(cfg: Config, s: State)
    requires cfg.Valid() && DecoderInv(cfg, s)
    ensures |s.put| + |Future(cfg, s)| <= TotalChunks(cfg)
    ensures (forall t: nat :: t < |cfg.files| ==> t in Ids(s.handed)) ==> |s.put| + |Future(cfg, s)| == TotalChunks(cfg)
  {
    assert Distinct(s.handed);
    HandedInRange(cfg, s);
    FlattenCounts(cfg, s.handed);
    ChunksInBound(cfg, Ids(s.handed), |cfg.files|);
    assert |s.put + Future(cfg, s)| == |Flatten(cfg, s.handed)|;
  }

  // With no decoder current, the chunks of a file handed over have all been put.
  lemma PutInFull(cfg: Config, s: State, t: nat)
    requires cfg.Valid() && DecoderInv(cfg, s) && s.curr == None && t in Ids(s.handed) && t < |cfg.files|
    ensures |s.put| >= NumChunks(cfg, t)
  {
    assert Distinct(s.handed);
    HandedInRange(cfg, s);
    FlattenCounts(cfg, s.handed);
    ChunksInHas(cfg, Ids(s.handed), |cfg.files|, t);
    assert s.put == Flatten(cfg, s.handed);
  }

  // ---------------------------------------------------------------- requests that cannot block

  // Overcommitting takes more chunks than the queue holds.
  lemma OvercommittedNeedsChunks(cfg: Config, s: State)
    requires cfg.Valid() && Reachable(cfg, s) && Stuck(cfg, s) && AllDeliverable(cfg) && Overcommitted(cfg, s)
    ensures TotalChunks(cfg) > cfg.maxNum
  {
    ReachableInv(cfg, s);
    assert NoneOf(cfg, s, s.curr.value);
    CurrentBlocked(cfg, s);
    HandedCounts(cfg, s);
  }

  lemma SafeRequests(cfg: Config, ok: Requests, s: State)
    requires cfg.Valid() && AllDeliverable(cfg) && ReachableAsking(cfg, ok, s) && Stuck(cfg, s)
    requires TotalChunks(cfg) <= cfg.maxNum || forall c: nat :: c >= 1 && ok(c, Exact) ==> c <= cfg.maxNum
    ensures Complete(cfg, s)
  {
    AskingIsReachable(cfg, ok, s);
    StuckIsComplete(cfg, s);
    if Overcommitted(cfg, s) {
      var run :| IsRun(cfg, run) && Asks(run, ok) && After(cfg, run) == s;
      WaitsOnRequest(cfg, ok, run);
      OvercommittedNeedsChunks(cfg, s);
    }
  }

  // ---------------------------------------------------------------- requests that can

  predicate OfDecoder(step: Step) {
    !step.Want? && !step.Take? && !step.LoadNext? && !step.DropNext?
  }

  // The driver has asked first, for `count` chunks exactly, and has been given nothing yet.
  ghost predicate Waits(cfg: Config, ok: Requests, s: State, count: nat) {
    ReachableAsking(cfg, ok, s) && s.consumer == Wanting(count, Exact) && |s.put| == |s.queue|
  }

  // The decoders run for as long as they can while the driver waits.
  lemma {:induction false} FillUp(cfg: Config, ok: Requests, s: State, count: nat) returns (s': State)
    requires cfg.Valid() && Waits(cfg, ok, s, count)
    ensures Waits(cfg, ok, s', count)
    ensures forall step :: OfDecoder(step) ==> !Enabled(cfg, s', step)
    decreases Work(s)
  {
    s' := s;
    if step :| OfDecoder(step) && Enabled(cfg, s, step) {
      var next := Apply(cfg, s, step);
      AskingStep(cfg, ok, s, step);
      AskingIsReachable(cfg, ok, s);
      StepsDecreaseWork(cfg, s, step);
      s' := FillUp(cfg, ok, next, count);
    }
  }

  lemma FilledUp(cfg: Config, ok: Requests, s: State, count: nat)
    requires cfg.Valid() && AllDeliverable(cfg) && Waits(cfg, ok, s, count)
    requires count > cfg.maxNum && TotalChunks(cfg) > cfg.maxNum
    requires forall step :: OfDecoder(step) ==> !Enabled(cfg, s, step)
    ensures Stuck(cfg, s) && !Complete(cfg, s)
  {
    AskingIsReachable(cfg, ok, s);
    ReachableInv(cfg, s);
    HandedCounts(cfg, s);
    if s.curr == None {
      NoneLeft(cfg, s);
    } else {
      var t := s.curr.value;
      assert NoneOf(cfg, s, t) by {
        assert OfDecoder(FeedByte(t)) && OfDecoder(Done(t)) && OfDecoder(Put(t)) && OfDecoder(Release(t));
      }
      CurrentBlocked(cfg, s);
    }
  }

  lemma NoneLeft(cfg: Config, s: State)
    requires cfg.Valid() && HandedInv(cfg, s) && s.curr == None
    requires forall step :: OfDecoder(step) ==> !Enabled(cfg, s, step)
    ensures forall t: nat :: t < |cfg.files| ==> t in Ids(s.handed)
  {
    forall t: nat ensures !Enabled(cfg, s, Spawn(t)) && !Enabled(cfg, s, Acquire(t, 0)) {
      assert OfDecoder(Spawn(t)) && OfDecoder(Acquire(t, 0));
    }
    NoCurrentBlocked(cfg, s);
  }

  /** A run that blocks for good, for every exact request above the maximum, whenever there are more
      chunks than the queue holds: the driver asks first, and the decoders fill the queue. */
  lemma Deadlock(cfg: Config, ok: Requests, count: nat) returns (s: State)
    requires cfg.Valid() && AllDeliverable(cfg) && TotalChunks(cfg) > cfg.maxNum
    requires count > cfg.maxNum && ok(count, Exact)
    ensures ReachableAsking(cfg, ok, s) && Stuck(cfg, s) && !Complete(cfg, s)
  {
    var s0 := Init(cfg);
    assert IsRun(cfg, []) && Asks([], ok) && After(cfg, []) == s0;
    assert ReachableAsking(cfg, ok, s0);
    AskingStep(cfg, ok, s0, Want(count, Exact));
    s := FillUp(cfg, ok, Apply(cfg, s0, Want(count, Exact)), count);
    FilledUp(cfg, ok, s, count);
  }

  /** The condition a driver can check beforehand, exact for every set of requests: all runs in which the
      driver makes only such requests end with everything delivered if and only if the files have no
      more chunks than the queue holds, or no exact request is for more than that. */
  lemma RequestsExactly(cfg: Config, ok: Requests)
    requires cfg.Valid() && AllDeliverable(cfg)
    ensures (forall s :: ReachableAsking(cfg, ok, s) && Stuck(cfg, s) ==> Complete(cfg, s))
            <==> TotalChunks(cfg) <= cfg.maxNum || forall c: nat :: c >= 1 && ok(c, Exact) ==> c <= cfg.maxNum
  {
    if TotalChunks(cfg) <= cfg.maxNum || forall c: nat :: c >= 1 && ok(c, Exact) ==> c <= cfg.maxNum {
      forall s | ReachableAsking(cfg, ok, s) && Stuck(cfg, s)
        ensures Complete(cfg, s)
      {
        SafeRequests(cfg, ok, s);
      }
    } else {
      var c: nat :| c >= 1 && ok(c, Exact) && c > cfg.maxNum;
      var s := Deadlock(cfg, ok, c);
    }
  }
}
