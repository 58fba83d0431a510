/** decoders/mddecoder.c, the hand-over of curr_decoder: md_decoder_wait, md_stop_decoder_engine,
    md_start_decoder_engine, md_cancel_queued, and the ways a decoder ends.

    `Engine` is the value of the file-level variables with the phase of every decoder thread; the class
    `DecoderEngine` holds the variables themselves. */
module Engine {
  import opened Types
  import P = Pipeline

  // Not started; inside md_decoder_wait; past it; ended.
  datatype Phase = New | InWait | Past | Gone

  datatype Engine = Engine(curr: Option<nat>, queued: Option<nat>, running: bool, trigger: bool, phases: seq<Phase>)

  datatype Step =
    | EnterWait(t: nat)   // md_decoder_wait takes the mutex for the first time
    | LeaveWait(t: nat)   // its wait loop ends
    | Clear(t: nat)       // md_decoder_done clears curr_decoder
    | Abandon(t: nat)     // the thread ends without clearing it
    | Stop                // md_stop_decoder_engine
    | Start               // md_start_decoder_engine
    | Cancel(id: nat)     // md_cancel_queued

  // The condition of the wait loop.
  predicate MustWait(e: Engine) {
    e.curr.Some? && e.running && !e.trigger
  }

  predicate In(e: Engine, t: nat, phase: Phase) {
    t < |e.phases| && e.phases[t] == phase
  }

  predicate Enabled(e: Engine, step: Step) {
    match step
    case EnterWait(t) => In(e, t, New)
    case LeaveWait(t) => In(e, t, InWait) && !MustWait(e)
    case Clear(t) => In(e, t, Past)
    case Abandon(t) => In(e, t, Past)
    case _ => true
  }

  function Move(e: Engine, t: nat, phase: Phase): Engine
    requires t < |e.phases|
  {
    e.(phases := e.phases[t := phase])
  }

  // What md_decoder_wait does to the variables once its loop has ended.
  function Leave(e: Engine, t: nat): Engine {
    e.(curr := if e.running && !e.trigger then Some(t) else e.curr, trigger := false, queued := None)
  }

  function Apply(e: Engine, step: Step): Engine
    requires Enabled(e, step)
  {
    match step
    case EnterWait(t) => Move(e, t, InWait).(queued := Some(t))
    case LeaveWait(t) => Move(Leave(e, t), t, if e.running then Past else Gone)
    case Clear(t) => Move(e, t, Gone).(curr := None)
    case Abandon(t) => Move(e, t, Gone)
    case Stop => e.(running := false)
    case Start => e.(running := true)
    case Cancel(id) => if e.queued == Some(id) then e.(trigger := true) else e
  }

  function Init(n: nat): Engine {
    Engine(None, None, true, false, seq(n, _ => New))
  }

  // `run` leads from e to e'.
  predicate Leads(e: Engine, run: seq<Step>, e': Engine)
    decreases run
  {
    if run == [] then e == e'
    else Enabled(e, run[0]) && Leads(Apply(e, run[0]), run[1..], e')
  }

  ghost predicate NoCancel(run: seq<Step>) {
    forall i :: 0 <= i < |run| ==> !run[i].Cancel?
  }

  // Whoever is past the wait is the one curr_decoder points to; nobody is pointed to while waiting.
  ghost predicate Exclusive(e: Engine) {
    && (forall t: nat :: In(e, t, Past) ==> e.curr == Some(t))
    && (e.curr.Some? ==> In(e, e.curr.value, Past) || In(e, e.curr.value, Gone))
  }

  /** One step keeps exclusivity, unless it is a wait ending on a running engine whose trigger is set:
      exactly those steps break it. */
  lemma StepExclusive(e: Engine, step: Step)
    requires Exclusive(e) && Enabled(e, step)
    ensures Exclusive(Apply(e, step)) <==> !(step.LeaveWait? && e.running && e.trigger)
  {
    var e' := Apply(e, step);
    if step.LeaveWait? {
      assert e.curr != Some(step.t);
      assert In(e', step.t, if e.running then Past else Gone);
      if e.running && e.trigger {
        assert In(e', step.t, Past) && e'.curr != Some(step.t);
      }
    }
    if !(step.LeaveWait? && e.running && e.trigger) {
      forall t: nat | In(e', t, Past)
        ensures e'.curr == Some(t)
      {
        assert t < |e.phases|;
        assert In(e, t, Past) || (step.LeaveWait? && step.t == t);
      }
    }
  }

  /** Exclusivity over whole runs, with any number of stops and resumes, as long as nothing is
      cancelled. */
  lemma {:induction false} RunExclusive(e: Engine, run: seq<Step>, e': Engine)
    requires Exclusive(e) && !e.trigger && Leads(e, run, e') && NoCancel(run)
    ensures Exclusive(e') && !e'.trigger
    decreases run
  {
    if run != [] {
      StepExclusive(e, run[0]);
      RunExclusive(Apply(e, run[0]), run[1..], e');
    }
  }

  lemma InitExclusive(n: nat, run: seq<Step>, e: Engine)
    requires Leads(Init(n), run, e) && NoCancel(run)
    ensures Exclusive(e)
  {
    RunExclusive(Init(n), run, e);
  }

  /** With md_cancel_queued two decoders get past the wait: the cancelled one is let through. */
  lemma CancelBreaksExclusivity()
    ensures exists run, e :: Leads(Init(2), run, e) && In(e, 0, Past) && In(e, 1, Past)
  {
    var e2 := Engine(Some(0), None, true, false, [Past, New]);
    var run1 := [EnterWait(0), LeaveWait(0)];
    assert Leads(Init(2), run1, e2) by {
      assert run1[1..] == [LeaveWait(0)] && run1[1..][1..] == [];
      assert Apply(Init(2), EnterWait(0)) == Engine(None, Some(0), true, false, [InWait, New]);
      assert Apply(Engine(None, Some(0), true, false, [InWait, New]), LeaveWait(0)) == e2;
    }
    var e5 := CancelLetsThrough(e2);
    var run2 := [EnterWait(1), Cancel(1), LeaveWait(1)];
    LeadsConcat(Init(2), run1, e2, run2, e5);
    assert In(e5, 0, Past) && In(e5, 1, Past);
  }

  lemma CancelLetsThrough(e: Engine) returns (e': Engine)
    requires e == Engine(Some(0), None, true, false, [Past, New])
    ensures Leads(e, [EnterWait(1), Cancel(1), LeaveWait(1)], e') && e'.phases == [Past, Past]
  {
    var run := [EnterWait(1), Cancel(1), LeaveWait(1)];
    assert run[1..] == [Cancel(1), LeaveWait(1)] && run[1..][1..] == [LeaveWait(1)] && run[1..][1..][1..] == [];
    var e3 := Engine(Some(0), Some(1), true, false, [Past, InWait]);
    var e4 := e3.(trigger := true);
    e' := Engine(Some(0), None, true, false, [Past, Past]);
    assert Apply(e, EnterWait(1)) == e3;
    assert Apply(e3, Cancel(1)) == e4;
    assert Apply(e4, LeaveWait(1)) == e';
    assert Leads(e4, [LeaveWait(1)], e');
    assert Leads(e3, [Cancel(1), LeaveWait(1)], e');
  }

  lemma {:induction false} LeadsConcat(e0: Engine, run1: seq<Step>, e1: Engine, run2: seq<Step>, e2: Engine)
    requires Leads(e0, run1, e1) && Leads(e1, run2, e2)
    ensures Leads(e0, run1 + run2, e2)
    decreases run1
  {
    if run1 == [] {
      assert run1 + run2 == run2;
    } else {
      LeadsConcat(Apply(e0, run1[0]), run1[1..], e1, run2, e2);
      assert (run1 + run2)[1..] == run1[1..] + run2;
    }
  }

  /** A decoder that ends without clearing curr_decoder blocks the engine for good: in every further
      run without a cancellation, however often it is stopped and resumed, curr_decoder keeps pointing
      to it and no other decoder gets past the wait. */
  lemma {:induction false} AbandonedBlocksForever(e: Engine, t: nat, run: seq<Step>, e': Engine)
    requires Exclusive(e) && !e.trigger && e.curr == Some(t) && In(e, t, Gone)
    requires Leads(e, run, e') && NoCancel(run)
    ensures e'.curr == Some(t) && In(e', t, Gone) && forall u: nat :: !In(e', u, Past)
    decreases run
  {
    if run == [] {
      assert forall u: nat :: In(e, u, Past) ==> u == t;
    } else {
      var next := Apply(e, run[0]);
      assert forall u: nat :: !In(e, u, Past);
      StepExclusive(e, run[0]);
      AbandonedBlocksForever(next, t, run[1..], e');
    }
  }

  // ---------------------------------------------------------------- the pipeline is an engine

  function PhaseOf(phase: P.Phase): Phase {
    match phase
    case Unborn => New
    case Waiting => InWait
    case Decoding => Past
    case Adding(_, _) => Past
    case Clearing => Past
    case Exited => Gone
    case Abandoned => Gone
  }

  function Project(s: P.State, queued: Option<nat>): Engine {
    Engine(s.curr, queued, true, false, seq(|s.threads|, t requires 0 <= t < |s.threads| => PhaseOf(s.threads[t].phase)))
  }

  lemma ProjectThread(s: P.State, s': P.State, queued: Option<nat>, t: nat)
    requires t < |s.threads| == |s'.threads| && s'.curr == s.curr && s'.threads == s.threads[t := s'.threads[t]]
    ensures Project(s', queued) == Move(Project(s, queued), t, PhaseOf(s'.threads[t].phase))
  {
  }

  lemma SpawnIs(cfg: P.Config, s: P.State, t: nat, queued: Option<nat>)
    requires P.Enabled(cfg, s, P.Spawn(t))
    ensures Enabled(Project(s, queued), EnterWait(t))
    ensures Project(P.Apply(cfg, s, P.Spawn(t)), Some(t)) == Apply(Project(s, queued), EnterWait(t))
  {
    ProjectThread(s, P.Apply(cfg, s, P.Spawn(t)), queued, t);
  }

  lemma AcquireIs(cfg: P.Config, s: P.State, t: nat, addr: nat, queued: Option<nat>)
    requires P.Enabled(cfg, s, P.Acquire(t, addr))
    ensures Enabled(Project(s, queued), LeaveWait(t))
    ensures Project(P.Apply(cfg, s, P.Acquire(t, addr)), None) == Apply(Project(s, queued), LeaveWait(t))
  {
    var s' := P.Apply(cfg, s, P.Acquire(t, addr));
    ProjectThread(s, s'.(curr := s.curr), queued, t);
  }

  lemma ReleaseIs(cfg: P.Config, s: P.State, t: nat, queued: Option<nat>)
    requires P.Enabled(cfg, s, P.Release(t))
    ensures Enabled(Project(s, queued), Clear(t))
    ensures Project(P.Apply(cfg, s, P.Release(t)), queued) == Apply(Project(s, queued), Clear(t))
  {
    var s' := P.Apply(cfg, s, P.Release(t));
    ProjectThread(s, s'.(curr := s.curr), queued, t);
  }

  // A thread past the wait that stays there, or ends without clearing the engine.
  lemma PastIs(s: P.State, s': P.State, t: nat, queued: Option<nat>)
    requires t < |s.threads| == |s'.threads| && s'.curr == s.curr && s'.threads == s.threads[t := s'.threads[t]]
    requires PhaseOf(s.threads[t].phase) == Past
    ensures PhaseOf(s'.threads[t].phase) == Past ==> Project(s', queued) == Project(s, queued)
    ensures PhaseOf(s'.threads[t].phase) == Gone ==>
              Enabled(Project(s, queued), Abandon(t)) && Project(s', queued) == Apply(Project(s, queued), Abandon(t))
  {
    ProjectThread(s, s', queued, t);
    var phases := Project(s, queued).phases;
    assert phases[t := phases[t]] == phases;
  }

  lemma DecodingIs(cfg: P.Config, s: P.State, step: P.Step)
    requires P.Enabled(cfg, s, step) && (step.FeedByte? || step.Put? || step.Done?)
    ensures var s', t := P.Apply(cfg, s, step), step.t;
            && t < |s.threads| == |s'.threads| && s'.curr == s.curr && s'.threads == s.threads[t := s'.threads[t]]
            && PhaseOf(s.threads[t].phase) == Past
            && (PhaseOf(s'.threads[t].phase) == Past || PhaseOf(s'.threads[t].phase) == Gone)
  {
  }

  // What the engine makes of a step of the pipeline.
  ghost predicate IsEngineStep(e: Engine, e': Engine, queued: Option<nat>) {
    || e'.(queued := queued) == e.(queued := queued)
    || exists step: Step :: !step.Cancel? && Enabled(e, step) && e' == Apply(e, step)
  }

  /** Every step of the pipeline is a step of a running engine without cancellations, or leaves it
      alone. */
  lemma PipelineIsEngine(cfg: P.Config, s: P.State, step: P.Step, queued: Option<nat>) returns (queued': Option<nat>)
    requires P.Enabled(cfg, s, step)
    ensures IsEngineStep(Project(s, queued), Project(P.Apply(cfg, s, step), queued'), queued)
  {
    queued' := queued;
    match step {
      case Spawn(t) =>
        queued' := Some(t);
        SpawnIs(cfg, s, t, queued);
      case Acquire(t, addr) =>
        queued' := None;
        AcquireIs(cfg, s, t, addr, queued);
      case Release(t) =>
        ReleaseIs(cfg, s, t, queued);
      case FeedByte(t) =>
        DecodingIs(cfg, s, step);
        PastIs(s, P.Apply(cfg, s, step), t, queued);
      case Put(t) =>
        DecodingIs(cfg, s, step);
        PastIs(s, P.Apply(cfg, s, step), t, queued);
      case Done(t) =>
        DecodingIs(cfg, s, step);
        PastIs(s, P.Apply(cfg, s, step), t, queued);
      case _ =>
        assert Project(P.Apply(cfg, s, step), queued) == Project(s, queued);
    }
  }

  // ---------------------------------------------------------------- in place

  /** The file-level variables of mddecoder.c. Decoders are known by their identity. */
  class DecoderEngine {
    var currDecoder: Option<nat>
    var queuedDecoder: Option<nat>
    var decoderRunning: bool
    var decoderTrigger: bool

    // The variables as part of an engine whose threads are in these phases.
    ghost function View(phases: seq<Phase>): Engine
      reads this
    {
      Engine(currDecoder, queuedDecoder, decoderRunning, decoderTrigger, phases)
    }

    // md_decoder_init
    constructor ()
      ensures forall n: nat :: View(Init(n).phases) == Init(n)
    {
      currDecoder, queuedDecoder := None, None;
      decoderRunning, decoderTrigger := true, false;
    }

    // md_decoder_wait before its loop
    method BeginWait(decoder: nat)
      modifies this`queuedDecoder
      ensures queuedDecoder == Some(decoder)
      ensures forall phases :: In(old(View(phases)), decoder, New) ==>
                View(phases[decoder := InWait]) == Apply(old(View(phases)), EnterWait(decoder))
    {
      queuedDecoder := Some(decoder);
    }

    // md_decoder_wait after its loop
    method EndWait(decoder: nat) returns (ret: bool)
      requires !MustWait(View([]))
      modifies this
      ensures ret == old(decoderRunning) == decoderRunning && queuedDecoder == None && !decoderTrigger
      ensures !ret || old(decoderTrigger) ==> currDecoder == old(currDecoder)
      ensures ret && !old(decoderTrigger) ==> old(currDecoder) == None && currDecoder == Some(decoder)
      ensures forall phases :: In(old(View(phases)), decoder, InWait) ==>
                View(phases[decoder := if ret then Past else Gone]) == Apply(old(View(phases)), LeaveWait(decoder))
    {
      if decoderRunning && !decoderTrigger {
        currDecoder := Some(decoder);
      } else if decoderTrigger {
        decoderTrigger := false;
      }
      queuedDecoder := None;
      ret := decoderRunning;
    }

    // md_stop_decoder_engine
    method StopEngine()
      modifies this`decoderRunning
      ensures !decoderRunning
      ensures forall phases :: View(phases) == Apply(old(View(phases)), Stop)
    {
      decoderRunning := false;
    }

    // md_start_decoder_engine
    method StartEngine()
      modifies this`decoderRunning
      ensures decoderRunning
      ensures forall phases :: View(phases) == Apply(old(View(phases)), Start)
    {
      decoderRunning := true;
    }

    // md_cancel_queued
    method CancelQueued(id: nat) returns (ret: bool)
      modifies this`decoderTrigger
      ensures ret == (queuedDecoder == Some(id)) && decoderTrigger == (ret || old(decoderTrigger))
      ensures forall phases :: View(phases) == Apply(old(View(phases)), Cancel(id))
    {
      ret := queuedDecoder == Some(id);
      if ret {
        decoderTrigger := true;
      }
    }

    // md_no_more_decoders
    method NoMoreDecoders() returns (ret: bool)
      ensures ret == (currDecoder == None)
    {
      ret := currDecoder.None?;
    }

    // The end of md_decoder_done
    method ClearCurrent(decoder: nat)
      modifies this`currDecoder
      ensures currDecoder == None
      ensures forall phases :: In(old(View(phases)), decoder, Past) ==>
                View(phases[decoder := Gone]) == Apply(old(View(phases)), Clear(decoder))
    {
      currDecoder := None;
    }
  }
}
