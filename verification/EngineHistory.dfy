/** The variables of the engine and the phases of its decoders, told from what has happened: for every run
    from the start, with any stops, resumes and cancellations, each is an exact condition on the steps taken. */
module EngineHistory {
  import opened Types
  import opened Engine

  // The first n steps can be taken, and where they lead.
  predicate IsRun(e: Engine, run: seq<Step>, n: nat)
    requires n <= |run|
    decreases n, 0
  {
    n == 0 || (IsRun(e, run, n - 1) && Enabled(EngineAt(e, run, n - 1), run[n - 1]))
  }

  function EngineAt(e: Engine, run: seq<Step>, n: nat): Engine
    requires n <= |run| && IsRun(e, run, n)
    decreases n, 1
  {
    if n == 0 then e else Apply(EngineAt(e, run, n - 1), run[n - 1])
  }

  lemma {:induction false} AtShift(e: Engine, run: seq<Step>, n: nat)
    requires run != [] && n < |run| && Enabled(e, run[0])
    requires IsRun(Apply(e, run[0]), run[1..], n)
    ensures IsRun(e, run, n + 1) && EngineAt(e, run, n + 1) == EngineAt(Apply(e, run[0]), run[1..], n)
    decreases n
  {
    if n > 0 {
      AtShift(e, run, n - 1);
      assert run[1..][n - 1] == run[n];
    } else {
      assert IsRun(e, run, 0) && EngineAt(e, run, 0) == e;
    }
  }

  lemma {:induction false} LeadsIsRun(e: Engine, run: seq<Step>, e': Engine)
    requires Leads(e, run, e')
    ensures IsRun(e, run, |run|) && EngineAt(e, run, |run|) == e'
    decreases run
  {
    if run != [] {
      LeadsIsRun(Apply(e, run[0]), run[1..], e');
      AtShift(e, run, |run| - 1);
    }
  }

  // ---------------------------------------------------------------- what has happened in the first n steps

  ghost predicate Has(run: seq<Step>, n: nat, step: Step)
    requires n <= |run|
  {
    exists i :: 0 <= i < n && run[i] == step
  }

  // The engine was stopped and not started again.
  ghost predicate Stopped(run: seq<Step>, n: nat)
    requires n <= |run|
  {
    exists i :: 0 <= i < n && run[i] == Stop && forall j :: i < j < n ==> run[j] != Start
  }

  // Decoder t was the last to come to wait, and no wait has ended since.
  ghost predicate Queued(run: seq<Step>, n: nat, t: nat)
    requires n <= |run|
  {
    exists i :: 0 <= i < n && run[i] == EnterWait(t) && forall j :: i < j < n ==> !run[j].EnterWait? && !run[j].LeaveWait?
  }

  // A decoder was cancelled while it was queued, and no wait has ended since.
  ghost predicate Triggered(run: seq<Step>, n: nat)
    requires n <= |run|
  {
    exists i :: 0 <= i < n && run[i].Cancel? && Queued(run, i, run[i].id) && forall j :: i < j < n ==> !run[j].LeaveWait?
  }

  // The i-th step is a decoder taking over the engine: its wait ends on a running one without a cancellation.
  ghost predicate Takes(run: seq<Step>, i: nat)
    requires i < |run|
  {
    run[i].LeaveWait? && !Stopped(run, i) && !Triggered(run, i)
  }

  // Decoder t was the last to take over the engine, and no decoder has cleared it since.
  ghost predicate HasTaken(run: seq<Step>, n: nat, t: nat)
    requires n <= |run|
  {
    exists i :: 0 <= i < n && run[i] == LeaveWait(t) && Takes(run, i)
                && forall j :: i < j < n ==> !run[j].Clear? && !Takes(run, j)
  }

  // The wait of decoder t ended on a stopped engine, or on a running one.
  ghost predicate TurnedAway(run: seq<Step>, n: nat, t: nat)
    requires n <= |run|
  {
    exists i :: 0 <= i < n && run[i] == LeaveWait(t) && Stopped(run, i)
  }

  ghost predicate LetThrough(run: seq<Step>, n: nat, t: nat)
    requires n <= |run|
  {
    exists i :: 0 <= i < n && run[i] == LeaveWait(t) && !Stopped(run, i)
  }

  // ---------------------------------------------------------------- the variables

  lemma {:induction false} RunningIs(n: nat, run: seq<Step>, i: nat)
    requires i <= |run| && IsRun(Init(n), run, i)
    ensures !EngineAt(Init(n), run, i).running <==> Stopped(run, i)
    decreases i
  {
    if i > 0 {
      RunningIs(n, run, i - 1);
    }
  }

  lemma {:induction false} QueuedIs(n: nat, run: seq<Step>, i: nat, t: nat)
    requires i <= |run| && IsRun(Init(n), run, i)
    ensures EngineAt(Init(n), run, i).queued == Some(t) <==> Queued(run, i, t)
    decreases i
  {
    if i > 0 {
      QueuedIs(n, run, i - 1, t);
    }
  }

  lemma {:induction false} TriggerIs(n: nat, run: seq<Step>, i: nat)
    requires i <= |run| && IsRun(Init(n), run, i)
    ensures EngineAt(Init(n), run, i).trigger <==> Triggered(run, i)
    decreases i
  {
    if i > 0 {
      TriggerIs(n, run, i - 1);
      if run[i - 1].Cancel? {
        QueuedIs(n, run, i - 1, run[i - 1].id);
      }
    }
  }

  lemma {:induction false} CurrentIs(n: nat, run: seq<Step>, i: nat, t: nat)
    requires i <= |run| && IsRun(Init(n), run, i)
    ensures EngineAt(Init(n), run, i).curr == Some(t) <==> HasTaken(run, i, t)
    decreases i
  {
    if i > 0 {
      CurrentIs(n, run, i - 1, t);
      RunningIs(n, run, i - 1);
      TriggerIs(n, run, i - 1);
    }
  }

  // ---------------------------------------------------------------- the decoders

  // All that decoder t has done, given its phase.
  ghost predicate FateOk(run: seq<Step>, n: nat, t: nat, phase: Phase)
    requires n <= |run|
  {
    var left := Has(run, n, Clear(t)) || Has(run, n, Abandon(t));
    match phase
    case New => !Has(run, n, EnterWait(t)) && !Has(run, n, LeaveWait(t)) && !left
    case InWait => Has(run, n, EnterWait(t)) && !Has(run, n, LeaveWait(t)) && !left
    case Past => Has(run, n, EnterWait(t)) && LetThrough(run, n, t) && !TurnedAway(run, n, t) && !left
    case Gone => Has(run, n, EnterWait(t)) && (if left then LetThrough(run, n, t) && !TurnedAway(run, n, t)
                                               else TurnedAway(run, n, t) && !LetThrough(run, n, t))
  }

  lemma HasSnoc(run: seq<Step>, n: nat, step: Step)
    requires n < |run|
    ensures Has(run, n + 1, step) <==> Has(run, n, step) || run[n] == step
  {
  }

  lemma WaitSnoc(run: seq<Step>, n: nat, t: nat)
    requires n < |run|
    ensures TurnedAway(run, n + 1, t) <==> TurnedAway(run, n, t) || (run[n] == LeaveWait(t) && Stopped(run, n))
    ensures LetThrough(run, n + 1, t) <==> LetThrough(run, n, t) || (run[n] == LeaveWait(t) && !Stopped(run, n))
  {
  }

  lemma NoWaitNoFate(run: seq<Step>, n: nat, t: nat)
    requires n <= |run| && !Has(run, n, LeaveWait(t))
    ensures !TurnedAway(run, n, t) && !LetThrough(run, n, t)
  {
  }

  lemma FateStep(e: Engine, run: seq<Step>, i: nat, t: nat)
    requires i < |run| && t < |e.phases| && Enabled(e, run[i])
    requires FateOk(run, i, t, e.phases[t]) && (!e.running <==> Stopped(run, i))
    ensures t < |Apply(e, run[i]).phases| && FateOk(run, i + 1, t, Apply(e, run[i]).phases[t])
  {
    HasSnoc(run, i, EnterWait(t));
    HasSnoc(run, i, LeaveWait(t));
    HasSnoc(run, i, Clear(t));
    HasSnoc(run, i, Abandon(t));
    WaitSnoc(run, i, t);
    if !Has(run, i, LeaveWait(t)) {
      NoWaitNoFate(run, i, t);
    }
  }

  lemma {:induction false} FateIs(n: nat, run: seq<Step>, i: nat, t: nat)
    requires i <= |run| && IsRun(Init(n), run, i) && t < n
    ensures |EngineAt(Init(n), run, i).phases| == n && FateOk(run, i, t, EngineAt(Init(n), run, i).phases[t])
    decreases i
  {
    if i > 0 {
      FateIs(n, run, i - 1, t);
      RunningIs(n, run, i - 1);
      FateStep(EngineAt(Init(n), run, i - 1), run, i - 1, t);
    }
  }

  // ---------------------------------------------------------------- the theorems

  /** The variables, exactly, after every run from the start: the engine is off if and only if a stop has not
      been followed by a start; a decoder is queued if and only if it was the last to come and no wait has
      ended since; the trigger is set if and only if a cancellation met its decoder queued and no wait has
      ended since; and curr_decoder is the last decoder whose wait ended on a running engine without that
      trigger, until a decoder clears it. */
  lemma VariablesExactly(n: nat, run: seq<Step>, e: Engine, t: nat)
    requires Leads(Init(n), run, e)
    ensures !e.running <==> Stopped(run, |run|)
    ensures e.queued == Some(t) <==> Queued(run, |run|, t)
    ensures e.trigger <==> Triggered(run, |run|)
    ensures e.curr == Some(t) <==> HasTaken(run, |run|, t)
  {
    LeadsIsRun(Init(n), run, e);
    RunningIs(n, run, |run|);
    QueuedIs(n, run, |run|, t);
    TriggerIs(n, run, |run|);
    CurrentIs(n, run, |run|, t);
  }

  /** And the decoders: one waits from its entry until its wait ends; it is past the wait if that happened on a
      running engine, until it clears curr_decoder or ends without doing so; and it has ended if and only if it
      did either, or was turned away by a stopped engine. */
  lemma PhasesExactly(n: nat, run: seq<Step>, e: Engine, t: nat)
    requires Leads(Init(n), run, e) && t < n
    ensures In(e, t, New) <==> !Has(run, |run|, EnterWait(t))
    ensures In(e, t, InWait) <==> Has(run, |run|, EnterWait(t)) && !Has(run, |run|, LeaveWait(t))
    ensures In(e, t, Past) <==> LetThrough(run, |run|, t) && !Has(run, |run|, Clear(t)) && !Has(run, |run|, Abandon(t))
    ensures In(e, t, Gone) <==> TurnedAway(run, |run|, t) || Has(run, |run|, Clear(t)) || Has(run, |run|, Abandon(t))
  {
    LeadsIsRun(Init(n), run, e);
    FateIs(n, run, |run|, t);
    if !Has(run, |run|, LeaveWait(t)) {
      NoWaitNoFate(run, |run|, t);
    }
  }

  /** When a wait can end: while no decoder has the engine, or it is stopped, or a queued one was cancelled. */
  lemma WaitEndsExactly(n: nat, run: seq<Step>, e: Engine, t: nat)
    requires Leads(Init(n), run, e) && In(e, t, InWait)
    ensures Enabled(e, LeaveWait(t))
            <==> (forall u: nat :: !HasTaken(run, |run|, u)) || Stopped(run, |run|) || Triggered(run, |run|)
  {
    VariablesExactly(n, run, e, t);
    if e.curr.Some? {
      VariablesExactly(n, run, e, e.curr.value);
    }
    forall u: nat
      ensures e.curr == Some(u) <==> HasTaken(run, |run|, u)
    {
      VariablesExactly(n, run, e, u);
    }
  }

  /** A decoder that waits for an idle engine takes it over if and only if the engine has not been stopped, or
      has been started again; otherwise it ends and leaves curr_decoder alone. */
  lemma IdleEngineTaken(n: nat, run: seq<Step>, e: Engine, t: nat)
    requires Leads(Init(n), run, e) && NoCancel(run) && e.curr == None && In(e, t, InWait)
    ensures Enabled(e, LeaveWait(t))
    ensures var e' := Apply(e, LeaveWait(t));
            if Stopped(run, |run|) then In(e', t, Gone) && e'.curr == None
            else In(e', t, Past) && e'.curr == Some(t)
  {
    RunExclusive(Init(n), run, e);
    VariablesExactly(n, run, e, t);
  }

  // Who has ended without clearing the engine keeps it.
  ghost predicate KeptBy(e: Engine, run: seq<Step>, n: nat, t: nat)
    requires n <= |run|
  {
    && (e.curr == Some(t) ==> In(e, t, Past) || Has(run, n, Abandon(t)))
    && (Has(run, n, Abandon(t)) ==> e.curr == Some(t) && In(e, t, Gone))
  }

  lemma {:induction false} KeptIs(n: nat, run: seq<Step>, i: nat, t: nat)
    requires i <= |run| && IsRun(Init(n), run, i) && NoCancel(run)
    ensures var e := EngineAt(Init(n), run, i); Exclusive(e) && !e.trigger && KeptBy(e, run, i, t)
    decreases i
  {
    if i > 0 {
      KeptIs(n, run, i - 1, t);
      StepExclusive(EngineAt(Init(n), run, i - 1), run[i - 1]);
      HasSnoc(run, i - 1, Abandon(t));
    }
  }

  /** Without cancellations curr_decoder points to the decoder past the wait, or to one that ended without
      clearing it, and to nothing else: a decoder turned away by a stop never holds the engine. */
  lemma CurrentExactly(n: nat, run: seq<Step>, e: Engine, t: nat)
    requires Leads(Init(n), run, e) && NoCancel(run)
    ensures e.curr == Some(t) <==> In(e, t, Past) || Has(run, |run|, Abandon(t))
  {
    LeadsIsRun(Init(n), run, e);
    KeptIs(n, run, |run|, t);
  }
}
