/** The decoder engine with its condition variable: waiting decoders sleep and are woken by signals, one
    at least for each, or spuriously. Stopping the engine and cancelling a decoder each send one signal,
    whoever is waiting. */
module EngineSignals {
  import opened Types
  import opened Engine

  // `asleep` are the decoders sleeping in the loop of md_decoder_wait.
  datatype Sleeping = Sleeping(e: Engine, asleep: set<nat>)

  datatype SleepStep =
    | Act(step: Step, woken: set<nat>)   // a step of the engine, and whom its signal wakes
    | FallAsleep(t: nat)
    | Spurious(t: nat)

  // pthread_cond_signal(&decoder_cond)
  predicate Signals(e: Engine, step: Step) {
    step.Clear? || step.Stop? || step.Start? || (step.Cancel? && e.queued == Some(step.id))
  }

  // A signal wakes one sleeper at least, if there are any.
  predicate WakeOk(asleep: set<nat>, signal: bool, woken: set<nat>) {
    if signal then woken <= asleep && (asleep != {} ==> woken != {}) else woken == {}
  }

  predicate CanTake(s: Sleeping, step: SleepStep) {
    match step
    case Act(st, woken) => Enabled(s.e, st) && (st.LeaveWait? ==> st.t !in s.asleep) && WakeOk(s.asleep, Signals(s.e, st), woken)
    case FallAsleep(t) => In(s.e, t, InWait) && MustWait(s.e) && t !in s.asleep
    case Spurious(t) => t in s.asleep
  }

  function After(s: Sleeping, step: SleepStep): Sleeping
    requires CanTake(s, step)
  {
    match step
    case Act(st, woken) => Sleeping(Apply(s.e, st), s.asleep - woken)
    case FallAsleep(t) => s.(asleep := s.asleep + {t})
    case Spurious(t) => s.(asleep := s.asleep - {t})
  }

  predicate Reaches(s: Sleeping, run: seq<SleepStep>, s': Sleeping)
    decreases run
  {
    if run == [] then s == s' else CanTake(s, run[0]) && Reaches(After(s, run[0]), run[1..], s')
  }

  // Whoever sleeps is waiting.
  ghost predicate SleepersWait(s: Sleeping) {
    forall t <- s.asleep :: In(s.e, t, InWait)
  }

  lemma StepKeepsSleepers(s: Sleeping, step: SleepStep)
    requires SleepersWait(s) && CanTake(s, step)
    ensures SleepersWait(After(s, step))
  {
  }

  /** In every run, with any stops, resumes and cancellations, whoever sleeps is waiting, and the engine
      takes only its own steps. */
  lemma {:induction false} RunKeepsSleepers(s: Sleeping, run: seq<SleepStep>, s': Sleeping)
    requires SleepersWait(s) && Reaches(s, run, s')
    ensures SleepersWait(s') && exists steps: seq<Step> :: Leads(s.e, steps, s'.e)
    decreases run
  {
    if run == [] {
      assert Leads(s.e, [], s'.e);
    } else {
      StepKeepsSleepers(s, run[0]);
      var next := After(s, run[0]);
      RunKeepsSleepers(next, run[1..], s');
      var steps: seq<Step> :| Leads(next.e, steps, s'.e);
      if run[0].Act? {
        assert ([run[0].step] + steps)[1..] == steps;
        assert Leads(s.e, [run[0].step] + steps, s'.e);
      }
    }
  }

  // ---------------------------------------------------------------- nobody is forgotten

  // Somebody is on the way out of the wait loop.
  ghost predicate SomeoneUp(s: Sleeping) {
    exists t :: In(s.e, t, InWait) && t !in s.asleep
  }

  /** Whatever makes the wait loop's condition false, be it a decoder that ends, a stop or a cancellation, gets
      one of the sleepers to look again, in every run. */
  lemma ReleaseIsSeen(s: Sleeping, step: SleepStep)
    requires SleepersWait(s) && CanTake(s, step) && MustWait(s.e) && !MustWait(After(s, step).e)
    ensures s.asleep != {} ==> SomeoneUp(After(s, step))
  {
    if s.asleep != {} {
      var t :| t in step.woken;
      assert In(After(s, step).e, t, InWait);
    }
  }

  ghost predicate NoneCancels(run: seq<SleepStep>) {
    forall i :: 0 <= i < |run| ==> !(run[i].Act? && run[i].step.Cancel?)
  }

  // Decoders do not sleep beside an engine that is running and idle, unless one of them is up.
  ghost predicate IdleIsSeen(s: Sleeping) {
    s.e.running && s.e.curr == None && s.asleep != {} ==> SomeoneUp(s)
  }

  lemma StepKeepsSeen(s: Sleeping, step: SleepStep)
    requires SleepersWait(s) && IdleIsSeen(s) && !s.e.trigger && CanTake(s, step) && !(step.Act? && step.step.Cancel?)
    ensures IdleIsSeen(After(s, step)) && !After(s, step).e.trigger
  {
    var s' := After(s, step);
    if s'.e.running && s'.e.curr == None && s'.asleep != {} {
      var t;
      if step.Act? && (step.step.Start? || step.step.Clear?) {
        t :| t in step.woken;
      } else if step.Spurious? {
        t := step.t;
      } else {
        t :| In(s.e, t, InWait) && t !in s.asleep;
      }
      assert In(s'.e, t, InWait) && t !in s'.asleep;
    }
  }

  /** No decoder is forgotten: in every run without a cancellation, with any stops and resumptions, a running
      engine without a current decoder has nobody asleep before it, or somebody up who can take it over. */
  lemma {:induction false} IdleEngineIsSeen(s: Sleeping, run: seq<SleepStep>, s': Sleeping)
    requires SleepersWait(s) && IdleIsSeen(s) && !s.e.trigger && Reaches(s, run, s') && NoneCancels(run)
    ensures IdleIsSeen(s')
    decreases run
  {
    if run != [] {
      StepKeepsSeen(s, run[0]);
      StepKeepsSleepers(s, run[0]);
      IdleEngineIsSeen(After(s, run[0]), run[1..], s');
    }
  }

  lemma OneLeft(asleep: set<nat>, t: nat)
    requires t in asleep && |asleep| >= 2
    ensures asleep - {t} != {}
  {
    assert |asleep - {t}| == |asleep| - 1;
  }

  lemma AtMostOne(asleep: set<nat>, woken: set<nat>)
    requires |asleep| <= 1 && woken <= asleep && (asleep != {} ==> woken != {})
    ensures asleep - woken == {}
  {
    if t :| t in woken {
      assert |asleep - {t}| == 0;
      assert asleep - woken <= asleep - {t};
    }
  }

  // ---------------------------------------------------------------- stopping

  // Steps of the decoders that send no signal. Nothing else happens after a stop but another signal or a
  // spurious wakeup.
  predicate Quiet(step: SleepStep) {
    step.FallAsleep? || (step.Act? && (step.step.EnterWait? || step.step.LeaveWait? || step.step.Abandon?))
  }

  ghost predicate AllQuiet(run: seq<SleepStep>) {
    forall i :: 0 <= i < |run| ==> Quiet(run[i])
  }

  ghost predicate QuietEnd(s: Sleeping) {
    forall step :: Quiet(step) ==> !CanTake(s, step)
  }

  lemma {:induction false} QuietKeepsAsleep(s: Sleeping, run: seq<SleepStep>, s': Sleeping)
    requires !s.e.running && Reaches(s, run, s') && AllQuiet(run)
    ensures !s'.e.running && s'.asleep == s.asleep
    decreases run
  {
    if run != [] {
      assert Quiet(run[0]);
      QuietKeepsAsleep(After(s, run[0]), run[1..], s');
    }
  }

  // Where the decoders come to rest on a stopped engine.
  lemma AtRest(s: Sleeping, t: nat)
    requires SleepersWait(s) && !s.e.running && QuietEnd(s)
    ensures In(s.e, t, InWait) <==> t in s.asleep
  {
    assert Quiet(Act(LeaveWait(t), {}));
  }

  // How far the decoders are from having ended.
  function ToGo(phases: seq<Phase>): nat {
    if phases == [] then 0
    else
      ToGo(phases[..|phases| - 1]) +
      match phases[|phases| - 1]
      case New => 3
      case InWait => 2
      case Past => 1
      case Gone => 0
  }

  lemma {:induction false} ToGoUpdate(phases: seq<Phase>, t: nat, phase: Phase)
    requires t < |phases|
    ensures ToGo(phases[t := phase]) - ToGo([phase]) == ToGo(phases) - ToGo([phases[t]])
    decreases |phases|
  {
    var n := |phases| - 1;
    assert [phase][..0] == [] && [phases[t]][..0] == [];
    if t == n {
      assert phases[t := phase][..n] == phases[..n];
    } else {
      ToGoUpdate(phases[..n], t, phase);
      assert phases[t := phase][..n] == phases[..n][t := phase];
    }
  }

  lemma QuietComesCloser(s: Sleeping, step: SleepStep)
    requires !s.e.running && CanTake(s, step) && Quiet(step)
    ensures !After(s, step).e.running && ToGo(After(s, step).e.phases) < ToGo(s.e.phases)
  {
    var t := step.step.t;
    var phase := After(s, step).e.phases[t];
    ToGoUpdate(s.e.phases, t, phase);
    assert [phase][..0] == [] && [s.e.phases[t]][..0] == [];
    assert After(s, step).e.phases == s.e.phases[t := phase];
  }

  lemma {:induction false} ComesToRest(s: Sleeping) returns (run: seq<SleepStep>, s': Sleeping)
    requires !s.e.running && SleepersWait(s)
    ensures Reaches(s, run, s') && AllQuiet(run) && QuietEnd(s') && SleepersWait(s')
    decreases ToGo(s.e.phases)
  {
    run, s' := [], s;
    if step :| Quiet(step) && CanTake(s, step) {
      QuietComesCloser(s, step);
      StepKeepsSleepers(s, step);
      var rest;
      rest, s' := ComesToRest(After(s, step));
      run := [step] + rest;
      assert run[1..] == rest;
    }
  }

  // Everyone has left the wait when the decoders come to rest after a stop, whomever it wakes.
  ghost predicate AllLeave(s: Sleeping) {
    forall woken, run, s' ::
      WakeOk(s.asleep, true, woken) && Reaches(After(s, Act(Stop, woken)), run, s') && AllQuiet(run) && QuietEnd(s')
      ==> forall t: nat :: !In(s'.e, t, InWait)
  }

  lemma StopFreesOne(s: Sleeping)
    requires SleepersWait(s) && |s.asleep| <= 1
    ensures AllLeave(s)
  {
    forall woken, run, s' | WakeOk(s.asleep, true, woken) && Reaches(After(s, Act(Stop, woken)), run, s')
                            && AllQuiet(run) && QuietEnd(s')
      ensures forall t: nat :: !In(s'.e, t, InWait)
    {
      AtMostOne(s.asleep, woken);
      var s0 := After(s, Act(Stop, woken));
      StepKeepsSleepers(s, Act(Stop, woken));
      QuietKeepsAsleep(s0, run, s');
      RunKeepsSleepers(s0, run, s');
      forall t: nat ensures !In(s'.e, t, InWait) {
        AtRest(s', t);
      }
    }
  }

  lemma StopLeavesSome(s: Sleeping)
    requires SleepersWait(s) && |s.asleep| >= 2
    ensures !AllLeave(s)
  {
    var t :| t in s.asleep;
    OneLeft(s.asleep, t);
    var u :| u in s.asleep - {t};
    var s0 := After(s, Act(Stop, {t}));
    StepKeepsSleepers(s, Act(Stop, {t}));
    var run, s' := ComesToRest(s0);
    QuietKeepsAsleep(s0, run, s');
    AtRest(s', u);
  }

  /** md_stop_decoder_engine, exactly: when the decoders come to rest after it, without a further signal or
      a spurious wakeup, all of them have left md_decoder_wait, whomever its one signal wakes, if and only
      if at most one was asleep there. */
  lemma StopFreesAllExactly(s: Sleeping)
    requires SleepersWait(s)
    ensures AllLeave(s) <==> |s.asleep| <= 1
  {
    if |s.asleep| <= 1 {
      StopFreesOne(s);
    } else {
      StopLeavesSome(s);
    }
  }

  // ---------------------------------------------------------------- cancelling

  predicate Leaves(step: SleepStep, u: nat) {
    step.Act? && step.step == LeaveWait(u)
  }

  // The first decoder to leave the wait in this run, if any does, is `id`.
  ghost predicate FirstToLeave(run: seq<SleepStep>, id: nat) {
    forall i, u: nat :: 0 <= i < |run| && Leaves(run[i], u) && (forall j, v: nat :: 0 <= j < i ==> !Leaves(run[j], v))
      ==> u == id
  }

  // In every run after the cancellation of `id`, whomever it wakes and whatever else happens, `id` is the
  // first to leave the wait.
  ghost predicate ReachesOnly(s: Sleeping, id: nat) {
    forall woken, run, s' :: CanTake(s, Act(Cancel(id), woken)) && Reaches(After(s, Act(Cancel(id), woken)), run, s')
      ==> FirstToLeave(run, id)
  }

  // No other decoder is waiting, or will ever wait.
  ghost predicate NoOther(e: Engine, id: nat) {
    forall u: nat :: In(e, u, InWait) || In(e, u, New) ==> u == id
  }

  lemma NoOtherStays(s: Sleeping, step: SleepStep, id: nat)
    requires NoOther(s.e, id) && CanTake(s, step)
    ensures NoOther(After(s, step).e, id)
    ensures forall u: nat :: Leaves(step, u) ==> u == id
  {
    if step.Act? && (step.step.EnterWait? || step.step.LeaveWait?) {
      assert In(s.e, step.step.t, InWait) || In(s.e, step.step.t, New);
    }
    forall u: nat | In(After(s, step).e, u, InWait) || In(After(s, step).e, u, New)
      ensures u == id
    {
      assert In(s.e, u, InWait) || In(s.e, u, New);
    }
  }

  lemma {:induction false} OnlyLeaves(s: Sleeping, run: seq<SleepStep>, s': Sleeping, id: nat)
    requires NoOther(s.e, id) && Reaches(s, run, s')
    ensures forall i, u: nat :: 0 <= i < |run| && Leaves(run[i], u) ==> u == id
    decreases run
  {
    if run != [] {
      NoOtherStays(s, run[0], id);
      OnlyLeaves(After(s, run[0]), run[1..], s', id);
      assert forall i :: 0 < i < |run| ==> run[i] == run[1..][i - 1];
    }
  }

  // Another decoder that waits, or starts to wait only now, takes the cancellation.
  lemma OtherLeaves(s: Sleeping, id: nat, u: nat) returns (woken: set<nat>, run: seq<SleepStep>, s': Sleeping)
    requires SleepersWait(s) && s.e.queued == Some(id) && MustWait(s.e) && u != id
    requires In(s.e, u, InWait) || In(s.e, u, New)
    ensures CanTake(s, Act(Cancel(id), woken)) && Reaches(After(s, Act(Cancel(id), woken)), run, s')
    ensures !FirstToLeave(run, id)
    ensures In(s'.e, u, Past) && s'.e.curr == s.e.curr && MustWait(s'.e)
    ensures In(s.e, id, InWait) ==> In(s'.e, id, InWait)
    ensures forall t: nat :: In(s.e, t, Past) ==> t != u && In(s'.e, t, Past)
  {
    woken := if u in s.asleep then {u} else s.asleep;
    var s1 := After(s, Act(Cancel(id), woken));
    var leave := Act(LeaveWait(u), {});
    if In(s.e, u, InWait) {
      run, s' := [leave], After(s1, leave);
      assert run[1..] == [] && Leaves(run[0], u);
    } else {
      var enter := Act(EnterWait(u), {});
      var s2 := After(s1, enter);
      run, s' := [enter, leave], After(s2, leave);
      assert run[1..] == [leave] && run[1..][1..] == [] && Leaves(run[1], u);
    }
  }

  /** md_cancel_queued, exactly: while the engine is busy, the decoder it cancels is in every run that follows
      the first to leave the wait if and only if no other decoder is waiting or still to come. */
  lemma CancelReachesExactly(s: Sleeping, id: nat)
    requires SleepersWait(s) && s.e.queued == Some(id) && MustWait(s.e)
    ensures ReachesOnly(s, id) <==> NoOther(s.e, id)
  {
    if NoOther(s.e, id) {
      forall woken, run, s' | CanTake(s, Act(Cancel(id), woken)) && Reaches(After(s, Act(Cancel(id), woken)), run, s')
        ensures FirstToLeave(run, id)
      {
        NoOtherStays(s, Act(Cancel(id), woken), id);
        OnlyLeaves(After(s, Act(Cancel(id), woken)), run, s', id);
      }
    } else {
      var u: nat :| (In(s.e, u, InWait) || In(s.e, u, New)) && u != id;
      var woken, run, s' := OtherLeaves(s, id, u);
    }
  }

  /** And when another one leaves first, it goes on to decode beside those that already do, the trigger is
      spent, and the cancelled decoder has to wait on. */
  lemma CancelTaken(s: Sleeping, id: nat) returns (woken: set<nat>, run: seq<SleepStep>, s': Sleeping, u: nat)
    requires SleepersWait(s) && s.e.queued == Some(id) && In(s.e, id, InWait) && MustWait(s.e) && !NoOther(s.e, id)
    ensures CanTake(s, Act(Cancel(id), woken)) && Reaches(After(s, Act(Cancel(id), woken)), run, s')
    ensures u != id && In(s'.e, u, Past) && s'.e.curr == s.e.curr
    ensures forall t: nat :: In(s.e, t, Past) ==> t != u && In(s'.e, t, Past)
    ensures In(s'.e, id, InWait) && MustWait(s'.e)
  {
    u :| (In(s.e, u, InWait) || In(s.e, u, New)) && u != id;
    woken, run, s' := OtherLeaves(s, id, u);
  }

  // ---------------------------------------------------------------- both happen

  lemma {:induction false} ReachesConcat(s0: Sleeping, run1: seq<SleepStep>, s1: Sleeping, run2: seq<SleepStep>, s2: Sleeping)
    requires Reaches(s0, run1, s1) && Reaches(s1, run2, s2)
    ensures Reaches(s0, run1 + run2, s2)
    decreases run1
  {
    if run1 == [] {
      assert run1 + run2 == run2;
    } else {
      ReachesConcat(After(s0, run1[0]), run1[1..], s1, run2, s2);
      assert (run1 + run2)[1..] == run1[1..] + run2;
    }
  }

  // Another decoder starts to wait and falls asleep behind the current one.
  lemma Joins(s: Sleeping, t: nat) returns (run: seq<SleepStep>, s': Sleeping)
    requires In(s.e, t, New) && MustWait(s.e) && t !in s.asleep
    ensures Reaches(s, run, s')
    ensures s' == Sleeping(Move(s.e, t, InWait).(queued := Some(t)), s.asleep + {t})
  {
    var enter, sleep := Act(EnterWait(t), {}), FallAsleep(t);
    run, s' := [enter, sleep], After(After(s, enter), sleep);
    assert run[1..] == [sleep] && run[1..][1..] == [];
  }

  /** Of three decoders the first has the engine and the second sleeps, queued. Cancelling the second does
      not reach it in every run, although nobody else is waiting: the third may come and be let through. */
  lemma CancelMissesTheOnlyWaiter() returns (run: seq<SleepStep>, s: Sleeping)
    ensures Reaches(Sleeping(Init(3), {}), run, s) && SleepersWait(s)
    ensures s.asleep == {1} && s.e.queued == Some(1) && MustWait(s.e)
    ensures s.e.phases == [Past, InWait, New]
    ensures !ReachesOnly(s, 1)
  {
    var s0 := Sleeping(Init(3), {});
    var enter, leave := Act(EnterWait(0), {}), Act(LeaveWait(0), {});
    var s1 := Sleeping(Engine(Some(0), None, true, false, [Past, New, New]), {});
    var first := [enter, leave];
    assert first[1..] == [leave] && first[1..][1..] == [];
    assert After(s0, enter) == Sleeping(Engine(None, Some(0), true, false, [InWait, New, New]), {});
    assert After(After(s0, enter), leave) == s1;
    assert Reaches(s0, first, s1);
    var more;
    more, s := Joins(s1, 1);
    run := first + more;
    ReachesConcat(s0, first, s1, more, s);
    assert s.e.phases == [Past, InWait, New];
    assert In(s.e, 2, New);
    CancelReachesExactly(s, 1);
  }

  /** When the third has joined too, two are asleep: a stop need not free both, and a cancellation of the
      third may let the second through. */
  lemma TwoAsleep() returns (run: seq<SleepStep>, s: Sleeping)
    ensures Reaches(Sleeping(Init(3), {}), run, s) && SleepersWait(s)
    ensures s.asleep == {1, 2} && s.e.queued == Some(2) && MustWait(s.e)
    ensures !AllLeave(s) && !ReachesOnly(s, 2)
  {
    var before, s1 := CancelMissesTheOnlyWaiter();
    var more;
    more, s := Joins(s1, 2);
    run := before + more;
    ReachesConcat(Sleeping(Init(3), {}), before, s1, more, s);
    assert In(s.e, 1, InWait);
    StopFreesAllExactly(s);
    CancelReachesExactly(s, 2);
  }
}
