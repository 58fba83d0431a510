/** The playlist driving the pipeline while threads sleep on their condition variables: the composition of
    the playlist with Signals. Whether everything is played depends on wakeups too. */
module PlaylistSignals {
  import opened Types
  import opened Chunking
  import opened BufList
  import opened Timing
  import opened Pipeline
  import opened PipelineProgress
  import opened PipelineRequests
  import opened Playlist
  import opened PlaylistRun
  import opened Signals

  datatype SleepyPlay = SleepyPlay(s: Sleepy, player: Player)

  // Who sleeps left out.
  function View(x: SleepyPlay): PlayState {
    PlayState(x.s.p, x.player)
  }

  function SStart(pc: PlayConfig): SleepyPlay {
    SleepyPlay(Sleepy(Start(pc).pipe, false, false, {}), Start(pc).player)
  }

  // Threads are started by the playlist alone, and a new thread is awake.
  predicate CanGo(pc: PlayConfig, x: SleepyPlay, step: SStep) {
    SEnabled(pc.cfg, x.s, step) && !(step.Do? && step.step.Spawn?)
  }

  function Go(pc: PlayConfig, x: SleepyPlay, step: SStep): SleepyPlay
    requires CanGo(pc, x, step)
  {
    var s := SApply(pc.cfg, x.s, step);
    if step.Do?
    then SleepyPlay(s.(p := SpawnAll(pc.cfg, s.p, NewStarts(pc, View(x), step.step))), PlayerAfter(pc, View(x), step.step))
    else SleepyPlay(s, x.player)
  }

  predicate IsSPlayRun(pc: PlayConfig, run: seq<SStep>)
    decreases |run|, 0
  {
    run == [] || (IsSPlayRun(pc, run[..|run| - 1]) && CanGo(pc, SPlayed(pc, run[..|run| - 1]), run[|run| - 1]))
  }

  function SPlayed(pc: PlayConfig, run: seq<SStep>): SleepyPlay
    requires IsSPlayRun(pc, run)
    decreases |run|, 1
  {
    if run == [] then SStart(pc) else Go(pc, SPlayed(pc, run[..|run| - 1]), run[|run| - 1])
  }

  ghost predicate SPlayReachable(pc: PlayConfig, x: SleepyPlay) {
    exists run :: IsSPlayRun(pc, run) && SPlayed(pc, run) == x
  }

  ghost predicate SPlayReachableAsking(pc: PlayConfig, ok: Requests, x: SleepyPlay) {
    exists run :: IsSPlayRun(pc, run) && SAsks(run, ok) && SPlayed(pc, run) == x
  }

  ghost predicate SPlayStuck(pc: PlayConfig, x: SleepyPlay) {
    forall step :: CanGo(pc, x, step) ==> Spurious(step)
  }

  // ---------------------------------------------------------------- its runs are runs of both parts

  lemma {:induction false} SpawnAllReaches(cfg: Config, s: Sleepy, ts: seq<nat>)
    requires SReachable(cfg, s)
    ensures SReachable(cfg, s.(p := SpawnAll(cfg, s.p, ts)))
    decreases |ts|
  {
    if ts == [] {
      assert s.(p := s.p) == s;
    } else {
      var n := |ts| - 1;
      SpawnAllReaches(cfg, s, ts[..n]);
      var s1 := s.(p := SpawnAll(cfg, s.p, ts[..n]));
      if Enabled(cfg, s1.p, Spawn(ts[n])) {
        SStepReaches(cfg, s1, Plain(Spawn(ts[n])));
      }
    }
  }

  lemma DoIs(cfg: Config, s: Sleepy, step: SStep)
    requires SEnabled(cfg, s, step)
    ensures SApply(cfg, s, step).p == if step.Do? then Apply(cfg, s.p, step.step) else s.p
  {
  }

  lemma GoView(pc: PlayConfig, x: SleepyPlay, step: SStep)
    requires CanGo(pc, x, step)
    ensures View(Go(pc, x, step)) == if step.Do? then Next(pc, View(x), step.step) else View(x)
  {
    DoIs(pc.cfg, x.s, step);
  }

  lemma GoReaches(pc: PlayConfig, x: SleepyPlay, step: SStep)
    requires CanGo(pc, x, step) && SReachable(pc.cfg, x.s)
    ensures SReachable(pc.cfg, Go(pc, x, step).s)
  {
    SStepReaches(pc.cfg, x.s, step);
    if step.Do? {
      SpawnAllReaches(pc.cfg, SApply(pc.cfg, x.s, step), NewStarts(pc, View(x), step.step));
    }
  }

  lemma StartReaches(pc: PlayConfig)
    ensures SReachable(pc.cfg, SStart(pc).s)
  {
    assert IsSRun(pc.cfg, []) && SAfter(pc.cfg, []) == Signals.Init(pc.cfg);
    SpawnAllReaches(pc.cfg, Signals.Init(pc.cfg), Play(pc.su).started);
  }

  lemma {:induction false} RunReaches(pc: PlayConfig, run: seq<SStep>)
    requires IsSPlayRun(pc, run)
    ensures SReachable(pc.cfg, SPlayed(pc, run).s)
    decreases |run|
  {
    if run == [] {
      StartReaches(pc);
    } else {
      RunReaches(pc, run[..|run| - 1]);
      GoReaches(pc, SPlayed(pc, run[..|run| - 1]), run[|run| - 1]);
    }
  }

  lemma {:induction false} RunPlaysToo(pc: PlayConfig, ok: Requests, run: seq<SStep>)
    requires IsSPlayRun(pc, run) && SAsks(run, ok)
    ensures PlayReachableAsking(pc, ok, View(SPlayed(pc, run)))
    decreases |run|
  {
    if run == [] {
      assert IsPlayRun(pc, []) && Asks([], ok) && Played(pc, []) == Start(pc);
    } else {
      var before, step := run[..|run| - 1], run[|run| - 1];
      RunPlaysToo(pc, ok, before);
      GoView(pc, SPlayed(pc, before), step);
      if step.Do? {
        PlayAskingStep(pc, ok, View(SPlayed(pc, before)), step.step);
      }
    }
  }

  lemma Projects(pc: PlayConfig, ok: Requests, x: SleepyPlay)
    requires SPlayReachableAsking(pc, ok, x)
    ensures SPlayReachable(pc, x) && SReachable(pc.cfg, x.s)
    ensures PlayReachableAsking(pc, ok, View(x)) && PlayReachable(pc, View(x))
  {
    var run :| IsSPlayRun(pc, run) && SAsks(run, ok) && SPlayed(pc, run) == x;
    RunReaches(pc, run);
    RunPlaysToo(pc, ok, run);
  }

  lemma ProjectsAny(pc: PlayConfig, x: SleepyPlay)
    requires SPlayReachable(pc, x)
    ensures SReachable(pc.cfg, x.s) && PlayReachable(pc, View(x))
  {
    var run :| IsSPlayRun(pc, run) && SPlayed(pc, run) == x;
    assert SAsks(run, (_, _) => true);
    Projects(pc, (_, _) => true, x);
  }

  // ---------------------------------------------------------------- where its runs end

  lemma StuckUnlessStranded(pc: PlayConfig, x: SleepyPlay)
    requires pc.Valid() && SReachable(pc.cfg, x.s) && SPlayStuck(pc, x) && !Stranded(x.s)
    ensures PlayStuck(pc, View(x))
  {
    SReachableInv(pc.cfg, x.s);
    assert Quiescent(pc.cfg, x.s) by {
      assert forall step :: SEnabled(pc.cfg, x.s, step) && !CanGo(pc, x, step) ==> step.Do? && step.step.Spawn?;
    }
    forall step ensures !CanStep(pc, View(x), step) {
      if CanStep(pc, View(x), step) {
        BlockedMeansStranded(pc.cfg, x.s, step);
      }
    }
  }

  // Where everything has been delivered, a sleeping driver sleeps rightly.
  lemma CompleteNotStranded(cfg: Config, s: Sleepy)
    requires cfg.Valid() && SReachable(cfg, s) && s.p.queue == []
    ensures !Stranded(s)
  {
    SReachableInv(cfg, s);
  }

  /** The playlist with sleeping threads, with its exact condition: when nothing but a spurious wakeup can
      happen, the sequence of md_play_async calls is exactly the playlist and everything has been delivered
      if and only if every file is deliverable, every file handed over that has a successor was on time, the
      driver has not asked for exactly more chunks than the queue holds, and it has not been left asleep by
      the clearing of the current decoder. */
  lemma SleepyPlaylistExactly(pc: PlayConfig, x: SleepyPlay)
    requires pc.Valid() && SPlayReachable(pc, x) && SPlayStuck(pc, x)
    ensures PlayedAll(pc, View(x))
            <==> AllDeliverable(pc.cfg) && AllOnTime(pc, x.s.p.handed) && !Overcommitted(pc.cfg, x.s.p) && !Stranded(x.s)
  {
    ProjectsAny(pc, x);
    if PlayedAll(pc, View(x)) {
      PlayedAllWasOnTime(pc, View(x));
      CompleteNotStranded(pc.cfg, x.s);
    } else if !Stranded(x.s) {
      StuckUnlessStranded(pc, x);
      PlaylistExactly(pc, View(x));
    }
  }

  /** With the built-in settings it is enough that the playlist is ordinary: deliverable files are all played if
      and only if the driver has neither overcommitted nor been left asleep. */
  lemma DefaultSettingsPlayAll(pc: PlayConfig, x: SleepyPlay)
    requires pc.Valid() && AllDeliverable(pc.cfg) && SPlayReachable(pc, x) && SPlayStuck(pc, x)
    requires OrdinaryPlaylist(pc, x.s.p.handed)
    ensures PlayedAll(pc, View(x)) <==> !Overcommitted(pc.cfg, x.s.p) && !Stranded(x.s)
  {
    OrdinaryOnTime(pc, x.s.p.handed);
    SleepyPlaylistExactly(pc, x);
  }

  // ---------------------------------------------------------------- its runs end

  lemma SpawnsKeepBound(cfg: Config, s: Sleepy, s': Sleepy, ts: seq<nat>)
    requires s' == s.(p := SpawnAll(cfg, s.p, ts))
    ensures Work(s'.p) <= Work(s.p) && |s'.p.threads| == |s.p.threads| && NumAwake(s') == NumAwake(s)
  {
    SpawnAllOnly(cfg, s.p, ts);
  }

  lemma GoDecreases(pc: PlayConfig, x: SleepyPlay, step: SStep)
    requires pc.Valid() && SReachable(pc.cfg, x.s) && CanGo(pc, x, step)
    ensures SWork(Go(pc, x, step).s) <= SWork(x.s) + if Spurious(step) then 1 else -1
  {
    if step.Do? {
      var s1 := SApply(pc.cfg, x.s, step);
      SStepsDecrease(pc.cfg, x.s, step);
      SpawnsKeepBound(pc.cfg, s1, Go(pc, x, step).s, NewStarts(pc, View(x), step.step));
      Ranges(pc.cfg, x.s);
      LexToSum(Work(x.s.p), Work(Go(pc, x, step).s.p), |x.s.p.threads|, NumAwake(x.s), NumAwake(Go(pc, x, step).s));
    } else {
      SWorkStep(pc.cfg, x.s, step);
    }
  }

  /** And its runs do end, however threads sleep and wake: their steps that are not spurious wakeups are no more
      than a number that depends on the files alone, and the spurious wakeups themselves. */
  lemma {:induction false} SleepyPlayIsBounded(pc: PlayConfig, run: seq<SStep>)
    requires pc.Valid() && IsSPlayRun(pc, run)
    ensures |run| - NumSpurious(run) + SWork(SPlayed(pc, run).s) <= SWork(SStart(pc).s) + NumSpurious(run)
    ensures SWork(SPlayed(pc, run).s) >= 0
    decreases |run|
  {
    RunReaches(pc, run);
    SWorkNotNegative(pc.cfg, SPlayed(pc, run).s);
    if run != [] {
      var before := run[..|run| - 1];
      SleepyPlayIsBounded(pc, before);
      RunReaches(pc, before);
      GoDecreases(pc, SPlayed(pc, before), run[|run| - 1]);
    }
  }

  // ---------------------------------------------------------------- which requests are safe

  lemma SPlayAskingStep(pc: PlayConfig, ok: Requests, x: SleepyPlay, step: SStep)
    requires SPlayReachableAsking(pc, ok, x) && CanGo(pc, x, step)
    requires step.Do? && step.step.Want? ==> ok(step.step.count, step.step.mode)
    ensures SPlayReachableAsking(pc, ok, Go(pc, x, step))
  {
    var run :| IsSPlayRun(pc, run) && SAsks(run, ok) && SPlayed(pc, run) == x;
    var longer := run + [step];
    assert longer[..|longer| - 1] == run;
    assert IsSPlayRun(pc, longer) && SAsks(longer, ok) && SPlayed(pc, longer) == Go(pc, x, step);
  }

  // A step that loads nothing leaves the playlist alone.
  lemma SilentGo(pc: PlayConfig, x: SleepyPlay, step: SStep, ok: Requests)
    requires CanGo(pc, x, step) && Silent(step, ok)
    ensures Go(pc, x, step) == SleepyPlay(SApply(pc.cfg, x.s, step), x.player)
  {
    if step.Do? {
      QuietStep(pc, View(x), step.step);
      GoView(pc, x, step);
    }
  }

  // With single chunks asked for, the driver neither overcommits nor misses a wakeup.
  lemma OneChunkPlays(pc: PlayConfig, ok: Requests, x: SleepyPlay)
    requires pc.Valid() && SPlayReachableAsking(pc, ok, x) && SPlayStuck(pc, x)
    requires forall c: nat :: c >= 1 && ok(c, Exact) ==> c == 1
    ensures PlayedAll(pc, View(x)) <==> AllDeliverable(pc.cfg) && AllOnTime(pc, x.s.p.handed)
  {
    Projects(pc, ok, x);
    PlayAsked(pc, ok, View(x));
    SleepyPlaylistExactly(pc, x);
    if Stranded(x.s) {
      SReachableInv(pc.cfg, x.s);
      OneChunkNotStranded(pc.cfg, x.s);
    }
  }

  ghost predicate AlwaysPlaysAll(ok: Requests) {
    forall pc: PlayConfig, x :: pc.Valid() && SPlayReachableAsking(pc, ok, x) && SPlayStuck(pc, x)
      ==> (PlayedAll(pc, View(x)) <==> AllDeliverable(pc.cfg) && AllOnTime(pc, x.s.p.handed))
  }

  const SMALL_PLAYLIST := PlayConfig(SMALL, Setup(USeconds(0), [Metadata(1, 1, 8, 0, 0)]))

  lemma SmallPlayStarts(ok: Requests)
    ensures SPlayReachableAsking(SMALL_PLAYLIST, ok,
                                 SleepyPlay(Signals.At(Th(Waiting, [7], None), None, Idle, [], [], false), Player(Some(0), 0, [0], false)))
  {
    var pc := SMALL_PLAYLIST;
    assert IsSPlayRun(pc, []) && SAsks([], ok) && SPlayed(pc, []) == SStart(pc);
    var s0 := Pipeline.Init(SMALL);
    assert SpawnAll(SMALL, s0, []) == s0;
    assert [0][..0] == [];
    assert SpawnAll(SMALL, s0, [0]) == Apply(SMALL, s0, Spawn(0));
    assert SStart(pc).s == Signals.At(Th(Waiting, [7], None), None, Idle, [], [], false);
  }

  // The missing wakeup of Signals.WakeupIsLost, in a playlist of that one file.
  lemma PlaylistSleepsOn(ok: Requests, ask: nat) returns (x: SleepyPlay)
    requires ask >= 2 && ok(ask, Exact)
    ensures SMALL_PLAYLIST.Valid() && AllDeliverable(SMALL_PLAYLIST.cfg) && AllOnTime(SMALL_PLAYLIST, x.s.p.handed)
    ensures SPlayReachableAsking(SMALL_PLAYLIST, ok, x) && SPlayStuck(SMALL_PLAYLIST, x) && x.s.p.queue != []
  {
    var pc, p := SMALL_PLAYLIST, Player(Some(0), 0, [0], false);
    DeliverableExactly(1, 4);
    SmallPlayStarts(ok);
    var met := (s: Sleepy) => SPlayReachableAsking(pc, ok, SleepyPlay(s, p));
    forall s, step | met(s) && SEnabled(SMALL, s, step) && Silent(step, ok)
      ensures met(SApply(SMALL, s, step))
    {
      SPlayAskingStep(pc, ok, SleepyPlay(s, p), step);
      SilentGo(pc, SleepyPlay(s, p), step, ok);
    }
    var s := SmallStrands(met, ok, ask);
    x := SleepyPlay(s, p);
  }

  /** Which requests are safe for every playlist, however threads sleep and wake: exactly those sets in which
      every exact request is for a single chunk. With them the playlist is played in full if and only if every
      file is deliverable and every file handed over that has a successor was on time. */
  lemma SleepyRequestsExactly(ok: Requests)
    ensures AlwaysPlaysAll(ok) <==> forall c: nat :: c >= 1 && ok(c, Exact) ==> c == 1
  {
    if forall c: nat :: c >= 1 && ok(c, Exact) ==> c == 1 {
      forall pc: PlayConfig, x | pc.Valid() && SPlayReachableAsking(pc, ok, x) && SPlayStuck(pc, x)
        ensures PlayedAll(pc, View(x)) <==> AllDeliverable(pc.cfg) && AllOnTime(pc, x.s.p.handed)
      {
        OneChunkPlays(pc, ok, x);
      }
    } else {
      var c: nat :| c >= 2 && ok(c, Exact);
      var x := PlaylistSleepsOn(ok, c);
    }
  }
}
