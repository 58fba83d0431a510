/** core/mdplaylist.c: the playlist as a state machine driven by the delivery callbacks. It starts the
    decoding of the next file while the current one is still being played. */
module Playlist {
  import opened Types
  import opened Delivery
  import opened Timing
  import opened PipelineCallbacks

  // ---------------------------------------------------------------- when to start the next file

  datatype Switch = Percent(value: nat) | USeconds(value: nat) | BuffChunks(value: nat)

  // The settings, and the metadata of each file of the playlist.
  datatype Setup = Setup(switch: Switch, metas: seq<Metadata>) {
    predicate Known(meta: Option<nat>) {
      meta.Some? && meta.value < |metas|
    }

    function Total(f: nat): nat
      requires f < |metas|
    {
      metas[f].totalBufChunks
    }
  }

  // md_playlist_setup_start_event is defined.
  predicate CanSetup(switch: Switch, m: Metadata, size: nat) {
    switch.USeconds? ==> CanDivide(m, size)
  }

  /** It is, except in the microseconds mode on a file without a bit rate, with one that leaves an int, or with
      one at which a buffer plays in under a microsecond. */
  lemma CanSetupExactly(switch: Switch, m: Metadata, size: nat)
    ensures CanSetup(switch, m, size)
            <==> (switch.USeconds? ==> 0 < BitRate(m) < INT_LIMIT && BitRate(m) <= size * 8000000)
  {
    DivisionExactly(m, size);
  }

  // md_playlist_setup_start_event
  function StartEvent(switch: Switch, m: Metadata, size: nat): nat
    requires CanSetup(switch, m, size)
  {
    match switch
    case Percent(value) => m.totalBufChunks * value / 100
    case USeconds(value) => Remaining(m.totalBufChunks, UsecToBufChunks(m, size, value))
    case BuffChunks(value) => Remaining(m.totalBufChunks, value)
  }

  // A truth value in an arithmetic expression.
  function AsInt(b: bool): nat {
    if b then 1 else 0
  }

  // (total > ahead) * (total - ahead)
  function Remaining(total: nat, ahead: nat): nat {
    AsInt(total > ahead) * (total - ahead)
  }

  // ---------------------------------------------------------------- the callbacks

  // `curr` is the position of mdplaylist.curr, `started` the files given to md_play_async so far.
  // `faulted` is set by a null dereference or by arithmetic that is undefined, as a division by zero is, and
  // ends everything.
  datatype Player = Player(curr: Option<nat>, startEvent: nat, started: seq<nat>, faulted: bool)

  predicate HasNext(su: Setup, p: Player) {
    p.curr.Some? && p.curr.value + 1 < |su.metas|
  }

  // md_pl_start_take_in_cb
  function OnFirstTakeIn(su: Setup, p: Player, meta: Option<nat>, size: nat): Player {
    if p.curr.None? then p.(faulted := true)
    else if !HasNext(su, p) then p
    else if !su.Known(meta) || !CanSetup(su.switch, su.metas[meta.value], size) then p.(faulted := true)
    else p.(startEvent := StartEvent(su.switch, su.metas[meta.value], size))
  }

  // md_pl_will_load_chunk_cb
  function OnLoad(su: Setup, p: Player, meta: Option<nat>, order: int): Player {
    if !su.Known(meta) then p.(faulted := true)
    else
      p.(started := if order == p.startEvent && HasNext(su, p) then p.started + [p.curr.value + 1] else p.started,
         startEvent := if order != su.Total(meta.value) - 1 then p.startEvent else 0)
  }

  // md_pl_last_chunk_take_in_cb
  function OnLastTakeIn(su: Setup, p: Player): Player {
    if p.curr.None? then p.(faulted := true)
    else p.(curr := if HasNext(su, p) then Some(p.curr.value + 1) else None)
  }

  function OnCallback(su: Setup, p: Player, cb: Callback): Player {
    if p.faulted then p
    else
      match cb
      case FirstTakeIn(meta, size) => OnFirstTakeIn(su, p, meta, size)
      case LastTakeIn(_) => OnLastTakeIn(su, p)
      case Load(meta, order) => OnLoad(su, p, meta, order)
      case LastTakeOut(_) => p
  }

  function OnAll(su: Setup, p: Player, cbs: seq<Callback>): Player {
    if cbs == [] then p else OnCallback(su, OnAll(su, p, cbs[..|cbs| - 1]), cbs[|cbs| - 1])
  }

  // md_playlist_play
  function Play(su: Setup): Player {
    if su.metas == [] then Player(None, 0, [], true) else Player(Some(0), 0, [0], false)
  }

  lemma OnAllSnoc(su: Setup, p: Player, cbs: seq<Callback>, cb: Callback)
    ensures OnAll(su, p, cbs + [cb]) == OnCallback(su, OnAll(su, p, cbs), cb)
  {
    assert (cbs + [cb])[..|cbs|] == cbs;
  }

  lemma {:induction false} OnAllConcat(su: Setup, p: Player, a: seq<Callback>, b: seq<Callback>)
    ensures OnAll(su, p, a + b) == OnAll(su, OnAll(su, p, a), b)
    decreases |b|
  {
    if b == [] {
      assert a + b == a;
    } else {
      var n := |b| - 1;
      assert (a + b)[..|a + b| - 1] == a + b[..n];
      OnAllConcat(su, p, a, b[..n]);
    }
  }

  // md_play_async calls are never taken back.
  lemma {:induction false} StartedGrows(su: Setup, p: Player, cbs: seq<Callback>)
    ensures p.started <= OnAll(su, p, cbs).started
    decreases |cbs|
  {
    if cbs != [] {
      StartedGrows(su, p, cbs[..|cbs| - 1]);
    }
  }

  // ---------------------------------------------------------------- one file

  // The start event of file f can be computed.
  predicate HasEvent(su: Setup, f: nat, bufSize: nat)
    requires f < |su.metas|
  {
    CanSetup(su.switch, su.metas[f], bufSize)
  }

  function EventOf(su: Setup, f: nat, bufSize: nat): nat
    requires f < |su.metas| && HasEvent(su, f, bufSize)
  {
    StartEvent(su.switch, su.metas[f], bufSize)
  }

  /** The condition on a file of m chunks that has a successor: it has at least two chunks, and its start
      event e comes up before its last chunk and no later than the order at which the event is cleared. */
  predicate OnTime(e: nat, m: nat, total: nat) {
    m >= 2 && e <= m - 2 && (total == 0 || e < total)
  }

  // Whether the start event has come up among the first i chunks.
  predicate Fired(e: nat, total: nat, i: nat) {
    e < i && (total == 0 || e < total)
  }

  // decoder_start_event after the first i chunks.
  function EventAfter(e: nat, total: nat, i: nat): nat {
    if 1 <= total <= i then 0 else e
  }

  // The start event that counts for a file: its own if it is announced, and otherwise what is left of
  // the event of the file before.
  function CountingEvent(su: Setup, f: nat, bufSize: nat, unseen: bool, left: nat): nat
    requires f < |su.metas|
  {
    if !unseen then left else if HasEvent(su, f, bufSize) then EventOf(su, f, bufSize) else 0
  }

  // What the first chunk of a file with a successor needs: its event can be computed if the file is
  // announced, and is then the one that counts.
  predicate EventOk(su: Setup, f: nat, bufSize: nat, unseen: bool, e: nat)
    requires f < |su.metas|
  {
    f + 1 < |su.metas| && unseen ==> HasEvent(su, f, bufSize) && e == EventOf(su, f, bufSize)
  }

  // The playlist when i chunks of file f have been loaded, if md_play_async had been called for
  // `started` before them. `e` is the start event that counts for f.
  ghost predicate At(su: Setup, p: Player, started: seq<nat>, f: nat, i: nat, unseen: bool, e: nat)
    requires f < |su.metas|
  {
    var total := su.Total(f);
    && !p.faulted && p.curr == Some(f)
    && (f + 1 < |su.metas| && (i > 0 || !unseen) ==> p.startEvent == EventAfter(e, total, i))
    && p.started == if f + 1 < |su.metas| && Fired(e, total, i) then started + [f + 1] else started
  }

  // The same between files: f is next, and may be past the end.
  predicate Between(su: Setup, p: Player, f: nat) {
    !p.faulted && p.curr == if f < |su.metas| then Some(f) else None
  }

  lemma TwoCallbacks(su: Setup, p: Player, a: Callback, b: Callback)
    ensures OnAll(su, p, [a, b]) == OnCallback(su, OnCallback(su, p, a), b)
    ensures OnAll(su, p, [a]) == OnCallback(su, p, a)
  {
    assert [a, b][..1] == [a] && [a][..0] == [];
    assert OnAll(su, p, []) == p;
  }

  // What the playlist makes of a chunk that is not the last of its file.
  lemma MidCallbacks(su: Setup, p: Player, f: nat, i: nat, m: nat, bufSize: nat, unseen: bool)
    requires i + 1 < m
    ensures var load := Load(Some(f), i);
            OnAll(su, p, ChunkCallbacks(f, i, m, bufSize, unseen))
            == if i == 0 && unseen then OnCallback(su, OnCallback(su, p, FirstTakeIn(Some(f), bufSize)), load)
               else OnCallback(su, p, load)
  {
    var first, load := FirstTakeIn(Some(f), bufSize), Load(Some(f), i);
    TwoCallbacks(su, p, first, load);
    TwoCallbacks(su, p, load, load);
    assert [first] + [load] == [first, load] && [] + [load] == [load];
  }

  /** Loading a chunk that is not the last of its file. */
  lemma MidChunkStep(su: Setup, p: Player, started: seq<nat>, f: nat, i: nat, m: nat, bufSize: nat, unseen: bool, e: nat)
    requires f < |su.metas| && i + 1 < m && At(su, p, started, f, i, unseen, e)
    requires i == 0 ==> EventOk(su, f, bufSize, unseen, e)
    ensures At(su, OnAll(su, p, ChunkCallbacks(f, i, m, bufSize, unseen)), started, f, i + 1, unseen, e)
  {
    MidCallbacks(su, p, f, i, m, bufSize, unseen);
  }

  /** Or the program stops there: an announced file with a successor, whose event cannot be computed. */
  lemma FaultStep(su: Setup, p: Player, f: nat, m: nat, bufSize: nat)
    requires f + 1 < |su.metas| && m >= 2 && !p.faulted && p.curr == Some(f) && !HasEvent(su, f, bufSize)
    ensures OnAll(su, p, ChunkCallbacks(f, 0, m, bufSize, true)) == p.(faulted := true)
  {
    MidCallbacks(su, p, f, 0, m, bufSize, true);
  }

  lemma {:induction false} FaultStays(su: Setup, p: Player, cbs: seq<Callback>)
    requires p.faulted
    ensures OnAll(su, p, cbs) == p
    decreases |cbs|
  {
    if cbs != [] {
      FaultStays(su, p, cbs[..|cbs| - 1]);
    }
  }

  /** Loading the last one. What was started for the file itself stands; anything more is the file
      after the next, started in place of the next one. */
  lemma LastChunkStep(su: Setup, p: Player, started: seq<nat>, f: nat, m: nat, bufSize: nat, unseen: bool, e: nat)
    requires f < |su.metas| && m > 0 && At(su, p, started, f, m - 1, unseen, e)
    ensures var p' := OnAll(su, p, ChunkCallbacks(f, m - 1, m, bufSize, unseen));
            && Between(su, p', f + 1)
            && (f + 1 < |su.metas| && OnTime(e, m, su.Total(f)) ==>
                  p'.started == started + [f + 1] && p'.startEvent == EventAfter(e, su.Total(f), m))
            && (f + 1 < |su.metas| && !OnTime(e, m, su.Total(f)) ==>
                  p'.started == started || (f + 2 < |su.metas| && p'.started == started + [f + 2]))
            && (f + 1 == |su.metas| ==> p'.started == started)
  {
    TwoCallbacks(su, p, LastTakeIn(Some(f)), Load(Some(f), m - 1));
  }

  lemma OverChunk(su: Setup, p: Player, f: nat, i: nat, m: nat, bufSize: nat, unseen: bool)
    requires i < m
    ensures OnAll(su, p, LoadPart(f, i + 1, m, bufSize, unseen))
            == OnAll(su, OnAll(su, p, LoadPart(f, i, m, bufSize, unseen)), ChunkCallbacks(f, i, m, bufSize, unseen))
  {
    LoadPartGrows(f, i, m, bufSize, unseen);
    OnAllConcat(su, p, LoadPart(f, i, m, bufSize, unseen), ChunkCallbacks(f, i, m, bufSize, unseen));
  }

  lemma AtNext(su: Setup, p: Player, before: Player, f: nat, i: nat, m: nat, bufSize: nat, unseen: bool, e: nat)
    returns (after: Player)
    requires f < |su.metas| && i + 1 < m && EventOk(su, f, bufSize, unseen, e)
    requires before == OnAll(su, p, LoadPart(f, i, m, bufSize, unseen)) && At(su, before, p.started, f, i, unseen, e)
    ensures after == OnAll(su, p, LoadPart(f, i + 1, m, bufSize, unseen))
    ensures At(su, after, p.started, f, i + 1, unseen, e)
  {
    after := OnAll(su, p, LoadPart(f, i + 1, m, bufSize, unseen));
    OverChunk(su, p, f, i, m, bufSize, unseen);
    MidChunkStep(su, before, p.started, f, i, m, bufSize, unseen, e);
  }

  lemma {:induction false} AtAll(su: Setup, p: Player, f: nat, i: nat, m: nat, bufSize: nat, unseen: bool, e: nat)
    returns (q: Player)
    requires f < |su.metas| && i < m && EventOk(su, f, bufSize, unseen, e)
    requires At(su, p, p.started, f, 0, unseen, e)
    ensures q == OnAll(su, p, LoadPart(f, i, m, bufSize, unseen))
    ensures At(su, q, p.started, f, i, unseen, e)
    decreases i
  {
    if i == 0 {
      q := p;
    } else {
      q := AtAll(su, p, f, i - 1, m, bufSize, unseen, e);
      q := AtNext(su, p, q, f, i - 1, m, bufSize, unseen, e);
    }
  }

  // Over a file whose event cannot be computed.
  lemma FaultsOver(su: Setup, p: Player, f: nat, m: nat, bufSize: nat)
    requires f + 1 < |su.metas| && m >= 2 && !p.faulted && p.curr == Some(f) && !HasEvent(su, f, bufSize)
    ensures OnAll(su, p, Grammar(f, m, bufSize, true)) == p.(faulted := true)
  {
    var g, first := Grammar(f, m, bufSize, true), LoadPart(f, 1, m, bufSize, true);
    PartsOfGrammar(f, 1, 0, m, bufSize, true);
    LoadPartGrows(f, 0, m, bufSize, true);
    assert g == first + g[|first|..] && first == ChunkCallbacks(f, 0, m, bufSize, true);
    FaultStep(su, p, f, m, bufSize);
    OnAllConcat(su, p, first, g[|first|..]);
    FaultStays(su, p.(faulted := true), g[|first|..]);
  }

  // Over any other.
  lemma RunsOver(su: Setup, p: Player, f: nat, m: nat, bufSize: nat, unseen: bool)
    requires f + 1 < |su.metas| && m > 0 && !p.faulted && p.curr == Some(f)
    requires m >= 2 && unseen ==> HasEvent(su, f, bufSize)
    ensures var p' := OnAll(su, p, Grammar(f, m, bufSize, unseen));
            && !p'.faulted
            && (p'.started == p.started + [f + 1] <==> OnTime(CountingEvent(su, f, bufSize, unseen, p.startEvent), m, su.Total(f)))
  {
    SnocDiffers(p.started, f + 1, f + 2);
    var e := CountingEvent(su, f, bufSize, unseen, p.startEvent);
    var before := p;
    if m >= 2 {
      before := AtAll(su, p, f, m - 1, m, bufSize, unseen, e);
    } else {
      assert LoadPart(f, 0, m, bufSize, unseen) == [];
    }
    LastChunkStep(su, before, p.started, f, m, bufSize, unseen, e);
    OverGrammar(su, p, f, m, bufSize, unseen);
  }

  /** Over everything the playlist hears about a file that has a successor: the program stops, on undefined
      arithmetic, if and only if the file has two chunks, is announced, and its start event cannot be computed; and
      the successor is started, once and nothing else, if and only if that is not so and the file is on
      time. */
  lemma StartsNextExactly(su: Setup, p: Player, f: nat, m: nat, bufSize: nat, unseen: bool)
    requires f + 1 < |su.metas| && !p.faulted && p.curr == Some(f)
    ensures var p' := OnAll(su, p, Grammar(f, m, bufSize, unseen));
            && (p'.faulted <==> m >= 2 && unseen && !HasEvent(su, f, bufSize))
            && (p'.started == p.started + [f + 1]
                <==> (unseen ==> HasEvent(su, f, bufSize))
                     && OnTime(CountingEvent(su, f, bufSize, unseen, p.startEvent), m, su.Total(f)))
  {
    SnocDiffers(p.started, f + 1, f + 2);
    if m >= 2 && unseen && !HasEvent(su, f, bufSize) {
      FaultsOver(su, p, f, m, bufSize);
    } else if m > 0 {
      RunsOver(su, p, f, m, bufSize, unseen);
    }
  }

  /** The dummy decoder leaves the rates of its files at zero. With the built-in settings the first of two
      or more such files, of two chunks or more, stops the program. */
  lemma DummyFileStops(su: Setup, m: nat)
    requires |su.metas| >= 2 && BitRate(su.metas[0]) == 0 && su.switch == USeconds(60000000) && m >= 2
    ensures OnAll(su, Play(su), Grammar(0, m, 1536, true)).faulted
  {
    StartsNextExactly(su, Play(su), 0, m, 1536, true);
  }

  lemma TakeOutIgnored(su: Setup, p: Player, cbs: seq<Callback>, meta: Option<nat>)
    ensures OnAll(su, p, cbs + [LastTakeOut(meta)]) == OnAll(su, p, cbs)
  {
    OnAllSnoc(su, p, cbs, LastTakeOut(meta));
  }

  lemma OverGrammar(su: Setup, p: Player, f: nat, m: nat, bufSize: nat, unseen: bool)
    requires m > 0
    ensures OnAll(su, p, Grammar(f, m, bufSize, unseen))
            == OnAll(su, OnAll(su, p, LoadPart(f, m - 1, m, bufSize, unseen)), ChunkCallbacks(f, m - 1, m, bufSize, unseen))
  {
    var loads := LoadPart(f, m, m, bufSize, unseen);
    assert Grammar(f, m, bufSize, unseen) == loads + [LastTakeOut(Some(f))] by {
      PartsOfGrammar(f, m, m, m, bufSize, unseen);
    }
    TakeOutIgnored(su, p, loads, Some(f));
    OverChunk(su, p, f, m - 1, m, bufSize, unseen);
  }

  lemma SnocDiffers(started: seq<nat>, a: nat, b: nat)
    requires a != b
    ensures started + [a] != started + [b] && started != started + [a]
  {
    assert (started + [a])[|started|] == a && (started + [b])[|started|] == b;
  }

  /** Single-chunk files break the playlist: the first of three files, of one chunk, makes it start
      the third and never the second. */
  lemma SingleChunkSkips(su: Setup, p: Player, bufSize: nat, unseen: bool)
    requires |su.metas| == 3 && p == Play(su)
    ensures OnAll(su, p, Grammar(0, 1, bufSize, unseen)).started == [0, 2]
  {
    var a: Callback, b: Callback, c: Callback := LastTakeIn(Some(0)), Load(Some(0), 0), LastTakeOut(Some(0));
    TwoCallbacks(su, p, a, b);
    OnAllSnoc(su, p, [a, b], c);
    assert [a, b] + [c] == Grammar(0, 1, bufSize, unseen);
  }

  // ---------------------------------------------------------------- how far ahead is enough

  /** What the start event means. As a percentage it is the share of the announced chunks, rounded down.
      Counting from the end it is the order at which as many of them are left as the look-ahead, or the
      first one when there are no more than that. */
  lemma StartEventIs(su: Setup, f: nat, bufSize: nat)
    requires f < |su.metas| && HasEvent(su, f, bufSize)
    ensures var e, total := EventOf(su, f, bufSize), su.Total(f);
            match su.switch
            case Percent(value) => 100 * e <= total * value < 100 * e + 100 && (value <= 100 ==> e <= total)
            case BuffChunks(value) => e == 0 <==> total <= value
            case USeconds(value) => e == 0 <==> total <= UsecToBufChunks(su.metas[f], bufSize, value)
    ensures var e, total := EventOf(su, f, bufSize), su.Total(f);
            match su.switch
            case Percent(_) => true
            case BuffChunks(value) => e > 0 ==> e + value == total
            case USeconds(value) => e > 0 ==> e + UsecToBufChunks(su.metas[f], bufSize, value) == total
  {
    if su.switch.Percent? {
      var total, value := su.Total(f), su.switch.value;
      DivBounds(total * value, 100);
      if value <= 100 {
        MulLe(value, 100, total);
      }
    }
  }

  /** In the microseconds mode, from an event that is not at the very start the announced chunks that are
      left play for more than the setting less one chunk, and for no more than the setting and a
      microsecond a chunk (n / rate is the playing time of one chunk). */
  lemma StartEventTiming(su: Setup, f: nat, bufSize: nat)
    requires f < |su.metas| && su.switch.USeconds? && HasEvent(su, f, bufSize)
    requires EventOf(su, f, bufSize) > 0
    ensures var left := su.Total(f) - EventOf(su, f, bufSize);
            var n, rate := bufSize * 8 * 1000000, BitRate(su.metas[f]);
            left >= 0 && su.switch.value * rate < (left + 1) * n && left * n <= (su.switch.value + left) * rate
  {
    StartEventIs(su, f, bufSize);
    LookAheadAccurate(su.metas[f], bufSize, su.switch.value);
  }

  /** Counting chunks back from a total that is exact or one too many, a file of two or more chunks is
      on time if and only if the look-ahead is at least two, or three when the total is too large. */
  lemma LookAheadExactly(total: nat, m: nat, ahead: nat)
    requires m >= 2 && (total == m || total == m + 1)
    ensures OnTime(Remaining(total, ahead), m, total) <==> ahead >= 2 + (total - m)
  {
  }

  /** In the microseconds mode, the playing time of three buffers is therefore enough. */
  lemma ThreeBuffersSuffice(su: Setup, f: nat, m: nat, bufSize: nat)
    requires f < |su.metas| && m >= 2 && su.switch.USeconds? && HasEvent(su, f, bufSize)
    requires su.Total(f) == m || su.Total(f) == m + 1
    requires su.switch.value >= 3 * BufLenUsec(su.metas[f], bufSize)
    ensures OnTime(EventOf(su, f, bufSize), m, su.Total(f))
  {
    var len := BufLenUsec(su.metas[f], bufSize);
    DivAtLeast(su.switch.value, len, 3);
    LookAheadExactly(su.Total(f), m, UsecToBufChunks(su.metas[f], bufSize, su.switch.value));
  }

  lemma DivAtLeast(n: nat, d: nat, k: nat)
    requires d > 0 && n >= k * d
    ensures n / d >= k
  {
    DivBounds(n, d);
    var q := n / d;
    assert (q + 1) * d == d * q + d;
    if q < k {
      MulLe(q + 1, k, d);
    }
  }

  /** The built-in settings, a minute ahead with buffers of 1536 bytes, are enough for any file from
      615 bits a second up to what fits an int. */
  lemma DefaultSuffices(su: Setup, f: nat, m: nat)
    requires f < |su.metas| && m >= 2 && su.switch == USeconds(60000000)
    requires su.Total(f) == m || su.Total(f) == m + 1
    requires 615 <= BitRate(su.metas[f]) < INT_LIMIT
    ensures HasEvent(su, f, 1536) && OnTime(EventOf(su, f, 1536), m, su.Total(f))
  {
    DivisionExactly(su.metas[f], 1536);
    var n, rate, len := 1536 * 8 * 1000000, BitRate(su.metas[f]), BufLenUsec(su.metas[f], 1536);
    DivBounds(n, rate);
    MulLe(615, rate, len);
    assert 615 * len <= n;
    ThreeBuffersSuffice(su, f, m, 1536);
  }

  // ---------------------------------------------------------------- in place

  // struct md_pl_ll_t
  class Entry {
    const index: nat
    const fname: string
    var next: Entry?
    var prev: Entry?

    constructor (index: nat, fname: string, prev: Entry?)
      ensures this.index == index && this.fname == fname && next == null && this.prev == prev
    {
      this.index, this.fname, next, this.prev := index, fname, null, prev;
    }
  }

  ghost function EntryAt(entries: seq<Entry>, i: int): Entry? {
    if 0 <= i < |entries| then entries[i] else null
  }

  // Entry i is number i, between its neighbours; no entry occurs twice.
  ghost predicate DoublyLinked(entries: seq<Entry>)
    reads entries
  {
    && (forall i :: 0 <= i < |entries| ==> entries[i].index == i)
    && (forall i, j :: 0 <= i < |entries| && j == i + 1 < |entries| ==>
          entries[i].next == entries[j] && entries[j].prev == entries[i])
    && (entries != [] ==> entries[0].prev == null && entries[|entries| - 1].next == null)
  }

  // mdplaylist.last->next = new
  method LinkAfter(last: Entry, e: Entry, ghost entries: seq<Entry>)
    requires DoublyLinked(entries) && entries != [] && last == entries[|entries| - 1] && e !in entries
    requires e.index == |entries| && e.next == null && e.prev == last
    modifies last`next
    ensures DoublyLinked(entries + [e])
  {
    assert forall i, j :: 0 <= i < j < |entries| ==> entries[i].index != entries[j].index;
    last.next := e;
  }

  /** The list and the variables of mdplaylist.c. `asyncCalls` are the calls of md_play_async. */
  class FileList {
    var head: Entry?
    var last: Entry?
    var size: nat
    var curr: Entry?
    var decoderStartEvent: nat
    var asyncCalls: seq<string>
    const switch: Switch
    ghost var entries: seq<Entry>

    ghost predicate Valid()
      reads this, entries
    {
      && DoublyLinked(entries) && size == |entries|
      && head == EntryAt(entries, 0) && last == EntryAt(entries, |entries| - 1)
    }

    // The object shows the playlist state p.
    ghost predicate Shows(su: Setup, p: Player)
      reads this, entries
    {
      && Valid() && |su.metas| == |entries| && su.switch == switch && !p.faulted
      && decoderStartEvent == p.startEvent
      && curr == (if p.curr.Some? then EntryAt(entries, p.curr.value) else null)
      && (p.curr.Some? ==> p.curr.value < |entries|)
      && |asyncCalls| == |p.started|
      && forall i :: 0 <= i < |asyncCalls| ==> p.started[i] < |entries| && asyncCalls[i] == entries[p.started[i]].fname
    }

    // md_playlist_init
    constructor (switch: Switch)
      ensures Valid() && entries == [] && curr == null && decoderStartEvent == 0 && asyncCalls == []
      ensures this.switch == switch
    {
      head, last, size, curr, decoderStartEvent, asyncCalls, entries := null, null, 0, null, 0, [], [];
      this.switch := switch;
    }

    // md_playlist_append
    method Append(fname: string)
      requires Valid()
      modifies this`head, this`last, this`size, this`entries, if last == null then {} else {last}
      ensures Valid() && |entries| == |old(entries)| + 1 && entries[..|old(entries)|] == old(entries)
      ensures fresh(entries[|old(entries)|]) && entries[|old(entries)|].fname == fname
    {
      ghost var n := |entries|;
      var newEntry: Entry;
      if last == null && head == null {
        newEntry := new Entry(0, fname, null);
        last := newEntry;
        head := newEntry;
      } else {
        newEntry := new Entry(last.index + 1, fname, last);
        LinkAfter(last, newEntry, entries);
        last := newEntry;
      }
      entries := entries + [newEntry];
      size := size + 1;
    }

    method PlayAsync(fname: string, outcome: int) returns (ret: int)
      modifies this`asyncCalls
      ensures asyncCalls == old(asyncCalls) + [fname] && ret == outcome
    {
      asyncCalls := asyncCalls + [fname];
      ret := outcome;
    }

    // md_playlist_play, up to the wait for the end of the playlist. On an empty playlist it dereferences
    // null: `fault`.
    method PlayAll(outcome: int, ghost su: Setup) returns (ret: int, fault: bool)
      requires Valid() && decoderStartEvent == 0 && asyncCalls == []
      requires |su.metas| == |entries| && su.switch == switch
      modifies this`curr, this`asyncCalls
      ensures fault <==> entries == []
      ensures !fault ==> curr == entries[0] && asyncCalls == [entries[0].fname]
      ensures fault <==> Play(su).faulted
      ensures !fault ==> Shows(su, Play(su)) && ret == outcome
    {
      ret, fault := 0, false;
      curr := head;
      if curr == null {
        return ret, true;
      }
      ret := PlayAsync(curr.fname, outcome);
    }

    // md_playlist_setup_start_event
    method SetupStartEvent(meta: MetaRecord, size: nat)
      requires CanSetup(switch, meta.value, size)
      modifies this`decoderStartEvent
      ensures decoderStartEvent == StartEvent(switch, meta.value, size)
    {
      var total := meta.value.totalBufChunks;
      match switch {
        case Percent(value) =>
          decoderStartEvent := total * value / 100;
        case USeconds(value) =>
          var bufChunks := UsecToBufChunks(meta.value, size, value);
          decoderStartEvent := Remaining(total, bufChunks);
        case BuffChunks(value) =>
          decoderStartEvent := Remaining(total, value);
      }
    }

    // md_pl_start_take_in_cb. `fault`: it dereferences null, or its arithmetic is undefined.
    method StartTakeIn(meta: MetaRecord, size: nat, ghost su: Setup, ghost p: Player, ghost f: nat) returns (fault: bool)
      requires Shows(su, p) && f < |su.metas| && meta.value == su.metas[f]
      modifies this`decoderStartEvent
      ensures fault <==> curr == null || (curr.next != null && !CanSetup(switch, meta.value, size))
      ensures !fault ==> decoderStartEvent == if curr.next == null then old(decoderStartEvent) else StartEvent(switch, meta.value, size)
      ensures fault <==> OnFirstTakeIn(su, p, Some(f), size).faulted
      ensures !fault ==> Shows(su, OnFirstTakeIn(su, p, Some(f), size))
    {
      if curr == null {
        return true;
      }
      NextIs(su, p);
      if curr.next != null {
        if !CanSetup(switch, meta.value, size) {
          return true;
        }
        SetupStartEvent(meta, size);
      }
      return false;
    }

    lemma NextIs(su: Setup, p: Player)
      requires Shows(su, p) && p.curr.Some?
      ensures curr.next == EntryAt(entries, p.curr.value + 1) && (curr.next != null <==> HasNext(su, p))
    {
    }

    method PlayNext(ghost su: Setup, ghost p: Player)
      requires Shows(su, p) && curr != null && curr.next != null
      modifies this`asyncCalls
      ensures asyncCalls == old(asyncCalls) + [curr.next.fname]
      ensures HasNext(su, p) && Shows(su, p.(started := p.started + [p.curr.value + 1]))
    {
      NextIs(su, p);
      var _ := PlayAsync(curr.next.fname, 0);
    }

    // md_pl_will_load_chunk_cb
    method WillLoadChunk(meta: MetaRecord, order: nat, ghost su: Setup, ghost p: Player, ghost f: nat)
      requires Shows(su, p) && f < |su.metas| && meta.value == su.metas[f]
      modifies this`decoderStartEvent, this`asyncCalls
      ensures asyncCalls == if order == old(decoderStartEvent) && curr != null && curr.next != null
                            then old(asyncCalls) + [curr.next.fname] else old(asyncCalls)
      ensures decoderStartEvent == if order + 1 == meta.value.totalBufChunks then 0 else old(decoderStartEvent)
      ensures Shows(su, OnLoad(su, p, Some(f), order))
    {
      if p.curr.Some? {
        NextIs(su, p);
      }
      if order == decoderStartEvent {
        if curr != null && curr.next != null {
          PlayNext(su, p);
        }
      }
      decoderStartEvent := decoderStartEvent * AsInt(order != meta.value.totalBufChunks - 1);
    }

    // md_pl_last_chunk_take_in_cb. `fault`: it dereferences null.
    method LastChunkTakeIn(ghost su: Setup, ghost p: Player) returns (fault: bool)
      requires Shows(su, p)
      modifies this`curr
      ensures fault <==> old(curr) == null
      ensures !fault ==> curr == old(curr.next)
      ensures fault <==> OnLastTakeIn(su, p).faulted
      ensures !fault ==> Shows(su, OnLastTakeIn(su, p))
    {
      if curr == null {
        return true;
      }
      NextIs(su, p);
      curr := curr.next;
      return false;
    }
  }
}
