/** Safety of every run of the pipeline: byte conservation, contiguity of files, the done mark. */
module PipelineSafety {
  import opened Types
  import opened Chunks
  import opened Chunking
  import opened Delivery
  import opened Pipeline
  import opened PipelineInvariant

  // ---------------------------------------------------------------- conservation

  // The files handed over, in order, each zero-padded to a multiple of four.
  function PaddedFiles(cfg: Config, handed: seq<Meta>): seq<Byte> {
    if handed == [] then []
    else PaddedFiles(cfg, handed[..|handed| - 1]) + Pad(cfg.File(handed[|handed| - 1].id))
  }

  // The bytes that the current decoder still holds or has yet to read, with the padding due.
  function InDecoder(s: State): seq<Byte> {
    if s.curr.None? || s.curr.value >= |s.threads| then []
    else
      var th := s.threads[s.curr.value];
      var held := Pad(ChunkData(th.chunk) + th.rest);
      match th.phase
      case Decoding => held
      case Abandoned => held
      case Adding(c, last) => if last then c.data else c.data + held
      case _ => []
  }

  // The bytes in the part of the pack that has not been loaded.
  function InPack(s: State): seq<Byte> {
    if s.consumer.Holding? && s.consumer.loaded <= |s.consumer.pack|
    then FlatData(s.consumer.pack[s.consumer.loaded..]) else []
  }

  lemma {:induction false} FlattenHoldsFiles(cfg: Config, handed: seq<Meta>)
    requires cfg.Valid()
    ensures FlatData(Flatten(cfg, handed)) == PaddedFiles(cfg, handed)
    decreases |handed|
  {
    if handed != [] {
      var n := |handed| - 1;
      FlattenHoldsFiles(cfg, handed[..n]);
      PiecesHoldData(handed[n], 0, cfg.File(handed[n].id), cfg.bufSize);
      FlatDataConcat(Flatten(cfg, handed[..n]), FileChunks(handed[n], cfg.File(handed[n].id), cfg.bufSize));
    }
  }

  lemma FutureHoldsRest(cfg: Config, s: State)
    requires cfg.Valid() && DecoderInv(cfg, s)
    ensures FlatData(Future(cfg, s)) == InDecoder(s)
  {
    if s.curr.Some? {
      var t := s.curr.value;
      var th := s.threads[t];
      PiecesHoldData(th.meta, ChunkNo(th.chunk), ChunkData(th.chunk) + th.rest, cfg.bufSize);
      if th.phase.Adding? {
        FlatDataSingle(th.phase.chunk);
        FlatDataConcat([th.phase.chunk],
                       Pieces(th.meta, ChunkNo(th.chunk), ChunkData(th.chunk) + th.rest, cfg.bufSize));
      }
    }
  }

  // What has left the decoders but not reached the driver.
  lemma OnTheWay(cfg: Config, s: State)
    requires QueueInv(cfg, s)
    ensures 0 <= NumLoaded(s) <= |s.put|
    ensures FlatData(s.put[NumLoaded(s)..]) == InPack(s) + FlatData(s.queue)
  {
    if s.consumer.Holding? {
      var waiting := s.consumer.pack[s.consumer.loaded..];
      assert s.put[NumLoaded(s)..] == waiting + s.queue;
      FlatDataConcat(waiting, s.queue);
    } else {
      assert s.put[NumLoaded(s)..] == s.queue;
    }
  }

  lemma PutHolds(cfg: Config, s: State)
    requires cfg.Valid() && DecoderInv(cfg, s)
    ensures FlatData(s.put) + InDecoder(s) == PaddedFiles(cfg, s.handed)
  {
    FutureHoldsRest(cfg, s);
    FlattenHoldsFiles(cfg, s.handed);
    FlatDataConcat(s.put, Future(cfg, s));
  }

  lemma Glue(cs: seq<Chunk>, n: nat, first: seq<Byte>, second: seq<Byte>, third: seq<Byte>)
    requires n <= |cs| && first == FlatData(cs[..n]) && FlatData(cs[n..]) == second + third
    ensures first + second + third == FlatData(cs)
  {
    assert cs[..n] + cs[n..] == cs;
    FlatDataConcat(cs[..n], cs[n..]);
    assert first + second + third == first + (second + third);
  }

  lemma DeliveredAndOnTheWay(cfg: Config, s: State)
    requires DriverInv(cfg, s)
    ensures s.delivered + InPack(s) + FlatData(s.queue) == FlatData(s.put)
  {
    OnTheWay(cfg, s);
    Glue(s.put, NumLoaded(s), s.delivered, InPack(s), FlatData(s.queue));
  }

  /** Conservation: in every reachable state, what the driver has copied, then the pack, then the
      queue, then what the current decoder has still to produce, are exactly the files handed over, in
      handover order, each padded to a multiple of four. Nothing is lost, duplicated or reordered. */
  lemma Conservation(cfg: Config, s: State)
    requires cfg.Valid() && Reachable(cfg, s)
    ensures s.delivered + InPack(s) + FlatData(s.queue) + InDecoder(s) == PaddedFiles(cfg, s.handed)
  {
    ReachableInv(cfg, s);
    PutHolds(cfg, s);
    DeliveredAndOnTheWay(cfg, s);
  }

  // ---------------------------------------------------------------- contiguity

  // No file's chunks are interleaved with another's: they follow each other, numbered upwards by
  // one, and every one but the last of them is unmarked.
  ghost predicate Contiguous(cs: seq<Chunk>) {
    && (forall i, j :: 0 <= i < j < |cs| && cs[i].meta == cs[j].meta ==>
          cs[j].order - cs[i].order == j - i && cs[i].takeOut == [])
    && (forall i, j, k :: 0 <= i < k < j < |cs| && cs[i].meta == cs[j].meta ==> cs[k].meta == cs[j].meta)
  }

  // Where each file starts and ends.
  ghost predicate Bounded(cfg: Config, cs: seq<Chunk>)
    requires cfg.Valid()
  {
    && (cs != [] ==> cs[0].order == 0)
    && forall i :: 0 <= i < |cs| ==>
         && WellFormed(cs[i], cfg.bufSize)
         && (IsDone(cs[i].size)
             <==> cs[i].order + 1 == NumPieces(|cfg.File(cs[i].meta.value)|, cfg.bufSize))
         && (i + 1 < |cs| && cs[i + 1].meta != cs[i].meta ==> IsDone(cs[i].size) && cs[i + 1].order == 0)
  }

  ghost predicate Distinct(handed: seq<Meta>) {
    forall i, j :: 0 <= i < j < |handed| ==> handed[i].id != handed[j].id
  }

  lemma {:induction false} FlattenMetas(cfg: Config, handed: seq<Meta>, i: nat)
    requires cfg.Valid() && i < |Flatten(cfg, handed)|
    ensures Flatten(cfg, handed)[i].meta.Some? && Flatten(cfg, handed)[i].meta.value in Ids(handed)
    decreases |handed|
  {
    var n := |handed| - 1;
    var before := Flatten(cfg, handed[..n]);
    if i < |before| {
      FlattenMetas(cfg, handed[..n], i);
    } else {
      PieceAt(handed[n], 0, cfg.File(handed[n].id), cfg.bufSize, i - |before|);
    }
  }

  // The chunks of one file, as PieceAt describes them.
  ghost predicate OneFile(cs: seq<Chunk>, t: nat) {
    forall i :: 0 <= i < |cs| ==>
      cs[i].meta == Some(t) && cs[i].order == i && (IsDone(cs[i].size) <==> i == |cs| - 1)
      && (i < |cs| - 1 ==> cs[i].takeOut == [])
  }

  lemma PieceMarks(c: Chunk, meta: Meta, order: nat, last: bool, bufSize: nat)
    requires IsPiece(c, meta, order, last, bufSize) && bufSize % PADDING == 0
    ensures c.meta == Some(meta.id) && c.order == order && (IsDone(c.size) <==> last) && (!last ==> c.takeOut == [])
    ensures WellFormed(c, bufSize)
  {
    PadAligned(c.data);
  }

  lemma FilePiece(cfg: Config, m: Meta, i: nat)
    requires cfg.Valid() && i < |FileChunks(m, cfg.File(m.id), cfg.bufSize)|
    ensures var cs := FileChunks(m, cfg.File(m.id), cfg.bufSize);
            && cs[i].meta == Some(m.id) && cs[i].order == i && (IsDone(cs[i].size) <==> i == |cs| - 1)
            && (i < |cs| - 1 ==> cs[i].takeOut == []) && WellFormed(cs[i], cfg.bufSize)
  {
    var cs := FileChunks(m, cfg.File(m.id), cfg.bufSize);
    PieceAt(m, 0, cfg.File(m.id), cfg.bufSize, i);
    PieceMarks(cs[i], m, i, i == |cs| - 1, cfg.bufSize);
  }

  lemma FileIsOneFile(cfg: Config, m: Meta)
    requires cfg.Valid()
    ensures OneFile(FileChunks(m, cfg.File(m.id), cfg.bufSize), m.id)
  {
    forall i | 0 <= i < |FileChunks(m, cfg.File(m.id), cfg.bufSize)|
      ensures var cs := FileChunks(m, cfg.File(m.id), cfg.bufSize);
              && cs[i].meta == Some(m.id) && cs[i].order == i && (IsDone(cs[i].size) <==> i == |cs| - 1)
              && (i < |cs| - 1 ==> cs[i].takeOut == [])
    {
      FilePiece(cfg, m, i);
    }
  }

  lemma ContiguousAppend(before: seq<Chunk>, own: seq<Chunk>, t: nat)
    requires Contiguous(before) && OneFile(own, t)
    requires forall i :: 0 <= i < |before| ==> before[i].meta != Some(t)
    ensures Contiguous(before + own)
  {
    var all := before + own;
    forall i, j | 0 <= i < j < |all| && all[i].meta == all[j].meta
      ensures all[j].order - all[i].order == j - i && all[i].takeOut == []
    {
      if j < |before| {
        assert before[i].meta == before[j].meta;
      }
    }
    forall i, j, k | 0 <= i < k < j < |all| && all[i].meta == all[j].meta
      ensures all[k].meta == all[j].meta
    {
      if j < |before| {
        assert before[i].meta == before[j].meta;
        assert before[k].meta == before[j].meta;
      }
    }
  }

  lemma {:induction false} FlattenContiguous(cfg: Config, handed: seq<Meta>)
    requires cfg.Valid() && Distinct(handed)
    ensures Contiguous(Flatten(cfg, handed))
    decreases |handed|
  {
    if handed != [] {
      var n := |handed| - 1;
      var before := Flatten(cfg, handed[..n]);
      FlattenContiguous(cfg, handed[..n]);
      FileIsOneFile(cfg, handed[n]);
      forall i | 0 <= i < |before|
        ensures before[i].meta != Some(handed[n].id)
      {
        FlattenMetas(cfg, handed[..n], i);
        assert forall k :: 0 <= k < n ==> Ids(handed[..n])[k] == handed[k].id;
      }
      ContiguousAppend(before, FileChunks(handed[n], cfg.File(handed[n].id), cfg.bufSize), handed[n].id);
    }
  }

  lemma BoundedAppend(cfg: Config, before: seq<Chunk>, m: Meta)
    requires cfg.Valid() && Bounded(cfg, before)
    requires before != [] ==> IsDone(before[|before| - 1].size)
    ensures Bounded(cfg, before + FileChunks(m, cfg.File(m.id), cfg.bufSize))
  {
    var own := FileChunks(m, cfg.File(m.id), cfg.bufSize);
    FileIsOneFile(cfg, m);
    forall i | 0 <= i < |own|
      ensures WellFormed(own[i], cfg.bufSize)
    {
      FilePiece(cfg, m, i);
    }
  }

  lemma {:induction false} FlattenBounded(cfg: Config, handed: seq<Meta>)
    requires cfg.Valid()
    ensures Bounded(cfg, Flatten(cfg, handed))
    ensures Flatten(cfg, handed) != [] ==> IsDone(Flatten(cfg, handed)[|Flatten(cfg, handed)| - 1].size)
    decreases |handed|
  {
    if handed != [] {
      var n := |handed| - 1;
      FlattenBounded(cfg, handed[..n]);
      BoundedAppend(cfg, Flatten(cfg, handed[..n]), handed[n]);
      FileIsOneFile(cfg, handed[n]);
    }
  }

  lemma PutIsPrefix(cfg: Config, s: State)
    requires cfg.Valid() && DecoderInv(cfg, s)
    ensures s.put == Flatten(cfg, s.handed)[..|s.put|]
    ensures |s.put| <= |Flatten(cfg, s.handed)|
  {
    assert Flatten(cfg, s.handed)[..|s.put|] == s.put;
  }

  /** Contiguity: in the order in which chunks were queued, in every reachable state, each file's
      chunks form one block numbered 0, 1, 2, ..., a chunk is done-marked exactly when it is the last
      of its file, and the next file starts only after that. */
  lemma FilesAreContiguous(cfg: Config, s: State)
    requires cfg.Valid() && Reachable(cfg, s)
    ensures Contiguous(s.put) && Bounded(cfg, s.put) && s.put <= Flatten(cfg, s.handed) && Distinct(s.handed)
  {
    ReachableInv(cfg, s);
    PrefixContiguous(cfg, s);
  }

  lemma PrefixContiguous(cfg: Config, s: State)
    requires cfg.Valid() && DecoderInv(cfg, s)
    ensures Contiguous(s.put) && Bounded(cfg, s.put) && s.put <= Flatten(cfg, s.handed) && Distinct(s.handed)
  {
    assert Distinct(s.handed);
    FlattenContiguous(cfg, s.handed);
    FlattenBounded(cfg, s.handed);
    PutIsPrefix(cfg, s);
    PrefixOf(cfg, Flatten(cfg, s.handed), |s.put|);
  }

  lemma PrefixOf(cfg: Config, cs: seq<Chunk>, n: nat)
    requires cfg.Valid() && n <= |cs| && Contiguous(cs) && Bounded(cfg, cs)
    ensures Contiguous(cs[..n]) && Bounded(cfg, cs[..n])
  {
  }

  // ---------------------------------------------------------------- the done mark, exclusivity, bounds

  /** The coded sizes are unambiguous in every reachable state: a queued chunk, or one in a pack that
      the driver has not walked onto, has size 4k with exactly 4k bytes of data, or 4k + 1 with 4k
      bytes when it is the last of its file; once walked onto, its size is the number of its bytes. */
  lemma DoneMarkUnambiguous(cfg: Config, s: State)
    requires cfg.Valid() && Reachable(cfg, s)
    ensures forall c <- s.queue :: CodedWell(cfg, c)
    ensures s.consumer.Holding? ==>
              forall i :: 0 <= i < |s.consumer.pack| ==>
                var c := s.consumer.pack[i];
                if i < s.consumer.loaded then c.size == |c.data| && c.size % 4 == 0 else CodedWell(cfg, c)
  {
    ReachableInv(cfg, s);
    forall i | 0 <= i < |s.put|
      ensures CodedWell(cfg, s.put[i]) && LoadsWell(s.put[i])
    {
      PutCodedWell(cfg, s, i);
    }
    QueuedCodedWell(cfg, s);
  }

  lemma QueuedCodedWell(cfg: Config, s: State)
    requires QueueInv(cfg, s) && forall i :: 0 <= i < |s.put| ==> CodedWell(cfg, s.put[i]) && LoadsWell(s.put[i])
    ensures forall c <- s.queue :: CodedWell(cfg, c)
    ensures s.consumer.Holding? ==>
              forall i :: 0 <= i < |s.consumer.pack| ==>
                var c := s.consumer.pack[i];
                if i < s.consumer.loaded then c.size == |c.data| && c.size % 4 == 0 else CodedWell(cfg, c)
  {
    forall i | 0 <= i < |s.queue|
      ensures CodedWell(cfg, s.queue[i])
    {
      assert s.queue[i] == s.put[|s.put| - |s.queue| + i];
    }
  }

  lemma PutCodedWell(cfg: Config, s: State, i: nat)
    requires cfg.Valid() && DecoderInv(cfg, s) && i < |s.put|
    ensures CodedWell(cfg, s.put[i]) && LoadsWell(s.put[i])
  {
    PutWellFormed(cfg, s, i);
    PutIsPrefix(cfg, s);
    PieceFits(cfg, s.handed, i);
    WellFormedCodedWell(cfg, s.put[i]);
  }

  lemma WellFormedCodedWell(cfg: Config, c: Chunk)
    requires cfg.Valid() && WellFormed(c, cfg.bufSize) && |c.data| <= cfg.bufSize
    ensures CodedWell(cfg, c) && LoadsWell(c)
  {
    PadIsNextMultiple(c.data);
    LoadReadsData(c, MetaOf(c), c.order, c.data);
    var l := LoadChunk(c).0;
    assert |ReadBySize(l)| == l.size;
  }

  predicate CodedWell(cfg: Config, c: Chunk) {
    && c.size % 4 <= 1 && |c.data| == c.size - c.size % 4 <= cfg.bufSize
    && c.takeOut == if c.size % 4 == 1 then [DoneTakeOut] else []
  }

  predicate LoadsWell(c: Chunk) {
    LoadChunk(c).0.size == |LoadChunk(c).0.data| && LoadChunk(c).0.size % 4 == 0
  }

  lemma {:induction false} PieceFits(cfg: Config, handed: seq<Meta>, i: nat)
    requires cfg.Valid() && i < |Flatten(cfg, handed)|
    ensures |Flatten(cfg, handed)[i].data| <= cfg.bufSize
    decreases |handed|
  {
    var n := |handed| - 1;
    var before := Flatten(cfg, handed[..n]);
    if i < |before| {
      PieceFits(cfg, handed[..n], i);
    } else {
      PieceFitsBuffer(handed[n], 0, cfg.File(handed[n].id), cfg.bufSize, i - |before|);
    }
  }

  lemma {:induction false} PieceFitsBuffer(meta: Meta, k: nat, data: seq<Byte>, bufSize: nat, i: nat)
    requires bufSize > 0 && bufSize % PADDING == 0 && i < |Pieces(meta, k, data, bufSize)|
    ensures |Pieces(meta, k, data, bufSize)[i].data| <= bufSize
    decreases |data|
  {
    if |data| <= bufSize {
      PadIsNextMultiple(data);
    } else if i > 0 {
      PieceFitsBuffer(meta, k + 1, data[bufSize..], bufSize, i - 1);
    }
  }

  /** Exclusivity and the bound: at most one thread is past md_decoder_wait without having cleared
      curr_decoder, and it is the one curr_decoder points to; the queue never exceeds its maximum. */
  lemma OneDecoderAtATime(cfg: Config, s: State)
    requires cfg.Valid() && Reachable(cfg, s)
    ensures forall t: nat :: t < |s.threads| ==> (Active(s.threads[t].phase) <==> s.curr == Some(t))
    ensures |s.queue| <= cfg.maxNum
  {
    ReachableInv(cfg, s);
  }
}
