/** decoders/mddecoder.c, the part that turns a decoder's bytes into chunks: md_add_decoded_byte and
    md_decoder_done up to their calls of md_buf_add.

    `Feed` and `Finish` specify the two functions, `FileChunks` is the simple splitting of a whole
    file that they refine, and the class `DecoderData` does the work in place. */
module Chunking {
  import opened Types
  import opened Chunks

  // The metadata object of a file: the file, the address the object was allocated at, and whether that
  // address differs from the one in `oldmeta` when the file begins (`unseen`). An object that has been
  // freed can leave its address both in `oldmeta` and to a later file.
  datatype Meta = Meta(id: nat, addr: nat, unseen: bool)

  // What md_add_decoded_byte leaves behind: the decoder's chunk, the chunk to hand to md_buf_add,
  // the static `oldmeta`, and whether it failed.
  datatype FeedResult = FeedResult(chunk: Option<Chunk>, out: Option<Chunk>, oldMeta: Option<nat>, failed: bool)

  function Feed(chunk: Option<Chunk>, meta: Meta, oldMeta: Option<nat>, b: Byte, bufSize: nat): FeedResult {
    var next := Some(Append(chunk, b, bufSize));
    if chunk.Some? && RollsOver(chunk, bufSize) then
      var events := if oldMeta != Some(meta.addr) then [StartTakeIn] else [];
      var prev := chunk.value.(takeIn := chunk.value.takeIn + events, meta := Some(meta.id));
      if AdjustRefused(prev.size, bufSize)
      then FeedResult(next, None, Some(meta.addr), true)
      else FeedResult(next, Some(prev.(size := |Pad(prev.data)|, data := Pad(prev.data))), Some(meta.addr), false)
    else
      FeedResult(next, None, oldMeta, false)
  }

  // md_decoder_done on a decoder that holds a chunk; None when md_adjust_size refuses.
  function Finish(chunk: Chunk, meta: Meta, bufSize: nat): Option<Chunk> {
    if AdjustRefused(chunk.size, bufSize) then None
    else Some(Chunk(chunk.order, SetDone(|Pad(chunk.data)|), Pad(chunk.data), Some(meta.id),
                    chunk.takeIn + [DoneTakeIn], chunk.takeOut + [DoneTakeOut]))
  }

  // ---------------------------------------------------------------- the simple splitting

  // A full chunk that is not the last of its file. Only the first one carries the start event, and
  // only if the address of its metadata was unseen.
  function MidChunk(meta: Meta, k: nat, data: seq<Byte>): Chunk {
    Chunk(k, |data|, data, Some(meta.id), if k == 0 && meta.unseen then [StartTakeIn] else [], [])
  }

  // The last chunk of a file: padded and done-marked.
  function LastChunk(meta: Meta, k: nat, data: seq<Byte>): Chunk {
    Chunk(k, |Pad(data)| + 1, Pad(data), Some(meta.id), [DoneTakeIn], [DoneTakeOut])
  }

  // The chunks numbered k, k+1, ... that `data` is split into.
  function Pieces(meta: Meta, k: nat, data: seq<Byte>, bufSize: nat): (ps: seq<Chunk>)
    requires bufSize > 0
    ensures |ps| == NumPieces(|data|, bufSize)
    decreases |data|
  {
    if data == [] then []
    else if |data| <= bufSize then [LastChunk(meta, k, data)]
    else [MidChunk(meta, k, data[..bufSize])] + Pieces(meta, k + 1, data[bufSize..], bufSize)
  }

  function NumPieces(n: nat, bufSize: nat): nat
    requires bufSize > 0
    decreases n
  {
    if n == 0 then 0 else if n <= bufSize then 1 else 1 + NumPieces(n - bufSize, bufSize)
  }

  function FileChunks(meta: Meta, file: seq<Byte>, bufSize: nat): (ps: seq<Chunk>)
    requires bufSize > 0
    ensures |ps| == NumPieces(|file|, bufSize)
  {
    Pieces(meta, 0, file, bufSize)
  }

  // The bytes that a sequence of chunks holds, in order.
  function FlatData(cs: seq<Chunk>): seq<Byte> {
    if cs == [] then [] else FlatData(cs[..|cs| - 1]) + cs[|cs| - 1].data
  }

  lemma {:induction false} FlatDataConcat(a: seq<Chunk>, b: seq<Chunk>)
    ensures FlatData(a + b) == FlatData(a) + FlatData(b)
    decreases |b|
  {
    if b == [] {
      assert a + b == a;
    } else {
      var n := |b| - 1;
      assert (a + b)[..|a + b| - 1] == a + b[..n];
      FlatDataConcat(a, b[..n]);
    }
  }

  lemma FlatDataSingle(c: Chunk)
    ensures FlatData([c]) == c.data
  {
    assert [c][..0] == [];
  }

  // ceil(n / bufSize)
  function CeilDiv(n: nat, bufSize: nat): nat
    requires bufSize > 0
  {
    (n + bufSize - 1) / bufSize
  }

  lemma DivStep(n: nat, d: nat)
    requires 0 < d <= n
    ensures n / d == (n - d) / d + 1
    ensures n % d == (n - d) % d
  {
    var q, r := (n - d) / d, (n - d) % d;
    assert n == (q + 1) * d + r;
    DivUnique(n, d, q + 1, r);
  }

  lemma DivUnique(n: nat, d: nat, q: nat, r: nat)
    requires d > 0 && n == q * d + r && r < d
    ensures n / d == q && n % d == r
  {
    var q1, r1 := n / d, n % d;
    assert n == d * q1 + r1;
    if q1 < q {
      MulGap(d, q1, q);
    } else if q < q1 {
      MulGap(d, q, q1);
    }
  }

  lemma MulGap(d: nat, a: nat, b: nat)
    requires a < b
    ensures d * a + d <= d * b
  {
    assert d * b - d * a == d * (b - a);
    if b - a > 1 {
      MulGap(d, a, b - 1);
    }
  }

  lemma {:induction false} NumPiecesIs(n: nat, bufSize: nat)
    requires bufSize > 0
    ensures NumPieces(n, bufSize) == CeilDiv(n, bufSize)
    decreases n
  {
    if n == 0 {
      DivUnique(bufSize - 1, bufSize, 0, bufSize - 1);
    } else if n <= bufSize {
      DivUnique(n + bufSize - 1, bufSize, 1, n - 1);
    } else {
      NumPiecesIs(n - bufSize, bufSize);
      DivStep(n + bufSize - 1, bufSize);
    }
  }

  /** Splitting n bytes gives ceil(n / bufSize) chunks. */
  lemma PiecesCount(meta: Meta, k: nat, data: seq<Byte>, bufSize: nat)
    requires bufSize > 0
    ensures |Pieces(meta, k, data, bufSize)| == CeilDiv(|data|, bufSize)
  {
    NumPiecesIs(|data|, bufSize);
  }

  // One piece of a file: full and unmarked, with any start event on number 0, or else the last one,
  // padded, done-marked and carrying the two done events.
  predicate IsPiece(c: Chunk, meta: Meta, order: nat, last: bool, bufSize: nat) {
    if last
    then c == Chunk(order, |c.data| + 1, c.data, Some(meta.id), [DoneTakeIn], [DoneTakeOut]) && |c.data| % PADDING == 0
    else c == MidChunk(meta, order, c.data) && |c.data| == bufSize
  }

  /** The i-th piece is numbered k + i and owned by `meta`; it is the marked one if it is the last. */
  lemma {:induction false} PieceAt(meta: Meta, k: nat, data: seq<Byte>, bufSize: nat, i: nat)
    requires bufSize > 0 && i < |Pieces(meta, k, data, bufSize)|
    ensures var ps := Pieces(meta, k, data, bufSize);
            IsPiece(ps[i], meta, k + i, i == |ps| - 1, bufSize)
    decreases |data|
  {
    if |data| <= bufSize {
      PadIsNextMultiple(data);
    } else if i > 0 {
      PieceAt(meta, k + 1, data[bufSize..], bufSize, i - 1);
    } else {
      PiecesNonEmpty(meta, k + 1, data[bufSize..], bufSize);
    }
  }

  lemma PiecesNonEmpty(meta: Meta, k: nat, data: seq<Byte>, bufSize: nat)
    requires bufSize > 0
    ensures Pieces(meta, k, data, bufSize) == [] <==> data == []
  {
  }

  /** The pieces, in order, hold the data followed by the padding of its end. */
  lemma {:induction false} PiecesHoldData(meta: Meta, k: nat, data: seq<Byte>, bufSize: nat)
    requires bufSize > 0 && bufSize % PADDING == 0
    ensures FlatData(Pieces(meta, k, data, bufSize)) == Pad(data)
    decreases |data|
  {
    if data == [] {
    } else if |data| <= bufSize {
      var p := LastChunk(meta, k, data);
      FlatDataSingle(p);
    } else {
      var tail := data[bufSize..];
      PiecesHoldData(meta, k + 1, tail, bufSize);
      FlatDataFirst(MidChunk(meta, k, data[..bufSize]), Pieces(meta, k + 1, tail, bufSize));
      assert data[..bufSize] + tail == data;
      PadSuffix(data[..bufSize], tail);
    }
  }

  lemma FlatDataFirst(c: Chunk, cs: seq<Chunk>)
    ensures FlatData([c] + cs) == c.data + FlatData(cs)
  {
    FlatDataConcat([c], cs);
    FlatDataSingle(c);
  }

  // ---------------------------------------------------------------- which files get through

  // How many bytes the last chunk of an n-byte file holds (0 only for the empty file).
  function TailLen(n: nat, bufSize: nat): nat
    requires bufSize > 0
    decreases n
  {
    if n <= bufSize then n else TailLen(n - bufSize, bufSize)
  }

  // md_decoder_done neither finds a missing chunk nor is refused by md_adjust_size.
  predicate Deliverable(n: nat, bufSize: nat)
    requires bufSize > 0
  {
    TailLen(n, bufSize) != 0 && !AdjustRefused(TailLen(n, bufSize), bufSize)
  }

  lemma {:induction false} TailLenIs(n: nat, bufSize: nat)
    requires bufSize > 0
    ensures TailLen(n, bufSize) == if n == 0 then 0 else if n % bufSize == 0 then bufSize else n % bufSize
    decreases n
  {
    if n < bufSize {
      DivUnique(n, bufSize, 0, n);
    } else if n == bufSize {
      DivUnique(n, bufSize, 1, 0);
    } else {
      DivStep(n, bufSize);
      TailLenIs(n - bufSize, bufSize);
    }
  }

  /** A file gets through md_decoder_done if and only if it is not empty and its length is not one
      short of a multiple of the buffer size. */
  lemma DeliverableExactly(n: nat, bufSize: nat)
    requires bufSize > 0 && bufSize % PADDING == 0
    ensures Deliverable(n, bufSize) <==> n > 0 && n % bufSize != bufSize - 1
  {
    TailLenIs(n, bufSize);
    AdjustRefusedExactly(TailLen(n, bufSize), bufSize);
  }

  // ---------------------------------------------------------------- the byte loop refines the splitting

  // The chunk a decoder holds after its k-th chunk has received `data`.
  predicate HoldsPrefix(chunk: Option<Chunk>, k: nat, data: seq<Byte>, bufSize: nat) {
    if chunk.None? then k == 0 && data == []
    else chunk.value == Chunk(k, |data|, data, None, [], []) && 0 < |data| <= bufSize
  }

  // `oldmeta` is this file's metadata once its first chunk has been handed over, and before that tells
  // whether its address is unseen.
  predicate OldMetaOk(oldMeta: Option<nat>, meta: Meta, k: nat) {
    if k > 0 then oldMeta == Some(meta.addr) else meta.unseen <==> oldMeta != Some(meta.addr)
  }

  /** One byte: what is handed over, followed by the pieces still to come, is what was to come. */
  lemma FeedRefines(chunk: Option<Chunk>, meta: Meta, oldMeta: Option<nat>, k: nat, data: seq<Byte>,
                    rest: seq<Byte>, bufSize: nat)
    requires bufSize > 0 && bufSize % PADDING == 0 && rest != []
    requires HoldsPrefix(chunk, k, data, bufSize) && OldMetaOk(oldMeta, meta, k)
    ensures var r := Feed(chunk, meta, oldMeta, rest[0], bufSize);
            var rolled := |data| == bufSize;
            var k' := if rolled then k + 1 else k;
            var data' := if rolled then [rest[0]] else data + [rest[0]];
            && !r.failed && (r.out.Some? <==> rolled)
            && HoldsPrefix(r.chunk, k', data', bufSize) && OldMetaOk(r.oldMeta, meta, k')
            && Pieces(meta, k, data + rest, bufSize)
               == (if rolled then [r.out.value] else []) + Pieces(meta, k', data' + rest[1..], bufSize)
  {
    if |data| == bufSize {
      var events := if oldMeta != Some(meta.addr) then [StartTakeIn] else [];
      PadIsNextMultiple(data);
      assert [] + events == events;
      assert Feed(chunk, meta, oldMeta, rest[0], bufSize).out == Some(MidChunk(meta, k, data));
      assert (data + rest)[..bufSize] == data && (data + rest)[bufSize..] == rest;
      assert [rest[0]] + rest[1..] == rest;
    } else {
      assert (data + [rest[0]]) + rest[1..] == data + rest;
    }
  }

  /** End of input: the final chunk is the one piece still to come, or md_decoder_done refuses it. */
  lemma FinishRefines(chunk: Chunk, meta: Meta, k: nat, data: seq<Byte>, bufSize: nat)
    requires bufSize > 0 && bufSize % PADDING == 0
    requires HoldsPrefix(Some(chunk), k, data, bufSize)
    ensures Finish(chunk, meta, bufSize)
            == if AdjustRefused(|data|, bufSize) then None else Some(LastChunk(meta, k, data))
    ensures Pieces(meta, k, data, bufSize) == [LastChunk(meta, k, data)]
  {
    PadIsNextMultiple(data);
    assert chunk.takeIn + [DoneTakeIn] == [DoneTakeIn];
    assert chunk.takeOut + [DoneTakeOut] == [DoneTakeOut];
  }

  // ---------------------------------------------------------------- in place

  ghost function ViewOf(chunk: BufChunk?): Option<Chunk>
    reads chunk
  {
    if chunk == null then None else Some(chunk.View())
  }

  // The function-local static of md_add_decoded_byte.
  class Statics {
    var oldMeta: Option<nat>
  }

  /** md_decoder_data_t, reduced to the fields that chunking uses. Of `metadata` only the identity and
      the address are looked at. */
  class DecoderData {
    var chunk: BufChunk?
    const metadata: Meta
    const bufSize: nat

    constructor (metadata: Meta, bufSize: nat)
      ensures chunk == null && this.metadata == metadata && this.bufSize == bufSize
    {
      this.chunk, this.metadata, this.bufSize := null, metadata, bufSize;
    }

    ghost predicate Valid()
      reads this, chunk, if chunk == null then {} else {chunk.buffer}
    {
      && bufSize > 0 && bufSize % PADDING == 0
      && (chunk != null ==> chunk.Valid() && chunk.buffer.Length == bufSize && chunk.size == |chunk.written|)
    }

    // md_add_decoded_byte; `out` is the chunk that the source passes to md_buf_add on its way out.
    method AddDecodedByte(b: Byte, g: Statics) returns (out: BufChunk?, ret: int)
      requires Valid()
      modifies this`chunk, g, chunk, if chunk == null then {} else {chunk.buffer}
      ensures Valid() && chunk != null
      ensures chunk == old(chunk) || (fresh(chunk) && fresh(chunk.buffer))
      ensures out != null ==> out == old(chunk) && out != chunk && out.Valid() && out.buffer != chunk.buffer
      ensures var r := Feed(old(ViewOf(chunk)), metadata, old(g.oldMeta), b, bufSize);
              ViewOf(chunk) == r.chunk && ViewOf(out) == r.out && g.oldMeta == r.oldMeta && (ret != 0 <==> r.failed)
    {
      var prev := chunk;
      chunk := AppendByte(chunk, b, bufSize);
      out, ret := null, 0;
      if prev != null && chunk != prev {
        if g.oldMeta != Some(metadata.addr) {
          g.oldMeta := Some(metadata.addr);
          prev.takeIn := prev.takeIn + [StartTakeIn];
        } else {
          assert prev.takeIn + [] == prev.takeIn;
        }
        prev.metadata := Some(metadata.id);
        ret := prev.AdjustSize();
        if ret == 0 {
          out := prev;
        }
      }
    }

    // md_decoder_done up to its md_buf_add; `out` is the done-marked chunk.
    method DecoderDone() returns (out: BufChunk?, ret: int)
      requires Valid()
      modifies this`chunk, chunk, if chunk == null then {} else {chunk.buffer}
      ensures old(chunk) == null ==> out == null && ret == 0 && chunk == null
      ensures old(chunk) != null ==>
                var r := Finish(old(chunk.View()), metadata, bufSize);
                && ViewOf(out) == r && (ret == 0 <==> r.Some?)
                && (r.Some? ==> out == old(chunk) && chunk == null && out.Valid())
    {
      out, ret := null, 0;
      if chunk != null {
        chunk.metadata := Some(metadata.id);
        ret := chunk.AdjustSize();
        if ret != 0 {
          return;
        }
        chunk.size := SetDone(chunk.size);
        chunk.takeIn := chunk.takeIn + [DoneTakeIn];
        chunk.takeOut := chunk.takeOut + [DoneTakeOut];
        out := chunk;
        chunk := null;
      }
    }
  }

  // What the decoding loop has done after some bytes: the chunk it holds, the static, what it sent.
  datatype Progress = Progress(chunk: Option<Chunk>, oldMeta: Option<nat>, sent: seq<Chunk>)

  ghost function FeedOn(p: Progress, meta: Meta, b: Byte, bufSize: nat): Progress {
    var r := Feed(p.chunk, meta, p.oldMeta, b, bufSize);
    Progress(r.chunk, r.oldMeta, if r.out.Some? then p.sent + [r.out.value] else p.sent)
  }

  ghost function FeedAll(start: Progress, meta: Meta, bytes: seq<Byte>, bufSize: nat): Progress {
    if bytes == [] then start
    else FeedOn(FeedAll(start, meta, bytes[..|bytes| - 1], bufSize), meta, bytes[|bytes| - 1], bufSize)
  }

  // md_decoder_done: what has been sent after it, and whether it clears the current decoder.
  ghost function DoneAfter(p: Progress, meta: Meta, bufSize: nat): (seq<Chunk>, bool) {
    if p.chunk.None? then (p.sent, false)
    else match Finish(p.chunk.value, meta, bufSize)
      case Some(c) => (p.sent + [c], true)
      case None => (p.sent, false)
  }

  // After i bytes: what was sent, what the decoder holds (its k-th chunk with `data`) and the unread
  // bytes make up the splitting of the whole file.
  ghost predicate Splits(file: seq<Byte>, meta: Meta, bufSize: nat, i: nat, k: nat, data: seq<Byte>, p: Progress)
    requires bufSize > 0
  {
    && i <= |file|
    && HoldsPrefix(p.chunk, k, data, bufSize) && OldMetaOk(p.oldMeta, meta, k)
    && FileChunks(meta, file, bufSize) == p.sent + Pieces(meta, k, data + file[i..], bufSize)
    && TailLen(|file|, bufSize) == TailLen(|data| + |file| - i, bufSize)
    && (data == [] <==> i == 0)
  }

  lemma SplitStep(file: seq<Byte>, meta: Meta, bufSize: nat, i: nat, k: nat, data: seq<Byte>, p: Progress)
    returns (k': nat, data': seq<Byte>)
    requires bufSize > 0 && bufSize % PADDING == 0 && i < |file|
    requires Splits(file, meta, bufSize, i, k, data, p)
    ensures Splits(file, meta, bufSize, i + 1, k', data', FeedOn(p, meta, file[i], bufSize))
  {
    var rest := file[i..];
    assert rest[0] == file[i] && rest[1..] == file[i + 1..];
    FeedRefines(p.chunk, meta, p.oldMeta, k, data, rest, bufSize);
    k', data' := if |data| == bufSize then k + 1 else k, if |data| == bufSize then [file[i]] else data + [file[i]];
    var out := Feed(p.chunk, meta, p.oldMeta, file[i], bufSize).out;
    var later := Pieces(meta, k', data' + rest[1..], bufSize);
    if out.Some? {
      assert p.sent + ([out.value] + later) == (p.sent + [out.value]) + later;
    } else {
      assert [] + later == later;
    }
  }

  lemma {:induction false} FeedAllRefines(start: Progress, file: seq<Byte>, i: nat, meta: Meta, bufSize: nat)
    returns (k: nat, data: seq<Byte>)
    requires bufSize > 0 && bufSize % PADDING == 0 && i <= |file|
    requires start.chunk == None && (meta.unseen <==> start.oldMeta != Some(meta.addr)) && start.sent == []
    ensures Splits(file, meta, bufSize, i, k, data, FeedAll(start, meta, file[..i], bufSize))
  {
    if i == 0 {
      k, data := 0, [];
      assert [] + file[0..] == file;
      assert [] + FileChunks(meta, file, bufSize) == FileChunks(meta, file, bufSize);
    } else {
      k, data := FeedAllRefines(start, file, i - 1, meta, bufSize);
      assert file[..i][..i - 1] == file[..i - 1];
      k, data := SplitStep(file, meta, bufSize, i - 1, k, data, FeedAll(start, meta, file[..i - 1], bufSize));
    }
  }

  /** The byte loop of a decoder, ended by md_decoder_done, sends the simple splitting of its file,
      except that a non-empty file that is not deliverable loses its last piece. */
  lemma DecodeRefines(start: Progress, file: seq<Byte>, meta: Meta, bufSize: nat)
    requires bufSize > 0 && bufSize % PADDING == 0
    requires start.chunk == None && (meta.unseen <==> start.oldMeta != Some(meta.addr)) && start.sent == []
    ensures file != [] <==> FileChunks(meta, file, bufSize) != []
    ensures var all := FileChunks(meta, file, bufSize);
            var (out, cleared) := DoneAfter(FeedAll(start, meta, file, bufSize), meta, bufSize);
            && (cleared <==> Deliverable(|file|, bufSize))
            && out == if cleared || file == [] then all else all[..|all| - 1]
  {
    var k, data := FeedAllRefines(start, file, |file|, meta, bufSize);
    assert file[..|file|] == file && data + file[|file|..] == data;
    PiecesNonEmpty(meta, 0, file, bufSize);
    DoneRefines(FeedAll(start, meta, file, bufSize), file, k, data, meta, bufSize);
  }

  // The end of the loop, when all bytes have been fed.
  lemma DoneRefines(p: Progress, file: seq<Byte>, k: nat, data: seq<Byte>, meta: Meta, bufSize: nat)
    requires bufSize > 0 && bufSize % PADDING == 0 && HoldsPrefix(p.chunk, k, data, bufSize)
    requires FileChunks(meta, file, bufSize) == p.sent + Pieces(meta, k, data, bufSize)
    requires TailLen(|file|, bufSize) == TailLen(|data|, bufSize) && (data == [] <==> file == [])
    ensures var all := FileChunks(meta, file, bufSize);
            var (out, cleared) := DoneAfter(p, meta, bufSize);
            && (cleared <==> Deliverable(|file|, bufSize))
            && (file != [] ==> all != [])
            && out == if cleared || file == [] then all else all[..|all| - 1]
  {
    if p.chunk.Some? {
      FinishRefines(p.chunk.value, meta, k, data, bufSize);
    }
  }

  // The chunks collected so far hold these values.
  ghost predicate Collected(out: seq<BufChunk>, sent: seq<Chunk>)
    reads out
  {
    |out| == |sent| && forall j :: 0 <= j < |out| ==> out[j].View() == sent[j]
  }

  // The body of the decoding loop: feed one byte, pass on the chunk that filled up.
  method FeedInto(d: DecoderData, b: Byte, g: Statics, out: seq<BufChunk>, ghost sent: seq<Chunk>)
    returns (out': seq<BufChunk>)
    requires d.Valid() && Collected(out, sent) && d.chunk !in out
    modifies d`chunk, g, d.chunk, if d.chunk == null then {} else {d.chunk.buffer}
    ensures d.Valid() && d.chunk != null && d.chunk !in out'
    ensures d.chunk == old(d.chunk) || (fresh(d.chunk) && fresh(d.chunk.buffer))
    ensures forall c <- out' :: c in out || c == old(d.chunk)
    ensures var p := FeedOn(old(Progress(ViewOf(d.chunk), g.oldMeta, sent)), d.metadata, b, d.bufSize);
            ViewOf(d.chunk) == p.chunk && g.oldMeta == p.oldMeta && Collected(out', p.sent)
  {
    out' := out;
    var full, ret := d.AddDecodedByte(b, g);
    assert Collected(out, sent);
    if full != null {
      out' := out + [full];
    }
  }

  // The end of the decoding loop: md_decoder_done, passing on the done-marked chunk.
  method FinishInto(d: DecoderData, out: seq<BufChunk>, ghost sent: seq<Chunk>)
    returns (out': seq<BufChunk>, cleared: bool)
    requires d.Valid() && Collected(out, sent) && d.chunk !in out
    modifies d`chunk, d.chunk, if d.chunk == null then {} else {d.chunk.buffer}
    ensures var (sent', cleared') :=
              DoneAfter(old(Progress(ViewOf(d.chunk), None, sent)), d.metadata, d.bufSize);
            cleared == cleared' && Collected(out', sent')
  {
    out' := out;
    var last, ret := d.DecoderDone();
    assert Collected(out, sent);
    cleared := last != null;
    if last != null {
      out' := out + [last];
    }
  }

  // The loop of md_dummy_decode_fp, with the chunks it passes to md_buf_add collected in `out`.
  method FeedFile(d: DecoderData, file: seq<Byte>, g: Statics) returns (out: seq<BufChunk>, ghost sent: seq<Chunk>)
    requires d.Valid() && d.chunk == null
    modifies d`chunk, g
    ensures d.Valid() && (d.chunk != null ==> fresh(d.chunk) && fresh(d.chunk.buffer)) && d.chunk !in out
    ensures Collected(out, sent)
    ensures FeedAll(Progress(None, old(g.oldMeta), []), d.metadata, file, d.bufSize)
            == Progress(ViewOf(d.chunk), g.oldMeta, sent)
  {
    out, sent := [], [];
    var i := 0;
    ghost var start := Progress(None, g.oldMeta, []);
    while i < |file|
      invariant 0 <= i <= |file| && d.Valid()
      invariant d.chunk != null ==> fresh(d.chunk) && fresh(d.chunk.buffer)
      invariant d.chunk !in out && Collected(out, sent) && forall c <- out :: fresh(c)
      invariant FeedAll(start, d.metadata, file[..i], d.bufSize) == Progress(ViewOf(d.chunk), g.oldMeta, sent)
    {
      assert file[..i + 1][..i] == file[..i];
      ghost var p := FeedOn(Progress(ViewOf(d.chunk), g.oldMeta, sent), d.metadata, file[i], d.bufSize);
      out := FeedInto(d, file[i], g, out, sent);
      sent := p.sent;
      i := i + 1;
    }
    assert file[..i] == file;
  }

  /** md_dummy_decode_fp on a whole file; `cleared` says whether md_decoder_done gets as far as clearing the
      current decoder. */
  method DecodeFile(file: seq<Byte>, metadata: Meta, bufSize: nat, g: Statics)
    returns (out: seq<BufChunk>, cleared: bool)
    requires bufSize > 0 && bufSize % PADDING == 0 && (metadata.unseen <==> g.oldMeta != Some(metadata.addr))
    modifies g
    ensures cleared <==> Deliverable(|file|, bufSize)
    ensures var all := FileChunks(metadata, file, bufSize);
            && (file != [] ==> all != [])
            && Collected(out, if cleared || file == [] then all else all[..|all| - 1])
  {
    var d := new DecoderData(metadata, bufSize);
    DecodeRefines(Progress(None, g.oldMeta, []), file, metadata, bufSize);
    ghost var sent;
    out, sent := FeedFile(d, file, g);
    out, cleared := FinishInto(d, out, sent);
  }
}
