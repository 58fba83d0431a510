/** core/utils/mdtime.c and the chunk-count prediction of md_set_metadata
    (decoders/include/mddecoder.h). Division of naturals is C's. The source multiplies as int; where a
    product leaves that range, its result is undefined. */
module Timing {
  import opened Types
  import opened Chunking

  datatype Metadata = Metadata(sampleRate: nat, channels: nat, bps: nat, totalSamples: nat, totalBufChunks: nat)

  function BitRate(m: Metadata): nat {
    m.bps * m.channels * m.sampleRate
  }

  // The range of a C int that the products of the source must stay in.
  const INT_LIMIT := 0x8000_0000

  // md_buf_len_usec
  function BufLenUsec(m: Metadata, bufSize: nat): nat
    requires BitRate(m) > 0
  {
    bufSize * 8 * 1000000 / BitRate(m)
  }

  // md_usec_to_buf_chunks
  function UsecToBufChunks(m: Metadata, bufSize: nat, usec: nat): nat
    requires BitRate(m) > 0 && BufLenUsec(m, bufSize) > 0
  {
    usec / BufLenUsec(m, bufSize)
  }

  lemma MulLe(a: nat, b: nat, c: nat)
    requires a <= b
    ensures a * c <= b * c && c * a <= c * b
  {
  }

  lemma DivBounds(n: nat, d: nat)
    requires d > 0
    ensures d * (n / d) <= n < d * (n / d) + d
  {
  }

  lemma DivZero(n: nat, d: nat)
    requires d > 0
    ensures n / d == 0 <==> n < d
  {
    if n < d {
      DivUnique(n, d, 0, n);
    } else {
      DivStep(n, d);
      assert (n - d) / d >= 0;
    }
  }

  /** The documented maxima keep the product of the rates within an int. */
  lemma RateFitsInt(m: Metadata)
    requires m.bps <= 24 && m.channels <= 8 && m.sampleRate <= 192000
    ensures BitRate(m) <= 36864000 < 0x8000_0000
  {
    MulLe(m.bps, 24, m.channels);
    MulLe(m.bps * m.channels, 192, m.sampleRate);
  }

  // md_usec_to_buf_chunks and the md_buf_len_usec it calls are defined: the product of the rates stays
  // within an int, and neither division is by zero.
  predicate CanDivide(m: Metadata, bufSize: nat) {
    0 < BitRate(m) < INT_LIMIT && BufLenUsec(m, bufSize) > 0
  }

  /** They are exactly when there is a bit rate, it fits an int, and a whole buffer plays for a microsecond or
      more. */
  lemma DivisionExactly(m: Metadata, bufSize: nat)
    ensures CanDivide(m, bufSize) <==> 0 < BitRate(m) < INT_LIMIT && BitRate(m) <= bufSize * 8000000
  {
    if BitRate(m) > 0 {
      DivZero(bufSize * 8 * 1000000, BitRate(m));
    }
  }

  /** Both quotients are rounded down, and by less than one: a buffer plays for at least the microseconds of
      md_buf_len_usec and for less than one more, and that many buffers' lengths fit into `usec` and no more. */
  lemma QuotientsExactly(m: Metadata, bufSize: nat, usec: nat)
    requires CanDivide(m, bufSize)
    ensures var n, rate, len := bufSize * 8 * 1000000, BitRate(m), BufLenUsec(m, bufSize);
            len * rate <= n < (len + 1) * rate
    ensures var len, k := BufLenUsec(m, bufSize), UsecToBufChunks(m, bufSize, usec);
            k * len <= usec < (k + 1) * len
  {
    DivBounds(bufSize * 8 * 1000000, BitRate(m));
    DivBounds(usec, BufLenUsec(m, bufSize));
  }

  /** Look-ahead accuracy. With N/P the exact playing time of one buffer in microseconds, k chunks play
      for at most usec + k microseconds and for more than usec less one chunk, despite the two nested
      truncations. */
  lemma LookAheadAccurate(m: Metadata, bufSize: nat, usec: nat)
    requires CanDivide(m, bufSize)
    ensures var n, p, k := bufSize * 8 * 1000000, BitRate(m), UsecToBufChunks(m, bufSize, usec);
            k * n <= (usec + k) * p && usec * p < (k + 1) * n
  {
    var n, p, len := bufSize * 8 * 1000000, BitRate(m), BufLenUsec(m, bufSize);
    DivBounds(n, p);
    var k := UsecToBufChunks(m, bufSize, usec);
    DivBounds(usec, len);
    LookAheadAlgebra(n, p, len, usec, k);
  }

  lemma LookAheadAlgebra(n: nat, p: nat, len: nat, usec: nat, k: nat)
    requires p * len <= n < p * len + p && p > 0
    requires len * k <= usec < len * k + len
    ensures k * n <= (usec + k) * p && usec * p < (k + 1) * n
  {
    MulLe(n, p * len + p, k);
    assert k * (p * len + p) == (len * k + k) * p;
    MulLe(len * k + k, usec + k, p);
    assert (len * k + len) * p == (k + 1) * (p * len);
    MulLe(p * len, n, k + 1);
    MulLe(usec + 1, len * k + len, p);
    assert (usec + 1) * p == usec * p + p;
  }

  // ---------------------------------------------------------------- predicting the number of chunks

  // The formula of md_set_metadata.
  function PredictedChunks(m: Metadata, bufSize: nat): (p: nat)
    requires bufSize > 0
    ensures p > 0
  {
    m.totalSamples * m.channels * (m.bps / 8) / bufSize + 1
  }

  /** It counts whole bytes a sample, rounded down, and one chunk more than those bytes fill. */
  lemma PredictedExactly(m: Metadata, bufSize: nat, k: nat)
    requires bufSize > 0 && 8 * k <= m.bps < 8 * (k + 1)
    ensures var bytes, p := m.totalSamples * m.channels * k, PredictedChunks(m, bufSize);
            (p - 1) * bufSize <= bytes < p * bufSize
  {
    assert m.bps / 8 == k;
    DivBounds(m.totalSamples * m.channels * k, bufSize);
  }

  // The products on the way to it stay within an int.
  predicate CountFits(m: Metadata) {
    m.totalSamples * m.channels < INT_LIMIT && m.totalSamples * m.channels * (m.bps / 8) < INT_LIMIT
  }

  // What the source computes: nothing that can be relied on when they do not.
  function SourceCount(m: Metadata, bufSize: nat): Option<nat>
    requires bufSize > 0
  {
    if CountFits(m) then Some(PredictedChunks(m, bufSize)) else None
  }

  /** One product decides: that of samples, channels and whole bytes per sample, where less than a byte
      counts as one. */
  lemma CountFitsExactly(m: Metadata)
    ensures CountFits(m) <==> m.totalSamples * m.channels * (if m.bps < 8 then 1 else m.bps / 8) < INT_LIMIT
  {
    var n := m.totalSamples * m.channels;
    if m.bps < 8 {
      assert m.bps / 8 == 0;
    } else {
      MulLe(1, m.bps / 8, n);
    }
  }

  /** At the documented maxima, 24 bits, 8 channels and 192 kHz, the count is good for files of up to
      89478485 samples, which is 466 seconds and no more; for stereo at those rates four times as many. */
  lemma CountAtMaxima(m: Metadata)
    requires m.bps == 24 && m.sampleRate == 192000
    ensures m.channels == 8 ==> (CountFits(m) <==> m.totalSamples <= 89478485)
    ensures m.channels == 2 ==> (CountFits(m) <==> m.totalSamples <= 357913941)
    ensures 466 * m.sampleRate <= 89478485 < 467 * m.sampleRate
  {
  }

  // What a decoder emits for that many samples: whole bytes per sample.
  function SampleWidth(bps: nat): nat {
    (bps + 7) / 8
  }

  /** They are the fewest that hold the bits. */
  lemma SampleWidthExactly(bps: nat, w: nat)
    ensures w == SampleWidth(bps) <==> 8 * w - 8 < bps <= 8 * w || (bps == 0 && w == 0)
  {
  }

  function EmittedBytes(m: Metadata): nat {
    m.totalSamples * m.channels * SampleWidth(m.bps)
  }

  /** The prediction against the chunks the decode loop really produces, for every record: it is exact if
      and only if its products fit an int and the bytes fit into the predicted chunks but not into one
      fewer; and it is no less than what comes if and only if they fit an int and the bytes fit into the
      predicted chunks. */
  lemma PredictionExactly(m: Metadata, meta: Meta, file: seq<Byte>, bufSize: nat)
    requires bufSize > 0 && |file| == EmittedBytes(m)
    ensures var actual, predicted := |FileChunks(meta, file, bufSize)|, PredictedChunks(m, bufSize);
            && (SourceCount(m, bufSize) == Some(actual)
                <==> CountFits(m) && (predicted - 1) * bufSize < EmittedBytes(m) <= predicted * bufSize)
            && (SourceCount(m, bufSize).Some? && actual <= SourceCount(m, bufSize).value
                <==> CountFits(m) && EmittedBytes(m) <= predicted * bufSize)
  {
    PiecesCount(meta, 0, file, bufSize);
    CeilIs(EmittedBytes(m), bufSize, PredictedChunks(m, bufSize));
  }

  lemma CeilIs(n: nat, d: nat, p: nat)
    requires d > 0 && p > 0
    ensures CeilDiv(n, d) <= p <==> n <= p * d
    ensures CeilDiv(n, d) == p <==> (p - 1) * d < n <= p * d
  {
    CeilFits(n, d, p);
    CeilFits(n, d, p - 1);
  }

  // n bytes need at most k chunks of d bytes if and only if they fit.
  lemma CeilFits(n: nat, d: nat, k: nat)
    requires d > 0
    ensures CeilDiv(n, d) <= k <==> n <= k * d
  {
    var c := CeilDiv(n, d);
    DivBounds(n + d - 1, d);
    assert d * c <= n + d - 1 < d * c + d;
    if c <= k {
      MulLe(c, k, d);
    } else {
      MulLe(k + 1, c, d);
      assert (k + 1) * d == k * d + d;
    }
  }

  /** For whole-byte samples: where the products fit an int, which is when the byte count does, exact if and
      only if the byte count is not a multiple of the buffer size, and otherwise one too many. */
  lemma PredictionWholeBytes(m: Metadata, meta: Meta, file: seq<Byte>, bufSize: nat)
    requires bufSize > 0 && m.bps % 8 == 0 && |file| == EmittedBytes(m)
    ensures var actual := |FileChunks(meta, file, bufSize)|;
            && (m.bps > 0 ==> (CountFits(m) <==> |file| < INT_LIMIT))
            && SourceCount(m, bufSize) == (if !CountFits(m) then None
                                           else if |file| % bufSize == 0 then Some(actual + 1) else Some(actual))
  {
    PiecesCount(meta, 0, file, bufSize);
    assert SampleWidth(m.bps) == m.bps / 8;
    CountFitsExactly(m);
    CeilAgainstFloor(|file|, bufSize);
  }

  lemma CeilAgainstFloor(n: nat, d: nat)
    requires d > 0
    ensures n / d + 1 == if n % d == 0 then CeilDiv(n, d) + 1 else CeilDiv(n, d)
  {
    var q, r := n / d, n % d;
    assert n == d * q + r;
    if r == 0 {
      DivUnique(n + d - 1, d, q, d - 1);
    } else {
      assert n + d - 1 == (q + 1) * d + (r - 1);
      DivUnique(n + d - 1, d, q + 1, r - 1);
    }
  }

  /** Samples that are not whole bytes, written as one byte more than the formula counts, are predicted
      too low exactly when those bytes reach past the predicted chunks: with 12-bit samples and buffers
      of 1536 bytes, one chunk is predicted for 256 samples of two channels and for 512, and one and two
      chunks come. */
  lemma PredictionOfPartialBytes(m: Metadata, meta: Meta, file: seq<Byte>)
    requires m == Metadata(48000, 2, 12, m.totalSamples, 0) && |file| == EmittedBytes(m)
    ensures m.totalSamples == 256 ==> SourceCount(m, 1536) == Some(1) && |FileChunks(meta, file, 1536)| == 1
    ensures m.totalSamples == 512 ==> SourceCount(m, 1536) == Some(1) && |FileChunks(meta, file, 1536)| == 2
  {
    PiecesCount(meta, 0, file, 1536);
  }

  // ---------------------------------------------------------------- in place

  class MetaRecord {
    var value: Metadata

    constructor (value: Metadata)
      ensures this.value == value
    {
      this.value := value;
    }
  }

  // The formula of md_set_metadata, product by product.
  method CountChunks(m: Metadata, bufSize: nat) returns (count: Option<nat>)
    requires bufSize > 0
    ensures count == SourceCount(m, bufSize)
  {
    var samples := m.totalSamples * m.channels;
    var bytes := samples * (m.bps / 8);
    if samples >= INT_LIMIT || bytes >= INT_LIMIT {
      return None;
    }
    assert bytes / bufSize + 1 == PredictedChunks(m, bufSize);
    return Some(bytes / bufSize + 1);
  }

  class DecoderRecord {
    var metadata: MetaRecord?

    // md_set_metadata: the count is filled in once, and only if the decoder left it at zero. `undefined`
    // says that the source's product leaves the range of an int; nothing is promised then.
    method SetMetadata(metadata: MetaRecord?, bufSize: nat) returns (undefined: bool)
      requires bufSize > 0
      modifies this, metadata
      ensures this.metadata == metadata
      ensures undefined <==> metadata != null && old(metadata.value).totalBufChunks == 0 && !CountFits(old(metadata.value))
      ensures metadata != null && !undefined ==>
                var m := old(metadata.value);
                && metadata.value == (if m.totalBufChunks != 0 then m
                                      else m.(totalBufChunks := PredictedChunks(m, bufSize)))
                && metadata.value.totalBufChunks > 0
    {
      this.metadata := metadata;
      undefined := false;
      if metadata != null && metadata.value.totalBufChunks == 0 {
        var count := CountChunks(metadata.value, bufSize);
        undefined := count.None?;
        if !undefined {
          metadata.value := metadata.value.(totalBufChunks := count.value);
        }
      }
    }
  }
}
