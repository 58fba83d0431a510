/** decoders/flac/mdflac.c: process_block and the frame loop of md_flac_write_cb, which turn decoded
    samples into bytes: interleaved by channel, little-endian, two's complement. */
module Flac {
  import opened Types
  import opened Timing

  // ---------------------------------------------------------------- the specification

  // x >> b on a signed value: b floored halvings.
  function ShiftRight(x: int, b: nat): int
    decreases b
  {
    if b == 0 then x else ShiftRight(x / 2, b - 1)
  }

  // The conversion to uint8_t.
  function LowByte(x: int): Byte {
    x % 256
  }

  function Pow256(n: nat): (p: int)
    ensures p > 0
  {
    if n == 0 then 1 else 256 * Pow256(n - 1)
  }

  // `width` bytes of x, lowest first.
  function SampleBytes(x: int, width: nat): seq<Byte>
    decreases width
  {
    if width == 0 then [] else [LowByte(x)] + SampleBytes(x / 256, width - 1)
  }

  function Serialize(samples: seq<int>, width: nat): seq<Byte> {
    if samples == [] then []
    else Serialize(samples[..|samples| - 1], width) + SampleBytes(samples[|samples| - 1], width)
  }

  // The value of a little-endian sequence of bytes, unsigned and in two's complement.
  function Unsigned(bytes: seq<Byte>): nat {
    if bytes == [] then 0 else bytes[0] + 256 * Unsigned(bytes[1..])
  }

  function Signed(bytes: seq<Byte>): int {
    if 2 * Unsigned(bytes) < Pow256(|bytes|) then Unsigned(bytes) else Unsigned(bytes) - Pow256(|bytes|)
  }

  function Deserialize(bytes: seq<Byte>, width: nat): seq<int>
    requires width > 0
    decreases |bytes|
  {
    if |bytes| < width then []
    else Deserialize(bytes[..|bytes| - width], width) + [Signed(bytes[|bytes| - width..])]
  }

  // Sample i of channel c, for i = 0, 1, ... and within it c = 0, 1, ...
  function Interleaved(buffer: seq<seq<int>>, blocksize: nat): seq<int>
    requires forall c :: 0 <= c < |buffer| ==> |buffer[c]| >= blocksize
  {
    if blocksize == 0 then []
    else Interleaved(buffer, blocksize - 1) + seq(|buffer|, c requires 0 <= c < |buffer| => buffer[c][blocksize - 1])
  }

  predicate InRange(x: int, width: nat) {
    -Pow256(width) <= 2 * x < Pow256(width)
  }

  // ---------------------------------------------------------------- round trips

  lemma {:induction false} SampleBytesValue(x: int, width: nat)
    ensures |SampleBytes(x, width)| == width
    ensures Unsigned(SampleBytes(x, width)) == x % Pow256(width)
    decreases width
  {
    if width > 0 {
      SampleBytesValue(x / 256, width - 1);
      ModSplit(x, Pow256(width - 1));
    }
  }

  lemma ModSplit(x: int, p: int)
    requires p > 0
    ensures x % (256 * p) == x % 256 + 256 * ((x / 256) % p)
  {
    var q, r := (x / 256) / p, (x / 256) % p;
    assert x == 256 * (x / 256) + x % 256;
    assert x / 256 == p * q + r;
    var low := x % 256 + 256 * r;
    assert 256 * (p * q) == (256 * p) * q;
    assert x == (256 * p) * q + low;
    assert 0 <= low < 256 * p;
    ModUnique(x, 256 * p, q, low);
  }

  lemma ModUnique(x: int, d: int, q: int, r: nat)
    requires d > 0 && x == d * q + r && r < d
    ensures x % d == r
  {
    var q1, r1 := x / d, x % d;
    assert x == d * q1 + r1;
    assert d * (q1 - q) == d * q1 - d * q && d * (q - q1) == d * q - d * q1;
    if q1 > q {
      MulAtLeast(d, q1 - q);
    } else if q1 < q {
      MulAtLeast(d, q - q1);
    }
  }

  lemma MulAtLeast(d: int, a: int)
    requires d > 0 && a >= 1
    ensures d * a >= d
  {
  }

  /** One sample survives the round trip if and only if it fits in its bytes as a signed value. */
  lemma SampleRoundTrip(x: int, width: nat)
    requires width > 0
    ensures Signed(SampleBytes(x, width)) == x <==> InRange(x, width)
  {
    SampleBytesValue(x, width);
    var p := Pow256(width);
    assert p % 2 == 0;
    if 0 <= x && InRange(x, width) {
      ModUnique(x, p, 0, x);
    } else if InRange(x, width) {
      ModUnique(x, p, -1, x + p);
    }
  }

  function Pow2(n: nat): (p: int)
    ensures p > 0
  {
    if n == 0 then 1 else 2 * Pow2(n - 1)
  }

  // x is a signed number of that many bits.
  predicate FitsBits(x: int, bps: nat) {
    bps > 0 && -Pow2(bps - 1) <= x < Pow2(bps - 1)
  }

  lemma Pow2Eight(n: nat)
    ensures Pow2(n + 8) == 256 * Pow2(n)
  {
    assert Pow2(n + 3) == 2 * Pow2(n + 2) == 4 * Pow2(n + 1) == 8 * Pow2(n);
    assert Pow2(n + 6) == 2 * Pow2(n + 5) == 4 * Pow2(n + 4) == 8 * Pow2(n + 3);
    assert Pow2(n + 8) == 2 * Pow2(n + 7) == 4 * Pow2(n + 6);
  }

  lemma {:induction false} Pow2Bytes(w: nat)
    ensures Pow2(8 * w) == Pow256(w)
  {
    if w > 0 {
      Pow2Bytes(w - 1);
      Pow2Eight(8 * (w - 1));
    }
  }

  lemma {:induction false} Pow2Grows(a: nat, b: nat)
    requires a <= b
    ensures Pow2(a) <= Pow2(b)
    decreases b
  {
    if a < b {
      Pow2Grows(a, b - 1);
    }
  }

  lemma BitsFitBytes(x: int, bps: nat)
    requires FitsBits(x, bps)
    ensures InRange(x, SampleWidth(bps))
  {
    var w := SampleWidth(bps);
    Pow2Grows(bps, 8 * w);
    Pow2Bytes(w);
  }

  // The bytes of one sample of `bps` bits: as few as hold the bits, and they read back as the sample.
  ghost predicate IsSample(bytes: seq<Byte>, x: int, bps: nat) {
    Signed(bytes) == x && 8 * |bytes| - 8 < bps <= 8 * |bytes|
  }

  /** Every sample of so many bits is written in as few bytes as hold them, and reads back. */
  lemma SampleOfBits(x: int, bps: nat)
    requires FitsBits(x, bps)
    ensures IsSample(SampleBytes(x, SampleWidth(bps)), x, bps)
  {
    BitsFitBytes(x, bps);
    SampleBytesValue(x, SampleWidth(bps));
    SampleRoundTrip(x, SampleWidth(bps));
  }

  lemma MulStep(n: nat, w: nat)
    ensures (n + 1) * w == n * w + w
  {
  }

  lemma {:induction false} SerializeLength(samples: seq<int>, width: nat)
    ensures |Serialize(samples, width)| == |samples| * width
  {
    if samples != [] {
      var n := |samples| - 1;
      SerializeLength(samples[..n], width);
      SampleBytesValue(samples[n], width);
      MulStep(n, width);
    }
  }

  /** A whole sequence of in-range samples survives the round trip. */
  lemma {:induction false} SerializeRoundTrip(samples: seq<int>, width: nat)
    requires width > 0 && forall i :: 0 <= i < |samples| ==> InRange(samples[i], width)
    ensures Deserialize(Serialize(samples, width), width) == samples
  {
    if samples != [] {
      var n := |samples| - 1;
      SerializeRoundTrip(samples[..n], width);
      SampleBytesValue(samples[n], width);
      SampleRoundTrip(samples[n], width);
      var front, last := Serialize(samples[..n], width), SampleBytes(samples[n], width);
      assert (front + last)[..|front|] == front && (front + last)[|front|..] == last;
      assert samples == samples[..n] + [samples[n]];
    }
  }

  lemma {:induction false} InterleavedAt(buffer: seq<seq<int>>, blocksize: nat, i: nat, c: nat)
    requires forall c :: 0 <= c < |buffer| ==> |buffer[c]| >= blocksize
    requires i < blocksize && c < |buffer|
    ensures |Interleaved(buffer, blocksize)| == blocksize * |buffer|
    ensures i * |buffer| + c < blocksize * |buffer|
    ensures Interleaved(buffer, blocksize)[i * |buffer| + c] == buffer[c][i]
    decreases blocksize
  {
    InterleavedLength(buffer, blocksize);
    InterleavedLength(buffer, blocksize - 1);
    MulLe(i + 1, blocksize, |buffer|);
    if i < blocksize - 1 {
      InterleavedAt(buffer, blocksize - 1, i, c);
    }
  }

  lemma {:induction false} InterleavedLength(buffer: seq<seq<int>>, blocksize: nat)
    requires forall c :: 0 <= c < |buffer| ==> |buffer[c]| >= blocksize
    ensures |Interleaved(buffer, blocksize)| == blocksize * |buffer|
  {
    if blocksize > 0 {
      InterleavedLength(buffer, blocksize - 1);
      assert blocksize * |buffer| == (blocksize - 1) * |buffer| + |buffer|;
    }
  }

  lemma {:induction false} InterleavedInRange(buffer: seq<seq<int>>, blocksize: nat, width: nat)
    requires forall c :: 0 <= c < |buffer| ==> |buffer[c]| >= blocksize
    requires forall c, i :: 0 <= c < |buffer| && 0 <= i < blocksize ==> InRange(buffer[c][i], width)
    ensures forall k :: 0 <= k < |Interleaved(buffer, blocksize)| ==> InRange(Interleaved(buffer, blocksize)[k], width)
  {
    if blocksize > 0 {
      InterleavedInRange(buffer, blocksize - 1, width);
    }
  }

  // A block of samples for every channel, each of which fits in `width` bytes.
  ghost predicate BlockInRange(buffer: seq<seq<int>>, blocksize: nat, width: nat) {
    && (forall c :: 0 <= c < |buffer| ==> |buffer[c]| >= blocksize)
    && (forall c, i :: 0 <= c < |buffer| && 0 <= i < blocksize ==> InRange(buffer[c][i], width))
  }

  /** A frame is exactly blocksize * channels * width bytes. */
  lemma FrameLength(buffer: seq<seq<int>>, blocksize: nat, width: nat)
    requires forall c :: 0 <= c < |buffer| ==> |buffer[c]| >= blocksize
    ensures |Serialize(Interleaved(buffer, blocksize), width)| == blocksize * |buffer| * width
  {
    InterleavedLength(buffer, blocksize);
    SerializeLength(Interleaved(buffer, blocksize), width);
  }

  /** Its bytes decode to every channel's samples: sample i of channel c comes back at place
      i * channels + c. */
  lemma FrameRoundTrip(buffer: seq<seq<int>>, blocksize: nat, width: nat, i: nat, c: nat) returns (k: nat)
    requires BlockInRange(buffer, blocksize, width) && width > 0 && i < blocksize && c < |buffer|
    ensures k == i * |buffer| + c
    ensures var samples := Deserialize(Serialize(Interleaved(buffer, blocksize), width), width);
            k < |samples| && samples[k] == buffer[c][i]
  {
    k := i * |buffer| + c;
    var samples := Interleaved(buffer, blocksize);
    InterleavedAt(buffer, blocksize, i, c);
    assert k < |samples| && samples[k] == buffer[c][i];
    InterleavedInRange(buffer, blocksize, width);
    SerializeRoundTrip(samples, width);
  }

  // A block of samples of `bps` bits for every channel.
  ghost predicate BlockOfBits(buffer: seq<seq<int>>, blocksize: nat, bps: nat) {
    && bps > 0 && (forall c :: 0 <= c < |buffer| ==> |buffer[c]| >= blocksize)
    && (forall c, i :: 0 <= c < |buffer| && 0 <= i < blocksize ==> FitsBits(buffer[c][i], bps))
  }

  // The bytes of a frame: sample i of channel c at place i * channels + c, each in `width` bytes.
  ghost predicate IsFrame(bytes: seq<Byte>, buffer: seq<seq<int>>, blocksize: nat, width: nat)
    requires forall c :: 0 <= c < |buffer| ==> |buffer[c]| >= blocksize
  {
    && width > 0 && |bytes| == blocksize * |buffer| * width
    && forall i, c :: 0 <= i < blocksize && 0 <= c < |buffer| ==>
         IsAt(Deserialize(bytes, width), i * |buffer| + c, buffer[c][i])
  }

  predicate IsAt(samples: seq<int>, k: int, x: int) {
    0 <= k < |samples| && samples[k] == x
  }

  /** A frame of samples of `bps` bits reads back, with as few bytes a sample as hold the bits. */
  lemma FrameOfBits(buffer: seq<seq<int>>, blocksize: nat, bps: nat, width: nat)
    requires BlockOfBits(buffer, blocksize, bps) && 8 * width - 8 < bps <= 8 * width
    ensures IsFrame(Serialize(Interleaved(buffer, blocksize), SampleWidth(bps)), buffer, blocksize, width)
  {
    SampleWidthExactly(bps, width);
    FrameLength(buffer, blocksize, width);
    BlockFits(buffer, blocksize, bps, width);
    var bytes := Serialize(Interleaved(buffer, blocksize), width);
    forall i, c | 0 <= i < blocksize && 0 <= c < |buffer|
      ensures IsAt(Deserialize(bytes, width), i * |buffer| + c, buffer[c][i])
    {
      var k := FrameRoundTrip(buffer, blocksize, width, i, c);
    }
  }

  lemma BlockFits(buffer: seq<seq<int>>, blocksize: nat, bps: nat, width: nat)
    requires BlockOfBits(buffer, blocksize, bps) && width == SampleWidth(bps)
    ensures BlockInRange(buffer, blocksize, width)
  {
    forall c, i | 0 <= c < |buffer| && 0 <= i < blocksize
      ensures InRange(buffer[c][i], width)
    {
      BitsFitBytes(buffer[c][i], bps);
    }
  }

  // ---------------------------------------------------------------- the loops

  lemma {:induction false} ShiftCompose(x: int, a: nat, b: nat)
    ensures ShiftRight(x, a + b) == ShiftRight(ShiftRight(x, a), b)
    decreases a
  {
    if a > 0 {
      ShiftCompose(x / 2, a - 1, b);
    }
  }

  lemma ShiftFour(x: int)
    ensures ShiftRight(x, 4) == x / 16
  {
    assert ShiftRight(x, 4) == ShiftRight(x / 2, 3) == ShiftRight(x / 2 / 2, 2);
    assert ShiftRight(x / 2 / 2, 2) == ShiftRight(x / 2 / 2 / 2, 1) == ShiftRight(x / 2 / 2 / 2 / 2, 0);
  }

  // Shifting by another eight places is dividing by another 256.
  lemma ShiftByte(x: int, b: nat)
    ensures ShiftRight(x, b + 8) == ShiftRight(x, b) / 256
  {
    ShiftCompose(x, b, 8);
    var y := ShiftRight(x, b);
    ShiftCompose(y, 4, 4);
    ShiftFour(y);
    ShiftFour(y / 16);
  }

  // Where the bytes go: md_add_decoded_byte, which may fail on some call. The failing call has
  // already stored its byte.
  class Sink {
    var bytes: seq<Byte>
    const failAt: Option<nat>

    method Add(b: Byte) returns (ret: int)
      modifies this
      ensures bytes == old(bytes) + [b]
      ensures ret != 0 <==> failAt == Some(old(|bytes|))
    {
      ret := if failAt == Some(|bytes|) then -12 else 0;
      bytes := bytes + [b];
    }
  }

  // What has reached the sink is all of `expected`, no byte of it having failed, or the loop stopped on the one
  // that did.
  ghost predicate Emitted(before: seq<Byte>, after: seq<Byte>, expected: seq<Byte>, ret: int, failAt: Option<nat>) {
    if ret == 0 then after == before + expected && (failAt.Some? ==> !(|before| <= failAt.value < |after|))
    else before < after <= before + expected && failAt == Some(|after| - 1)
  }

  // The inner loop of process_block: the bytes of one sample.
  method ProcessSample(x: int, bps: nat, sink: Sink) returns (ret: int)
    modifies sink
    ensures Emitted(old(sink.bytes), sink.bytes, SampleBytes(x, SampleWidth(bps)), ret, sink.failAt)
    ensures ret == 0 && FitsBits(x, bps) ==> IsSample(sink.bytes[|old(sink.bytes)|..], x, bps)
  {
    ret := 0;
    var b := 0;
    ghost var start, k: nat, width := sink.bytes, 0, SampleWidth(bps);
    while b < bps
      invariant b == 8 * k && k <= width
      invariant start <= sink.bytes && (sink.failAt.Some? ==> !(|start| <= sink.failAt.value < |sink.bytes|))
      invariant sink.bytes + SampleBytes(ShiftRight(x, b), width - k) == start + SampleBytes(x, width)
    {
      ghost var before := sink.bytes;
      ShiftByte(x, b);
      ret := sink.Add(LowByte(ShiftRight(x, b)));
      assert before + SampleBytes(ShiftRight(x, b), width - k)
          == sink.bytes + SampleBytes(ShiftRight(x, b + 8), width - k - 1);
      assert sink.bytes <= start + SampleBytes(x, width);
      if ret != 0 {
        return;
      }
      b, k := b + 8, k + 1;
    }
    assert k == width;
    assert sink.bytes == sink.bytes + [] == start + SampleBytes(x, width);
    assert sink.bytes[|start|..] == SampleBytes(x, width);
    if FitsBits(x, bps) {
      SampleOfBits(x, bps);
    }
  }

  lemma SerializeSnoc(samples: seq<int>, x: int, width: nat)
    ensures Serialize(samples + [x], width) == Serialize(samples, width) + SampleBytes(x, width)
  {
    assert (samples + [x])[..|samples|] == samples;
  }

  lemma {:induction false} SerializeConcat(a: seq<int>, b: seq<int>, width: nat)
    ensures Serialize(a + b, width) == Serialize(a, width) + Serialize(b, width)
    decreases |b|
  {
    if b == [] {
      assert a + b == a;
    } else {
      var n := |b| - 1;
      assert a + b == (a + b[..n]) + [b[n]] && b == b[..n] + [b[n]];
      SerializeConcat(a, b[..n], width);
      SerializeSnoc(a + b[..n], b[n], width);
      SerializeSnoc(b[..n], b[n], width);
      ConcatAssociates(Serialize(a, width), Serialize(b[..n], width), SampleBytes(b[n], width));
    }
  }

  // Column i of the channels.
  function Column(buffer: seq<seq<int>>, i: nat): seq<int>
    requires forall c :: 0 <= c < |buffer| ==> |buffer[c]| > i
  {
    seq(|buffer|, c requires 0 <= c < |buffer| => buffer[c][i])
  }

  lemma EmittedPrefix(start: seq<Byte>, mid: seq<Byte>, after: seq<Byte>, done: seq<Byte>, more: seq<Byte>,
                      rest: seq<Byte>, ret: int, failAt: Option<nat>)
    requires Emitted(start, mid, done, 0, failAt) && Emitted(mid, after, more, ret, failAt)
    ensures Emitted(start, after, done + more, ret, failAt)
    ensures ret != 0 ==> Emitted(start, after, done + more + rest, ret, failAt)
  {
    assert mid + more == start + (done + more);
    assert start + (done + more + rest) == (start + (done + more)) + rest;
    if ret != 0 {
      assert after <= mid + more;
      assert after <= (mid + more) + rest;
      assert start <= mid < after;
    }
  }

  // process_block
  method ProcessBlock(buffer: seq<seq<int>>, i: nat, bps: nat, sink: Sink) returns (ret: int)
    requires forall c :: 0 <= c < |buffer| ==> |buffer[c]| > i
    modifies sink
    ensures Emitted(old(sink.bytes), sink.bytes, Serialize(Column(buffer, i), SampleWidth(bps)), ret, sink.failAt)
  {
    ret := 0;
    var c := 0;
    ghost var start, column, width := sink.bytes, Column(buffer, i), SampleWidth(bps);
    while c < |buffer|
      invariant 0 <= c <= |buffer|
      invariant Emitted(start, sink.bytes, Serialize(column[..c], width), 0, sink.failAt)
    {
      ghost var mid := sink.bytes;
      ret := ProcessSample(buffer[c][i], bps, sink);
      assert column[..c + 1] == column[..c] + [column[c]];
      SerializeSnoc(column[..c], column[c], width);
      assert column[..c + 1] + column[c + 1..] == column;
      SerializeConcat(column[..c + 1], column[c + 1..], width);
      EmittedPrefix(start, mid, sink.bytes, Serialize(column[..c], width), SampleBytes(column[c], width),
                    Serialize(column[c + 1..], width), ret, sink.failAt);
      if ret != 0 {
        return;
      }
      c := c + 1;
    }
    assert column[..c] == column;
  }

  lemma SerializeNext(buffer: seq<seq<int>>, i: nat, width: nat)
    requires forall c :: 0 <= c < |buffer| ==> |buffer[c]| > i
    ensures Serialize(Interleaved(buffer, i + 1), width)
         == Serialize(Interleaved(buffer, i), width) + Serialize(Column(buffer, i), width)
  {
    assert Interleaved(buffer, i + 1) == Interleaved(buffer, i) + Column(buffer, i);
    SerializeConcat(Interleaved(buffer, i), Column(buffer, i), width);
  }

  // One round of the frame loop, in terms of what it leaves in the sink.
  lemma ColumnEmitted(buffer: seq<seq<int>>, i: nat, blocksize: nat, width: nat,
                      start: seq<Byte>, mid: seq<Byte>, after: seq<Byte>, ret: int, failAt: Option<nat>)
    requires i < blocksize && forall c :: 0 <= c < |buffer| ==> |buffer[c]| >= blocksize
    requires Emitted(start, mid, Serialize(Interleaved(buffer, i), width), 0, failAt)
    requires Emitted(mid, after, Serialize(Column(buffer, i), width), ret, failAt)
    ensures ret == 0 ==> Emitted(start, after, Serialize(Interleaved(buffer, i + 1), width), 0, failAt)
    ensures ret != 0 ==> Emitted(start, after, Serialize(Interleaved(buffer, blocksize), width), ret, failAt)
  {
    SerializeNext(buffer, i, width);
    var rest := SerializeRest(buffer, i + 1, blocksize, width);
    EmittedPrefix(start, mid, after, Serialize(Interleaved(buffer, i), width), Serialize(Column(buffer, i), width),
                  rest, ret, failAt);
  }

  // The frame loop of md_flac_write_cb: ret == 0 stands for continuing, anything else for an abort.
  method WriteFrame(buffer: seq<seq<int>>, blocksize: nat, bps: nat, sink: Sink) returns (ret: int)
    requires forall c :: 0 <= c < |buffer| ==> |buffer[c]| >= blocksize
    modifies sink
    ensures Emitted(old(sink.bytes), sink.bytes, Serialize(Interleaved(buffer, blocksize), SampleWidth(bps)), ret, sink.failAt)
    ensures ret == 0 && BlockOfBits(buffer, blocksize, bps) ==>
              forall width: nat :: 8 * width - 8 < bps <= 8 * width ==>
                IsFrame(sink.bytes[|old(sink.bytes)|..], buffer, blocksize, width)
  {
    ret := 0;
    var i := 0;
    ghost var start := sink.bytes;
    while i < blocksize
      invariant 0 <= i <= blocksize
      invariant Emitted(start, sink.bytes, Serialize(Interleaved(buffer, i), SampleWidth(bps)), 0, sink.failAt)
    {
      ghost var mid := sink.bytes;
      ret := ProcessBlock(buffer, i, bps, sink);
      ColumnEmitted(buffer, i, blocksize, SampleWidth(bps), start, mid, sink.bytes, ret, sink.failAt);
      if ret != 0 {
        return;
      }
      i := i + 1;
    }
    assert sink.bytes[|start|..] == Serialize(Interleaved(buffer, blocksize), SampleWidth(bps));
    if BlockOfBits(buffer, blocksize, bps) {
      forall width: nat | 8 * width - 8 < bps <= 8 * width
        ensures IsFrame(sink.bytes[|start|..], buffer, blocksize, width)
      {
        FrameOfBits(buffer, blocksize, bps, width);
      }
    }
  }

  // The bytes of the remaining columns follow those of the first i.
  lemma {:induction false} SerializeRest(buffer: seq<seq<int>>, i: nat, blocksize: nat, width: nat) returns (rest: seq<Byte>)
    requires i <= blocksize && forall c :: 0 <= c < |buffer| ==> |buffer[c]| >= blocksize
    ensures Serialize(Interleaved(buffer, blocksize), width) == Serialize(Interleaved(buffer, i), width) + rest
    decreases blocksize
  {
    if i == blocksize {
      rest := [];
    } else {
      rest := SerializeRest(buffer, i, blocksize - 1, width);
      var before := Serialize(Interleaved(buffer, i), width);
      var last := Serialize(Column(buffer, blocksize - 1), width);
      SerializeNext(buffer, blocksize - 1, width);
      ConcatAssociates(before, rest, last);
      rest := rest + last;
    }
  }
}
