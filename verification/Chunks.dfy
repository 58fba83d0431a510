/** core/buffer/mdbufchunk.c, core/buffer/include/mdbufchunk.h and md_adjust_size: the chunks that
    carry decoded bytes from a decoder to the driver.

    `Chunk` is the value of a chunk; the functions on it specify the operations, and the class
    `BufChunk` carries them out in place. The field `size` is the coded size of the C record: bit 0
    doubles as the done mark. `data` is what has been written into the flexible array so far. */
module Chunks {
  import opened Types

  const PADDING := 4

  // The three callbacks that the engine attaches to a chunk's event queue.
  datatype Event = StartTakeIn | DoneTakeIn | DoneTakeOut

  // `meta` is the file whose metadata object the chunk points to; None is NULL.
  datatype Chunk = Chunk(order: int, size: nat, data: seq<Byte>, meta: Option<nat>,
                         takeIn: seq<Event>, takeOut: seq<Event>)

  // ---------------------------------------------------------------- the done mark in bit 0

  // size & MD_DECODER_DONE_BIT
  predicate IsDone(size: nat) {
    size % 2 == 1
  }

  // size |= MD_DECODER_DONE_BIT
  function SetDone(size: nat): nat {
    if size % 2 == 0 then size + 1 else size
  }

  // size ^= MD_DECODER_DONE_BIT
  function ToggleDone(size: nat): nat {
    if size % 2 == 0 then size + 1 else size - 1
  }

  /** Setting and toggling the mark leave the other bits of the size alone: the one marks it, the other marks
      an unmarked size and clears a marked one. */
  lemma DoneBitExactly(size: nat, size': nat)
    ensures size' == SetDone(size) <==> IsDone(size') && size' / 2 == size / 2
    ensures size' == ToggleDone(size) <==> (IsDone(size') <==> !IsDone(size)) && size' / 2 == size / 2
    ensures ToggleDone(ToggleDone(size)) == size
  {
  }

  // ---------------------------------------------------------------- appending

  function NewChunk(order: int): Chunk {
    Chunk(order, 0, [], None, [], [])
  }

  function WithByte(c: Chunk, b: Byte): Chunk {
    c.(size := c.size + 1, data := c.data + [b])
  }

  // A missing or full chunk makes md_buf_chunk_append_byte open a new one.
  predicate RollsOver(chunk: Option<Chunk>, bufSize: nat) {
    chunk.None? || chunk.value.size >= bufSize
  }

  function Append(chunk: Option<Chunk>, b: Byte, bufSize: nat): Chunk {
    if RollsOver(chunk, bufSize)
    then WithByte(NewChunk(if chunk.Some? then chunk.value.order + 1 else 0), b)
    else WithByte(chunk.value, b)
  }

  // ---------------------------------------------------------------- padding

  function Zeros(n: nat): (z: seq<Byte>)
    ensures |z| == n && forall i :: 0 <= i < n ==> z[i] == 0
  {
    seq(n, _ => 0)
  }

  function Pad(data: seq<Byte>): seq<Byte> {
    data + Zeros(if |data| % PADDING == 0 then 0 else PADDING - |data| % PADDING)
  }

  /** Padding extends the data by fewer than four zeros to the next multiple of four, and is the
      identity exactly on multiples of four. */
  lemma PadIsNextMultiple(data: seq<Byte>)
    ensures |Pad(data)| % PADDING == 0
    ensures |data| <= |Pad(data)| < |data| + PADDING
    ensures Pad(data)[..|data|] == data
    ensures forall i :: |data| <= i < |Pad(data)| ==> Pad(data)[i] == 0
    ensures Pad(data) == data <==> |data| % PADDING == 0
  {
  }

  lemma PadAligned(data: seq<Byte>)
    requires |data| % PADDING == 0
    ensures Pad(data) == data
    ensures |data| % 2 == 0 && (|data| + 1) % 2 == 1
  {
  }

  /** A prefix that is already aligned does not change the padding of what follows. */
  lemma PadSuffix(a: seq<Byte>, b: seq<Byte>)
    requires |a| % PADDING == 0
    ensures Pad(a + b) == a + Pad(b)
  {
    assert |a + b| % PADDING == |b| % PADDING;
    assert Pad(a + b) == a + Pad(b);
  }

  // The test in md_adjust_size: it compares the room left with the remainder.
  predicate AdjustRefused(size: nat, bufSize: nat) {
    size % PADDING != 0 && bufSize - size < size % PADDING
  }

  /** With an aligned buffer size the padding always fits, yet md_adjust_size still refuses one fill
      level: exactly one byte of room. */
  lemma AdjustRefusedExactly(size: nat, bufSize: nat)
    requires bufSize % PADDING == 0 && size <= bufSize
    ensures AdjustRefused(size, bufSize) <==> size + 1 == bufSize
    ensures size % PADDING != 0 ==> size - size % PADDING + PADDING <= bufSize
  {
  }

  /** The refusal is spurious: three bytes in a buffer of four can be padded in place. */
  lemma AdjustRefusesPaddable(data: seq<Byte>)
    requires |data| == 3
    ensures AdjustRefused(|data|, 4) && |Pad(data)| <= 4
  {
  }

  // ---------------------------------------------------------------- the chunk in place

  /** md_buf_chunk_t. `written` is the part of the flexible array that holds data. */
  class BufChunk {
    var order: int
    var size: nat
    var metadata: Option<nat>
    var takeIn: seq<Event>
    var takeOut: seq<Event>
    const buffer: array<Byte>
    ghost var written: seq<Byte>

    ghost predicate Valid()
      reads this, buffer
    {
      |written| <= buffer.Length && buffer[..|written|] == written
    }

    ghost function View(): Chunk
      reads this
    {
      Chunk(order, size, written, metadata, takeIn, takeOut)
    }

    // md_buf_chunk_new
    constructor (order: int, bufSize: nat)
      ensures Valid() && fresh(buffer) && buffer.Length == bufSize
      ensures View() == NewChunk(order)
    {
      this.order, this.size, this.metadata := order, 0, None;
      this.takeIn, this.takeOut := [], [];
      this.buffer := new Byte[bufSize](_ => 0);
      this.written := [];
    }

    // curr->chunk[curr->size++] = byte
    method WriteByte(b: Byte)
      requires Valid() && size == |written| < buffer.Length
      modifies this`size, this`written, buffer
      ensures Valid() && View() == WithByte(old(View()), b)
    {
      buffer[size] := b;
      written := written + [b];
      size := size + 1;
    }

    // md_adjust_size
    method AdjustSize() returns (ret: int)
      requires Valid() && size == |written| && buffer.Length % PADDING == 0
      modifies this`size, this`written, buffer
      ensures Valid()
      ensures ret == 0 <==> !AdjustRefused(old(size), buffer.Length)
      ensures ret != 0 ==> ret == -22 && View() == old(View())
      ensures ret == 0 ==> View() == old(View()).(size := |Pad(old(written))|, data := Pad(old(written)))
    {
      var sizeRemainder := size % PADDING;
      if sizeRemainder != 0 {
        if buffer.Length - size < sizeRemainder {
          return -22;
        }
        AdjustRefusedExactly(size, buffer.Length);
        var i := 0;
        while i < PADDING - sizeRemainder
          invariant 0 <= i <= PADDING - sizeRemainder
          invariant Valid() && size == |written| == old(size) + i
          invariant written == old(written) + Zeros(i)
        {
          WriteByte(0);
          i := i + 1;
        }
      }
      return 0;
    }
  }

  /** md_buf_chunk_append_byte: the byte goes into the given chunk or into a fresh one. */
  method AppendByte(chunk: BufChunk?, b: Byte, bufSize: nat) returns (curr: BufChunk)
    requires bufSize > 0
    requires chunk != null ==> chunk.Valid() && chunk.buffer.Length == bufSize
                               && chunk.size == |chunk.written|
    modifies if chunk == null then {} else {chunk, chunk.buffer}
    ensures curr.Valid() && curr.buffer.Length == bufSize && curr.size == |curr.written|
    ensures curr.View() == Append(old(if chunk == null then None else Some(chunk.View())), b, bufSize)
    ensures if old(chunk == null || chunk.size >= bufSize)
            then fresh(curr) && fresh(curr.buffer) && (chunk != null ==> unchanged(chunk, chunk.buffer))
            else curr == chunk
  {
    var order := if chunk != null then chunk.order + 1 else 0;
    if chunk == null || chunk.size >= bufSize {
      curr := new BufChunk(order, bufSize);
    } else {
      curr := chunk;
    }
    curr.WriteByte(b);
  }
}
