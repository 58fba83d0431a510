/** core/buffer/mdgarbage.c: the ring that keeps the chunks last played until they are evicted. */
module Garbage {

  // ---------------------------------------------------------------- the specification

  // What is in the ring, oldest first, and what has been freed, in order.
  datatype Ring<T> = Ring(live: seq<T>, freed: seq<T>)

  function DelFirst<T>(r: Ring<T>): Ring<T> {
    if r.live == [] then r else Ring(r.live[1..], r.freed + [r.live[0]])
  }

  // Adding to a ring of `size` slots. One slot stays empty, so a ring of one slot keeps nothing:
  // the chunk is overwritten later without ever being freed.
  function Add<T>(r: Ring<T>, size: nat, c: T): Ring<T> {
    if size <= 1 then r
    else
      var r1 := if |r.live| == size - 1 then DelFirst(r) else r;
      Ring(r1.live + [c], r1.freed)
  }

  function AddAll<T>(r: Ring<T>, size: nat, cs: seq<T>): Ring<T> {
    if cs == [] then r else Add(AddAll(r, size, cs[..|cs| - 1]), size, cs[|cs| - 1])
  }

  function Clean<T>(r: Ring<T>): Ring<T> {
    Ring([], r.freed + r.live)
  }

  datatype Op<T> = AddOp(c: T) | DelOp | CleanOp

  function Run<T>(ops: seq<Op<T>>, size: nat): Ring<T> {
    if ops == [] then Ring([], [])
    else
      var r := Run(ops[..|ops| - 1], size);
      match ops[|ops| - 1]
      case AddOp(c) => Add(r, size, c)
      case DelOp => DelFirst(r)
      case CleanOp => Clean(r)
  }

  function Added<T>(ops: seq<Op<T>>): seq<T> {
    if ops == [] then []
    else
      var before := Added(ops[..|ops| - 1]);
      if ops[|ops| - 1].AddOp? then before + [ops[|ops| - 1].c] else before
  }

  function Last<T>(s: seq<T>, n: nat): seq<T> {
    if |s| <= n then s else s[|s| - n..]
  }

  /** Over any run of a ring with at least two slots, every chunk added is freed exactly once, in
      insertion order, or still live; and no more than size - 1 are live. */
  lemma {:induction false} RingConserves<T>(ops: seq<Op<T>>, size: nat)
    requires size >= 2
    ensures Run(ops, size).freed + Run(ops, size).live == Added(ops)
    ensures |Run(ops, size).live| <= size - 1
  {
    if ops != [] {
      var before := ops[..|ops| - 1];
      RingConserves(before, size);
      var r := Run(before, size);
      if r.live != [] {
        assert r.freed + r.live == (r.freed + [r.live[0]]) + r.live[1..];
      }
      if ops[|ops| - 1].AddOp? {
        var r1 := if |r.live| == size - 1 then DelFirst(r) else r;
        assert r1.freed + (r1.live + [ops[|ops| - 1].c]) == (r1.freed + r1.live) + [ops[|ops| - 1].c];
      }
    }
  }

  // The chunks added since the last clean.
  function AddedSinceClean<T>(ops: seq<Op<T>>): seq<T> {
    if ops == [] then []
    else
      var before := AddedSinceClean(ops[..|ops| - 1]);
      match ops[|ops| - 1]
      case AddOp(c) => before + [c]
      case DelOp => before
      case CleanOp => []
  }

  /** Without explicit deletions, the live chunks are the newest size - 1 since the last clean. */
  lemma {:induction false} RingKeepsNewest<T>(ops: seq<Op<T>>, size: nat)
    requires size >= 2
    requires forall i :: 0 <= i < |ops| ==> !ops[i].DelOp?
    ensures Run(ops, size).live == Last(AddedSinceClean(ops), size - 1)
  {
    if ops != [] {
      RingKeepsNewest(ops[..|ops| - 1], size);
    }
  }

  /** The bound on the size is exact: a ring frees or keeps whatever it is given if and only if it
      has at least two slots. */
  lemma RingConservesExactly<T>(size: nat, c: T)
    ensures size >= 2 <==> forall ops: seq<Op<T>> :: Run(ops, size).freed + Run(ops, size).live == Added(ops)
  {
    if size >= 2 {
      forall ops: seq<Op<T>> ensures Run(ops, size).freed + Run(ops, size).live == Added(ops) {
        RingConserves(ops, size);
      }
    } else {
      var ops := [AddOp(c)];
      assert ops[..0] == [];
      assert Run(ops, size) == Ring([], []);
      assert Added(ops) == [c];
    }
  }

  lemma DelThenClean<T>(r: Ring<T>)
    ensures Clean(DelFirst(r)) == Clean(r)
  {
    if r.live != [] {
      assert (r.freed + [r.live[0]]) + r.live[1..] == r.freed + r.live;
    }
  }

  // ---------------------------------------------------------------- in place

  /** struct md_garbage_t. `freed` records the calls of md_buf_chunk_free; `view` is the ring's value. */
  class GarbageRing<T(0)> {
    const chunks: array<T>
    var first: int
    var last: int
    const size: nat
    var freed: seq<T>
    ghost var view: Ring<T>

    ghost predicate Valid()
      reads this, chunks
    {
      && size > 0 && chunks.Length == size && 0 <= first < size && 0 <= last < size
      && view == Ring(if first <= last then chunks[first..last] else chunks[first..] + chunks[..last], freed)
    }

    // md_garbage_init
    constructor (size: nat)
      requires size > 0
      ensures Valid() && fresh(chunks) && this.size == size && view == Ring([], [])
    {
      chunks := new T[size];
      first, last, freed, view := 0, 0, [], Ring([], []);
      this.size := size;
    }

    // md_garbage_is_full
    method IsFull() returns (full: bool)
      requires Valid()
      ensures full <==> |view.live| == size - 1
    {
      if last == first - 1 {
        return true;
      }
      if first == 0 && last == size - 1 {
        return true;
      }
      return false;
    }

    // md_garbage_del_first: frees the oldest chunk, and restarts at 0 when that was the only one.
    method DeleteFirst() returns (deleted: bool)
      requires Valid()
      modifies this
      ensures Valid() && deleted == (old(view.live) != [])
      ensures view == DelFirst(old(view))
      ensures deleted && view.live == [] ==> first == last == 0
    {
      if first == last {
        return false;
      }
      ghost var rest := if first < last then chunks[first + 1..last] else chunks[first + 1..] + chunks[..last];
      assert view.live == [chunks[first]] + rest;
      view := Ring(rest, freed + [chunks[first]]);
      freed := freed + [chunks[first]];
      first := first + 1;
      if first >= size {
        first := 0;
      }
      assert rest == if first <= last then chunks[first..last] else chunks[first..] + chunks[..last];
      if first == last {
        first, last := 0, 0;
      }
      return true;
    }

    // garbage.chunks[garbage.last++] = chunk, with wrap-around
    method Store(c: T)
      requires Valid() && (|view.live| < size - 1 || size == 1)
      modifies this`last, this`view, chunks
      ensures Valid() && view == if size == 1 then old(view) else Ring(old(view.live) + [c], freed)
    {
      chunks[last] := c;
      last := last + 1;
      if size > 1 {
        view := Ring(view.live + [c], freed);
      }
      if last >= size {
        last := 0;
        assert size > 1 ==> view.live == chunks[first..size];
      } else if first < last {
        assert view.live == chunks[first..last - 1] + [c];
      } else {
        assert chunks[..last] == chunks[..last - 1] + [c];
      }
    }

    // md_add_to_garbage, after the take-out events have run
    method Insert(c: T)
      requires Valid()
      modifies this, chunks
      ensures Valid() && view == Add(old(view), size, c)
    {
      var full := IsFull();
      if full {
        var _ := DeleteFirst();
      }
      Store(c);
    }

    // md_garbage_clean
    method CleanAll()
      requires Valid()
      modifies this
      ensures Valid() && view == Clean(old(view))
    {
      var more := true;
      while more
        invariant Valid() && Clean(view) == Clean(old(view))
        invariant !more ==> view.live == []
        decreases |view.live|, more
      {
        DelThenClean(view);
        more := DeleteFirst();
      }
    }
  }
}
