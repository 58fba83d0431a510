/** core/buffer/mdbufll.c: the bounded queue between decoder and driver, a linked list whose length is
    read off the `order` fields, and the packs that the driver cuts off its front.

    A method stands for the critical section that follows its wait loop: it requires that the loop's
    condition is false (or that the buffer is stopped, which also ends the loop). */
module BufList {
  import opened Types
  import opened Chunks
  import opened Delivery
  import opened Garbage

  const MD_BUF_EXIT := 1
  const MD_BUF_ERROR := 2
  const MD_BUF_NO_DECODERS := 4

  datatype PackMode = Exact | Any

  // ---------------------------------------------------------------- the specification of a pack

  // `marks` says of every queued chunk whether it is done-marked. md_no_more_decoders takes another
  // mutex each time it is asked, so its answers are a parameter: the positions where it said yes.

  // md_buf_get_pack_cond: must the driver keep waiting?
  predicate PackBlocked(marks: seq<bool>, count: int, mode: PackMode, noMore: bool) {
    match mode
    case Exact => |marks| < count && !(marks != [] && marks[|marks| - 1] && noMore)
    case Any => marks == []
  }

  // md_will_stop_on
  predicate StopsAt(marks: seq<bool>, noMore: set<nat>, i: nat) {
    i < |marks| && marks[i] && i in noMore
  }

  // The first position in [i, n) where the walk stops, or n.
  function FirstStop(marks: seq<bool>, noMore: set<nat>, i: nat, n: nat): (k: nat)
    requires i <= n
    ensures i <= k <= n
    ensures forall j :: i <= j < k ==> !StopsAt(marks, noMore, j)
    ensures k < n ==> StopsAt(marks, noMore, k)
    decreases n - i
  {
    if i == n || StopsAt(marks, noMore, i) then i else FirstStop(marks, noMore, i + 1, n)
  }

  // How many chunks the pack gets, the *count handed back, and the return code.
  datatype Cut = Cut(len: nat, count: int, ret: int)

  function CutOf(marks: seq<bool>, count: int, noMore: set<nat>): (c: Cut)
    ensures c.len <= |marks|
  {
    if count <= 0 then Cut(Min(1, |marks|), count, 0)
    else
      var n := Min(count, |marks|);
      var k := FirstStop(marks, noMore, 0, n);
      if k < n then Cut(Min(k + 2, |marks|), k + 1, MD_BUF_NO_DECODERS)
      else Cut(n, n, 0)
  }

  // The walk meets its first stop on chunk k: a done-marked one at which no decoder was left.
  ghost predicate FirstStopIs(marks: seq<bool>, noMore: set<nat>, k: int) {
    && 0 <= k < |marks| && marks[k] && k in noMore
    && forall j :: 0 <= j < k ==> !(marks[j] && j in noMore)
  }

  // What md_buf_get_pack promises, without saying how: it stops on the first stop among the chunks asked for
  // and reports the chunks up to it, handing out one more if there is one; without a stop it hands out and
  // reports as many as were asked for, or all. For a count of zero or less it hands out one chunk.
  ghost predicate IsCut(marks: seq<bool>, count: int, noMore: set<nat>, len: int, count': int, ret: int) {
    if count <= 0 then ret == 0 && count' == count && len == if marks == [] then 0 else 1
    else if ret == MD_BUF_NO_DECODERS then
      && 1 <= count' <= count && FirstStopIs(marks, noMore, count' - 1)
      && len == if count' < |marks| then count' + 1 else count'
    else
      && ret == 0 && len == count' == (if count <= |marks| then count else |marks|)
      && forall j :: 0 <= j < count' ==> !(marks[j] && j in noMore)
  }

  lemma CutIs(marks: seq<bool>, count: int, noMore: set<nat>)
    ensures var c := CutOf(marks, count, noMore); IsCut(marks, count, noMore, c.len, c.count, c.ret)
  {
    if count > 0 {
      var n := Min(count, |marks|);
      var k := FirstStop(marks, noMore, 0, n);
      forall j | 0 <= j < k
        ensures !(marks[j] && j in noMore)
      {
        assert !StopsAt(marks, noMore, j);
      }
      if k < n {
        assert StopsAt(marks, noMore, k);
        assert FirstStopIs(marks, noMore, k);
      }
    }
  }

  /** For a positive request the pack holds *count chunks, except that it holds one more exactly when
      it stopped on a done chunk that had a successor; it is never empty unless the queue is. */
  lemma CutSize(marks: seq<bool>, count: int, noMore: set<nat>)
    requires count > 0
    ensures var c := CutOf(marks, count, noMore);
            && c.len <= |marks| && 0 <= c.count <= count && (c.len == 0 <==> marks == [])
            && c.len == (if c.ret == MD_BUF_NO_DECODERS && c.count < |marks| then c.count + 1 else c.count)
            && (c.ret == MD_BUF_NO_DECODERS <==> exists i :: 0 <= i < count && StopsAt(marks, noMore, i))
            && (c.ret != MD_BUF_NO_DECODERS ==> c.ret == 0 && c.count == Min(count, |marks|))
            && (c.ret == MD_BUF_NO_DECODERS ==> c.count >= 1 && FirstStopIs(marks, noMore, c.count - 1))
  {
    CutIs(marks, count, noMore);
    var n := Min(count, |marks|);
    var k := FirstStop(marks, noMore, 0, n);
    assert forall i :: 0 <= i < count && StopsAt(marks, noMore, i) ==> i < n;
    if k < n {
      assert StopsAt(marks, noMore, k);
    }
  }

  // No stop comes before the first one, so two walks that keep the promise agree.
  lemma CutUnique(marks: seq<bool>, count: int, noMore: set<nat>, c: Cut, d: Cut)
    requires IsCut(marks, count, noMore, c.len, c.count, c.ret) && IsCut(marks, count, noMore, d.len, d.count, d.ret)
    requires c.ret == MD_BUF_NO_DECODERS
    ensures c.ret == d.ret && c.count <= d.count
  {
    assert FirstStopIs(marks, noMore, c.count - 1);
    assert marks[c.count - 1];
  }

  /** The cut is the one thing that promise allows, for every count and every set of answers. */
  lemma CutExactly(marks: seq<bool>, count: int, noMore: set<nat>, c: Cut)
    ensures c == CutOf(marks, count, noMore) <==> IsCut(marks, count, noMore, c.len, c.count, c.ret)
  {
    CutIs(marks, count, noMore);
    var d := CutOf(marks, count, noMore);
    if count > 0 && IsCut(marks, count, noMore, c.len, c.count, c.ret) {
      if c.ret == MD_BUF_NO_DECODERS {
        CutUnique(marks, count, noMore, c, d);
      }
      if d.ret == MD_BUF_NO_DECODERS {
        CutUnique(marks, count, noMore, d, c);
      }
    }
  }

  // What a driver that need not wait gets: something, and less than it asked for only at the end of the last
  // file, if no decoder stopped the walk.
  lemma CutEnough(marks: seq<bool>, count: int, mode: PackMode, noMore: set<nat>, noMoreAtWait: bool)
    requires !PackBlocked(marks, count, mode, noMoreAtWait)
    ensures var c := CutOf(marks, count, noMore);
            && (count > 0 || mode == Any ==> c.len > 0)
            && (mode == Exact && c.len < count && c.ret == 0 ==> noMoreAtWait && c.len == |marks| && marks[|marks| - 1])
  {
    CutIs(marks, count, noMore);
  }

  /** The boundary of that contract is exact: *count is the number of chunks removed, or one less
      after a stop, if and only if the request was positive, or was for none of nothing. */
  lemma CutCountsExactly(marks: seq<bool>, count: int, noMore: set<nat>)
    ensures var c := CutOf(marks, count, noMore);
            (c.len == c.count || (c.ret == MD_BUF_NO_DECODERS && c.len == c.count + 1))
            <==> count > 0 || (count == 0 && marks == [])
  {
    if count > 0 {
      CutSize(marks, count, noMore);
    }
  }

  // ---------------------------------------------------------------- the list

  class Node {
    const chunk: BufChunk
    var next: Node?
    var order: int

    constructor (chunk: BufChunk)
      ensures this.chunk == chunk && next == null
    {
      this.chunk, this.next := chunk, null;
    }
  }

  // `nodes`, linked through `next`, ends in null; no node occurs twice.
  ghost predicate Linked(nodes: seq<Node>)
    reads nodes
  {
    && (forall i, j :: 0 <= i < j < |nodes| ==> nodes[i] != nodes[j])
    && (forall i :: 0 <= i < |nodes| - 1 ==> nodes[i].next == nodes[i + 1])
    && (nodes != [] ==> nodes[|nodes| - 1].next == null)
  }

  ghost function NodeAt(nodes: seq<Node>, i: nat): Node? {
    if i < |nodes| then nodes[i] else null
  }

  // curr->next = NULL on the n-th node: two lists.
  method Detach(curr: Node, ghost nodes: seq<Node>, ghost n: nat) returns (rest: Node?)
    requires Linked(nodes) && 0 < n <= |nodes| && curr == nodes[n - 1]
    modifies curr`next
    ensures Linked(nodes[..n]) && Linked(nodes[n..]) && rest == NodeAt(nodes[n..], 0)
  {
    rest := curr.next;
    assert n < |nodes| ==> rest == nodes[n];
    curr.next := null;
  }

  ghost function MarksOf(nodes: seq<Node>): seq<bool>
    reads set n <- nodes :: n.chunk
  {
    seq(|nodes|, i requires 0 <= i < |nodes| reads set n <- nodes :: n.chunk => IsDone(nodes[i].chunk.size))
  }

  /** struct md_bufll_t with its list. `nodes` is the list from head to last. */
  class BufferList {
    var head: Node?
    var last: Node?
    var run: bool
    var error: bool
    const maxBufNum: nat
    ghost var nodes: seq<Node>

    // Acyclic from head to last, head null iff last null, consecutive orders, never over the bound.
    ghost predicate Valid()
      reads this, nodes
    {
      && Linked(nodes) && |nodes| <= maxBufNum
      && head == NodeAt(nodes, 0)
      && last == (if nodes == [] then null else nodes[|nodes| - 1])
      && (forall i :: 0 <= i < |nodes| - 1 ==> nodes[i + 1].order == nodes[i].order + 1)
    }

    lemma OrdersConsecutive(i: nat)
      requires Valid() && i < |nodes|
      ensures nodes[i].order == nodes[0].order + i
    {
      if i > 0 {
        OrdersConsecutive(i - 1);
      }
    }

    // md_buf_init
    constructor (maxBufNum: nat)
      ensures Valid() && nodes == [] && run && !error && this.maxBufNum == maxBufNum
    {
      head, last, run, error, nodes := null, null, true, false, [];
      this.maxBufNum := maxBufNum;
    }

    // get_buf_num: the subtraction of orders is the true length.
    method GetBufNum() returns (n: int)
      requires Valid()
      ensures n == |nodes|
    {
      if head == null {
        return 0;
      }
      OrdersConsecutive(|nodes| - 1);
      return last.order - head.order + 1;
    }

    // What both blocking calls do when they find the buffer stopped.
    method StoppedResult() returns (ret: int)
      modifies this`error
      ensures ret == (if old(error) then MD_BUF_ERROR else MD_BUF_EXIT) && !error
    {
      ret := if error then MD_BUF_ERROR else MD_BUF_EXIT;
      error := false;
    }

    // The list surgery of md_buf_add.
    method AppendNode(newBuf: Node)
      requires Valid() && |nodes| < maxBufNum && newBuf !in nodes && newBuf.next == null
      modifies this`head, this`last, this`nodes, newBuf`order, last
      ensures Valid() && nodes == old(nodes) + [newBuf]
      ensures newBuf.order == if old(nodes) == [] then 0 else old(nodes[|nodes| - 1].order) + 1
    {
      if head == null {
        newBuf.order := 0;
        head := newBuf;
        last := head;
      } else {
        newBuf.order := last.order + 1;
        last.next := newBuf;
        last := newBuf;
      }
      nodes := nodes + [newBuf];
    }

    // md_buf_add
    method Add(chunk: BufChunk) returns (ret: int)
      requires Valid() && (run ==> |nodes| < maxBufNum)
      modifies this, last
      ensures Valid() && run == old(run)
      ensures run ==> ret == 0 && error == old(error) && |nodes| == old(|nodes|) + 1
                      && nodes[..|nodes| - 1] == old(nodes)
                      && fresh(nodes[|nodes| - 1]) && nodes[|nodes| - 1].chunk == chunk
                      && (old(nodes) == [] ==> nodes[0].order == 0)
      ensures !run ==> ret == (if old(error) then MD_BUF_ERROR else MD_BUF_EXIT) && !error && nodes == old(nodes)
    {
      ret := 0;
      var newBuf := new Node(chunk);
      if !run {
        ret := StoppedResult();
        return;
      }
      AppendNode(newBuf);
    }

    // The loop of md_buf_get_pack: it leaves `curr` on the j-th node, the last one of the pack.
    method WalkPack(count: int, noMore: set<nat>)
      returns (ret: int, count': int, curr: Node?, ghost j: nat)
      requires Valid()
      ensures var cut := CutOf(MarksOf(nodes), count, noMore);
              ret == cut.ret && count' == cut.count
      ensures var cut := CutOf(MarksOf(nodes), count, noMore);
              cut.len == Min(j + 1, |nodes|) && curr == NodeAt(nodes, j)
      ensures IsCut(MarksOf(nodes), count, noMore, Min(j + 1, |nodes|), count', ret)
    {
      ret, count', curr, j := 0, count, head, 0;
      ghost var marks := MarksOf(nodes);
      var i := 0;
      while i < count'
        invariant 0 <= i && count' == count && ret == 0
        invariant i < count ==> j == i <= |nodes|
        invariant i >= count > 0 ==> i == count && j == count - 1 < |nodes|
        invariant count <= 0 ==> i == j == 0
        invariant curr == NodeAt(nodes, j)
        invariant count > 0 ==> forall k :: 0 <= k < i ==> !StopsAt(marks, noMore, k)
      {
        if curr == null {
          count' := i;
          break;
        } else if IsDone(curr.chunk.size) && i in noMore {
          assert StopsAt(marks, noMore, i);
          curr, j := curr.next, j + 1;
          count' := i + 1;
          ret := MD_BUF_NO_DECODERS;
          break;
        } else if i < count' - 1 {
          curr, j := curr.next, j + 1;
        }
        i := i + 1;
      }
      CutIs(marks, count, noMore);
    }

    // The list surgery of md_buf_get_pack: `curr`, the j-th node, becomes the end of the pack.
    method CutAfter(curr: Node?, ghost j: nat, pack: Pack)
      requires Valid() && curr == NodeAt(nodes, j) && pack.head == pack.curr == head && pack.pos == 0
      modifies this`head, this`last, this`nodes, pack`nodes, (if curr == null then {} else {curr})`next
      ensures Valid() && pack.Valid()
      ensures pack.nodes == old(nodes)[..Min(j + 1, |old(nodes)|)]
      ensures nodes == old(nodes)[Min(j + 1, |old(nodes)|)..]
    {
      ghost var n := Min(j + 1, |nodes|);
      if curr != null {
        head := Detach(curr, nodes, n);
        if head == null {
          last := null;
        }
      } else {
        head, last := null, null;
      }
      pack.nodes := nodes[..n];
      nodes := nodes[n..];
    }

    // What md_buf_get_pack does once it stops waiting on a running buffer.
    method TakePack(count: int, noMore: set<nat>, ghost cut: Cut) returns (ret: int, count': int, pack: Pack)
      requires Valid() && cut == CutOf(MarksOf(nodes), count, noMore)
      modifies this`head, this`last, this`nodes, nodes
      ensures Valid() && ret == cut.ret && count' == cut.count && cut.len <= |old(nodes)|
      ensures fresh(pack) && pack.Valid() && pack.pos == 0
      ensures pack.nodes == old(nodes)[..cut.len] && nodes == old(nodes)[cut.len..]
    {
      var curr: Node?;
      ghost var j: nat;
      ret, count', curr, j := WalkPack(count, noMore);
      pack := new Pack(head);
      CutAfter(curr, j, pack);
    }

    // md_buf_get_pack. The source answers by pointer; here *count comes back as `count'`.
    method GetPack(count: int, mode: PackMode, noMore: set<nat>, ghost noMoreAtWait: bool)
      returns (ret: int, count': int, pack: Pack?)
      requires Valid() && (run ==> !PackBlocked(MarksOf(nodes), count, mode, noMoreAtWait))
      modifies this, nodes
      ensures Valid() && run == old(run)
      ensures !run ==> ret == (if old(error) then MD_BUF_ERROR else MD_BUF_EXIT) && !error
                       && pack == null && count' == count && nodes == old(nodes)
      ensures run ==>
                var cut := CutOf(old(MarksOf(nodes)), count, noMore);
                && error == old(error) && ret == cut.ret && count' == cut.count
                && pack != null && fresh(pack) && pack.Valid() && pack.pos == 0
                && cut.len <= |old(nodes)|
                && pack.nodes == old(nodes)[..cut.len] && nodes == old(nodes)[cut.len..]
      ensures run ==> IsCut(old(MarksOf(nodes)), count, noMore, |pack.nodes|, count', ret)
      ensures run && (count > 0 || mode == Any) ==> pack.nodes != []
      ensures run && mode == Exact && |pack.nodes| < count && ret == 0 ==>
                var marks := old(MarksOf(nodes));
                noMoreAtWait && |pack.nodes| == |marks| > 0 && marks[|marks| - 1]
    {
      if run {
        ghost var marks := MarksOf(nodes);
        CutIs(marks, count, noMore);
        CutEnough(marks, count, mode, noMore, noMoreAtWait);
        ret, count', pack := TakePack(count, noMore, CutOf(marks, count, noMore));
      } else {
        count', pack := count, null;
        ret := StoppedResult();
      }
    }

    // md_buf_get, which no caller in the repository uses: taking the only chunk leaves `last` behind,
    // so the list survives if and only if it had a second one.
    method Get() returns (chunk: BufChunk)
      requires Valid() && nodes != []
      modifies this
      ensures chunk == old(nodes[0]).chunk && nodes == old(nodes)[1..]
      ensures Valid() <==> old(|nodes|) > 1
    {
      chunk := head.chunk;
      head := head.next;
      nodes := nodes[1..];
    }

    // md_buf_flush. `freed` are the chunks it frees.
    method Flush() returns (freed: seq<BufChunk>)
      requires Valid()
      modifies this
      ensures Valid() && nodes == [] && !run && error == old(error)
      ensures |freed| == |old(nodes)| && forall k :: 0 <= k < |freed| ==> freed[k] == old(nodes)[k].chunk
    {
      var curr := head;
      freed := [];
      while curr != null
        invariant |freed| <= |nodes| && curr == NodeAt(nodes, |freed|)
        invariant forall k :: 0 <= k < |freed| ==> freed[k] == nodes[k].chunk
        decreases |nodes| - |freed|
      {
        var next := curr.next;
        freed := freed + [curr.chunk];
        curr := next;
      }
      head, last, run, nodes := null, null, false, [];
    }

    // md_buf_resume
    method Resume()
      requires Valid()
      modifies this`run
      ensures Valid() && run
    {
      run := true;
    }

    // md_buf_signal_error
    method SignalError()
      requires Valid()
      modifies this`run, this`error
      ensures Valid() && !run && error
    {
      run, error := false, true;
    }
  }

  // ---------------------------------------------------------------- packs

  /** struct md_bufll_pack_t. `pos` is where `curr` stands in `nodes`. */
  class Pack {
    const head: Node?
    var curr: Node?
    ghost var nodes: seq<Node>
    ghost var pos: nat

    constructor (head: Node?)
      ensures this.head == head && curr == head && nodes == [] && pos == 0
    {
      this.head, this.curr, this.nodes, this.pos := head, head, [], 0;
    }

    ghost predicate Valid()
      reads this, nodes
    {
      Linked(nodes) && head == NodeAt(nodes, 0) && pos <= |nodes| && curr == NodeAt(nodes, pos)
    }

    // md_bufll_first
    method First(log: Log) returns (chunk: BufChunk?)
      requires Valid()
      modifies this`curr, this`pos, log, if head == null then {} else {head.chunk}
      ensures Valid() && (nodes == [] ==> chunk == null && pos == old(pos) && log.trace == old(log.trace))
      ensures nodes != [] ==>
                var (v, cbs) := LoadChunk(old(nodes[0].chunk.View()));
                pos == 0 && chunk == nodes[0].chunk && chunk.View() == v && log.trace == old(log.trace) + cbs
    {
      if head == null {
        return null;
      }
      curr, pos := head, 0;
      chunk := curr.chunk;
      LoadOn(chunk, log);
    }

    // md_bufll_next
    method Next(log: Log) returns (chunk: BufChunk?)
      requires Valid()
      modifies this`curr, this`pos, log,
               if curr == null || curr.next == null then {} else {curr.next.chunk}
      ensures Valid() && pos == Min(old(pos) + 1, |nodes|)
      ensures pos == |nodes| ==> chunk == null && log.trace == old(log.trace)
      ensures pos < |nodes| ==>
                var p := pos;
                var (v, cbs) := LoadChunk(old(nodes[p].chunk.View()));
                chunk == nodes[p].chunk && chunk.View() == v && log.trace == old(log.trace) + cbs
    {
      if curr == null {
        return null;
      }
      curr, pos := curr.next, pos + 1;
      if curr != null {
        chunk := curr.chunk;
        LoadOn(chunk, log);
        return;
      }
      return null;
    }

    // The loop of md_buf_clean_pack before its i-th node.
    ghost predicate CleaningAt(i: nat, log: Log, g: GarbageRing<BufChunk?>, chunks: seq<BufChunk>,
                               views: seq<Chunk>, ring0: Ring<BufChunk?>, trace0: seq<Callback>)
      reads this, nodes, log, g, g.chunks, chunks
    {
      && Valid() && g.Valid() && Holds(chunks, views, i)
      && (|chunks| == |nodes| && forall k :: 0 <= k < |nodes| ==> chunks[k] == nodes[k].chunk)
      && CleanedTo(g.view, log.trace, ring0, trace0, g.size, chunks, views, i)
    }

    method CleanNode(node: Node, ghost i: nat, log: Log, g: GarbageRing<BufChunk?>, ghost chunks: seq<BufChunk>,
                     ghost views: seq<Chunk>, ghost ring0: Ring<BufChunk?>, ghost trace0: seq<Callback>)
      returns (next: Node?)
      requires CleaningAt(i, log, g, chunks, views, ring0, trace0) && i < |nodes| && node == nodes[i]
      modifies log, g, g.chunks, node.chunk
      ensures CleaningAt(i + 1, log, g, chunks, views, ring0, trace0) && next == NodeAt(nodes, i + 1)
    {
      CleanedStep(g.view, log.trace, ring0, trace0, g.size, chunks, views, i);
      AddToGarbage(node.chunk, log, g);
      next := node.next;
    }

    // md_buf_clean_pack: every chunk goes to the garbage, in pack order, its take-out events run once.
    method CleanPack(log: Log, g: GarbageRing<BufChunk?>, ghost chunks: seq<BufChunk>, ghost views: seq<Chunk>)
      requires Valid() && g.Valid() && Holds(chunks, views, 0)
      requires |chunks| == |nodes| && forall i :: 0 <= i < |nodes| ==> chunks[i] == nodes[i].chunk
      modifies log, g, g.chunks, chunks
      ensures g.Valid()
      ensures CleanedTo(g.view, log.trace, old(g.view), old(log.trace), g.size, chunks, views, |nodes|)
    {
      var node := head;
      ghost var i: nat := 0;
      ghost var ring0, trace0 := g.view, log.trace;
      CleanedStart(ring0, trace0, g.size, chunks, views);
      while node != null
        invariant i <= |nodes| && node == NodeAt(nodes, i)
        invariant CleaningAt(i, log, g, chunks, views, ring0, trace0)
        decreases |nodes| - i
      {
        node := CleanNode(node, i, log, g, chunks, views, ring0, trace0);
        i := i + 1;
      }
    }
  }

  // From `ring0` and `trace0`, the first i chunks have gone through the ring and run their events.
  ghost predicate CleanedTo<T>(ring: Ring<T>, trace: seq<Callback>, ring0: Ring<T>, trace0: seq<Callback>,
                               size: nat, chunks: seq<T>, views: seq<Chunk>, i: nat)
  {
    && i <= |chunks| == |views|
    && ring == AddAll(ring0, size, chunks[..i])
    && trace == trace0 + DropTrace(views[..i])
  }

  lemma CleanedStart<T>(ring: Ring<T>, trace: seq<Callback>, size: nat, chunks: seq<T>, views: seq<Chunk>)
    requires |chunks| == |views|
    ensures CleanedTo(ring, trace, ring, trace, size, chunks, views, 0)
  {
  }

  lemma CleanedStep<T>(ring: Ring<T>, trace: seq<Callback>, ring0: Ring<T>, trace0: seq<Callback>,
                       size: nat, chunks: seq<T>, views: seq<Chunk>, i: nat)
    requires CleanedTo(ring, trace, ring0, trace0, size, chunks, views, i) && i < |chunks|
    ensures CleanedTo(Add(ring, size, chunks[i]), trace + DropChunk(views[i]).1,
                      ring0, trace0, size, chunks, views, i + 1)
  {
    assert chunks[..i + 1][..i] == chunks[..i] && views[..i + 1][..i] == views[..i];
  }

  // The chunks are distinct objects, and those from i on still have these values.
  ghost predicate Holds(chunks: seq<BufChunk>, views: seq<Chunk>, i: nat)
    reads chunks
  {
    && |views| == |chunks|
    && (forall j, k :: 0 <= j < k < |chunks| ==> chunks[j] != chunks[k])
    && forall k :: i <= k < |chunks| ==> chunks[k].View() == views[k]
  }
}
