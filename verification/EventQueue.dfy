/** core/buffer/mdevq.c over the list loops of core/include/mdll.h: two queues of handlers per chunk,
    one run when the chunk is taken in and one when it is taken out. */
module EventQueue {
  import opened Types

  datatype EventType = RunOnTakeIn | RunOnTakeOut | Unknown

  // md_event_t: which callback, with which data.
  datatype Handler = Handler(callback: nat, data: int)

  const EINVAL := 22

  // ---------------------------------------------------------------- queues as values

  // What became of a handler that left its queue.
  datatype Fate = Fate(evtype: EventType, handler: Handler, called: bool)

  datatype Queues = Queues(takeIn: seq<Handler>, takeOut: seq<Handler>, fates: seq<Fate>) {
    function Pending(evtype: EventType): seq<Handler> {
      match evtype
      case RunOnTakeIn => takeIn
      case RunOnTakeOut => takeOut
      case Unknown => []
    }
  }

  datatype Op = AddEvent(evtype: EventType, handler: Handler) | RunQueue(evtype: EventType) | Deinit

  function FatesOf(evtype: EventType, handlers: seq<Handler>, called: bool): (fates: seq<Fate>)
    ensures |fates| == |handlers|
    ensures forall i :: 0 <= i < |fates| ==> fates[i] == Fate(evtype, handlers[i], called)
  {
    seq(|handlers|, i requires 0 <= i < |handlers| => Fate(evtype, handlers[i], called))
  }

  function Apply(q: Queues, op: Op): Queues {
    match op
    case AddEvent(RunOnTakeIn, h) => q.(takeIn := q.takeIn + [h])
    case AddEvent(RunOnTakeOut, h) => q.(takeOut := q.takeOut + [h])
    case AddEvent(Unknown, _) => q
    case RunQueue(RunOnTakeIn) => q.(takeIn := [], fates := q.fates + FatesOf(RunOnTakeIn, q.takeIn, true))
    case RunQueue(RunOnTakeOut) => q.(takeOut := [], fates := q.fates + FatesOf(RunOnTakeOut, q.takeOut, true))
    case RunQueue(Unknown) => q
    case Deinit =>
      Queues([], [], q.fates + FatesOf(RunOnTakeIn, q.takeIn, false) + FatesOf(RunOnTakeOut, q.takeOut, false))
  }

  function Run(ops: seq<Op>): Queues {
    if ops == [] then Queues([], [], []) else Apply(Run(ops[..|ops| - 1]), ops[|ops| - 1])
  }

  // The handlers added to one queue, and those that left it, each in order.
  function Added(ops: seq<Op>, evtype: EventType): seq<Handler> {
    if ops == [] then [] else Added(ops[..|ops| - 1], evtype) + AddedBy(ops[|ops| - 1], evtype)
  }

  function Left(fates: seq<Fate>, evtype: EventType): seq<Handler> {
    if fates == [] then []
    else
      var f := fates[|fates| - 1];
      Left(fates[..|fates| - 1], evtype) + (if f.evtype == evtype then [f.handler] else [])
  }

  lemma {:induction false} LeftConcat(a: seq<Fate>, b: seq<Fate>, evtype: EventType)
    ensures Left(a + b, evtype) == Left(a, evtype) + Left(b, evtype)
    decreases |b|
  {
    if b == [] {
      assert a + b == a;
    } else {
      var n := |b| - 1;
      assert (a + b)[..|a + b| - 1] == a + b[..n];
      LeftConcat(a, b[..n], evtype);
    }
  }

  lemma {:induction false} LeftOfFates(t: EventType, handlers: seq<Handler>, called: bool, evtype: EventType)
    ensures Left(FatesOf(t, handlers, called), evtype) == if t == evtype then handlers else []
    decreases |handlers|
  {
    if handlers != [] {
      var n := |handlers| - 1;
      LeftOfFates(t, handlers[..n], called, evtype);
      FatesSnoc(t, handlers, called);
      LeftSnoc(FatesOf(t, handlers[..n], called), Fate(t, handlers[n], called), evtype);
      assert handlers == handlers[..n] + [handlers[n]];
    }
  }

  lemma FatesSnoc(t: EventType, handlers: seq<Handler>, called: bool)
    requires handlers != []
    ensures var n := |handlers| - 1;
            FatesOf(t, handlers, called) == FatesOf(t, handlers[..n], called) + [Fate(t, handlers[n], called)]
  {
  }

  lemma LeftSnoc(fates: seq<Fate>, f: Fate, evtype: EventType)
    ensures Left(fates + [f], evtype) == if f.evtype == evtype then Left(fates, evtype) + [f.handler] else Left(fates, evtype)
  {
    assert (fates + [f])[..|fates|] == fates;
  }

  lemma LeftOfThree(a: seq<Fate>, b: seq<Fate>, c: seq<Fate>, evtype: EventType)
    ensures Left(a + b + c, evtype) == Left(a, evtype) + Left(b, evtype) + Left(c, evtype)
  {
    LeftConcat(a + b, c, evtype);
    LeftConcat(a, b, evtype);
  }

  lemma DeinitLeft(q: Queues, evtype: EventType)
    ensures Left(Apply(q, Deinit).fates, evtype) == Left(q.fates, evtype) + q.Pending(evtype)
  {
    var ins, outs := FatesOf(RunOnTakeIn, q.takeIn, false), FatesOf(RunOnTakeOut, q.takeOut, false);
    LeftOfThree(q.fates, ins, outs, evtype);
    LeftOfFates(RunOnTakeIn, q.takeIn, false, evtype);
    LeftOfFates(RunOnTakeOut, q.takeOut, false, evtype);
    OneOfTwo(Left(q.fates, evtype), Left(ins, evtype), Left(outs, evtype));
  }

  lemma OneOfTwo(a: seq<Handler>, b: seq<Handler>, c: seq<Handler>)
    ensures b == [] ==> (a + b) + c == a + c
    ensures c == [] ==> (a + b) + c == a + b
  {
  }

  lemma RunLeft(q: Queues, t: EventType, evtype: EventType)
    ensures Left(Apply(q, RunQueue(t)).fates, evtype)
            == Left(q.fates, evtype) + if t == evtype then q.Pending(evtype) else []
  {
    if t != Unknown {
      LeftConcat(q.fates, FatesOf(t, q.Pending(t), true), evtype);
      LeftOfFates(t, q.Pending(t), true, evtype);
    }
  }

  function AddedBy(op: Op, evtype: EventType): seq<Handler> {
    if op.AddEvent? && op.evtype == evtype != Unknown then [op.handler] else []
  }

  // One operation keeps the balance.
  lemma StepBalances(q: Queues, op: Op, evtype: EventType)
    ensures var q' := Apply(q, op);
            Left(q'.fates, evtype) + q'.Pending(evtype) == (Left(q.fates, evtype) + q.Pending(evtype)) + AddedBy(op, evtype)
  {
    match op {
      case AddEvent(t, h) => ConcatAssociates(Left(q.fates, evtype), q.Pending(evtype), AddedBy(op, evtype));
      case RunQueue(t) => RunLeft(q, t, evtype);
      case Deinit => DeinitLeft(q, evtype);
    }
  }

  /** Exactly once and in order: for any sequence of operations, the handlers added to a queue are
      those that have left it, in the order of leaving, followed by those it still holds. */
  lemma {:induction false} ExactlyOnceFifo(ops: seq<Op>, evtype: EventType)
    ensures Added(ops, evtype) == Left(Run(ops).fates, evtype) + Run(ops).Pending(evtype)
    decreases |ops|
  {
    if ops != [] {
      var n := |ops| - 1;
      ExactlyOnceFifo(ops[..n], evtype);
      StepBalances(Run(ops[..n]), ops[n], evtype);
    }
  }

  /** A handler leaves without having been called only by a deinit. */
  lemma {:induction false} OnlyDeinitDrops(ops: seq<Op>)
    requires Deinit !in ops
    ensures forall f <- Run(ops).fates :: f.called
    decreases |ops|
  {
    if ops != [] {
      OnlyDeinitDrops(ops[..|ops| - 1]);
      assert ops[|ops| - 1] in ops;
    }
  }

  // A deinit that met a handler in one of the queues.
  ghost predicate Drops(ops: seq<Op>, i: nat)
    requires i < |ops|
  {
    ops[i] == Deinit && (Run(ops[..i]).takeIn != [] || Run(ops[..i]).takeOut != [])
  }

  lemma DropsStep(q: Queues, op: Op)
    ensures (exists f <- Apply(q, op).fates :: !f.called)
            <==> (exists f <- q.fates :: !f.called) || (op == Deinit && (q.takeIn != [] || q.takeOut != []))
  {
    var fates, all := q.fates, Apply(q, op).fates;
    assert fates <= all;
    if op == Deinit && q.takeIn != [] {
      assert all[|fates|] == Fate(RunOnTakeIn, q.takeIn[0], false);
    } else if op == Deinit && q.takeOut != [] {
      assert all[|fates|] == Fate(RunOnTakeOut, q.takeOut[0], false);
    }
    if f :| f in fates && !f.called {
      assert f in all;
    }
  }

  /** And by every deinit: some handler has left without having been called if and only if a deinit met one
      in a queue. */
  lemma {:induction false} DropsExactly(ops: seq<Op>)
    ensures (exists f <- Run(ops).fates :: !f.called) <==> exists i :: 0 <= i < |ops| && Drops(ops, i)
    decreases |ops|
  {
    if ops != [] {
      var n := |ops| - 1;
      DropsExactly(ops[..n]);
      DropsStep(Run(ops[..n]), ops[n]);
      forall i | 0 <= i < n
        ensures Drops(ops, i) <==> Drops(ops[..n], i)
      {
        assert ops[..n][..i] == ops[..i];
      }
      assert Drops(ops, n) <==> ops[n] == Deinit && (Run(ops[..n]).takeIn != [] || Run(ops[..n]).takeOut != []);
      assert (exists i :: 0 <= i < n && Drops(ops, i)) <==> (exists i :: 0 <= i < n && Drops(ops[..n], i));
    }
  }

  // ---------------------------------------------------------------- what callbacks return

  // The result of a callback may depend on every call made before it.
  type Outcome = (seq<Handler>, Handler) -> int

  // The first non-zero result of calling these handlers in order, or zero.
  function FirstError(outcome: Outcome, past: seq<Handler>, handlers: seq<Handler>): int {
    if handlers == [] then 0
    else
      var n := |handlers| - 1;
      var e := FirstError(outcome, past, handlers[..n]);
      if e != 0 then e else outcome(past + handlers[..n], handlers[n])
  }

  lemma {:induction false} FirstErrorIsFirst(outcome: Outcome, past: seq<Handler>, handlers: seq<Handler>) returns (k: nat)
    ensures k <= |handlers|
    ensures forall j :: 0 <= j < k ==> outcome(past + handlers[..j], handlers[j]) == 0
    ensures var e := FirstError(outcome, past, handlers);
            if k == |handlers| then e == 0 else e != 0 && e == outcome(past + handlers[..k], handlers[k])
    decreases |handlers|
  {
    if handlers == [] {
      k := 0;
    } else {
      var n := |handlers| - 1;
      k := FirstErrorIsFirst(outcome, past, handlers[..n]);
      assert forall j :: 0 <= j <= n ==> handlers[..n][..j] == handlers[..j];
      if k == n && outcome(past + handlers[..n], handlers[n]) == 0 {
        k := n + 1;
      }
    }
  }

  // ---------------------------------------------------------------- the lists

  class Node {
    const handler: Handler
    var next: Node?

    constructor (handler: Handler)
      ensures this.handler == handler && next == null
    {
      this.handler, this.next := handler, null;
    }
  }

  ghost function NodeAt(nodes: seq<Node>, i: nat): Node? {
    if i < |nodes| then nodes[i] else null
  }

  // `nodes` is the list that starts at `head` and ends in null; no node occurs twice.
  ghost predicate Chain(head: Node?, nodes: seq<Node>)
    reads nodes
  {
    && head == NodeAt(nodes, 0)
    && (forall i, j :: 0 <= i < j < |nodes| ==> nodes[i] != nodes[j])
    && (forall i :: 0 <= i < |nodes| - 1 ==> nodes[i].next == nodes[i + 1])
    && (nodes != [] ==> nodes[|nodes| - 1].next == null)
  }

  ghost function HandlersOf(nodes: seq<Node>): (hs: seq<Handler>)
    ensures |hs| == |nodes| && forall i :: 0 <= i < |hs| ==> hs[i] == nodes[i].handler
  {
    seq(|nodes|, i requires 0 <= i < |nodes| => nodes[i].handler)
  }

  // __ll_add
  method ListAdd(head: Node?, newEv: Node, ghost nodes: seq<Node>) returns (head': Node?)
    requires Chain(head, nodes) && newEv !in nodes && newEv.next == null
    modifies if nodes == [] then {} else {nodes[|nodes| - 1]}
    ensures Chain(head', nodes + [newEv])
  {
    if head == null {
      head' := newEv;
    } else {
      head' := head;
      var temp := head;
      ghost var i := 0;
      while temp.next != null
        invariant 0 <= i < |nodes| && temp == nodes[i]
        invariant i < |nodes| - 1 ==> temp.next == nodes[i + 1]
        decreases |nodes| - i
      {
        temp, i := temp.next, i + 1;
      }
      temp.next := newEv;
    }
  }

  lemma HandlersSnoc(nodes: seq<Node>, n: Node)
    ensures HandlersOf(nodes + [n]) == HandlersOf(nodes) + [n.handler]
  {
  }

  ghost function NodesOf(evtype: EventType, ins: seq<Node>, outs: seq<Node>): seq<Node> {
    match evtype
    case RunOnTakeIn => ins
    case RunOnTakeOut => outs
    case Unknown => []
  }

  // The file-level variables of mdevq.c, and what its calls leave behind: callbacks made, nodes freed.
  class Runner {
    var evqGlobRun: bool
    var evqGlobError: int
    var calls: seq<Handler>
    ghost var freed: seq<Node>
    const outcome: Outcome

    constructor (outcome: Outcome)
      ensures calls == [] && freed == [] && this.outcome == outcome
    {
      calls, freed, this.outcome := [], [], outcome;
    }

    // md_evq_free
    method Free(curr: Node)
      modifies this
      ensures evqGlobRun == old(evqGlobRun) && freed == old(freed) + [curr]
      ensures calls == if evqGlobRun then old(calls) + [curr.handler] else old(calls)
      ensures evqGlobError == if !evqGlobRun || old(evqGlobError) != 0 then old(evqGlobError)
                              else outcome(old(calls), curr.handler)
    {
      if evqGlobRun {
        var error := outcome(calls, curr.handler);
        calls := calls + [curr.handler];
        if error != 0 && evqGlobError == 0 {
          evqGlobError := error;
        }
      }
      freed := freed + [curr];
    }

    // __ll_deinit with md_evq_free
    method ListDeinit(head: Node?, ghost nodes: seq<Node>)
      requires Chain(head, nodes) && evqGlobError == 0
      modifies this
      ensures evqGlobRun == old(evqGlobRun) && freed == old(freed) + nodes
      ensures calls == old(calls) + if evqGlobRun then HandlersOf(nodes) else []
      ensures evqGlobError == if evqGlobRun then FirstError(outcome, old(calls), HandlersOf(nodes)) else 0
    {
      var curr := head;
      ghost var i: nat, hs := 0, HandlersOf(nodes);
      while curr != null
        invariant i <= |nodes| && curr == NodeAt(nodes, i)
        invariant evqGlobRun == old(evqGlobRun) && freed == old(freed) + nodes[..i]
        invariant calls == old(calls) + if evqGlobRun then hs[..i] else []
        invariant evqGlobError == if evqGlobRun then FirstError(outcome, old(calls), hs[..i]) else 0
        decreases |nodes| - i
      {
        var next := curr.next;
        Free(curr);
        assert hs[..i + 1][..i] == hs[..i] && nodes[..i + 1] == nodes[..i] + [curr];
        curr, i := next, i + 1;
      }
      assert hs[..i] == hs && nodes[..i] == nodes;
    }
  }

  /** md_evq_t. `model` is its value together with the fates of the handlers that left it. */
  class EventQueues {
    var takeIn: Node?
    var takeOut: Node?
    ghost var ins: seq<Node>
    ghost var outs: seq<Node>
    ghost var model: Queues

    ghost predicate Valid()
      reads this, ins, outs
    {
      && Chain(takeIn, ins) && Chain(takeOut, outs) && (forall n <- ins :: n !in outs)
      && model.takeIn == HandlersOf(ins) && model.takeOut == HandlersOf(outs)
    }

    // md_evq_init
    constructor ()
      ensures Valid() && model == Run([])
    {
      takeIn, takeOut, ins, outs, model := null, null, [], [], Queues([], [], []);
    }

    method AddTakeIn(newEv: Node)
      requires Valid() && newEv !in ins && newEv !in outs && newEv.next == null
      modifies this`takeIn, this`ins, this`model, if ins == [] then {} else {ins[|ins| - 1]}
      ensures Valid() && model == Apply(old(model), AddEvent(RunOnTakeIn, newEv.handler))
    {
      assert ins != [] ==> ins[|ins| - 1] !in outs;
      takeIn := ListAdd(takeIn, newEv, ins);
      HandlersSnoc(ins, newEv);
      assert Chain(takeOut, outs);
      ins := ins + [newEv];
      model := model.(takeIn := model.takeIn + [newEv.handler]);
    }

    method AddTakeOut(newEv: Node)
      requires Valid() && newEv !in ins && newEv !in outs && newEv.next == null
      modifies this`takeOut, this`outs, this`model, if outs == [] then {} else {outs[|outs| - 1]}
      ensures Valid() && model == Apply(old(model), AddEvent(RunOnTakeOut, newEv.handler))
    {
      assert outs != [] ==> outs[|outs| - 1] !in ins;
      takeOut := ListAdd(takeOut, newEv, outs);
      HandlersSnoc(outs, newEv);
      assert Chain(takeIn, ins);
      outs := outs + [newEv];
      model := model.(takeOut := model.takeOut + [newEv.handler]);
    }

    // md_evq_add_event
    method Add(evtype: EventType, handler: Handler) returns (ret: int)
      requires Valid()
      modifies this, ins, outs
      ensures Valid() && model == Apply(old(model), AddEvent(evtype, handler))
      ensures ret == if evtype == Unknown then -EINVAL else 0
    {
      if evtype == Unknown {
        return -EINVAL;
      }
      var newEv := new Node(handler);
      if evtype == RunOnTakeIn {
        AddTakeIn(newEv);
      } else {
        AddTakeOut(newEv);
      }
      return 0;
    }

    method RunTakeIn(runner: Runner)
      requires Valid() && runner.evqGlobRun && runner.evqGlobError == 0
      modifies this`takeIn, this`ins, this`model, runner
      ensures Valid() && model == Apply(old(model), Op.RunQueue(RunOnTakeIn))
      ensures runner.calls == old(runner.calls) + old(model).takeIn && runner.freed == old(runner.freed) + old(ins)
      ensures runner.evqGlobError == FirstError(runner.outcome, old(runner.calls), old(model).takeIn)
    {
      runner.ListDeinit(takeIn, ins);
      takeIn, ins := null, [];
      model := Apply(model, Op.RunQueue(RunOnTakeIn));
    }

    method RunTakeOut(runner: Runner)
      requires Valid() && runner.evqGlobRun && runner.evqGlobError == 0
      modifies this`takeOut, this`outs, this`model, runner
      ensures Valid() && model == Apply(old(model), Op.RunQueue(RunOnTakeOut))
      ensures runner.calls == old(runner.calls) + old(model).takeOut && runner.freed == old(runner.freed) + old(outs)
      ensures runner.evqGlobError == FirstError(runner.outcome, old(runner.calls), old(model).takeOut)
    {
      runner.ListDeinit(takeOut, outs);
      takeOut, outs := null, [];
      model := Apply(model, Op.RunQueue(RunOnTakeOut));
    }

    // md_evq_run_queue: every handler of that queue once, in order, whatever the others returned.
    method RunQueue(evtype: EventType, runner: Runner) returns (ret: int)
      requires Valid()
      modifies this, runner
      ensures Valid() && model == Apply(old(model), Op.RunQueue(evtype))
      ensures runner.calls == old(runner.calls) + old(model).Pending(evtype)
      ensures ret == if evtype == Unknown then -EINVAL
                     else FirstError(runner.outcome, old(runner.calls), old(model).Pending(evtype))
      ensures runner.freed == old(runner.freed) + NodesOf(evtype, old(ins), old(outs))
    {
      runner.evqGlobRun, runner.evqGlobError := true, 0;
      match evtype {
        case RunOnTakeIn => RunTakeIn(runner);
        case RunOnTakeOut => RunTakeOut(runner);
        case Unknown => return -EINVAL;
      }
      return runner.evqGlobError;
    }

    // md_evq_deinit: everything is freed, nothing is called.
    method Deinit(runner: Runner) returns (ret: int)
      requires Valid()
      modifies this, runner
      ensures Valid() && model == Apply(old(model), Op.Deinit)
      ensures runner.calls == old(runner.calls) && ret == 0
      ensures runner.freed == old(runner.freed) + old(ins) + old(outs)
    {
      runner.evqGlobRun, runner.evqGlobError := false, 0;
      runner.ListDeinit(takeIn, ins);
      takeIn, ins := null, [];
      runner.ListDeinit(takeOut, outs);
      takeOut, outs := null, [];
      model := Apply(model, Op.Deinit);
      return runner.evqGlobError;
    }
  }
}
