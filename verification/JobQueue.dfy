/** The job queue: a linked list with head and tail pointers, under one mutex. */
module JobQueue {

  /** A job, by its position in the job table. */
  type JobRef = nat

  class Node {
    var job: JobRef
    var next: Node?

    constructor (job: JobRef)
      ensures this.job == job && next == null
    {
      this.job := job;
      next := null;
    }
  }

  /** What one pass through the critical section of a pop finds. */
  datatype PopResult =
    | MustWait        // empty and not stopped: the caller goes into the condition wait
    | ShuttingDown    // stopped: the worker gets no job
    | Got(job: JobRef)

  /** The node after position `i`, if any. */
  function Successor(nodes: seq<Node>, i: nat): Node?
    requires i < |nodes|
  {
    if i + 1 < |nodes| then nodes[i + 1] else null
  }

  lemma SuccessorOfHead(nodes: seq<Node>)
    requires nodes != []
    ensures Successor(nodes, 0) == if |nodes| > 1 then nodes[1] else null
    ensures forall i :: 0 <= i < |nodes| - 1 ==> Successor(nodes[1..], i) == Successor(nodes, i + 1)
  {
  }

  lemma SuccessorsOfLonger(nodes: seq<Node>, node: Node)
    ensures Successor(nodes + [node], |nodes|) == null
    ensures nodes != [] ==> Successor(nodes + [node], |nodes| - 1) == node
    ensures forall i :: 0 <= i < |nodes| - 1 ==> Successor(nodes + [node], i) == Successor(nodes, i)
  {
  }

  class Queue {
    var head: Node?
    var tail: Node?
    var stopped: bool

    ghost var nodes: seq<Node>   // the list, head first
    ghost var pushed: seq<JobRef>        // everything ever accepted
    ghost var popped: seq<JobRef>        // everything ever handed out
    ghost var Repr: set<object>

    ghost predicate Valid()
      reads this, Repr
      ensures Valid() ==> this in Repr
    {
      && this in Repr && (forall i :: 0 <= i < |nodes| ==> nodes[i] in Repr)
      && (forall i, j :: 0 <= i < j < |nodes| ==> nodes[i] != nodes[j])
      && (if nodes == [] then head == null && tail == null else head == nodes[0] && tail == nodes[|nodes| - 1])
      && (forall i :: 0 <= i < |nodes| ==> nodes[i].next == Successor(nodes, i))
      && pushed == popped + Contents()
    }

    ghost function Contents(): (s: seq<JobRef>)
      reads this, nodes
      ensures |s| == |nodes|
    {
      seq(|nodes|, i requires 0 <= i < |nodes| reads this, nodes => nodes[i].job)
    }

    constructor ()
      ensures Valid() && Contents() == [] && !stopped && pushed == popped == [] && fresh(Repr)
    {
      head, tail, stopped := null, null, false;
      nodes, pushed, popped := [], [], [];
      Repr := {this};
    }

    /** Appends a job; refused when the node cannot be allocated or the queue is stopped. */
    method Push(job: JobRef, canAllocate: bool) returns (ok: bool)
      requires Valid()
      modifies this, tail
      ensures Valid() && stopped == old(stopped)
      ensures ok == (canAllocate && !stopped)
      ensures Contents() == if ok then old(Contents()) + [job] else old(Contents())
      ensures pushed == if ok then old(pushed) + [job] else old(pushed)
      ensures popped == old(popped)
      ensures fresh(Repr - old(Repr))
    {
      hide Successor;
      if !canAllocate {
        return false;
      }
      var node := new Node(job);
      if stopped {
        return false;
      }
      ghost var before := nodes;
      if tail == null {
        head := node;
        tail := node;
      } else {
        tail.next := node;
        tail := node;
      }
      nodes := nodes + [node];
      Repr := Repr + {node};
      pushed := pushed + [job];
      SuccessorsOfLonger(before, node);
      assert Contents() == old(Contents()) + [job] by {
        assert forall i :: 0 <= i < |before| ==> nodes[i] == before[i] && nodes[i].job == old(nodes[i].job);
      }
      forall i | 0 <= i < |nodes|
        ensures nodes[i].next == Successor(nodes, i)
      {
        if i < |before| - 1 {
          assert old(before[i].next) == Successor(before, i);
        }
      }
      return true;
    }

    /** One pass of the pop loop under the mutex: wait, give up, or unlink the head. */
    method Pop() returns (r: PopResult)
      requires Valid()
      modifies this
      ensures Valid() && stopped == old(stopped) && pushed == old(pushed) && Repr == old(Repr)
      ensures r == if stopped then ShuttingDown else if old(Contents()) == [] then MustWait else Got(old(Contents()[0]))
      ensures Contents() == if r.Got? then old(Contents())[1..] else old(Contents())
      ensures popped == if r.Got? then old(popped) + [r.job] else old(popped)
    {
      hide Successor;
      if head == null && !stopped {
        return MustWait;
      }
      if stopped {
        return ShuttingDown;
      }
      var node := head;
      ghost var was, before := nodes, Contents();
      assert before == [node.job] + before[1..];
      SuccessorOfHead(was);
      assert node.next == Successor(was, 0);
      head := node.next;
      if head == null {
        tail := null;
      }
      popped := popped + [node.job];
      nodes := nodes[1..];
      assert Contents() == before[1..];
      return Got(node.job);
    }

    method Stop()
      requires Valid()
      modifies this
      ensures Valid() && stopped && Contents() == old(Contents()) && Repr == old(Repr)
      ensures pushed == old(pushed) && popped == old(popped)
    {
      hide Successor;
      stopped := true;
    }
  }

  datatype Op = PushOp(job: JobRef, canAllocate: bool) | PopOp | StopOp

  /** What one operation does to the contents and the stopped flag. */
  function Step(contents: seq<JobRef>, stopped: bool, op: Op): (seq<JobRef>, bool) {
    match op
    case PushOp(job, canAllocate) => (if canAllocate && !stopped then contents + [job] else contents, stopped)
    case PopOp => (if stopped || contents == [] then contents else contents[1..], stopped)
    case StopOp => (contents, true)
  }

  function Effect(contents: seq<JobRef>, stopped: bool, ops: seq<Op>): (seq<JobRef>, bool)
    decreases |ops|
  {
    if ops == [] then (contents, stopped)
    else
      var r := Step(contents, stopped, ops[0]);
      Effect(r.0, r.1, ops[1..])
  }

  /** Once stopped, no sequence of operations changes the contents. */
  lemma {:induction false} FrozenAfterStop(contents: seq<JobRef>, ops: seq<Op>)
    ensures Effect(contents, true, ops) == (contents, true)
    decreases |ops|
  {
    if ops != [] {
      FrozenAfterStop(contents, ops[1..]);
    }
  }

  method ApplyOne(q: Queue, op: Op)
    requires q.Valid()
    modifies q.Repr
    ensures q.Valid() && fresh(q.Repr - old(q.Repr))
    ensures (q.Contents(), q.stopped) == Step(old(q.Contents()), old(q.stopped), op)
    ensures old(q.pushed) <= q.pushed && old(q.popped) <= q.popped
  {
    match op {
      case PushOp(job, canAllocate) =>
        var ok := q.Push(job, canAllocate);
      case PopOp =>
        var r := q.Pop();
      case StopOp =>
        q.Stop();
    }
  }

  /** Any sequence of operations on the linked queue has the effect it has on a sequence. */
  method Apply(q: Queue, ops: seq<Op>)
    requires q.Valid()
    modifies q.Repr
    ensures q.Valid() && fresh(q.Repr - old(q.Repr))
    ensures (q.Contents(), q.stopped) == Effect(old(q.Contents()), old(q.stopped), ops)
    ensures old(q.pushed) <= q.pushed && old(q.popped) <= q.popped
  {
    var i := 0;
    while i < |ops|
      invariant i <= |ops| && q.Valid() && fresh(q.Repr - old(q.Repr))
      invariant Effect(q.Contents(), q.stopped, ops[i..]) == Effect(old(q.Contents()), old(q.stopped), ops)
      invariant old(q.pushed) <= q.pushed && old(q.popped) <= q.popped
    {
      assert ops[i..][1..] == ops[i + 1..];
      ApplyOne(q, ops[i]);
      i := i + 1;
    }
  }
}
