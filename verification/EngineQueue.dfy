/** The engine's steps on its queue are the linked queue's operations. */
module EngineQueue {
  import opened Engine
  import JobQueue

  /** The queue operation a step performs, if any: a worker's pass through the pop loop, main's
      push (refused only when the node cannot be allocated or the queue is stopped), and the stop. */
  function QueueOp(s: State, a: Action): seq<JobQueue.Op> {
    match a
    case WorkerStep(w, _) => if w < |s.pcs| && s.pcs[w].AtQueue? then [JobQueue.PopOp] else []
    case MainStep(ok, _) =>
      (match s.main
       case Pushing(j) => [JobQueue.PushOp(j, ok)]
       case Stopping => [JobQueue.StopOp]
       case _ => [])
    case _ => []
  }

  lemma StepIsQueueOp(s: State, a: Action)
    requires Enabled(s, a)
    ensures (Do(s, a).queue, Do(s, a).stopped) == JobQueue.Effect(s.queue, s.stopped, QueueOp(s, a))
  {
    hide Work, Plausible, SignalWakes;
    if a.MainStep? && s.main.Pushing? {
      OneOp(s.queue, s.stopped, JobQueue.PushOp(s.main.j, a.ok));
    } else if a.MainStep? && s.main.Stopping? {
      OneOp(s.queue, s.stopped, JobQueue.StopOp);
    } else if a.WorkerStep? && s.pcs[a.w].AtQueue? {
      OneOp(s.queue, s.stopped, JobQueue.PopOp);
    }
  }

  lemma OneOp(contents: seq<nat>, stopped: bool, op: JobQueue.Op)
    ensures JobQueue.Effect(contents, stopped, [op]) == JobQueue.Step(contents, stopped, op)
  {
    var r := JobQueue.Step(contents, stopped, op);
    assert [op][1..] == [];
    assert JobQueue.Effect(r.0, r.1, []) == r;
  }

  /** All queue operations of a run, in order. */
  function QueueOps(s: State, acts: seq<Action>): seq<JobQueue.Op>
    requires Runs(s, acts)
    decreases |acts|
  {
    if acts == [] then [] else QueueOp(s, acts[0]) + QueueOps(Do(s, acts[0]), acts[1..])
  }

  lemma {:induction false} EffectConcat(contents: seq<nat>, stopped: bool, a: seq<JobQueue.Op>, b: seq<JobQueue.Op>)
    ensures var r := JobQueue.Effect(contents, stopped, a);
      JobQueue.Effect(contents, stopped, a + b) == JobQueue.Effect(r.0, r.1, b)
    decreases |a|
  {
    if a == [] {
      assert a + b == b;
    } else {
      var r := JobQueue.Step(contents, stopped, a[0]);
      assert (a + b)[1..] == a[1..] + b;
      EffectConcat(r.0, r.1, a[1..], b);
    }
  }

  /** Over a whole run, the engine's queue and stopped flag are those of the linked queue after
      the run's queue operations. */
  lemma {:induction false} RunIsQueueOps(s: State, acts: seq<Action>)
    requires Runs(s, acts)
    ensures var t := After(s, acts);
      (t.queue, t.stopped) == JobQueue.Effect(s.queue, s.stopped, QueueOps(s, acts))
    decreases |acts|
  {
    hide Enabled, Do, QueueOp;
    if acts != [] {
      var s1 := Do(s, acts[0]);
      StepIsQueueOp(s, acts[0]);
      RunIsQueueOps(s1, acts[1..]);
      EffectConcat(s.queue, s.stopped, QueueOp(s, acts[0]), QueueOps(s1, acts[1..]));
    }
  }
}
