/** What an accepted cancel request decides: exactly which states the job can still reach. */
module EngineCancel {
  import opened Engine
  import opened EngineInvariant
  import opened EngineRuns
  import opened EngineProgress

  /** Once the cancel flag of a job is set and its worker is at `pc`, the job is not in state
      `target`, now or later. */
  predicate Excludes(target: JobState, pc: Pc, job: Job)
    requires pc.HoldsJob()
  {
    match pc
    case CheckCancel(_) => target != Canceled
    case StartRun(_) => target != Running && StartExcludes(target, job.kind)
    case Dispatch(_) => target != Running && StartExcludes(target, job.kind)
    case TextStep(_, _) => target in {Done, Failed}
    case BeforeCodec(_) => target == Done || (target == Failed && job.kind == Decode)
    case InCodec(_) => target == Canceled
    case PutOutput(_, _, _) => target in {Failed, Canceled}
    case PutMeta(_, _, _) => target in {Failed, Canceled}
    case PutResult(_, fin, _, ret) => target != fin && (target == Running ==> ret == FromEarlyCancel)
    case PutState(_, fin, ret) => target != fin && (target == Running ==> ret == FromEarlyCancel)
    case CheckFailed(_) => target != job.state
    case ReadState(_) => target != job.state
    case SendEvent(_, st) => target != st
  }

  /** The final states that a flagged job cannot reach once it has started: VALIDATE and CAPACITY
      jobs have no cancel test ahead, TEXT and DECODE jobs have one that no failure precedes. */
  predicate StartExcludes(target: JobState, kind: JobType) {
    match kind
    case TextJob => target in {Done, Failed}
    case Decode => target in {Done, Failed}
    case EncodeText => target == Done
    case EncodeFile => target == Done
    case ValidateImage => target == Canceled
    case AnalyzeCapacity => target == Canceled
    case UnknownType => target in {Done, Canceled}
  }

  lemma WorkKeepsExclusion(target: JobState, pc: Pc, job: Job, c: Choice)
    requires target != Queued && pc.HoldsJob() && !pc.SendEvent? && PcOk(pc, job)
    requires job.cancel && Excludes(target, pc, job)
    ensures var r := Work(pc, job, c); r.0.HoldsJob() && r.1.cancel && Excludes(target, r.0, r.1)
  {
  }

  /** Job `j` is flagged and not in state `target`, now or later. */
  predicate RuledOut(s: State, j: nat, target: JobState) {
    && target != Queued && j < |s.jobs| == |s.place| && s.jobs[j].cancel
    && match s.place[j]
       case WithMain => false
       case InQueue => target != Canceled
       case WithWorker(w) =>
         w < |s.pcs| && s.pcs[w].HoldsJob() && s.pcs[w].j == j && Excludes(target, s.pcs[w], s.jobs[j])
       case Retired => target != s.jobs[j].state
  }

  lemma WorkerKeepsRuledOut(s: State, w: nat, c: Choice, j: nat, target: JobState)
    requires Inv(s) && Enabled(s, WorkerStep(w, c)) && RuledOut(s, j, target)
    ensures RuledOut(DoWorker(s, w, c), j, target)
  {
    if s.pcs[w].HoldsJob() && s.pcs[w].j == j {
      HolderKeepsRuledOut(s, w, c, j, target);
    } else if PopsNow(s, w, j) {
      hide Inv, Enabled, Excludes;
      FreshlyPopped(target, j, s.jobs[j]);
    } else {
      WorkerLeavesOthers(s, w, c, j);
      hide Inv, Enabled, Excludes, DoWorker;
    }
  }

  lemma HolderKeepsRuledOut(s: State, w: nat, c: Choice, j: nat, target: JobState)
    requires Inv(s) && Enabled(s, WorkerStep(w, c)) && RuledOut(s, j, target)
    requires s.pcs[w].HoldsJob() && s.pcs[w].j == j
    ensures RuledOut(DoWorker(s, w, c), j, target)
  {
    HolderHolds(s, w, j);
    if s.pcs[w].SendEvent? {
      hide Inv, Enabled, PcOk, Work;
    } else {
      hide Inv, DoWorker, Enabled, PcOk, Work, Excludes;
      WorkKeepsExclusion(target, s.pcs[w], s.jobs[j], c);
      WorkKeepsJob(s.pcs[w], s.jobs[j], c);
      HolderWorks(s, w, c, j);
    }
  }

  lemma FreshlyPopped(target: JobState, j: nat, job: Job)
    requires target != Canceled
    ensures Excludes(target, CheckCancel(j), job)
  {
  }

  lemma OthersKeepRuledOut(s: State, a: Action, j: nat, target: JobState)
    requires Inv(s) && Enabled(s, a) && !a.WorkerStep? && RuledOut(s, j, target)
    ensures RuledOut(Do(s, a), j, target)
  {
    WithMainIsHeld(s, j);
    if s.place[j] == Retired {
      SettledIsTerminal(s.jobs[j]);
    }
    hide HistoryOk, EventsOk, FlagsOk, JobsOk, JobOk, PcOk, Excludes;
    if a.MainStep? {
      MainKeepsRuledOut(s, a.ok, a.woken, j, target);
    }
  }

  lemma MainKeepsRuledOut(s: State, ok: bool, woken: set<nat>, j: nat, target: JobState)
    requires Inv(s) && Enabled(s, MainStep(ok, woken)) && RuledOut(s, j, target)
    ensures RuledOut(DoMain(s, ok, woken), j, target)
  {
    hide JobsOk, ControlOk, Excludes, DoMain;
    MainLeavesOthers(s, ok, woken, j);
  }

  lemma {:induction false} RunKeepsRuledOut(s: State, acts: seq<Action>, j: nat, target: JobState)
    requires Inv(s) && Runs(s, acts) && RuledOut(s, j, target)
    ensures Inv(After(s, acts)) && RuledOut(After(s, acts), j, target)
    decreases |acts|
  {
    hide Inv, RuledOut, Enabled, DoMain, DoWorker;
    if acts != [] {
      StepKeepsInv(s, acts[0]);
      if acts[0].WorkerStep? {
        WorkerKeepsRuledOut(s, acts[0].w, acts[0].c, j, target);
      } else {
        OthersKeepRuledOut(s, acts[0], j, target);
      }
      RunKeepsRuledOut(Do(s, acts[0]), acts[1..], j, target);
    }
  }

  lemma RuledOutNow(s: State, j: nat, target: JobState)
    requires Inv(s) && RuledOut(s, j, target)
    ensures j < |s.jobs| && s.jobs[j].state != target
  {
    assert JobOk(s, j);
    hide HistoryOk, EventsOk, FlagsOk, QueueOk, WorkersOk, MainOk;
  }

  /** Some run from `s` leads to a state in which job `j` is in state `target`. */
  ghost predicate CanReach(s: State, j: nat, target: JobState) {
    exists acts :: Runs(s, acts) && j < |After(s, acts).jobs| && After(s, acts).jobs[j].state == target
  }

  lemma RuledOutForever(s: State, j: nat, target: JobState)
    requires Inv(s) && RuledOut(s, j, target)
    ensures !CanReach(s, j, target)
  {
    hide Inv, RuledOut;
    forall acts | Runs(s, acts)
      ensures !(j < |After(s, acts).jobs| && After(s, acts).jobs[j].state == target)
    {
      RunKeepsRuledOut(s, acts, j, target);
      RuledOutNow(After(s, acts), j, target);
    }
  }

  lemma QueuedIsRuledOut(s: State, j: nat, target: JobState)
    requires Inv(s) && Enabled(s, Cancel(j)) && j in s.queue && target != Queued && target != Canceled
    ensures Inv(Do(s, Cancel(j))) && RuledOut(Do(s, Cancel(j)), j, target)
  {
    CancelKeepsInv(s, j);
    assert s.place[j] == InQueue && s.jobs[j].state == Queued by {
      assert JobOk(s, j);
    }
    hide Inv;
  }

  /** A cancel that arrives while the job is in the queue is accepted, and in no later state of
      any run is the job RUNNING, DONE or FAILED: it can only become CANCELED. */
  lemma CancelInQueue(s: State, j: nat, acts: seq<Action>)
    requires Reachable(s) && Enabled(s, Cancel(j)) && j in s.queue && Runs(Do(s, Cancel(j)), acts)
    ensures var t := After(Do(s, Cancel(j)), acts);
      j < |t.jobs| && t.jobs[j].cancel && t.jobs[j].state in {Queued, Canceled}
  {
    ReachableInv(s);
    hide Inv, Do, Enabled;
    NeverFromTheQueue(s, j, Running, acts);
    NeverFromTheQueue(s, j, Done, acts);
    NeverFromTheQueue(s, j, Failed, acts);
  }

  lemma NeverFromTheQueue(s: State, j: nat, target: JobState, acts: seq<Action>)
    requires Inv(s) && Enabled(s, Cancel(j)) && j in s.queue && target != Queued && target != Canceled
    requires Runs(Do(s, Cancel(j)), acts)
    ensures var t := After(Do(s, Cancel(j)), acts); j < |t.jobs| && t.jobs[j].cancel && t.jobs[j].state != target
  {
    QueuedIsRuledOut(s, j, target);
    hide Inv, Do, Enabled;
    RunKeepsRuledOut(Do(s, Cancel(j)), acts, j, target);
    RuledOutNow(After(Do(s, Cancel(j)), acts), j, target);
  }

  // ----- What is not excluded can happen

  /** A choice that keeps `target` possible: operations fail only on the way to FAILED. */
  function Towards(target: JobState, job: Job): Choice {
    SomeChoice(target == Failed, job)
  }

  lemma WorkTowards(target: JobState, pc: Pc, job: Job)
    requires target != Queued && pc.HoldsJob() && PcOk(pc, job) && job.cancel
    requires !Excludes(target, pc, job) && job.state != target
    ensures !pc.SendEvent?
    ensures var r := Work(pc, job, Towards(target, job)); r.0.HoldsJob() && r.1.cancel && !Excludes(target, r.0, r.1)
  {
  }

  /** The step of job `j`'s worker towards `target`. */
  lemma StepTowards(s: State, j: nat, w: nat, target: JobState) returns (a: Action)
    requires Inv(s) && target != Queued && w < |s.pcs| && s.pcs[w].HoldsJob() && s.pcs[w].j == j < |s.jobs|
    requires s.jobs[j].cancel && !Excludes(target, s.pcs[w], s.jobs[j]) && s.jobs[j].state != target
    ensures Enabled(s, a)
    ensures var s' := Do(s, a);
      && |s'.pcs| == |s.pcs| && s'.pcs[w].HoldsJob() && s'.pcs[w].j == j < |s'.jobs| && s'.jobs[j].cancel
      && !Excludes(target, s'.pcs[w], s'.jobs[j]) && Rank(s'.pcs[w]) < Rank(s.pcs[w])
  {
    assert JobOk(s, j);
    var c := Towards(target, s.jobs[j]);
    a := WorkerStep(w, c);
    hide JobsOk, QueueOk, HistoryOk, EventsOk, FlagsOk, MainOk, Settled, NamedFor, Work, PcOk, Excludes, Plausible, Rank;
    WorkTowards(target, s.pcs[w], s.jobs[j]);
    WorkKeepsJob(s.pcs[w], s.jobs[j], c);
    WorkDecreases(s.pcs[w], s.jobs[j], c);
  }

  lemma {:induction false} NotExcludedCanHappen(s: State, j: nat, w: nat, target: JobState) returns (acts: seq<Action>)
    requires Inv(s) && target != Queued && w < |s.pcs| && s.pcs[w].HoldsJob() && s.pcs[w].j == j < |s.jobs|
    requires s.jobs[j].cancel && !Excludes(target, s.pcs[w], s.jobs[j])
    ensures Runs(s, acts) && j < |After(s, acts).jobs| && After(s, acts).jobs[j].state == target
    decreases Rank(s.pcs[w])
  {
    hide Inv, Enabled, Do, Excludes, Rank;
    acts := [];
    if s.jobs[j].state != target {
      var a := StepTowards(s, j, w, target);
      StepKeepsInv(s, a);
      var rest := NotExcludedCanHappen(Do(s, a), j, w, target);
      acts := [a] + rest;
      assert acts[1..] == rest;
    }
  }

  /** A cancel request accepted while a worker holds the job, in full: whether some run still
      takes the job to RUNNING, DONE, FAILED or CANCELED is decided by the worker's program
      counter and the job's kind alone. */
  lemma CancelDecidesExactly(s: State, j: nat, w: nat, target: JobState)
    requires Reachable(s) && Enabled(s, Cancel(j)) && w < |s.pcs| && s.pcs[w].HoldsJob() && s.pcs[w].j == j
    requires s.jobs[j].state in {Queued, Running} && target != Queued
    ensures CanReach(Do(s, Cancel(j)), j, target) <==> !Excludes(target, s.pcs[w], s.jobs[j])
  {
    ReachableInv(s);
    CancelKeepsInv(s, j);
    var s1 := Do(s, Cancel(j));
    assert s1.jobs[j].cancel && s1.place[j] == WithWorker(w) && s1.pcs == s.pcs by {
      hide JobsOk, QueueOk, HistoryOk, EventsOk, FlagsOk, MainOk;
    }
    assert Excludes(target, s1.pcs[w], s1.jobs[j]) == Excludes(target, s.pcs[w], s.jobs[j]) by {
      hide Inv;
    }
    if Excludes(target, s.pcs[w], s.jobs[j]) {
      assert RuledOut(s1, j, target) by {
        hide Excludes, JobOk, HistoryOk, EventsOk, FlagsOk, QueueOk, WorkersOk, MainOk;
      }
      hide *;
      RuledOutForever(s1, j, target);
    } else {
      hide Inv, Do, Enabled, Excludes;
      var acts := NotExcludedCanHappen(s1, j, w, target);
      assert CanReach(s1, j, target);
    }
  }

  /** Left to the workers, a job canceled in the queue becomes CANCELED. */
  lemma QueuedCanBeCanceled(s: State, j: nat) returns (acts: seq<Action>)
    requires Reachable(s) && Enabled(s, Cancel(j)) && j in s.queue
    ensures Runs(Do(s, Cancel(j)), acts) && OnlyWorkers(acts)
    ensures var t := After(Do(s, Cancel(j)), acts); j < |t.jobs| && t.jobs[j].state == Canceled
  {
    ReachableAwake(s);
    CancelKeepsInv(s, j);
    var s1 := Do(s, Cancel(j));
    assert s1.running && s1.main.Idle? && EnoughAwake(s1) && |s1.pcs| > 0 by {
      hide JobsOk, QueueOk, HistoryOk, EventsOk, WorkersOk;
    }
    hide Inv, Do, Enabled, EnoughAwake, WorkerCanStep, Runs, After;
    acts := WorkersCanFinish(s1);
    RunKeepsAwake(s1, acts);
    WorkersStopSoon(s1, acts);
    CancelInQueue(s, j, acts);
    NobodyCanStep(After(s1, acts));
  }

  /** While the job is in the queue, a cancel leaves CANCELED as the one state it can reach. */
  lemma CancelInQueueExactly(s: State, j: nat, target: JobState)
    requires Reachable(s) && Enabled(s, Cancel(j)) && j in s.queue && target != Queued
    ensures CanReach(Do(s, Cancel(j)), j, target) <==> target == Canceled
  {
    hide Inv, Do, Enabled, RuledOut;
    ReachableInv(s);
    if target == Canceled {
      var acts := QueuedCanBeCanceled(s, j);
      assert CanReach(Do(s, Cancel(j)), j, target);
    } else {
      QueuedIsRuledOut(s, j, target);
      RuledOutForever(Do(s, Cancel(j)), j, target);
    }
  }

  /** Read off by program point. A cancel before the start, or at any of the five tests of a TEXT
      job, or before a DECODE's test, leaves CANCELED as the only outcome. Before an encode's test
      the preparation may still fail first, but the job cannot complete. A VALIDATE or CAPACITY job
      that has started, and any job in its codec, can complete and fail but not be CANCELED. */
  lemma WhereCancelsDecide(s: State, j: nat, w: nat)
    requires Reachable(s) && Enabled(s, Cancel(j)) && w < |s.pcs| && s.pcs[w].HoldsJob() && s.pcs[w].j == j
    requires s.jobs[j].state in {Queued, Running}
    ensures var t := Do(s, Cancel(j)); var pc := s.pcs[w]; var kind := s.jobs[j].kind;
      && (pc.CheckCancel? ==> CanReach(t, j, Canceled) && !CanReach(t, j, Running))
      && (pc.CheckCancel? || pc.TextStep? || (pc.BeforeCodec? && kind == Decode) ==>
           CanReach(t, j, Canceled) && !CanReach(t, j, Done) && !CanReach(t, j, Failed))
      && (pc.BeforeCodec? && kind != Decode ==>
           CanReach(t, j, Canceled) && !CanReach(t, j, Done) && CanReach(t, j, Failed))
      && (pc.InCodec? || ((pc.StartRun? || pc.Dispatch?) && kind in {ValidateImage, AnalyzeCapacity}) ==>
           !CanReach(t, j, Canceled) && CanReach(t, j, Done) && CanReach(t, j, Failed))
      && (pc.PutOutput? || pc.PutMeta? ==> !CanReach(t, j, Canceled) && CanReach(t, j, Done) && !CanReach(t, j, Failed))
  {
    forall target | target != Queued
      ensures CanReach(Do(s, Cancel(j)), j, target) <==> !Excludes(target, s.pcs[w], s.jobs[j])
    {
      CancelDecidesExactly(s, j, w, target);
    }
    hide CanReach, Reachable, Do, Enabled;
  }

  // ----- A canceled job that completes

  lemma OneMore(s: State, acts: seq<Action>, a: Action) returns (more: seq<Action>)
    requires Runs(s, acts) && Enabled(After(s, acts), a)
    ensures Runs(s, more) && After(s, more) == Do(After(s, acts), a)
    decreases |acts|
  {
    hide Enabled, Do;
    if acts == [] {
      more := [a];
      assert Runs(Do(s, a), []);
    } else {
      var rest := OneMore(Do(s, acts[0]), acts[1..], a);
      more := [acts[0]] + rest;
      assert more[1..] == rest;
    }
  }

  const EXAMPLE_JOB: Job := NewJob(1, ValidateImage, Given("image.png"))

  /** A VALIDATE job can be created and pushed. */
  lemma CanBeQueued() returns (acts: seq<Action>)
    ensures Runs(Init(1), acts)
    ensures var s := After(Init(1), acts);
      && s.main.Idle? && s.jobs == [EXAMPLE_JOB] && |s.place| == 1 && s.queue == [0]
      && s.pcs == [LoopHead] && s.running && !s.stopped
  {
    acts := [];
    acts := OneMore(Init(1), acts, Submit(ValidateImage, Given("image.png")));
    hide Runs, After;
    acts := OneMore(Init(1), acts, MainStep(true, {}));
    acts := OneMore(Init(1), acts, MainStep(true, {}));
    acts := OneMore(Init(1), acts, MainStep(true, {}));
  }

  /** Its worker can take it and start it. */
  lemma CanBeStarted() returns (acts: seq<Action>)
    ensures Runs(Init(1), acts)
    ensures var s := After(Init(1), acts);
      s.main.Idle? && s.jobs == [EXAMPLE_JOB.(state := Running)] && s.pcs == [Dispatch(0)]
  {
    var c := Towards(Done, EXAMPLE_JOB);
    acts := CanBeQueued();
    hide Runs, After, Plausible;
    acts := OneMore(Init(1), acts, WorkerStep(0, c));
    acts := OneMore(Init(1), acts, WorkerStep(0, c));
    acts := OneMore(Init(1), acts, WorkerStep(0, c));
    acts := OneMore(Init(1), acts, WorkerStep(0, c));
  }

  /** A reachable state in which a cancel request is accepted for a RUNNING job that can still be DONE. */
  lemma CanceledButDone() returns (s: State)
    ensures Reachable(s) && Enabled(s, Cancel(0)) && s.jobs[0].state == Running && Do(s, Cancel(0)).jobs[0].cancel
    ensures CanReach(Do(s, Cancel(0)), 0, Done)
  {
    var acts := CanBeStarted();
    s := After(Init(1), acts);
    hide Runs, After, CanReach, Init;
    assert Reachable(s);
    WhereCancelsDecide(s, 0, 0);
  }

  /** Action `i` of the run is a cancel request for job `j` that is accepted. */
  predicate AcceptedAt(s: State, acts: seq<Action>, i: nat, j: nat)
    requires Runs(s, acts) && i < |acts|
    decreases i
  {
    if i == 0 then acts[0] == Cancel(j) && s.jobs[j].state in {Queued, Running}
    else AcceptedAt(Do(s, acts[0]), acts[1..], i - 1, j)
  }

  /** A job is CANCELED only after an accepted cancel request. */
  lemma {:induction false} CanceledWasRequested(s: State, acts: seq<Action>, j: nat)
    requires Inv(s) && Runs(s, acts) && (j < |s.jobs| ==> !s.jobs[j].cancel)
    requires j < |After(s, acts).jobs| && After(s, acts).jobs[j].state == Canceled
    ensures exists i :: 0 <= i < |acts| && AcceptedAt(s, acts, i, j)
    decreases |acts|
  {
    hide Inv, Do, Enabled, Edge;
    if acts == [] {
      CanceledHasFlag(s, j);
    } else {
      var s1 := Do(s, acts[0]);
      StepKeepsInv(s, acts[0]);
      if j < |s.jobs| {
        StepOnJob(s, acts[0], j);
      } else {
        NewJobsUnflagged(s, acts[0], j);
      }
      if j < |s1.jobs| && s1.jobs[j].cancel {
        assert AcceptedAt(s, acts, 0, j);
      } else {
        CanceledWasRequested(s1, acts[1..], j);
        var i :| 0 <= i < |acts[1..]| && AcceptedAt(s1, acts[1..], i, j);
        assert AcceptedAt(s, acts, i + 1, j);
      }
    }
  }

  lemma CanceledHasFlag(s: State, j: nat)
    requires Inv(s) && j < |s.jobs| && s.jobs[j].state == Canceled
    ensures s.jobs[j].cancel
  {
    assert JobOk(s, j);
    hide HistoryOk, EventsOk, FlagsOk, QueueOk, WorkersOk, MainOk;
  }

  lemma NewJobsUnflagged(s: State, a: Action, j: nat)
    requires Enabled(s, a) && j >= |s.jobs|
    ensures j < |Do(s, a).jobs| ==> !Do(s, a).jobs[j].cancel
  {
    hide Plausible, Work, SignalWakes, WakeSome, Broadcast;
    if a.WorkerStep? {
      hide DoMain;
    } else {
      hide DoWorker;
    }
  }
}
