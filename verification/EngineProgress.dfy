/** No wake-up is lost, all queued work gets done, and shutdown terminates. */
module EngineProgress {
  import opened Engine
  import opened EngineInvariant
  import opened EngineRuns

  // ----- Sums over the workers

  function Total(pcs: seq<Pc>, f: Pc -> nat): nat
    decreases |pcs|
  {
    if pcs == [] then 0 else f(pcs[0]) + Total(pcs[1..], f)
  }

  lemma {:induction false} TotalUpdate(pcs: seq<Pc>, w: nat, pc: Pc, f: Pc -> nat)
    requires w < |pcs|
    ensures Total(pcs[w := pc], f) + f(pcs[w]) == Total(pcs, f) + f(pc)
    decreases |pcs|
  {
    if w == 0 {
      assert pcs[0 := pc][1..] == pcs[1..];
    } else {
      TotalUpdate(pcs[1..], w - 1, pc, f);
      assert pcs[w := pc][1..] == pcs[1..][w - 1 := pc];
    }
  }

  lemma {:induction false} TotalGrows(pcs: seq<Pc>, pcs': seq<Pc>, f: Pc -> nat)
    requires |pcs| == |pcs'|
    requires forall w :: 0 <= w < |pcs| ==> f(pcs[w]) <= f(pcs'[w])
    ensures Total(pcs, f) <= Total(pcs', f)
    ensures (exists w :: 0 <= w < |pcs| && f(pcs[w]) < f(pcs'[w])) ==> Total(pcs, f) < Total(pcs', f)
    decreases |pcs|
  {
    if pcs != [] {
      TotalGrows(pcs[1..], pcs'[1..], f);
      if w :| 0 <= w < |pcs| && f(pcs[w]) < f(pcs'[w]) {
        if w > 0 {
          assert f(pcs[1..][w - 1]) < f(pcs'[1..][w - 1]);
        }
      }
    }
  }

  lemma {:induction false} TotalOfOnes(pcs: seq<Pc>, f: Pc -> nat)
    requires forall w :: 0 <= w < |pcs| ==> f(pcs[w]) == 1
    ensures Total(pcs, f) == |pcs|
    decreases |pcs|
  {
    if pcs != [] {
      TotalOfOnes(pcs[1..], f);
    }
  }

  lemma {:induction false} TotalOfZeros(pcs: seq<Pc>, f: Pc -> nat)
    requires forall w :: 0 <= w < |pcs| ==> f(pcs[w]) == 0
    ensures Total(pcs, f) == 0
    decreases |pcs|
  {
    if pcs != [] {
      TotalOfZeros(pcs[1..], f);
    }
  }

  // ----- No lost wake-up

  function Awake(pc: Pc): nat {
    if pc.Asleep? || pc.Exited? then 0 else 1
  }

  /** While the server runs, as many workers are awake as there are queued jobs, up to all of them. */
  predicate EnoughAwake(s: State) {
    s.running ==> Total(s.pcs, Awake) >= |s.queue| || Total(s.pcs, Awake) == |s.pcs|
  }

  lemma InitAwake(n: nat)
    ensures EnoughAwake(Init(n))
  {
  }

  lemma WorkerKeepsAwake(s: State, w: nat, c: Choice)
    requires Inv(s) && EnoughAwake(s) && Enabled(s, WorkerStep(w, c))
    ensures EnoughAwake(DoWorker(s, w, c))
  {
    hide JobsOk, WorkersOk, QueueOk, HistoryOk, EventsOk, MainOk, Plausible;
    var s' := DoWorker(s, w, c);
    if s.pcs[w].HoldsJob() && !s.pcs[w].SendEvent? {
      WorkKeepsJob(s.pcs[w], s.jobs[s.pcs[w].j], c);
    }
    hide Work;
    TotalUpdate(s.pcs, w, s'.pcs[w], Awake);
  }

  lemma PushKeepsAwake(s: State, ok: bool, woken: set<nat>)
    requires Inv(s) && EnoughAwake(s) && Enabled(s, MainStep(ok, woken)) && s.main.Pushing? && s.running
    ensures EnoughAwake(DoMain(s, ok, woken))
  {
    hide JobsOk, WorkersOk, QueueOk, HistoryOk, EventsOk, MainOk;
    var s' := DoMain(s, ok, woken);
    if ok && !s.stopped {
      if ExistsAsleep(s.pcs) {
        var w :| 0 <= w < |s.pcs| && w in woken && s.pcs[w] == Asleep;
        assert Awake(s.pcs[w]) < Awake(s'.pcs[w]);
        TotalGrows(s.pcs, s'.pcs, Awake);
        AtMostAll(s'.pcs);
      } else {
        assert s'.pcs == s.pcs;
        TotalOfOnes(s.pcs, Awake);
      }
    }
  }

  lemma {:induction false} AtMostAll(pcs: seq<Pc>)
    ensures Total(pcs, Awake) <= |pcs|
    decreases |pcs|
  {
    if pcs != [] {
      AtMostAll(pcs[1..]);
    }
  }

  lemma MainKeepsAwake(s: State, ok: bool, woken: set<nat>)
    requires Inv(s) && EnoughAwake(s) && Enabled(s, MainStep(ok, woken))
    ensures EnoughAwake(DoMain(s, ok, woken))
  {
    assert s.main.Stopping? ==> !s.running;
    hide JobsOk, WorkersOk, QueueOk, HistoryOk, EventsOk, FlagsOk, MainOk;
    if s.main.Pushing? && s.running {
      hide EnoughAwake, DoMain;
      PushKeepsAwake(s, ok, woken);
    } else {
      hide SignalWakes;
    }
  }

  lemma StepKeepsAwake(s: State, a: Action)
    requires Inv(s) && EnoughAwake(s) && Enabled(s, a)
    ensures EnoughAwake(Do(s, a)) && |Do(s, a).pcs| == |s.pcs|
  {
    hide JobsOk, WorkersOk, QueueOk, HistoryOk, EventsOk, FlagsOk, MainOk, Plausible, Work, DoMain;
    if a.WorkerStep? {
      WorkerKeepsAwake(s, a.w, a.c);
    } else if a.Wake? {
      TotalUpdate(s.pcs, a.w, AtQueue, Awake);
      AtMostAll(Do(s, a).pcs);
    } else if a.MainStep? {
      MainKeepsHistory(s, a.ok, a.woken);
      MainKeepsAwake(s, a.ok, a.woken);
    }
  }

  lemma {:induction false} RunKeepsAwake(s: State, acts: seq<Action>)
    requires Inv(s) && EnoughAwake(s) && Runs(s, acts)
    ensures Inv(After(s, acts)) && EnoughAwake(After(s, acts)) && |After(s, acts).pcs| == |s.pcs|
    decreases |acts|
  {
    hide Inv, EnoughAwake, Enabled, Do;
    if acts != [] {
      StepKeepsInv(s, acts[0]);
      StepKeepsAwake(s, acts[0]);
      RunKeepsAwake(Do(s, acts[0]), acts[1..]);
    }
  }

  lemma ReachableAwake(s: State)
    requires Reachable(s)
    ensures Inv(s) && EnoughAwake(s) && |s.pcs| > 0
  {
    hide Inv, EnoughAwake;
    var n: nat, acts: seq<Action> :| n > 0 && Runs(Init(n), acts) && s == After(Init(n), acts);
    InitInv(n);
    InitAwake(n);
    RunKeepsAwake(Init(n), acts);
  }

  /** While the server runs, at least min(queued jobs, workers) workers are awake; so a non-empty
      queue is never left to sleepers alone, and after a stop nobody sleeps. */
  lemma NoLostWakeup(s: State)
    requires Reachable(s)
    ensures s.running ==> Total(s.pcs, Awake) >= |s.queue| || Total(s.pcs, Awake) == |s.pcs|
    ensures s.running && s.queue != [] ==> exists w :: 0 <= w < |s.pcs| && !s.pcs[w].Asleep? && !s.pcs[w].Exited?
    ensures s.stopped ==> forall w :: 0 <= w < |s.pcs| ==> !s.pcs[w].Asleep?
  {
    ReachableAwake(s);
    if s.running && s.queue != [] && forall w :: 0 <= w < |s.pcs| ==> s.pcs[w].Asleep? || s.pcs[w].Exited? {
      TotalOfZeros(s.pcs, Awake);
    }
    hide JobsOk, WorkersOk, QueueOk, HistoryOk, EventsOk, MainOk;
  }

  // ----- A measure for worker steps

  /** An upper bound on the steps a worker takes before it is next at the queue. */
  function Rank(pc: Pc): nat {
    match pc
    case Asleep => 0
    case Exited => 0
    case AtQueue => 1
    case LoopHead => 2
    case SendEvent(_, _) => 3
    case ReadState(_) => 4
    case CheckFailed(_) => 7
    case PutState(_, _, ret) => if ret.FromFallback? then 5 else 8
    case PutResult(_, _, _, ret) => if ret.FromFallback? then 6 else 9
    case PutMeta(_, _, _) => 10
    case PutOutput(_, _, _) => 11
    case InCodec(_) => 12
    case BeforeCodec(_) => 13
    case TextStep(_, step) => if step < 5 then 15 - step else 10
    case Dispatch(_) => 16
    case StartRun(_) => 17
    case CheckCancel(_) => 18
  }

  function Measure(s: State): nat {
    Total(s.pcs, Rank) + 18 * |s.queue|
  }

  lemma WorkDecreases(pc: Pc, job: Job, c: Choice)
    requires pc.HoldsJob() && !pc.SendEvent?
    ensures Rank(Work(pc, job, c).0) < Rank(pc)
  {
  }

  /** Every step of any worker decreases the measure. */
  lemma WorkerStepDecreases(s: State, w: nat, c: Choice)
    requires Enabled(s, WorkerStep(w, c))
    ensures Measure(DoWorker(s, w, c)) < Measure(s)
  {
    hide Plausible;
    var s' := DoWorker(s, w, c);
    if s.pcs[w].HoldsJob() && !s.pcs[w].SendEvent? {
      hide Rank;
      WorkDecreases(s.pcs[w], s.jobs[s.pcs[w].j], c);
      hide Work;
      TotalUpdate(s.pcs, w, s'.pcs[w], Rank);
    } else {
      TotalUpdate(s.pcs, w, s'.pcs[w], Rank);
    }
  }

  predicate OnlyWorkers(acts: seq<Action>) {
    forall i :: 0 <= i < |acts| ==> acts[i].WorkerStep?
  }

  lemma {:induction false} WorkersStopSoon(s: State, acts: seq<Action>)
    requires Runs(s, acts) && OnlyWorkers(acts)
    ensures |acts| <= Measure(s)
    ensures After(s, acts).running == s.running && After(s, acts).main == s.main
    decreases |acts|
  {
    hide Measure, Enabled, DoWorker;
    if acts != [] {
      WorkerStepDecreases(s, acts[0].w, acts[0].c);
      WorkerLeavesMain(s, acts[0].w, acts[0].c);
      WorkersStopSoon(Do(s, acts[0]), acts[1..]);
    }
  }

  lemma WorkerLeavesMain(s: State, w: nat, c: Choice)
    requires Enabled(s, WorkerStep(w, c))
    ensures DoWorker(s, w, c).running == s.running && DoWorker(s, w, c).main == s.main
  {
    hide Plausible, Work;
  }

  ghost predicate WorkerCanStep(s: State, w: nat) {
    exists c :: Enabled(s, WorkerStep(w, c))
  }

  /** A worker is only ever stuck in the condition wait or at its end. */
  lemma AwakeCanStep(s: State, w: nat)
    requires Inv(s) && w < |s.pcs|
    ensures WorkerCanStep(s, w) <==> !s.pcs[w].Asleep? && !s.pcs[w].Exited?
  {
    if !s.pcs[w].Asleep? && !s.pcs[w].Exited? {
      var job := if s.pcs[w].HoldsJob() then s.jobs[s.pcs[w].j] else NewJob(0, UnknownType, NoPath);
      var c := SomeChoice(false, job);
      hide Plausible, JobsOk, HistoryOk, EventsOk, FlagsOk, MainOk;
      assert Enabled(s, WorkerStep(w, c));
    }
  }

  /** Left alone, the workers finish all queued work: while the server runs and main is in its
      poll loop, any sequence of worker steps is bounded, and when no worker can step any more the
      queue is empty and every job is DONE, FAILED or CANCELED. */
  lemma AllWorkGetsDone(s: State, acts: seq<Action>)
    requires Reachable(s) && s.running && s.main.Idle?
    requires Runs(s, acts) && OnlyWorkers(acts)
    ensures |acts| <= Measure(s)
    ensures var t := After(s, acts);
      (forall w: nat :: w < |t.pcs| ==> !WorkerCanStep(t, w)) ==>
      t.queue == [] && forall j :: 0 <= j < |t.jobs| ==> t.jobs[j].state.Terminal()
  {
    ReachableAwake(s);
    WorkersStopSoon(s, acts);
    RunKeepsAwake(s, acts);
    var t := After(s, acts);
    hide Reachable, After, Runs, Measure, WorkerCanStep;
    if forall w: nat :: w < |t.pcs| ==> !WorkerCanStep(t, w) {
      NobodyCanStep(t);
    }
  }

  lemma NobodyCanStep(t: State)
    requires Inv(t) && EnoughAwake(t) && t.running && t.main.Idle? && |t.pcs| > 0
    requires forall w: nat :: w < |t.pcs| ==> !WorkerCanStep(t, w)
    ensures t.queue == [] && forall j :: 0 <= j < |t.jobs| ==> t.jobs[j].state.Terminal()
  {
    hide WorkerCanStep;
    forall w: nat | w < |t.pcs|
      ensures t.pcs[w].Asleep? || t.pcs[w].Exited?
    {
      AwakeCanStep(t, w);
    }
    TotalOfZeros(t.pcs, Awake);
    forall j | 0 <= j < |t.jobs|
      ensures t.jobs[j].state.Terminal()
    {
      assert JobOk(t, j);
      hide PcOk, Settled, NamedFor;
      SettledIsTerminal(t.jobs[j]);
    }
  }

  /** The workers alone can bring the system to a state in which none of them can step. */
  lemma {:induction false} WorkersCanFinish(s: State) returns (acts: seq<Action>)
    requires Inv(s)
    ensures Runs(s, acts) && OnlyWorkers(acts)
    ensures forall w: nat :: w < |After(s, acts).pcs| ==> !WorkerCanStep(After(s, acts), w)
    decreases Measure(s)
  {
    hide Inv, Measure, Enabled, DoWorker, WorkerCanStep;
    acts := [];
    if w: nat :| w < |s.pcs| && WorkerCanStep(s, w) {
      var c := ChoiceToStep(s, w);
      StepKeepsInv(s, WorkerStep(w, c));
      WorkerStepDecreases(s, w, c);
      var rest := WorkersCanFinish(DoWorker(s, w, c));
      acts := [WorkerStep(w, c)] + rest;
      assert acts[1..] == rest;
    }
  }

  lemma ChoiceToStep(s: State, w: nat) returns (c: Choice)
    requires WorkerCanStep(s, w)
    ensures Enabled(s, WorkerStep(w, c))
  {
    hide Enabled;
    c :| Enabled(s, WorkerStep(w, c));
  }

  // ----- Shutdown

  /** After a stop: the workers' remaining steps plus the remaining joins. */
  function ShutdownMeasure(s: State): nat {
    Measure(s) + match s.main
                 case Joining(k) => if k <= |s.pcs| then |s.pcs| - k + 1 else 1
                 case _ => 0
  }

  lemma ShutdownStepDecreases(s: State, a: Action)
    requires Inv(s) && s.stopped && Enabled(s, a)
    ensures ShutdownMeasure(Do(s, a)) < ShutdownMeasure(s) && Do(s, a).stopped
  {
    hide JobsOk, WorkersOk, QueueOk, HistoryOk, EventsOk, Plausible, Work, Rank;
    if a.WorkerStep? {
      WorkerStepDecreases(s, a.w, a.c);
      WorkerLeavesMain(s, a.w, a.c);
    }
  }

  ghost predicate CanStep(s: State) {
    exists a :: Enabled(s, a)
  }

  lemma ShutdownIsNotStuck(s: State)
    requires Inv(s) && s.stopped && !s.main.Finished?
    ensures CanStep(s)
  {
    if w: nat :| w < |s.pcs| && !s.pcs[w].Exited? {
      AwakeCanStep(s, w);
      var c :| Enabled(s, WorkerStep(w, c));
    } else {
      hide JobsOk, WorkersOk, QueueOk, HistoryOk, EventsOk;
      assert Enabled(s, MainStep(true, {}));
    }
  }

  /** After job_queue_stop every run is bounded, and a run that cannot go on has joined every
      worker: all have exited, none holds a job, and each job is finished or was still queued. */
  lemma {:induction false} ShutdownTerminates(s: State, acts: seq<Action>)
    requires Inv(s) && s.stopped && Runs(s, acts)
    ensures |acts| <= ShutdownMeasure(s)
    ensures var t := After(s, acts);
      !CanStep(t) ==>
        && t.main.Finished?
        && (forall w :: 0 <= w < |t.pcs| ==> t.pcs[w].Exited?)
        && (forall j :: 0 <= j < |t.jobs| ==> t.jobs[j].state.Terminal() || j in t.queue)
    decreases |acts|
  {
    hide Inv, Enabled, Do, ShutdownMeasure, CanStep;
    if acts == [] {
      if !CanStep(s) {
        if !s.main.Finished? {
          ShutdownIsNotStuck(s);
        }
        AtTheEnd(s);
      }
    } else {
      ShutdownStepDecreases(s, acts[0]);
      StepKeepsInv(s, acts[0]);
      ShutdownTerminates(Do(s, acts[0]), acts[1..]);
    }
  }

  /** A shutdown stops the queue: until main takes its next step it is about to, and from then on
      the queue is stopped, whatever else happens. */
  lemma {:induction false} ShutdownStops(s: State, acts: seq<Action>)
    requires Reachable(s) && Enabled(s, Shutdown) && Runs(Do(s, Shutdown), acts)
    ensures var t := After(Do(s, Shutdown), acts);
      && !t.running
      && if exists i :: 0 <= i < |acts| && acts[i].MainStep? then t.stopped
         else t.main.Stopping? && Enabled(t, MainStep(true, {})) && Do(t, MainStep(true, {})).stopped
  {
    ReachableInv(s);
    StepKeepsInv(s, Shutdown);
    StoppingRun(Do(s, Shutdown), acts);
    hide Inv, Runs, After, Reachable;
  }

  lemma {:induction false} StoppingRun(s: State, acts: seq<Action>)
    requires Inv(s) && Runs(s, acts) && !s.running && (s.stopped || s.main.Stopping?)
    ensures var t := After(s, acts);
      && !t.running
      && if s.stopped || exists i :: 0 <= i < |acts| && acts[i].MainStep? then t.stopped else t.main.Stopping?
    decreases |acts|
  {
    hide Inv, Enabled, Do;
    if acts != [] {
      StoppingStep(s, acts[0]);
      StepKeepsInv(s, acts[0]);
      StoppingRun(Do(s, acts[0]), acts[1..]);
      assert forall i :: 0 < i < |acts| ==> acts[i] == acts[1..][i - 1];
      assert forall i :: 0 <= i < |acts| - 1 ==> acts[1..][i] == acts[i + 1];
    }
  }

  lemma StoppingStep(s: State, a: Action)
    requires Inv(s) && Enabled(s, a) && !s.running && (s.stopped || s.main.Stopping?)
    ensures var s' := Do(s, a);
      && !s'.running && s'.stopped == (s.stopped || a.MainStep?) && (!s'.stopped ==> s'.main.Stopping?)
  {
    hide JobsOk, WorkersOk, QueueOk, HistoryOk, EventsOk, MainOk, Work, Plausible, SignalWakes;
  }

  lemma AtTheEnd(s: State)
    requires Inv(s) && s.main.Finished?
    ensures forall w :: 0 <= w < |s.pcs| ==> s.pcs[w].Exited?
    ensures forall j :: 0 <= j < |s.jobs| ==> s.jobs[j].state.Terminal() || j in s.queue
  {
    forall j | 0 <= j < |s.jobs|
      ensures s.jobs[j].state.Terminal() || j in s.queue
    {
      assert JobOk(s, j);
      hide PcOk, Settled, NamedFor;
      if s.place[j] == Retired {
        SettledIsTerminal(s.jobs[j]);
      }
    }
  }
}
