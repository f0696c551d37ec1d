/** What every run of the job engine guarantees: ownership, job lifecycles, publication order,
    events, statistics, upload naming and cancellation. */
module EngineRuns {
  import opened Engine
  import opened Util
  import Decimal
  import opened EngineInvariant

  /** Some run from the initial state of a server with at least one worker ends in `s`. */
  ghost predicate Reachable(s: State) {
    exists n: nat, acts: seq<Action> :: n > 0 && Runs(Init(n), acts) && s == After(Init(n), acts)
  }

  lemma ReachableInv(s: State)
    requires Reachable(s)
    ensures Inv(s)
  {
    hide Inv;
    var n: nat, acts: seq<Action> :| n > 0 && Runs(Init(n), acts) && s == After(Init(n), acts);
    InitInv(n);
    RunKeepsInv(Init(n), acts);
  }

  // ----- Ownership

  /** Job `j` is found at `p`, judged by the program counters and the queue alone. */
  predicate Located(s: State, j: nat, p: Place)
    requires j < |s.jobs|
  {
    match p
    case WithMain => MainHolds(s.main, j)
    case InQueue => j in s.queue
    case WithWorker(w) => w < |s.pcs| && s.pcs[w].HoldsJob() && s.pcs[w].j == j
    case Retired =>
      && s.jobs[j].state.Terminal()
      && !MainHolds(s.main, j) && j !in s.queue
      && forall w :: 0 <= w < |s.pcs| && s.pcs[w].HoldsJob() ==> s.pcs[w].j != j
  }

  /** Every job is in exactly one place: held by main before it is queued, in the queue once,
      held by one worker, or finished. What is queued is in state QUEUED. */
  lemma ExactlyOnePlace(s: State, j: nat)
    requires Reachable(s) && j < |s.jobs|
    ensures exists p :: Located(s, j, p) && forall q :: Located(s, j, q) ==> q == p
    ensures j in s.queue ==> s.jobs[j].state == Queued
    ensures Distinct(s.queue)
  {
    ReachableInv(s);
    LocatedAtItsPlace(s, j);
    LocatedNowhereElse(s, j);
    if j in s.queue {
      WithMainIsHeld(s, j);
    }
    hide JobOk, PcOk, MainOk, WorkersOk, HistoryOk, EventsOk, FlagsOk;
  }

  lemma LocatedAtItsPlace(s: State, j: nat)
    requires Inv(s) && j < |s.jobs|
    ensures Located(s, j, s.place[j])
  {
    assert JobOk(s, j);
    WithMainIsHeld(s, j);
    hide PcOk, NamedFor, Settled, HistoryOk, EventsOk, FlagsOk;
    if s.place[j] == Retired {
      SettledIsTerminal(s.jobs[j]);
    }
  }

  lemma LocatedNowhereElse(s: State, j: nat)
    requires Inv(s) && j < |s.jobs|
    ensures forall q :: Located(s, j, q) ==> q == s.place[j]
  {
    LocatedAtItsPlace(s, j);
    hide JobsOk, HistoryOk, EventsOk, FlagsOk;
  }

  /** The queue is first in, first out, and loses and repeats nothing. */
  lemma FirstInFirstOut(s: State)
    requires Reachable(s)
    ensures s.pushed == s.popped + s.queue && Distinct(s.pushed)
  {
    ReachableInv(s);
    hide JobsOk, WorkersOk, QueueOk, EventsOk, FlagsOk, MainOk;
  }

  // ----- Who touches which job

  predicate PopsNow(s: State, w: nat, j: nat)
    requires w < |s.pcs|
  {
    s.pcs[w].AtQueue? && !s.stopped && s.queue != [] && s.queue[0] == j
  }

  /** A worker changes no job but the one it holds or pops. */
  lemma WorkerLeavesOthers(s: State, w: nat, c: Choice, j: nat)
    requires Inv(s) && Enabled(s, WorkerStep(w, c)) && j < |s.jobs|
    requires !(s.pcs[w].HoldsJob() && s.pcs[w].j == j) && !PopsNow(s, w, j)
    ensures var s' := DoWorker(s, w, c);
      && |s'.jobs| == |s'.place| > j && s'.jobs[j] == s.jobs[j] && s'.place[j] == s.place[j]
      && |s'.pcs| == |s.pcs|
      && (forall v :: 0 <= v < |s.pcs| && s.pcs[v].HoldsJob() && s.pcs[v].j == j ==> s'.pcs[v] == s.pcs[v])
  {
    hide JobOk, WorkersOk, HistoryOk, EventsOk, FlagsOk, MainOk, Work, Plausible;
  }

  /** What a worker does to the job it holds. */
  lemma HolderWorks(s: State, w: nat, c: Choice, j: nat)
    requires Enabled(s, WorkerStep(w, c)) && s.pcs[w].HoldsJob() && !s.pcs[w].SendEvent? && s.pcs[w].j == j
    ensures var r := Work(s.pcs[w], s.jobs[j], c);
      DoWorker(s, w, c) == s.(pcs := s.pcs[w := r.0], jobs := s.jobs[j := r.1])
  {
    hide Work, Plausible;
  }

  /** Main changes no job but its own, and no worker that holds a job. */
  lemma MainLeavesOthers(s: State, ok: bool, woken: set<nat>, j: nat)
    requires Inv(s) && Enabled(s, MainStep(ok, woken)) && j < |s.jobs| && s.place[j] != WithMain
    ensures var s' := DoMain(s, ok, woken);
      && |s'.jobs| == |s'.place| > j && s'.jobs[j] == s.jobs[j] && s'.place[j] == s.place[j]
      && |s'.pcs| == |s.pcs| && (forall w :: 0 <= w < |s.pcs| && s.pcs[w].HoldsJob() ==> s'.pcs[w] == s.pcs[w])
      && (j in s.queue ==> j in s'.queue)
  {
    MainLeavesWorkers(s, ok, woken);
    hide JobsOk, WorkersOk, QueueOk, HistoryOk, EventsOk, FlagsOk, SignalWakes;
  }

  lemma MainLeavesWorkers(s: State, ok: bool, woken: set<nat>)
    requires Enabled(s, MainStep(ok, woken))
    ensures var s' := DoMain(s, ok, woken);
      |s'.pcs| == |s.pcs| && forall w :: 0 <= w < |s.pcs| && s.pcs[w].HoldsJob() ==> s'.pcs[w] == s.pcs[w]
  {
    hide SignalWakes;
  }

  // ----- Lifecycles

  /** One step of the system seen from one job. */
  predicate JobStep(a: Action, j: nat, was: Job, now: Job) {
    && now.id == was.id && now.kind == was.kind && now.input == was.input
    && Edge(was.state, now.state)
    && (was.state == Queued && now.state == Failed ==> a.MainStep?)   // only a refused enqueue
    && (was.state.Terminal() ==> now == was)
    && (was.cancel ==> now.cancel)
    && (now.cancel && !was.cancel ==> a == Cancel(j) && was.state in {Queued, Running})
  }

  lemma WorkerStepOnJobs(s: State, w: nat, c: Choice, j: nat)
    requires Inv(s) && Enabled(s, WorkerStep(w, c)) && j < |s.jobs|
    ensures j < |DoWorker(s, w, c).jobs| && JobStep(WorkerStep(w, c), j, s.jobs[j], DoWorker(s, w, c).jobs[j])
  {
    hide QueueOk, HistoryOk, EventsOk, FlagsOk, MainOk;
    if s.pcs[w].HoldsJob() && !s.pcs[w].SendEvent? {
      var i := s.pcs[w].j;
      HolderHolds(s, w, i);
      hide JobsOk, WorkersOk, PcOk, Work, Plausible;
      WorkKeeps(s.pcs[w], s.jobs[i], c);
    } else {
      hide PcOk, Plausible, JobOk;
    }
  }

  lemma MainStepOnJobs(s: State, ok: bool, woken: set<nat>, j: nat)
    requires Inv(s) && Enabled(s, MainStep(ok, woken)) && j < |s.jobs|
    ensures j < |DoMain(s, ok, woken).jobs| && JobStep(MainStep(ok, woken), j, s.jobs[j], DoMain(s, ok, woken).jobs[j])
  {
    assert JobOk(s, j);
    WithMainIsHeld(s, j);
    hide JobOk, JobsOk, QueueOk, HistoryOk, EventsOk, FlagsOk, WorkersOk;
  }

  lemma StepOnJob(s: State, a: Action, j: nat)
    requires Inv(s) && Enabled(s, a) && j < |s.jobs|
    ensures j < |Do(s, a).jobs| && JobStep(a, j, s.jobs[j], Do(s, a).jobs[j])
  {
    hide Inv, DoWorker, DoMain;
    if a.WorkerStep? {
      WorkerStepOnJobs(s, a.w, a.c, j);
    } else if a.MainStep? {
      MainStepOnJobs(s, a.ok, a.woken, j);
    }
  }

  /** The allowed moves of a state over a whole run. */
  predicate Later(a: JobState, b: JobState) {
    a == b || a == Queued || (a == Running && b.Terminal())
  }

  /** Over any run, a job's state moves only QUEUED to RUNNING or a final state, and RUNNING to a
      final state; once final, the whole record (state, result text, output path, metadata,
      cancel flag) never changes again. */
  lemma {:induction false} Lifecycle(s: State, acts: seq<Action>, j: nat)
    requires Inv(s) && Runs(s, acts) && j < |s.jobs|
    ensures j < |After(s, acts).jobs|
    ensures var was := s.jobs[j]; var now := After(s, acts).jobs[j];
      && now.id == was.id && now.kind == was.kind && now.input == was.input
      && Later(was.state, now.state)
      && (was.state.Terminal() ==> now == was)
      && (was.cancel ==> now.cancel)
    decreases |acts|
  {
    hide Inv, Enabled, Do;
    if acts != [] {
      StepOnJob(s, acts[0], j);
      StepKeepsInv(s, acts[0]);
      Lifecycle(Do(s, acts[0]), acts[1..], j);
    }
  }

  // ----- Publication

  /** A finished job has its final result text, and an encode or decode that is DONE its output
      path and metadata. */
  lemma FinishedIsPublished(s: State, j: nat)
    requires Reachable(s) && j < |s.jobs| && s.jobs[j].state.Terminal()
    ensures s.jobs[j].result != ""
    ensures s.jobs[j].state == Done && s.jobs[j].kind.MakesOutput() ==> Published(s.jobs[j])
  {
    ReachableInv(s);
    assert JobOk(s, j);
    hide HistoryOk, EventsOk, FlagsOk, QueueOk, MainOk;
  }

  /** The worker loop's fallback for a processor that failed without setting a state is never needed. */
  lemma FallbackNeverTaken(s: State, w: nat)
    requires Reachable(s) && w < |s.pcs| && s.pcs[w].CheckFailed?
    ensures s.pcs[w].j < |s.jobs| && s.jobs[s.pcs[w].j].state == Failed
  {
    ReachableInv(s);
    assert JobOk(s, s.pcs[w].j);
    hide HistoryOk, EventsOk, FlagsOk, QueueOk, MainOk;
  }

  /** RESULT, META and DOWNLOAD read the state first and the other fields later, while workers
      run; what they read is still the record whose state they saw. */
  lemma TwoPhaseReadsAgree(s: State)
    requires Reachable(s) && s.main.ReadingFields?
    ensures s.main.j < |s.jobs| && s.jobs[s.main.j] == s.main.seen && s.main.seen.state.Terminal()
  {
    ReachableInv(s);
    hide JobsOk, HistoryOk, EventsOk, FlagsOk, QueueOk, WorkersOk;
  }

  /** A worker's event carries the state its job has then and for ever after, and no job has two events. */
  lemma EventsAreFinal(s: State, acts: seq<Action>, e: nat)
    requires Reachable(s) && Runs(s, acts) && e < |s.events|
    ensures var (j, st) := s.events[e];
      && j < |s.jobs| && st.Terminal() && j in s.popped
      && j < |After(s, acts).jobs| && After(s, acts).jobs[j].state == st
    ensures forall f :: 0 <= f < |s.events| && f != e ==> s.events[f].0 != s.events[e].0
  {
    ReachableInv(s);
    var j := s.events[e].0;
    assert JobOk(s, j);
    SettledIsTerminal(s.jobs[j]);
    EventsWerePopped(s);
    hide Inv;
    Lifecycle(s, acts, j);
  }

  predicate PoppedOk(s: State) {
    && (forall w :: 0 <= w < |s.pcs| && s.pcs[w].HoldsJob() ==> s.pcs[w].j in s.popped)
    && (forall e :: 0 <= e < |s.events| ==> s.events[e].0 in s.popped)
  }

  lemma EventsWerePopped(s: State)
    requires Reachable(s)
    ensures PoppedOk(s)
  {
    hide Inv, PoppedOk;
    var n: nat, acts: seq<Action> :| n > 0 && Runs(Init(n), acts) && s == After(Init(n), acts);
    InitPopped(n);
    RunKeepsPopped(Init(n), acts);
  }

  lemma InitPopped(n: nat)
    ensures PoppedOk(Init(n))
  {
  }

  lemma WorkerKeepsPopped(s: State, w: nat, c: Choice)
    requires PoppedOk(s) && Enabled(s, WorkerStep(w, c))
    ensures PoppedOk(DoWorker(s, w, c))
  {
    hide Plausible;
    if s.pcs[w].HoldsJob() && !s.pcs[w].SendEvent? {
      WorkKeepsJob(s.pcs[w], s.jobs[s.pcs[w].j], c);
    }
    hide Work;
  }

  lemma MainKeepsHistory(s: State, ok: bool, woken: set<nat>)
    requires Enabled(s, MainStep(ok, woken))
    ensures var s' := DoMain(s, ok, woken);
      && s'.events == s.events && s'.popped == s.popped && |s'.pcs| == |s.pcs|
      && forall w :: 0 <= w < |s.pcs| ==> s'.pcs[w] == s.pcs[w] || s'.pcs[w] == AtQueue
  {
    hide SignalWakes;
  }

  lemma StepKeepsPopped(s: State, a: Action)
    requires PoppedOk(s) && Enabled(s, a)
    ensures PoppedOk(Do(s, a))
  {
    hide DoWorker, DoMain;
    if a.WorkerStep? {
      WorkerKeepsPopped(s, a.w, a.c);
    } else if a.MainStep? {
      MainKeepsHistory(s, a.ok, a.woken);
      hide Enabled;
    } else {
      hide Plausible, SignalWakes;
    }
  }

  lemma WorkKeepsJob(pc: Pc, job: Job, c: Choice)
    requires pc.HoldsJob() && !pc.SendEvent?
    ensures Work(pc, job, c).0.HoldsJob() && Work(pc, job, c).0.j == pc.j
  {
  }

  lemma {:induction false} RunKeepsPopped(s: State, acts: seq<Action>)
    requires PoppedOk(s) && Runs(s, acts)
    ensures PoppedOk(After(s, acts))
    decreases |acts|
  {
    hide PoppedOk, Enabled, Do;
    if acts != [] {
      StepKeepsPopped(s, acts[0]);
      RunKeepsPopped(Do(s, acts[0]), acts[1..]);
    }
  }

  /** The five counters add up to the total, although workers change states while they are collected. */
  lemma StatisticsAddUp(s: State)
    requires Reachable(s) && s.main.Collecting? && s.main.i == |s.jobs|
    ensures s.main.stats.Sum() == s.main.stats.total == |s.jobs|
  {
    ReachableInv(s);
    hide JobsOk, HistoryOk, EventsOk, FlagsOk, QueueOk, WorkersOk;
  }

  // ----- Ids and upload names

  /** Ids are dense: the job at position i has id i + 1, and the next id is one more than the count. */
  lemma IdsAreDense(s: State, i: nat)
    requires Reachable(s)
    ensures s.nextId == |s.jobs| + 1 && |s.jobs| <= MAX_JOBS
    ensures i < |s.jobs| ==> s.jobs[i].id == i + 1
  {
    ReachableInv(s);
    hide HistoryOk, EventsOk, FlagsOk, QueueOk, WorkersOk, MainOk, PcOk, Settled;
    if i < |s.jobs| {
      assert JobOk(s, i);
    }
  }

  /** The id in the name of a file being uploaded. */
  function UploadId(m: Main): nat
    requires m.Receiving? || m.ReceivingExtra?
  {
    if m.Receiving? then m.png else m.extra
  }

  /** A file being uploaded is named after the id the next job will get; no existing job's upload has that name. */
  lemma UploadsAreFresh(s: State, j: nat, suffix: string)
    requires Reachable(s) && (s.main.Receiving? || s.main.ReceivingExtra?) && j < |s.jobs|
    ensures UploadId(s.main) == s.nextId == |s.jobs| + 1
    ensures s.jobs[j].input != Upload(UploadId(s.main), suffix)
    ensures s.jobs[j].stored != Upload(UploadId(s.main), suffix)
  {
    ReachableInv(s);
    assert JobOk(s, j);
    hide HistoryOk, EventsOk, FlagsOk, QueueOk, WorkersOk, PcOk, Settled;
  }

  /** On disk: the file being written has a name that no file of an existing job's upload has. */
  lemma UploadNeverOverwrites(s: State, j: nat, uploads: string, suffix: string, p: Path)
    requires Reachable(s) && (s.main.Receiving? || s.main.ReceivingExtra?) && j < |s.jobs|
    requires p.Upload? && (p == s.jobs[j].input || p == s.jobs[j].stored)
    ensures Decimal.UploadName(uploads, UploadId(s.main), suffix) != Decimal.UploadName(uploads, p.id, p.suffix)
  {
    UploadsAreFresh(s, j, p.suffix);
    hide Decimal.UploadName, Reachable;
    if Decimal.UploadName(uploads, UploadId(s.main), suffix) == Decimal.UploadName(uploads, p.id, p.suffix) {
      Decimal.UploadNamesDistinct(uploads, UploadId(s.main), suffix, p.id, p.suffix);
    }
  }

  /** Conversely, the uploads a job points to are named after its own id. */
  lemma UploadsCarryTheirJobsId(s: State, j: nat)
    requires Reachable(s) && j < |s.jobs|
    ensures NamedFor(s.jobs[j].input, s.jobs[j].id) && NamedFor(s.jobs[j].stored, s.jobs[j].id)
  {
    ReachableInv(s);
    assert JobOk(s, j);
    hide HistoryOk, EventsOk, FlagsOk, QueueOk, WorkersOk, PcOk, Settled, MainOk;
  }
}
