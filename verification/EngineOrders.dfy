/** What becomes of the main thread's commands: the jobs that uploads and submissions make, what
    RESULT, META and DOWNLOAD read, and what STATS counts. */
module EngineOrders {
  import opened Engine
  import opened EngineInvariant
  import opened EngineRuns
  import opened EngineProgress
  import JobTable

  /** No new command is begun: main goes on with the one it has, workers do as they like. */
  predicate Undisturbed(acts: seq<Action>) {
    forall i :: 0 <= i < |acts| ==> acts[i].WorkerStep? || acts[i].Wake? || acts[i].MainStep?
  }

  /** How main's own steps go, in order. */
  function MainOks(acts: seq<Action>): seq<bool>
    decreases |acts|
  {
    if acts == [] then []
    else (if acts[0].MainStep? then [acts[0].ok] else []) + MainOks(acts[1..])
  }

  // ----- From a command to its job

  /** The job a command asks for, and after how many successful steps of main it exists: one to
      create it, one for each file that is received before. */
  datatype Plan = Plan(id: nat, kind: JobType, input: Path, stored: Path, steps: nat)

  function PlanOf(a: Action, id: nat): Plan
    requires a.Submit? || a.BeginUpload?
  {
    if a.Submit? then Plan(id, a.kind, a.input, NoPath, 1)
    else
      match a.kind
      case EncodeText => Plan(id, a.kind, Upload(id, "png"), Upload(id, "txt"), 3)
      case EncodeFile => Plan(id, a.kind, Upload(id, "png"), Upload(id, "data"), 3)
      case _ => Plan(id, a.kind, Upload(id, "png"), NoPath, 2)
  }

  predicate MadeFor(p: Plan, job: Job) {
    job.id == p.id && job.kind == p.kind && job.input == p.input
  }

  /** All the steps up to the creation have gone well so far. */
  predicate Going(p: Plan, oks: seq<bool>) {
    && (forall i :: 0 <= i < |oks| && i < p.steps ==> oks[i])
    && (|oks| >= p.steps ==> p.id <= MAX_JOBS)
  }

  /** Where main is with a plan after steps that went as `oks` says. */
  predicate OnPlan(s: State, p: Plan, oks: seq<bool>) {
    0 < p.id && 0 < p.steps <= 3 &&
    if !Going(p, oks) then s.main.Idle? && |s.jobs| == p.id - 1
    else if |oks| < p.steps then
      && |s.jobs| == p.id - 1
      && s.main == (if |oks| == p.steps - 1 then Creating(p.kind, p.input, p.stored)
                    else if |oks| == 0 then Receiving(p.kind, p.id) else ReceivingExtra(p.kind, p.id, p.id))
    else
      var j, m := p.id - 1, |oks| - p.steps;
      && |s.jobs| == p.id && MadeFor(p, s.jobs[j])
      && (m == 0 ==> s.main == Created(j, p.stored) && s.jobs[j].stored == NoPath)
      && (m == 1 ==> s.main == Pushing(j))
      && (m >= 1 ==> s.jobs[j].stored == p.stored)
      && (m >= 2 && oks[p.steps + 1] ==> m == 2 && s.main.Idle? && j in s.pushed)
      && (m >= 2 && !oks[p.steps + 1] ==>
           && m <= 4 && j !in s.pushed
           && (m == 2 ==> s.main == PushFailedResult(j))
           && (m >= 3 ==> s.jobs[j].result == "enqueue failed")
           && (m == 3 ==> s.main == PushFailedState(j))
           && (m == 4 ==> s.main.Idle? && s.jobs[j].state == Failed))
  }

  predicate FitsPlan(p: Plan) {
    || p.steps == 1
    || (p.steps == 2 && p.input == Upload(p.id, "png") && p.stored == NoPath && !NeedsExtra(p.kind))
    || (p.steps == 3 && p.input == Upload(p.id, "png") && NeedsExtra(p.kind)
        && p.stored == Upload(p.id, if p.kind.EncodeText? then "txt" else "data"))
  }

  /** What every step leaves of a job that has been created. */
  lemma StepKeepsOrder(s: State, a: Action, j: nat)
    requires Inv(s) && Enabled(s, a) && j < |s.jobs| && !(s.main.Created? && s.main.j == j && a.MainStep?)
    ensures var was, s' := s.jobs[j], Do(s, a);
      && j < |s'.jobs| && s'.jobs[j].id == was.id && s'.jobs[j].kind == was.kind && s'.jobs[j].input == was.input
      && s'.jobs[j].stored == was.stored
  {
    StepOnJob(s, a, j);
    StepKeepsStored(s, a, j);
    hide Inv, Enabled, Do;
  }

  lemma StepKeepsStored(s: State, a: Action, j: nat)
    requires Inv(s) && Enabled(s, a) && j < |s.jobs| && !(s.main.Created? && s.main.j == j && a.MainStep?)
    ensures j < |Do(s, a).jobs| && Do(s, a).jobs[j].stored == s.jobs[j].stored
  {
    if a.WorkerStep? {
      WorkerKeepsStored(s, a.w, a.c, j);
    } else {
      hide Inv, DoWorker, SignalWakes, WakeSome, Broadcast;
    }
  }

  lemma WorkerKeepsStored(s: State, w: nat, c: Choice, j: nat)
    requires Enabled(s, WorkerStep(w, c)) && j < |s.jobs|
    ensures |DoWorker(s, w, c).jobs| == |s.jobs| && DoWorker(s, w, c).jobs[j].stored == s.jobs[j].stored
  {
    if s.pcs[w].HoldsJob() && !s.pcs[w].SendEvent? {
      WorkKeepsStored(s.pcs[w], s.jobs[s.pcs[w].j], c);
    }
    hide Work, Plausible;
  }

  lemma WorkKeepsStored(pc: Pc, job: Job, c: Choice)
    requires pc.HoldsJob() && !pc.SendEvent?
    ensures Work(pc, job, c).1.stored == job.stored
  {
  }

  /** Workers do not touch a job that main holds or that is finished, nor what has been pushed. */
  lemma WorkersLeave(s: State, a: Action, j: nat)
    requires Inv(s) && Enabled(s, a) && (a.WorkerStep? || a.Wake?)
    ensures var s' := Do(s, a); s'.main == s.main && s'.pushed == s.pushed && |s'.jobs| == |s.jobs|
    ensures j < |s.jobs| && (s.place[j] == WithMain || s.jobs[j].state.Terminal()) ==> Do(s, a).jobs[j] == s.jobs[j]
  {
    if j < |s.jobs| {
      StepOnJob(s, a, j);
    }
    if a.WorkerStep? {
      if j < |s.jobs| && s.place[j] == WithMain {
        NotTouched(s, a.w, j);
        WorkerLeavesOthers(s, a.w, a.c, j);
      }
      hide Inv, Work, Plausible;
    }
  }

  lemma NotTouched(s: State, w: nat, j: nat)
    requires Inv(s) && w < |s.pcs| && j < |s.jobs| && s.place[j] == WithMain
    ensures !PopsNow(s, w, j) && !(s.pcs[w].HoldsJob() && s.pcs[w].j == j)
  {
    hide JobsOk, HistoryOk, EventsOk, FlagsOk, MainOk;
  }

  lemma WorkersKeepPlan(s: State, a: Action, p: Plan, oks: seq<bool>)
    requires Inv(s) && Enabled(s, a) && (a.WorkerStep? || a.Wake?) && OnPlan(s, p, oks)
    ensures OnPlan(Do(s, a), p, oks)
  {
    WorkersLeave(s, a, p.id - 1);
    if |s.jobs| == p.id {
      StepKeepsOrder(s, a, p.id - 1);
      HeldByMain(s, p.id - 1);
    }
    hide Inv, Enabled, Do, Going;
  }

  lemma HeldByMain(s: State, j: nat)
    requires Inv(s) && j < |s.jobs|
    ensures MainHolds(s.main, j) ==> s.place[j] == WithMain && j !in s.pushed
    ensures s.main.Idle? ==> !s.stopped
  {
    hide JobOk, WorkersOk, QueueOk, EventsOk;
  }

  lemma MainKeepsPlan(s: State, ok: bool, woken: set<nat>, p: Plan, oks: seq<bool>)
    requires Inv(s) && Enabled(s, MainStep(ok, woken)) && OnPlan(s, p, oks) && FitsPlan(p)
    ensures OnPlan(Do(s, MainStep(ok, woken)), p, oks + [ok])
  {
    MainFacts(s);
    if |s.jobs| == p.id {
      HeldByMain(s, p.id - 1);
    }
    hide Inv, SignalWakes, WakeSome, Broadcast;
    assert forall i :: 0 <= i < |oks| ==> (oks + [ok])[i] == oks[i];
    assert (oks + [ok])[|oks|] == ok;
  }

  lemma MainFacts(s: State)
    requires Inv(s)
    ensures s.nextId == |s.jobs| + 1
    ensures s.main.Pushing? ==> !s.stopped
  {
    hide JobOk, WorkersOk, QueueOk, HistoryOk, EventsOk, MainOk;
  }

  lemma {:induction false} RunKeepsPlan(s: State, acts: seq<Action>, p: Plan, oks: seq<bool>)
    requires Inv(s) && Runs(s, acts) && Undisturbed(acts) && OnPlan(s, p, oks) && FitsPlan(p)
    ensures OnPlan(After(s, acts), p, oks + MainOks(acts))
    decreases |acts|
  {
    hide Inv, OnPlan, Enabled, Do, FitsPlan;
    if acts == [] {
      assert oks + [] == oks;
    } else {
      StepKeepsInv(s, acts[0]);
      if acts[0].MainStep? {
        MainKeepsPlan(s, acts[0].ok, acts[0].woken, p, oks);
        RunKeepsPlan(Do(s, acts[0]), acts[1..], p, oks + [acts[0].ok]);
        assert oks + [acts[0].ok] + MainOks(acts[1..]) == oks + MainOks(acts);
      } else {
        WorkersKeepPlan(s, acts[0], p, oks);
        RunKeepsPlan(Do(s, acts[0]), acts[1..], p, oks);
        assert MainOks(acts) == MainOks(acts[1..]);
      }
    }
  }

  lemma PlanBegins(s: State, a: Action)
    requires Inv(s) && (a.Submit? || a.BeginUpload?) && Enabled(s, a)
    ensures OnPlan(Do(s, a), PlanOf(a, s.nextId), []) && FitsPlan(PlanOf(a, s.nextId))
  {
    MainFacts(s);
    hide Inv;
  }

  /** What a submission or upload command comes to, whatever the workers do meanwhile. Its files are
      received and its job created in one, two or three steps of main. If one of them fails, or the
      table is full, no job is made. Otherwise the new job has the next id and the kind and input
      asked for: a given path, or the uploaded PNG under that id; then its second file, the text or
      data uploaded under the same id, if it has one; and then it is pushed, or else it is FAILED
      with the result "enqueue failed". */
  lemma OrderIsCarriedOut(s: State, a: Action, acts: seq<Action>)
    requires Reachable(s) && (a.Submit? || a.BeginUpload?) && Enabled(s, a)
    requires Runs(Do(s, a), acts) && Undisturbed(acts)
    ensures var j, id := |s.jobs|, s.nextId; var t := After(Do(s, a), acts); var oks := MainOks(acts);
      var upload := a.BeginUpload?; var two := upload && a.kind in {EncodeText, EncodeFile};
      var steps := if two then 3 else if upload then 2 else 1;
      if (exists i :: 0 <= i < |oks| && i < steps && !oks[i]) || (|oks| >= steps && j >= 1024)
      then t.main.Idle? && |t.jobs| == j
      else if |oks| < steps then !t.main.Idle? && |t.jobs| == j
      else
        && |t.jobs| == j + 1 && t.jobs[j].id == id && t.jobs[j].kind == a.kind
        && t.jobs[j].input == (if upload then Upload(id, "png") else a.input)
        && (|oks| > steps ==>
             t.jobs[j].stored == if two then Upload(id, if a.kind == EncodeText then "txt" else "data") else NoPath)
        && (|oks| > steps + 1 ==> (j in t.pushed <==> oks[steps + 1]))
        && (|oks| > steps + 1 && oks[steps + 1] ==> t.main.Idle?)
        && (|oks| > steps + 3 ==> t.main.Idle? && t.jobs[j].state == Failed && t.jobs[j].result == "enqueue failed")
  {
    hide Inv, Enabled, Do, Runs, After, MainOks, Reachable, FitsPlan, OnPlan;
    ReachableInv(s);
    var p := PlanOf(a, s.nextId);
    PlanBegins(s, a);
    StepKeepsInv(s, a);
    MainFacts(s);
    RunKeepsPlan(Do(s, a), acts, p, []);
    assert [] + MainOks(acts) == MainOks(acts);
    PlanOutcome(After(Do(s, a), acts), a, |s.jobs|, MainOks(acts));
  }

  lemma PlanOutcome(t: State, a: Action, j: nat, oks: seq<bool>)
    requires (a.Submit? || a.BeginUpload?) && OnPlan(t, PlanOf(a, j + 1), oks)
    ensures var id := j + 1;
      var upload := a.BeginUpload?; var two := upload && a.kind in {EncodeText, EncodeFile};
      var steps := if two then 3 else if upload then 2 else 1;
      if (exists i :: 0 <= i < |oks| && i < steps && !oks[i]) || (|oks| >= steps && j >= 1024)
      then t.main.Idle? && |t.jobs| == j
      else if |oks| < steps then !t.main.Idle? && |t.jobs| == j
      else
        && |t.jobs| == j + 1 && t.jobs[j].id == id && t.jobs[j].kind == a.kind
        && t.jobs[j].input == (if upload then Upload(id, "png") else a.input)
        && (|oks| > steps ==>
             t.jobs[j].stored == if two then Upload(id, if a.kind == EncodeText then "txt" else "data") else NoPath)
        && (|oks| > steps + 1 ==> (j in t.pushed <==> oks[steps + 1]))
        && (|oks| > steps + 1 && oks[steps + 1] ==> t.main.Idle?)
        && (|oks| > steps + 3 ==> t.main.Idle? && t.jobs[j].state == Failed && t.jobs[j].result == "enqueue failed")
  {
  }

  /** Once main has moved on, a job's id, kind, input and second file never change. */
  lemma {:induction false} OrderStands(s: State, acts: seq<Action>, j: nat)
    requires Inv(s) && Runs(s, acts) && j < |s.jobs| && !(s.main.Created? && s.main.j == j)
    ensures var was, t := s.jobs[j], After(s, acts);
      && j < |t.jobs| && t.jobs[j].id == was.id && t.jobs[j].kind == was.kind && t.jobs[j].input == was.input
      && t.jobs[j].stored == was.stored
    decreases |acts|
  {
    hide Inv, Enabled, Do;
    if acts != [] {
      StepKeepsOrder(s, acts[0], j);
      StepKeepsInv(s, acts[0]);
      NotCreatedAgain(s, acts[0], j);
      OrderStands(Do(s, acts[0]), acts[1..], j);
    }
  }

  lemma NotCreatedAgain(s: State, a: Action, j: nat)
    requires Enabled(s, a) && j < |s.jobs| && !(s.main.Created? && s.main.j == j)
    ensures !(Do(s, a).main.Created? && Do(s, a).main.j == j)
  {
    if a.WorkerStep? {
      WorkerLeavesMain(s, a.w, a.c);
    }
    hide DoWorker, SignalWakes, WakeSome, Broadcast;
  }

  /** An uploaded input is a PNG; an uploaded second file is the text of an ENCODE_TEXT job or the
      data of an ENCODE_FILE job. */
  predicate FilesFit(kind: JobType, input: Path, stored: Path) {
    && (input.Upload? ==> input.suffix == "png")
    && (stored.Upload? ==> (kind == EncodeText && stored.suffix == "txt") || (kind == EncodeFile && stored.suffix == "data"))
  }

  predicate JobFilesOk(s: State) {
    forall j :: 0 <= j < |s.jobs| ==> FilesFit(s.jobs[j].kind, s.jobs[j].input, s.jobs[j].stored)
  }

  predicate MainFilesOk(s: State) {
    match s.main
    case ReceivingExtra(kind, _, _) => NeedsExtra(kind)
    case Creating(kind, input, stored) => FilesFit(kind, input, stored)
    case Created(j, stored) => j < |s.jobs| && FilesFit(s.jobs[j].kind, s.jobs[j].input, stored)
    case _ => true
  }

  predicate FilesOk(s: State) {
    JobFilesOk(s) && MainFilesOk(s)
  }

  lemma WorkerKeepsFiles(s: State, w: nat, c: Choice)
    requires FilesOk(s) && Enabled(s, WorkerStep(w, c))
    ensures FilesOk(DoWorker(s, w, c))
  {
    WorkerLeavesMain(s, w, c);
    var s' := DoWorker(s, w, c);
    forall j | 0 <= j < |s.jobs|
      ensures |s'.jobs| == |s.jobs| && s'.jobs[j].kind == s.jobs[j].kind && s'.jobs[j].input == s.jobs[j].input
      ensures s'.jobs[j].stored == s.jobs[j].stored
    {
      WorkerKeepsStored(s, w, c, j);
      if s.pcs[w].HoldsJob() && !s.pcs[w].SendEvent? {
        WorkKeepsKind(s.pcs[w], s.jobs[s.pcs[w].j], c);
      }
      hide Work, Plausible;
    }
    NoFewerJobs(s, w, c);
    hide DoWorker, FilesFit, Enabled;
  }

  lemma NoFewerJobs(s: State, w: nat, c: Choice)
    requires Enabled(s, WorkerStep(w, c))
    ensures |DoWorker(s, w, c).jobs| == |s.jobs|
  {
    hide Work, Plausible;
  }

  lemma WorkKeepsKind(pc: Pc, job: Job, c: Choice)
    requires pc.HoldsJob() && !pc.SendEvent?
    ensures Work(pc, job, c).1.kind == job.kind && Work(pc, job, c).1.input == job.input
  {
  }

  lemma MainKeepsMainFiles(s: State, ok: bool, woken: set<nat>)
    requires FilesOk(s) && Enabled(s, MainStep(ok, woken))
    ensures MainFilesOk(DoMain(s, ok, woken))
  {
    hide JobFilesOk, SignalWakes, WakeSome, Broadcast;
  }

  lemma MainKeepsJobFiles(s: State, ok: bool, woken: set<nat>)
    requires FilesOk(s) && Enabled(s, MainStep(ok, woken))
    ensures JobFilesOk(DoMain(s, ok, woken))
  {
    hide SignalWakes, WakeSome, Broadcast;
    if s.main.Creating? {
      NoSecondFile(s.main.kind, s.main.input, s.main.stored);
    }
    hide FilesFit;
  }

  lemma NoSecondFile(kind: JobType, input: Path, stored: Path)
    requires FilesFit(kind, input, stored)
    ensures FilesFit(kind, input, NoPath)
  {
  }

  lemma StepKeepsFiles(s: State, a: Action)
    requires FilesOk(s) && Enabled(s, a)
    ensures FilesOk(Do(s, a))
  {
    hide DoWorker, DoMain, SignalWakes;
    if a.WorkerStep? {
      WorkerKeepsFiles(s, a.w, a.c);
    } else if a.MainStep? {
      MainKeepsMainFiles(s, a.ok, a.woken);
      MainKeepsJobFiles(s, a.ok, a.woken);
    }
  }

  lemma {:induction false} RunKeepsFiles(s: State, acts: seq<Action>)
    requires FilesOk(s) && Runs(s, acts)
    ensures FilesOk(After(s, acts))
    decreases |acts|
  {
    hide FilesOk, Enabled, Do;
    if acts != [] {
      StepKeepsFiles(s, acts[0]);
      RunKeepsFiles(Do(s, acts[0]), acts[1..]);
    }
  }

  /** In every reachable state, a job's uploaded files are its own: an uploaded input is the PNG
      under the job's id, an uploaded second file the text or data under it, as its kind needs. */
  lemma FilesAreInPlace(s: State, j: nat)
    requires Reachable(s) && j < |s.jobs|
    ensures var job := s.jobs[j];
      && (job.input.Upload? ==> job.input == Upload(job.id, "png"))
      && (job.stored.Upload? ==>
           || (job.kind == EncodeText && job.stored == Upload(job.id, "txt"))
           || (job.kind == EncodeFile && job.stored == Upload(job.id, "data")))
  {
    hide Inv, Runs, After;
    UploadsCarryTheirJobsId(s, j);
    var n: nat, acts: seq<Action> :| n > 0 && Runs(Init(n), acts) && s == After(Init(n), acts);
    assert FilesOk(Init(n));
    RunKeepsFiles(Init(n), acts);
  }

  // ----- RESULT, META and DOWNLOAD

  predicate MainWaits(acts: seq<Action>) {
    forall i :: 0 <= i < |acts| ==> acts[i].WorkerStep? || acts[i].Wake?
  }

  /** A read command reads exactly the job it names, and exactly when that is finished (META and
      DOWNLOAD: DONE); what it reads, however long the workers run before, is the finished record. */
  lemma {:induction false} ReadIsOfTheJob(s: State, j: nat, doneOnly: bool, acts: seq<Action>)
    requires Reachable(s) && Enabled(s, BeginRead(j, doneOnly))
    requires Runs(Do(s, BeginRead(j, doneOnly)), acts) && MainWaits(acts)
    ensures var t := After(Do(s, BeginRead(j, doneOnly)), acts); var job := s.jobs[j];
      if job.state == Done || (job.state in {Failed, Canceled} && !doneOnly)
      then t.main == ReadingFields(j, job) && j < |t.jobs| && t.jobs[j] == job
      else t.main.Idle?
  {
    ReachableInv(s);
    var s1 := Do(s, BeginRead(j, doneOnly));
    StepKeepsInv(s, BeginRead(j, doneOnly));
    WaitingMainStays(s1, acts);
    Lifecycle(s1, acts, j);
    hide Inv, Runs, After, Reachable;
  }

  lemma {:induction false} WaitingMainStays(s: State, acts: seq<Action>)
    requires Runs(s, acts) && MainWaits(acts)
    ensures After(s, acts).main == s.main
    decreases |acts|
  {
    hide Enabled, DoWorker;
    if acts != [] {
      if acts[0].WorkerStep? {
        WorkerLeavesMain(s, acts[0].w, acts[0].c);
      }
      WaitingMainStays(Do(s, acts[0]), acts[1..]);
    }
  }

  // ----- STATS

  /** The state of job `i` after the first `k` actions. */
  function StateAt(s: State, acts: seq<Action>, k: nat, i: nat): JobState
    requires Runs(s, acts) && k <= |acts|
    requires i < |s.jobs|
    decreases k
  {
    if k == 0 then s.jobs[i].state
    else if i < |Do(s, acts[0]).jobs| then StateAt(Do(s, acts[0]), acts[1..], k - 1, i)
    else Queued
  }

  /** Each of the states in `seen` is one that its job had at some moment of the run. */
  predicate SeenDuring(s: State, acts: seq<Action>, seen: seq<JobState>, from: nat)
    requires Runs(s, acts) && |seen| <= |s.jobs|
  {
    forall i :: from <= i < |seen| ==> HadState(s, acts, i, seen[i])
  }

  predicate HadState(s: State, acts: seq<Action>, i: nat, st: JobState)
    requires Runs(s, acts) && i < |s.jobs|
  {
    exists k :: 0 <= k <= |acts| && StateAt(s, acts, k, i) == st
  }

  lemma HadLater(s: State, acts: seq<Action>, i: nat, st: JobState)
    requires Runs(s, acts) && acts != [] && i < |s.jobs| && i < |Do(s, acts[0]).jobs|
    requires HadState(Do(s, acts[0]), acts[1..], i, st)
    ensures HadState(s, acts, i, st)
  {
    hide Do, Enabled;
    var k :| 0 <= k <= |acts[1..]| && StateAt(Do(s, acts[0]), acts[1..], k, i) == st;
    assert StateAt(s, acts, k + 1, i) == st;
  }

  /** From a collection in progress: what it has when it goes on collecting at the end of the run. */
  lemma {:induction false} CollectionSeesStates(s: State, acts: seq<Action>, before: seq<JobState>)
    returns (seen: seq<JobState>)
    requires Inv(s) && Runs(s, acts) && Undisturbed(acts) && After(s, acts).main.Collecting?
    requires s.main.Collecting? && |before| == s.main.i <= |s.jobs|
    requires s.main.stats == JobTable.Tally(|s.jobs|, before)
    ensures var m := After(s, acts).main;
      && before <= seen && |seen| == m.i <= |s.jobs| && m.stats == JobTable.Tally(|s.jobs|, seen)
    ensures SeenDuring(s, acts, seen, |before|)
    decreases |acts|
  {
    hide Inv, Enabled, Do, JobTable.Tally;
    if acts == [] {
      seen := before;
    } else {
      var s1 := Do(s, acts[0]);
      StepKeepsInv(s, acts[0]);
      IdleStays(s1, acts[1..]);
      CollectingStep(s, acts[0], before);
      var before1 := if acts[0].MainStep? then before + [s.jobs[|before|].state] else before;
      seen := CollectionSeesStates(s1, acts[1..], before1);
      forall i | |before| <= i < |seen|
        ensures HadState(s, acts, i, seen[i])
      {
        if i < |before1| {
          assert seen[i] == before1[i];
          assert StateAt(s, acts, 0, i) == seen[i];
        } else {
          HadLater(s, acts, i, seen[i]);
        }
      }
    }
  }

  lemma CollectingStep(s: State, a: Action, before: seq<JobState>)
    requires Inv(s) && Enabled(s, a) && (a.WorkerStep? || a.Wake? || a.MainStep?)
    requires s.main.Collecting? && |before| == s.main.i <= |s.jobs|
    requires s.main.stats == JobTable.Tally(|s.jobs|, before)
    ensures var s' := Do(s, a);
      && |s'.jobs| == |s.jobs|
      && (!a.MainStep? ==> s'.main == s.main)
      && (a.MainStep? ==> if |before| == |s.jobs| then s'.main.Idle?
           else s'.main == Collecting(|before| + 1, JobTable.Tally(|s.jobs|, before + [s.jobs[|before|].state])))
  {
    hide Inv, JobTable.Tally, Work, Plausible, Stats.Add;
    if a.MainStep? && |before| < |s.jobs| {
      JobTable.TallyNext(|s.jobs|, before, s.jobs[|before|].state);
    }
  }

  lemma {:induction false} IdleStays(s: State, acts: seq<Action>)
    requires Runs(s, acts) && Undisturbed(acts)
    ensures s.main.Idle? ==> After(s, acts).main.Idle?
    decreases |acts|
  {
    hide DoWorker;
    if acts != [] {
      if acts[0].WorkerStep? {
        WorkerLeavesMain(s, acts[0].w, acts[0].c);
      }
      IdleStays(Do(s, acts[0]), acts[1..]);
    }
  }

  /** STATS: when all jobs have been looked at, the counters are the tally of one state of each job,
      a state the job had at some moment during the collection. */
  lemma StatisticsAreSeen(s: State, acts: seq<Action>) returns (seen: seq<JobState>)
    requires Reachable(s) && Enabled(s, BeginStats) && Runs(Do(s, BeginStats), acts) && Undisturbed(acts)
    requires var m := After(Do(s, BeginStats), acts).main; m.Collecting? && m.i == |s.jobs|
    ensures |seen| == |s.jobs| && After(Do(s, BeginStats), acts).main.stats == JobTable.Tally(|s.jobs|, seen)
    ensures forall i :: 0 <= i < |seen| ==> HadState(Do(s, BeginStats), acts, i, seen[i])
  {
    ReachableInv(s);
    StepKeepsInv(s, BeginStats);
    JobTable.EmptyTally(|s.jobs|);
    hide Inv, Runs, After, Reachable, JobTable.Tally, HadState;
    seen := CollectionSeesStates(Do(s, BeginStats), acts, []);
  }
}
