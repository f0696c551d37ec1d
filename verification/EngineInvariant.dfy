/** The invariant of the job engine: who owns each job, what that says about its record, and why
    every interleaving keeps it. */
module EngineInvariant {
  import opened Engine
  import opened Util

  /** What a codec job that is DONE has published. */
  predicate Published(job: Job) {
    && job.output.ResultFile? && job.output.id == job.id
    && Described(job.kind, Output(job.output, job.resultKind, job.size, job.filename))
  }

  /** What is left to write before `job` may become `fin`: only the state itself. */
  predicate ReadyFor(job: Job, fin: JobState) {
    && fin.Terminal()
    && (fin == Canceled ==> job.cancel)
    && (fin == Done && job.kind.MakesOutput() ==> Published(job))
  }

  /** A finished job: its result text is there, and a codec job that is DONE is published. */
  predicate Settled(job: Job) {
    job.result != "" && ReadyFor(job, job.state)
  }

  /** What a worker's program counter says about the record of the job it holds. */
  predicate PcOk(pc: Pc, job: Job)
    requires pc.HoldsJob()
  {
    match pc
    case CheckCancel(_) => job.state == Queued
    case StartRun(_) => job.state == Queued
    case Dispatch(_) => job.state == Running
    case TextStep(_, step) => job.state == Running && job.kind == TextJob && step < 5
    case BeforeCodec(_) => job.state == Running && job.kind.MakesOutput()
    case InCodec(_) => job.state == Running && job.kind != TextJob
    case PutOutput(_, out, msg) => job.state == Running && msg != "" && Plausible(Choice(false, msg, out), job)
    case PutMeta(_, out, msg) =>
      job.state == Running && job.output == out.path && msg != "" && Plausible(Choice(false, msg, out), job)
    case PutResult(_, fin, msg, ret) =>
      && msg != "" && ReadyFor(job, fin) && !ret.FromFallback?
      && job.state == (if ret.FromEarlyCancel? then Queued else Running)
      && (ret.FromEarlyCancel? ==> fin == Canceled)
    case PutState(_, fin, ret) =>
      && job.result != "" && ReadyFor(job, fin) && !ret.FromFallback?
      && job.state == (if ret.FromEarlyCancel? then Queued else Running)
      && (ret.FromEarlyCancel? ==> fin == Canceled)
    case CheckFailed(_) => job.state == Failed && Settled(job)
    case ReadState(_) => Settled(job)
    case SendEvent(_, st) => job.state == st && Settled(job)
  }

  predicate NamedFor(p: Path, id: nat) {
    p.Upload? ==> p.id == id
  }

  predicate MainHolds(m: Main, j: nat) {
    match m
    case Created(i, _) => i == j
    case Pushing(i) => i == j
    case PushFailedResult(i) => i == j
    case PushFailedState(i) => i == j
    case _ => false
  }

  predicate JobOk(s: State, j: nat)
    requires j < |s.jobs| == |s.place|
  {
    var job := s.jobs[j];
    && job.id == j + 1 && NamedFor(job.input, j + 1) && NamedFor(job.stored, j + 1)
    && match s.place[j]
       case WithMain => job.state == Queued && !job.cancel && MainHolds(s.main, j)
       case InQueue => job.state == Queued && j in s.queue
       case WithWorker(w) => w < |s.pcs| && s.pcs[w].HoldsJob() && s.pcs[w].j == j && PcOk(s.pcs[w], job)
       case Retired => Settled(job)
  }

  predicate JobsOk(s: State) {
    && |s.place| == |s.jobs| <= MAX_JOBS && s.nextId == |s.jobs| + 1
    && forall j :: 0 <= j < |s.jobs| ==> JobOk(s, j)
  }

  predicate WorkersOk(s: State) {
    && |s.place| == |s.jobs|
    && forall w :: 0 <= w < |s.pcs| && s.pcs[w].HoldsJob() ==> s.pcs[w].j < |s.jobs| && s.place[s.pcs[w].j] == WithWorker(w)
  }

  predicate QueueOk(s: State) {
    && |s.place| == |s.jobs|
    && (forall a :: 0 <= a < |s.queue| ==> s.queue[a] < |s.jobs| && s.place[s.queue[a]] == InQueue)
    && Distinct(s.queue)
  }

  predicate HistoryOk(s: State) {
    && |s.place| == |s.jobs|
    && s.pushed == s.popped + s.queue
    && (forall a :: 0 <= a < |s.pushed| ==> s.pushed[a] < |s.jobs| && s.place[s.pushed[a]] != WithMain)
    && Distinct(s.pushed)
  }

  predicate EventsOk(s: State) {
    && |s.place| == |s.jobs|
    && (forall e :: 0 <= e < |s.events| ==>
         s.events[e].0 < |s.jobs| && s.place[s.events[e].0] == Retired && s.jobs[s.events[e].0].state == s.events[e].1)
    && (forall e, f :: 0 <= e < f < |s.events| ==> s.events[e].0 != s.events[f].0)
  }

  predicate FlagsOk(s: State) {
    && (s.stopped ==> !s.running && (s.main.Joining? || s.main.Finished?))
    && (!s.running ==> s.main.Stopping? || s.main.Joining? || s.main.Finished?)
    && (forall w :: 0 <= w < |s.pcs| && s.pcs[w].Exited? ==> !s.running)
    && (s.stopped ==> forall w :: 0 <= w < |s.pcs| ==> !s.pcs[w].Asleep?)
  }

  predicate MainOk(s: State)
  {
    && |s.place| == |s.jobs|
    && match s.main
       case Idle => true
       case Receiving(_, png) => png == |s.jobs| + 1
       case ReceivingExtra(_, png, extra) => png == extra == |s.jobs| + 1
       case Creating(_, input, stored) => NamedFor(input, |s.jobs| + 1) && NamedFor(stored, |s.jobs| + 1)
       case Created(j, stored) => j + 1 == |s.jobs| && s.place[j] == WithMain && NamedFor(stored, j + 1)
       case Pushing(j) => j < |s.jobs| && s.place[j] == WithMain
       case PushFailedResult(j) => j < |s.jobs| && s.place[j] == WithMain
       case PushFailedState(j) => j < |s.jobs| && s.place[j] == WithMain && s.jobs[j].result != ""
       case Collecting(i, stats) => i <= |s.jobs| && stats.Sum() == i && stats.total == |s.jobs|
       case ReadingFields(j, seen) => j < |s.jobs| && s.jobs[j] == seen && seen.state.Terminal() && s.place[j] != WithMain
       case Stopping => !s.running
       case Joining(k) => s.stopped && k <= |s.pcs| && forall w :: 0 <= w < k ==> s.pcs[w].Exited?
       case Finished => s.stopped && forall w :: 0 <= w < |s.pcs| ==> s.pcs[w].Exited?
  }

  /** Everything but what is said of the individual jobs. */
  predicate ControlOk(s: State) {
    WorkersOk(s) && QueueOk(s) && HistoryOk(s) && EventsOk(s) && FlagsOk(s) && MainOk(s)
  }

  predicate Inv(s: State) {
    JobsOk(s) && ControlOk(s)
  }

  lemma InitInv(n: nat)
    ensures Inv(Init(n))
  {
  }

  /** One critical section of a worker keeps what its program counter says, and moves the job's
      state only QUEUED -> RUNNING, QUEUED -> CANCELED, or RUNNING -> DONE, FAILED or CANCELED. */
  lemma WorkKeeps(pc: Pc, job: Job, c: Choice)
    requires pc.HoldsJob() && !pc.SendEvent? && PcOk(pc, job) && Plausible(c, job)
    ensures var (pc', job') := Work(pc, job, c);
      && pc'.HoldsJob() && pc'.j == pc.j && PcOk(pc', job')
      && job'.id == job.id && job'.kind == job.kind && job'.input == job.input && job'.stored == job.stored
      && job'.cancel == job.cancel
      && Edge(job.state, job'.state) && (job.state.Terminal() ==> job' == job)
      && (job.state == Queued ==> job'.state != Failed)
  {
  }

  /** The allowed moves of a job's state in one step. */
  predicate Edge(a: JobState, b: JobState) {
    || a == b
    || (a == Queued && b in {Running, Canceled, Failed})
    || (a == Running && b in {Done, Failed, Canceled})
  }

  /** A cancel request changes nothing a program counter relies on. */
  lemma CancelKeeps(pc: Pc, job: Job)
    requires pc.HoldsJob() && PcOk(pc, job)
    ensures PcOk(pc, job.(cancel := true))
  {
  }

  /** A job that a step neither touches nor moves stays as described. */
  lemma Untouched(s: State, s': State, i: nat)
    requires i < |s.jobs| == |s.place| && JobOk(s, i)
    requires i < |s'.jobs| == |s'.place| && s'.jobs[i] == s.jobs[i] && s'.place[i] == s.place[i]
    requires s.place[i] == WithMain ==> MainHolds(s'.main, i)
    requires s.place[i] == InQueue && i in s.queue ==> i in s'.queue
    requires s.place[i].WithWorker? && s.place[i].w < |s.pcs| && s.pcs[s.place[i].w].HoldsJob()
      ==> s.place[i].w < |s'.pcs| && s'.pcs[s.place[i].w] == s.pcs[s.place[i].w]
    ensures JobOk(s', i)
  {
    hide PcOk, Settled, NamedFor, MainHolds;
  }

  /** A held job after its worker's step. */
  lemma HeldJob(s: State, w: nat, j: nat)
    requires w < |s.pcs| && s.pcs[w].HoldsJob() && s.pcs[w].j == j < |s.jobs| == |s.place|
    requires s.place[j] == WithWorker(w) && PcOk(s.pcs[w], s.jobs[j])
    requires s.jobs[j].id == j + 1 && NamedFor(s.jobs[j].input, j + 1) && NamedFor(s.jobs[j].stored, j + 1)
    ensures JobOk(s, j)
  {
    hide PcOk, NamedFor;
  }

  /** Replacing the record of a held job together with its worker's program counter. */
  lemma HeldJobKeepsInv(s: State, w: nat, pc: Pc, job: Job)
    requires Inv(s) && w < |s.pcs| && s.pcs[w].HoldsJob() && pc.HoldsJob() && pc.j == s.pcs[w].j < |s.jobs|
    requires var was := s.jobs[pc.j]; PcOk(pc, job) && job.id == was.id && job.input == was.input && job.stored == was.stored
    requires s.jobs[pc.j].state.Terminal() ==> job == s.jobs[pc.j]
    ensures Inv(s.(pcs := s.pcs[w := pc], jobs := s.jobs[pc.j := job]))
  {
    var j := pc.j;
    var s' := s.(pcs := s.pcs[w := pc], jobs := s.jobs[j := job]);
    hide PcOk, Settled, NamedFor, MainHolds, JobOk;
    WithMainIsHeld(s, j);
    assert JobsOk(s') by {
      hide HistoryOk, EventsOk, FlagsOk, MainOk, QueueOk;
      forall i | 0 <= i < |s'.jobs|
        ensures JobOk(s', i)
      {
        if i == j {
          HeldJob(s', w, j);
        } else {
          Untouched(s, s', i);
        }
      }
    }
    assert ControlOk(s');
  }

  /** What the invariant says about a job and the worker that holds it. */
  lemma HolderHolds(s: State, w: nat, j: nat)
    requires Inv(s) && w < |s.pcs| && s.pcs[w].HoldsJob() && s.pcs[w].j == j
    ensures j < |s.jobs| == |s.place| && s.place[j] == WithWorker(w) && PcOk(s.pcs[w], s.jobs[j])
    ensures s.pcs[w].SendEvent? ==> s.jobs[j].state == s.pcs[w].st
  {
    assert JobOk(s, j);
    hide QueueOk, HistoryOk, EventsOk, FlagsOk, MainOk, Settled, NamedFor, ReadyFor;
  }

  lemma WorkerStepOnJob(s: State, w: nat, c: Choice)
    requires Inv(s) && Enabled(s, WorkerStep(w, c)) && s.pcs[w].HoldsJob() && !s.pcs[w].SendEvent?
    ensures Inv(DoWorker(s, w, c))
  {
    var j := s.pcs[w].j;
    HolderHolds(s, w, j);
    hide JobsOk, ControlOk, JobOk, PcOk, Work, Plausible;
    WorkKeeps(s.pcs[w], s.jobs[j], c);
    var r := Work(s.pcs[w], s.jobs[j], c);
    HeldJobKeepsInv(s, w, r.0, r.1);
  }

  lemma WorkerSendsEventControl(s: State, w: nat, c: Choice)
    requires Inv(s) && Enabled(s, WorkerStep(w, c)) && s.pcs[w].SendEvent?
    ensures ControlOk(DoWorker(s, w, c))
  {
    assert JobOk(s, s.pcs[w].j);
    assert s.jobs[s.pcs[w].j].state == s.pcs[w].st;
    hide JobOk, PcOk, Settled, Plausible, MainHolds;
    var s' := DoWorker(s, w, c);
    assert WorkersOk(s') by {
      hide QueueOk, HistoryOk, EventsOk, FlagsOk, MainOk;
    }
    assert QueueOk(s') by {
      hide WorkersOk, HistoryOk, EventsOk, FlagsOk, MainOk;
    }
    assert HistoryOk(s') by {
      hide WorkersOk, EventsOk, FlagsOk, MainOk;
    }
    assert EventsOk(s') by {
      hide QueueOk, HistoryOk, FlagsOk, MainOk;
    }
    assert FlagsOk(s') && MainOk(s') by {
      hide QueueOk, HistoryOk, EventsOk;
    }
    hide WorkersOk, QueueOk, HistoryOk, EventsOk, FlagsOk, MainOk;
  }

  lemma WorkerSendsEvent(s: State, w: nat, c: Choice)
    requires Inv(s) && Enabled(s, WorkerStep(w, c)) && s.pcs[w].SendEvent?
    ensures Inv(DoWorker(s, w, c))
  {
    var j := s.pcs[w].j;
    assert JobOk(s, j);
    assert Settled(s.jobs[j]) && s.jobs[j].state == s.pcs[w].st;
    hide Settled, Plausible, PcOk, NamedFor, MainHolds;
    var s' := DoWorker(s, w, c);
    assert JobOk(s', j);
    hide JobOk;
    assert JobsOk(s') by {
      hide HistoryOk, EventsOk, FlagsOk, MainOk, QueueOk;
      forall i | 0 <= i < |s'.jobs|
        ensures JobOk(s', i)
      {
        if i != j {
          Untouched(s, s', i);
        }
      }
    }
    WorkerSendsEventControl(s, w, c);
    hide ControlOk;
  }

  /** The popped job moves from the queue's head to the end of the handed-out ones. */
  lemma PopKeepsQueues(s: State, w: nat, c: Choice)
    requires Inv(s) && Enabled(s, WorkerStep(w, c)) && s.pcs[w].AtQueue? && !s.stopped && s.queue != []
    ensures QueueOk(DoWorker(s, w, c)) && HistoryOk(DoWorker(s, w, c))
  {
    assert s.queue == [s.queue[0]] + s.queue[1..];
    hide JobOk, WorkersOk, EventsOk, FlagsOk, MainOk, Plausible, MainHolds;
    var s' := DoWorker(s, w, c);
    assert QueueOk(s') by {
      hide HistoryOk;
    }
    assert s'.popped + s'.queue == s.popped + s.queue;
  }

  lemma WorkerPopsControl(s: State, w: nat, c: Choice)
    requires Inv(s) && Enabled(s, WorkerStep(w, c)) && s.pcs[w].AtQueue? && !s.stopped && s.queue != []
    ensures ControlOk(DoWorker(s, w, c))
  {
    PopKeepsQueues(s, w, c);
    hide JobOk, PcOk, Settled, Plausible, MainHolds, HistoryOk;
    var s' := DoWorker(s, w, c);
    assert WorkersOk(s') by {
      hide EventsOk, FlagsOk, MainOk;
    }
    assert EventsOk(s') by {
      hide FlagsOk, MainOk;
    }
    assert FlagsOk(s') && MainOk(s') by {
      hide EventsOk;
    }
    hide WorkersOk, QueueOk, EventsOk, FlagsOk, MainOk;
  }

  lemma WorkerPops(s: State, w: nat, c: Choice)
    requires Inv(s) && Enabled(s, WorkerStep(w, c)) && s.pcs[w].AtQueue? && !s.stopped && s.queue != []
    ensures Inv(DoWorker(s, w, c))
  {
    var j := s.queue[0];
    assert s.queue == [j] + s.queue[1..];
    assert JobOk(s, j);
    var s' := DoWorker(s, w, c);
    assert PcOk(s'.pcs[w], s'.jobs[j]);
    hide Settled, Plausible, PcOk, NamedFor, MainHolds;
    HeldJob(s', w, j);
    hide JobOk;
    assert JobsOk(s') by {
      hide HistoryOk, EventsOk, FlagsOk, MainOk;
      forall i | 0 <= i < |s'.jobs|
        ensures JobOk(s', i)
      {
        if i != j {
          Untouched(s, s', i);
        }
      }
    }
    WorkerPopsControl(s, w, c);
    hide ControlOk;
  }

  /** Steps that only change program counters of workers holding no job. */
  lemma IdleWorkersKeepInv(s: State, s': State)
    requires Inv(s) && s' == s.(pcs := s'.pcs) && |s'.pcs| == |s.pcs|
    requires forall w :: 0 <= w < |s.pcs| ==>
      s'.pcs[w] == s.pcs[w] || (!s.pcs[w].HoldsJob() && !s.pcs[w].Exited? && !s'.pcs[w].HoldsJob())
    requires forall w :: 0 <= w < |s.pcs| && s'.pcs[w] != s.pcs[w] ==>
      (s'.pcs[w].Exited? ==> !s.running) && (s'.pcs[w].Asleep? ==> !s.stopped)
    ensures Inv(s')
  {
    hide JobOk;
    assert JobsOk(s') by {
      hide HistoryOk, EventsOk, FlagsOk, MainOk, QueueOk;
      forall i | 0 <= i < |s'.jobs|
        ensures JobOk(s', i)
      {
        WithMainIsHeld(s, i);
        Untouched(s, s', i);
      }
    }
    assert ControlOk(s');
  }

  lemma WithMainIsHeld(s: State, i: nat)
    requires i < |s.jobs| == |s.place| && JobOk(s, i)
    ensures s.place[i] == WithMain ==> MainHolds(s.main, i) && s.jobs[i].state == Queued && !s.jobs[i].cancel
    ensures s.place[i] == InQueue ==> s.jobs[i].state == Queued && i in s.queue
    ensures s.place[i] == Retired ==> Settled(s.jobs[i])
    ensures s.jobs[i].id == i + 1 && NamedFor(s.jobs[i].input, i + 1) && NamedFor(s.jobs[i].stored, i + 1)
  {
    hide PcOk, Settled, NamedFor, MainHolds;
  }

  lemma WorkerWithoutJob(s: State, w: nat, c: Choice)
    requires Inv(s) && Enabled(s, WorkerStep(w, c)) && !s.pcs[w].HoldsJob()
    ensures Inv(DoWorker(s, w, c))
  {
    if s.pcs[w].AtQueue? && !s.stopped && s.queue != [] {
      WorkerPops(s, w, c);
    } else {
      assert FlagsOk(s);
      hide JobsOk, HistoryOk, QueueOk, WorkersOk, MainOk, EventsOk;
      IdleWorkersKeepInv(s, DoWorker(s, w, c));
    }
  }

  lemma WakeKeepsInv(s: State, w: nat)
    requires Inv(s) && Enabled(s, Wake(w))
    ensures Inv(Do(s, Wake(w)))
  {
    hide Inv;
    IdleWorkersKeepInv(s, Do(s, Wake(w)));
  }

  // ----- Main thread

  lemma MainCreates(s: State, ok: bool, woken: set<nat>)
    requires Inv(s) && Enabled(s, MainStep(ok, woken)) && s.main.Creating? && ok && |s.jobs| < MAX_JOBS
    ensures Inv(DoMain(s, ok, woken))
  {
    var s' := DoMain(s, ok, woken);
    var n := |s.jobs|;
    assert JobOk(s', n);
    hide JobOk, PcOk, NamedFor;
    assert JobsOk(s') by {
      hide HistoryOk, EventsOk, FlagsOk, MainOk, QueueOk;
      forall i | 0 <= i < |s'.jobs|
        ensures JobOk(s', i)
      {
        if i < n {
          WithMainIsHeld(s, i);
          Untouched(s, s', i);
        }
      }
    }
    assert ControlOk(s');
  }

  /** Main works on the job it holds, keeping or giving up the job. */
  lemma MainOnOwnJob(s: State, ok: bool, woken: set<nat>, j: nat)
    requires Inv(s) && Enabled(s, MainStep(ok, woken)) && MainHolds(s.main, j)
    requires s.main.Pushing? ==> !ok || s.stopped
    ensures Inv(DoMain(s, ok, woken))
  {
    OwnJobStaysOk(s, ok, woken, j);
    var s' := DoMain(s, ok, woken);
    hide JobOk, PcOk, NamedFor, Settled, SignalWakes;
    assert JobsOk(s') by {
      hide HistoryOk, EventsOk, FlagsOk, MainOk, QueueOk;
      forall i | 0 <= i < |s'.jobs|
        ensures JobOk(s', i)
      {
        if i != j {
          WithMainIsHeld(s, i);
          Untouched(s, s', i);
        }
      }
    }
    OwnJobControl(s, ok, woken, j);
    hide JobsOk, ControlOk;
  }

  lemma OwnJobControl(s: State, ok: bool, woken: set<nat>, j: nat)
    requires Inv(s) && Enabled(s, MainStep(ok, woken)) && MainHolds(s.main, j)
    requires s.main.Pushing? ==> !ok || s.stopped
    ensures ControlOk(DoMain(s, ok, woken))
  {
    assert j < |s.jobs| && s.place[j] == WithMain;
    hide JobOk, SignalWakes;
    var s' := DoMain(s, ok, woken);
    assert WorkersOk(s') && FlagsOk(s') by {
      hide JobsOk, QueueOk, HistoryOk, EventsOk;
    }
    assert QueueOk(s') && HistoryOk(s') by {
      hide JobsOk, WorkersOk, EventsOk, FlagsOk;
    }
    assert EventsOk(s') by {
      hide JobsOk, WorkersOk, QueueOk, HistoryOk, FlagsOk;
    }
    assert MainOk(s') by {
      hide WorkersOk, QueueOk, HistoryOk, EventsOk;
    }
    hide WorkersOk, QueueOk, HistoryOk, EventsOk, FlagsOk, MainOk, JobsOk;
  }

  lemma OwnJobStaysOk(s: State, ok: bool, woken: set<nat>, j: nat)
    requires Inv(s) && Enabled(s, MainStep(ok, woken)) && MainHolds(s.main, j)
    requires s.main.Pushing? ==> !ok || s.stopped
    ensures j < |s.jobs| == |s.place| && s.place[j] == WithMain
    ensures var s' := DoMain(s, ok, woken); |s'.jobs| == |s'.place| == |s.jobs| && JobOk(s', j)
  {
    assert JobOk(s, j);
    hide HistoryOk, EventsOk, FlagsOk, QueueOk, WorkersOk, PcOk;
  }

  lemma MainPushes(s: State, ok: bool, woken: set<nat>)
    requires Inv(s) && Enabled(s, MainStep(ok, woken)) && s.main.Pushing? && ok && !s.stopped
    ensures Inv(DoMain(s, ok, woken))
  {
    var j := s.main.j;
    assert JobOk(s, j);
    var s1 := s.(main := Idle, queue := s.queue + [j], place := s.place[j := InQueue], pushed := s.pushed + [j]);
    assert j in s1.queue;
    assert JobOk(s1, j);
    hide JobOk, PcOk, NamedFor, Settled;
    assert JobsOk(s1) by {
      hide HistoryOk, EventsOk, FlagsOk, MainOk, QueueOk;
      forall i | 0 <= i < |s1.jobs|
        ensures JobOk(s1, i)
      {
        if i != j {
          WithMainIsHeld(s, i);
          Untouched(s, s1, i);
        }
      }
    }
    assert ControlOk(s1) by {
      PushedIsNew(s, j);
    }
    hide Inv;
    IdleWorkersKeepInv(s1, DoMain(s, ok, woken));
  }

  lemma PushedIsNew(s: State, j: nat)
    requires Inv(s) && j < |s.jobs| && s.place[j] == WithMain
    ensures j !in s.queue && j !in s.pushed
  {
    hide JobOk;
  }

  /** Steps of main that touch neither jobs, places, queue nor history. */
  lemma MainAlone(s: State, s': State)
    requires Inv(s) && s' == s.(main := s'.main, running := s'.running)
    requires forall j :: !MainHolds(s.main, j)
    requires FlagsOk(s') && MainOk(s')
    ensures Inv(s')
  {
    hide JobOk, PcOk, NamedFor;
    assert JobsOk(s') by {
      hide HistoryOk, EventsOk, FlagsOk, MainOk, QueueOk;
      forall i | 0 <= i < |s'.jobs|
        ensures JobOk(s', i)
      {
        WithMainIsHeld(s, i);
        Untouched(s, s', i);
      }
    }
    assert ControlOk(s') by {
      hide MainOk, FlagsOk;
    }
  }

  lemma MainStops(s: State, ok: bool, woken: set<nat>)
    requires Inv(s) && Enabled(s, MainStep(ok, woken)) && s.main.Stopping?
    ensures Inv(DoMain(s, ok, woken))
  {
    var s1 := s.(pcs := Broadcast(s.pcs));
    assert !s.running && !s.stopped;
    assert Inv(s1) by {
      hide Inv;
      IdleWorkersKeepInv(s, s1);
    }
    var s' := DoMain(s, ok, woken);
    hide JobOk, PcOk, NamedFor;
    assert JobsOk(s') by {
      hide HistoryOk, EventsOk, FlagsOk, MainOk, QueueOk;
      forall i | 0 <= i < |s'.jobs|
        ensures JobOk(s', i)
      {
        WithMainIsHeld(s1, i);
        Untouched(s1, s', i);
      }
    }
    assert ControlOk(s');
  }

  lemma MainKeepsInv(s: State, ok: bool, woken: set<nat>)
    requires Inv(s) && Enabled(s, MainStep(ok, woken))
    ensures Inv(DoMain(s, ok, woken))
  {
    if s.main.Creating? && ok && |s.jobs| < MAX_JOBS {
      MainCreates(s, ok, woken);
    } else if s.main.Pushing? && ok && !s.stopped {
      MainPushes(s, ok, woken);
    } else if s.main.Stopping? {
      MainStops(s, ok, woken);
    } else if s.main.Created? || s.main.Pushing? || s.main.PushFailedResult? || s.main.PushFailedState? {
      MainOnOwnJob(s, ok, woken, s.main.j);
    } else {
      assert s.nextId == |s.jobs| + 1;
      hide JobsOk, QueueOk, HistoryOk, WorkersOk, EventsOk;
      MainAlone(s, DoMain(s, ok, woken));
    }
  }

  // ----- Commands

  lemma CancelKeepsInv(s: State, j: nat)
    requires Inv(s) && Enabled(s, Cancel(j))
    ensures Inv(Do(s, Cancel(j)))
  {
    var s' := Do(s, Cancel(j));
    assert JobOk(s, j);
    assert JobOk(s', j) by {
      hide PcOk, Settled;
      if s.place[j].WithWorker? {
        CancelKeeps(s.pcs[s.place[j].w], s.jobs[j]);
      }
      if s.place[j].Retired? {
        SettledIsTerminal(s.jobs[j]);
      }
    }
    hide JobOk, PcOk, NamedFor, Settled;
    assert JobsOk(s') by {
      hide HistoryOk, EventsOk, FlagsOk, MainOk, QueueOk;
      forall i | 0 <= i < |s'.jobs|
        ensures JobOk(s', i)
      {
        if i != j {
          WithMainIsHeld(s, i);
          Untouched(s, s', i);
        }
      }
    }
    assert ControlOk(s');
  }

  lemma SettledIsTerminal(job: Job)
    requires Settled(job)
    ensures job.state.Terminal()
  {
  }

  lemma CommandKeepsInv(s: State, a: Action)
    requires Inv(s) && Enabled(s, a) && !a.WorkerStep? && !a.Wake? && !a.MainStep?
    ensures Inv(Do(s, a))
  {
    if a.Cancel? {
      CancelKeepsInv(s, a.j);
    } else {
      assert s.nextId == |s.jobs| + 1;
      if a.BeginRead? {
        assert JobOk(s, a.j);
      }
      hide JobsOk, JobOk, QueueOk, HistoryOk, WorkersOk, EventsOk;
      MainAlone(s, Do(s, a));
    }
  }

  lemma StepKeepsInv(s: State, a: Action)
    requires Inv(s) && Enabled(s, a)
    ensures Inv(Do(s, a))
  {
    hide JobsOk, ControlOk, DoWorker, DoMain;
    match a
    case WorkerStep(w, c) =>
      if !s.pcs[w].HoldsJob() {
        WorkerWithoutJob(s, w, c);
      } else if s.pcs[w].SendEvent? {
        WorkerSendsEvent(s, w, c);
      } else {
        WorkerStepOnJob(s, w, c);
      }
    case Wake(w) => WakeKeepsInv(s, w);
    case MainStep(ok, woken) => MainKeepsInv(s, ok, woken);
    case _ => CommandKeepsInv(s, a);
  }

  /** Every reachable state satisfies the invariant. */
  lemma {:induction false} RunKeepsInv(s: State, acts: seq<Action>)
    requires Inv(s) && Runs(s, acts)
    ensures Inv(After(s, acts))
    decreases |acts|
  {
    hide Inv, Enabled, Do;
    if acts != [] {
      StepKeepsInv(s, acts[0]);
      RunKeepsInv(Do(s, acts[0]), acts[1..]);
    }
  }
}
