/** The job engine as a labelled transition system: one main thread, n workers, one step for
    each critical section. A step that leaves something open (an allocation that may fail, the
    outcome of a codec call, which sleepers a signal wakes) takes the choice as a parameter. */
module Engine {

  const MAX_JOBS := 1024

  datatype JobState = Queued | Running | Done | Failed | Canceled {
    predicate Terminal() {
      Done? || Failed? || Canceled?
    }
  }

  datatype JobType = TextJob | ValidateImage | AnalyzeCapacity | EncodeText | EncodeFile | Decode | UnknownType {
    /** Jobs that leave a file behind. */
    predicate MakesOutput() {
      EncodeText? || EncodeFile? || Decode?
    }
  }

  datatype Path = NoPath | Upload(id: nat, suffix: string) | ResultFile(id: nat, suffix: string) | Given(text: string)

  datatype ResultKind = NoResult | TextResult | FileResult | PngResult

  datatype Job = Job(id: nat, kind: JobType, state: JobState, cancel: bool, input: Path, stored: Path,
                     output: Path, resultKind: ResultKind, size: nat, filename: string, result: string)

  /** Where a processing function returns to in the worker's loop body. */
  datatype Return = FromProcess | FromEarlyCancel | FromFallback

  /** What a successful encode or decode publishes. */
  datatype Output = Output(path: Path, kind: ResultKind, size: nat, filename: string)

  /** A worker's program counter: the critical section it enters next, with its locals. */
  datatype Pc =
    | LoopHead                                              // test of the running flag
    | AtQueue                                               // about to test the queue under its mutex
    | Asleep                                                // inside the condition wait, not signalled
    | Exited
    | CheckCancel(j: nat)                                   // cancel test right after the pop
    | StartRun(j: nat)                                      // set state RUNNING
    | Dispatch(j: nat)                                      // read the job's type
    | TextStep(j: nat, step: nat)                           // cancel test of one demo step
    | BeforeCodec(j: nat)                                   // preparation and cancel test of encode and decode
    | InCodec(j: nat)                                       // codec, validation or capacity call
    | PutOutput(j: nat, out: Output, msg: string)
    | PutMeta(j: nat, out: Output, msg: string)
    | PutResult(j: nat, fin: JobState, msg: string, ret: Return)
    | PutState(j: nat, fin: JobState, ret: Return)
    | CheckFailed(j: nat)                                   // a negative return code: is the state still RUNNING?
    | ReadState(j: nat)                                     // read the state for the event
    | SendEvent(j: nat, st: JobState)
  {
    predicate HoldsJob() {
      !LoopHead? && !AtQueue? && !Asleep? && !Exited?
    }
  }

  datatype Stats = Stats(total: nat, queued: nat, running: nat, done: nat, failed: nat, canceled: nat) {
    function Add(st: JobState): Stats {
      match st
      case Queued => this.(queued := queued + 1)
      case Running => this.(running := running + 1)
      case Done => this.(done := done + 1)
      case Failed => this.(failed := failed + 1)
      case Canceled => this.(canceled := canceled + 1)
    }

    function Sum(): nat {
      queued + running + done + failed + canceled
    }
  }

  /** The main thread's program counter. */
  datatype Main =
    | Idle                                                  // in the poll loop
    | Receiving(kind: JobType, png: nat)                    // writing uploads/job_<png>.png
    | ReceivingExtra(kind: JobType, png: nat, extra: nat)   // writing uploads/job_<extra>.txt or .data
    | Creating(kind: JobType, input: Path, stored: Path)
    | Created(j: nat, stored: Path)
    | Pushing(j: nat)
    | PushFailedResult(j: nat)
    | PushFailedState(j: nat)
    | Collecting(i: nat, stats: Stats)                      // STATS, under the table mutex
    | ReadingFields(j: nat, seen: Job)                      // RESULT, META, DOWNLOAD: state read, fields next
    | Stopping                                              // running flag cleared
    | Joining(next: nat)
    | Finished

  /** Who is responsible for a job. A history variable: no step's effect depends on it, and the
      guards mention its length only to keep indices in range. */
  datatype Place = WithMain | InQueue | WithWorker(w: nat) | Retired

  datatype State = State(jobs: seq<Job>, nextId: nat, queue: seq<nat>, stopped: bool, running: bool,
                         pcs: seq<Pc>, main: Main,
                         place: seq<Place>, pushed: seq<nat>, popped: seq<nat>, events: seq<(nat, JobState)>)

  // ----- Worker steps on a held job

  /** What a worker step leaves open: whether an operation fails, the message it formats, the
      output it produces. */
  datatype Choice = Choice(fails: bool, msg: string, out: Output)

  /** Messages are formatted from nonempty templates; outputs are result files of the job itself,
      described as each kind of job describes them. */
  predicate Plausible(c: Choice, job: Job) {
    && c.msg != ""
    && c.out.path.ResultFile? && c.out.path.id == job.id
    && Described(job.kind, c.out)
  }

  /** A decoded text is a .txt file named decoded.txt, a decoded file a .bin file under the name
      found in the carrier, and an encoded image a .png file with a fixed name. */
  predicate Described(kind: JobType, out: Output)
    requires out.path.ResultFile?
  {
    match kind
    case Decode =>
      || (out.kind == TextResult && out.path.suffix == "txt" && out.filename == "decoded.txt")
      || (out.kind == FileResult && out.path.suffix == "bin")
    case EncodeText => out.kind == PngResult && out.path.suffix == "png" && out.filename == "stego_result.png"
    case EncodeFile => out.kind == PngResult && out.path.suffix == "png" && out.filename == "stego_result.png"
    case _ => true
  }

  /** Something plausible, for an operation that fails or not. */
  function SomeChoice(fails: bool, job: Job): (c: Choice)
    ensures c.fails == fails && Plausible(c, job)
  {
    Choice(fails, "message",
           if job.kind.Decode? then Output(ResultFile(job.id, "txt"), TextResult, 0, "decoded.txt")
           else Output(ResultFile(job.id, "png"), PngResult, 0, "stego_result.png"))
  }

  /** One critical section of a worker that holds `job`: its next program counter and the job's new record. */
  function Work(pc: Pc, job: Job, c: Choice): (Pc, Job)
    requires pc.HoldsJob() && !pc.SendEvent?
  {
    match pc
    case CheckCancel(j) =>
      (if job.cancel then PutResult(j, Canceled, "job canceled", FromEarlyCancel) else StartRun(j), job)
    case StartRun(j) =>
      (Dispatch(j), job.(state := Running))
    case Dispatch(j) =>
      (match job.kind
       case TextJob => TextStep(j, 0)
       case ValidateImage => InCodec(j)
       case AnalyzeCapacity => InCodec(j)
       case UnknownType => PutResult(j, Failed, "unknown job type", FromProcess)
       case _ => BeforeCodec(j),
       job)
    case TextStep(j, step) =>
      (if job.cancel then PutResult(j, Canceled, "job canceled", FromProcess)
       else if step < 4 then TextStep(j, step + 1)
       else PutResult(j, Done, c.msg, FromProcess),
       job)
    case BeforeCodec(j) =>
      (if c.fails && !job.kind.Decode? then PutResult(j, Failed, c.msg, FromProcess)
       else if job.cancel then PutResult(j, Canceled, "job canceled", FromProcess)
       else InCodec(j),
       job)
    case InCodec(j) =>
      (if c.fails then PutResult(j, Failed, c.msg, FromProcess)
       else if job.kind.MakesOutput() then PutOutput(j, c.out, c.msg)
       else PutResult(j, Done, c.msg, FromProcess),
       job)
    case PutOutput(j, out, msg) =>
      (PutMeta(j, out, msg), job.(output := out.path))
    case PutMeta(j, out, msg) =>
      (PutResult(j, Done, msg, FromProcess), job.(resultKind := out.kind, size := out.size, filename := out.filename))
    case PutResult(j, fin, msg, ret) =>
      (PutState(j, fin, ret), job.(result := msg))
    case PutState(j, fin, ret) =>
      (match ret
       case FromEarlyCancel => SendEvent(j, Canceled)
       case FromFallback => ReadState(j)
       case FromProcess => if fin == Failed then CheckFailed(j) else ReadState(j),
       job.(state := fin))
    case CheckFailed(j) =>
      (if job.state == Running then PutResult(j, Failed, "worker failed", FromFallback) else ReadState(j), job)
    case ReadState(j) =>
      (SendEvent(j, job.state), job)
  }

  // ----- The transition system

  datatype Action =
    | WorkerStep(w: nat, c: Choice)
    | Wake(w: nat)                                          // a spurious wake-up
    | Submit(kind: JobType, input: Path)                    // SUBMIT, VALIDATE_IMAGE, ANALYZE_CAPACITY
    | BeginUpload(kind: JobType)                            // an upload command: peek at the next id
    | MainStep(ok: bool, woken: set<nat>)                   // the main thread's next critical section
    | Cancel(j: nat)
    | BeginStats
    | BeginRead(j: nat, doneOnly: bool)                     // RESULT; META and DOWNLOAD want a DONE job
    | Shutdown

  predicate NeedsExtra(kind: JobType) {
    kind.EncodeText? || kind.EncodeFile?
  }

  predicate ExistsAsleep(pcs: seq<Pc>) {
    exists w :: 0 <= w < |pcs| && pcs[w] == Asleep
  }

  /** Waking the sleepers among `woken`. */
  function WakeSome(pcs: seq<Pc>, woken: set<nat>): (r: seq<Pc>)
    ensures |r| == |pcs|
  {
    seq(|pcs|, w requires 0 <= w < |pcs| => if w in woken && pcs[w] == Asleep then AtQueue else pcs[w])
  }

  function Broadcast(pcs: seq<Pc>): (r: seq<Pc>)
    ensures |r| == |pcs|
  {
    seq(|pcs|, w requires 0 <= w < |pcs| => if pcs[w] == Asleep then AtQueue else pcs[w])
  }

  /** A signal wakes at least one sleeper if there is one. */
  predicate SignalWakes(pcs: seq<Pc>, woken: set<nat>) {
    ExistsAsleep(pcs) ==> exists w :: 0 <= w < |pcs| && w in woken && pcs[w] == Asleep
  }

  predicate Enabled(s: State, a: Action) {
    match a
    case WorkerStep(w, c) =>
      && w < |s.pcs| && !s.pcs[w].Asleep? && !s.pcs[w].Exited?
      && (s.pcs[w].HoldsJob() ==> s.pcs[w].j < |s.jobs| && s.pcs[w].j < |s.place| && Plausible(c, s.jobs[s.pcs[w].j]))
      && (s.pcs[w].AtQueue? && s.queue != [] ==> s.queue[0] < |s.place|)
    case Wake(w) => w < |s.pcs| && s.pcs[w].Asleep?
    case Submit(kind, input) => s.main.Idle? && (input.NoPath? || input.Given?)
    case BeginUpload(kind) => s.main.Idle?
    case MainStep(ok, woken) =>
      (match s.main
       case Idle => false
       case Created(j, _) => j < |s.jobs|
       case Pushing(j) => j < |s.place| && SignalWakes(s.pcs, woken)
       case PushFailedResult(j) => j < |s.jobs|
       case PushFailedState(j) => j < |s.jobs| && j < |s.place|
       case Joining(k) => k < |s.pcs| ==> s.pcs[k].Exited?
       case Finished => false
       case _ => true)
    case Cancel(j) => s.main.Idle? && j < |s.jobs|
    case BeginStats => s.main.Idle?
    case BeginRead(j, _) => s.main.Idle? && j < |s.jobs|
    case Shutdown => s.main.Idle?
  }

  function DoWorker(s: State, w: nat, c: Choice): State
    requires Enabled(s, WorkerStep(w, c))
  {
    var pc := s.pcs[w];
    if pc.LoopHead? then
      s.(pcs := s.pcs[w := if s.running then AtQueue else Exited])
    else if pc.AtQueue? then
      if s.stopped then s.(pcs := s.pcs[w := Exited])
      else if s.queue == [] then s.(pcs := s.pcs[w := Asleep])
      else
        s.(pcs := s.pcs[w := CheckCancel(s.queue[0])], queue := s.queue[1..],
           place := s.place[s.queue[0] := WithWorker(w)], popped := s.popped + [s.queue[0]])
    else if pc.SendEvent? then
      // the write to the pipe may fail; its result is ignored
      s.(pcs := s.pcs[w := LoopHead], place := s.place[pc.j := Retired],
         events := if c.fails then s.events else s.events + [(pc.j, pc.st)])
    else
      var (pc', job') := Work(pc, s.jobs[pc.j], c);
      s.(pcs := s.pcs[w := pc'], jobs := s.jobs[pc.j := job'])
  }

  function NewJob(id: nat, kind: JobType, input: Path): Job {
    Job(id, kind, Queued, false, input, NoPath, NoPath, NoResult, 0, "", "")
  }

  function DoMain(s: State, ok: bool, woken: set<nat>): State
    requires Enabled(s, MainStep(ok, woken))
  {
    match s.main
    case Receiving(kind, png) =>
      s.(main := if !ok then Idle
                 else if NeedsExtra(kind) then ReceivingExtra(kind, png, s.nextId)
                 else Creating(kind, Upload(png, "png"), NoPath))
    case ReceivingExtra(kind, png, extra) =>
      s.(main := if !ok then Idle
                 else Creating(kind, Upload(png, "png"), Upload(extra, if kind.EncodeText? then "txt" else "data")))
    case Creating(kind, input, stored) =>
      if !ok || |s.jobs| >= MAX_JOBS then s.(main := Idle)
      else
        s.(main := Created(|s.jobs|, stored), jobs := s.jobs + [NewJob(s.nextId, kind, input)],
           nextId := s.nextId + 1, place := s.place + [WithMain])
    case Created(j, stored) =>
      s.(main := Pushing(j), jobs := if stored == NoPath then s.jobs else s.jobs[j := s.jobs[j].(stored := stored)])
    case Pushing(j) =>
      if !ok || s.stopped then s.(main := PushFailedResult(j))
      else
        s.(main := Idle, queue := s.queue + [j], place := s.place[j := InQueue], pushed := s.pushed + [j],
           pcs := WakeSome(s.pcs, woken))
    case PushFailedResult(j) =>
      s.(main := PushFailedState(j), jobs := s.jobs[j := s.jobs[j].(result := "enqueue failed")])
    case PushFailedState(j) =>
      s.(main := Idle, jobs := s.jobs[j := s.jobs[j].(state := Failed)], place := s.place[j := Retired])
    case Collecting(i, stats) =>
      s.(main := if i < |s.jobs| then Collecting(i + 1, stats.Add(s.jobs[i].state)) else Idle)
    case ReadingFields(j, seen) => s.(main := Idle)
    case Stopping =>
      s.(main := Joining(0), stopped := true, pcs := Broadcast(s.pcs))
    case Joining(k) =>
      s.(main := if k < |s.pcs| then Joining(k + 1) else Finished)
  }

  function Do(s: State, a: Action): State
    requires Enabled(s, a)
  {
    match a
    case WorkerStep(w, c) => DoWorker(s, w, c)
    case Wake(w) => s.(pcs := s.pcs[w := AtQueue])
    case Submit(kind, input) => s.(main := Creating(kind, input, NoPath))
    case BeginUpload(kind) => s.(main := Receiving(kind, s.nextId))
    case MainStep(ok, woken) => DoMain(s, ok, woken)
    case Cancel(j) =>
      // accepted only while the job is queued or running
      if s.jobs[j].state in {Queued, Running} then s.(jobs := s.jobs[j := s.jobs[j].(cancel := true)]) else s
    case BeginStats => s.(main := Collecting(0, Stats(|s.jobs|, 0, 0, 0, 0, 0)))
    case BeginRead(j, doneOnly) =>
      if s.jobs[j].state == Done || (s.jobs[j].state.Terminal() && !doneOnly) then s.(main := ReadingFields(j, s.jobs[j]))
      else s
    case Shutdown => s.(main := Stopping, running := false)
  }

  function Init(n: nat): State {
    State([], 1, [], false, true, seq(n, w => LoopHead), Idle, [], [], [], [])
  }

  // ----- Runs

  /** Every action of the sequence is enabled when its turn comes. */
  predicate Runs(s: State, acts: seq<Action>)
    decreases |acts|
  {
    acts == [] || (Enabled(s, acts[0]) && Runs(Do(s, acts[0]), acts[1..]))
  }

  function After(s: State, acts: seq<Action>): State
    requires Runs(s, acts)
    decreases |acts|
  {
    if acts == [] then s else After(Do(s, acts[0]), acts[1..])
  }
}
