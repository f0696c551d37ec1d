/** How a job comes to its end: what its processing decides is what it ends with, and what it
    must have passed before it can be DONE. */
module EngineOutcomes {
  import opened Engine
  import opened EngineInvariant
  import opened EngineRuns

  // ----- A decision, once taken, stands

  /** What a job is to end with: state, result text, and output if it is DONE and makes one. */
  datatype Decision = Decision(fin: JobState, msg: string, out: Output)

  predicate CarriesOutput(d: Decision, job: Job) {
    d.fin == Done && job.kind.MakesOutput() ==> Output(job.output, job.resultKind, job.size, job.filename) == d.out
  }

  /** A worker at `pc` is about to carry out the decision, or has done so. */
  predicate Bound(d: Decision, pc: Pc, job: Job)
    requires pc.HoldsJob()
  {
    match pc
    case PutOutput(_, out, msg) => d.fin == Done && out == d.out && msg == d.msg
    case PutMeta(_, out, msg) => d.fin == Done && out == d.out && msg == d.msg && job.output == out.path
    case PutResult(_, fin, msg, _) => fin == d.fin && msg == d.msg && CarriesOutput(d, job)
    case PutState(_, fin, _) => fin == d.fin && job.result == d.msg && CarriesOutput(d, job)
    case CheckFailed(_) => job.state == d.fin && job.result == d.msg && CarriesOutput(d, job)
    case ReadState(_) => job.state == d.fin && job.result == d.msg && CarriesOutput(d, job)
    case SendEvent(_, _) => job.state == d.fin && job.result == d.msg && CarriesOutput(d, job)
    case _ => false
  }

  predicate Decided(s: State, j: nat, d: Decision) {
    && j < |s.jobs| == |s.place|
    && match s.place[j]
       case WithWorker(w) => w < |s.pcs| && s.pcs[w].HoldsJob() && s.pcs[w].j == j && Bound(d, s.pcs[w], s.jobs[j])
       case Retired => s.jobs[j].state == d.fin && s.jobs[j].result == d.msg && CarriesOutput(d, s.jobs[j])
       case _ => false
  }

  /** Once job `j` is finished, it is as decided. */
  predicate EndsAs(s: State, j: nat, d: Decision) {
    && j < |s.jobs|
    && (s.jobs[j].state.Terminal() ==>
         s.jobs[j].state == d.fin && s.jobs[j].result == d.msg && CarriesOutput(d, s.jobs[j]))
  }

  lemma WorkKeepsDecision(d: Decision, pc: Pc, job: Job, c: Choice)
    requires pc.HoldsJob() && !pc.SendEvent? && PcOk(pc, job) && Bound(d, pc, job)
    ensures var r := Work(pc, job, c); r.0.HoldsJob() && Bound(d, r.0, r.1)
  {
  }

  lemma WorkerKeepsDecision(s: State, w: nat, c: Choice, j: nat, d: Decision)
    requires Inv(s) && Enabled(s, WorkerStep(w, c)) && Decided(s, j, d)
    ensures Decided(DoWorker(s, w, c), j, d)
  {
    if s.pcs[w].HoldsJob() && s.pcs[w].j == j {
      HolderHolds(s, w, j);
      if s.pcs[w].SendEvent? {
        hide Inv, Enabled, PcOk, Work, CarriesOutput;
      } else {
        hide Inv, DoWorker, Enabled, PcOk, Work, Bound, CarriesOutput;
        WorkKeepsDecision(d, s.pcs[w], s.jobs[j], c);
        WorkKeepsJob(s.pcs[w], s.jobs[j], c);
        HolderWorks(s, w, c, j);
      }
    } else {
      NotPopped(s, w, j);
      WorkerLeavesOthers(s, w, c, j);
      hide Inv, DoWorker, Enabled, Bound, CarriesOutput;
    }
  }

  lemma NotPopped(s: State, w: nat, j: nat)
    requires Inv(s) && w < |s.pcs| && j < |s.jobs| && s.place[j] != InQueue
    ensures !PopsNow(s, w, j)
  {
    hide JobsOk, WorkersOk, HistoryOk, EventsOk, FlagsOk, MainOk;
  }

  lemma StepKeepsDecision(s: State, a: Action, j: nat, d: Decision)
    requires Inv(s) && Enabled(s, a) && Decided(s, j, d)
    ensures Decided(Do(s, a), j, d)
  {
    if a.WorkerStep? {
      WorkerKeepsDecision(s, a.w, a.c, j, d);
    } else if a.MainStep? {
      MainLeavesOthers(s, a.ok, a.woken, j);
      hide Inv, DoMain, Enabled, Bound, CarriesOutput;
    } else {
      WithMainIsHeld(s, j);
      hide Inv, Settled, PcOk, CarriesOutput, NamedFor;
    }
  }

  lemma {:induction false} RunKeepsDecision(s: State, acts: seq<Action>, j: nat, d: Decision)
    requires Inv(s) && Runs(s, acts) && Decided(s, j, d)
    ensures Inv(After(s, acts)) && Decided(After(s, acts), j, d)
    decreases |acts|
  {
    hide Inv, Decided, Enabled, Do;
    if acts != [] {
      StepKeepsInv(s, acts[0]);
      StepKeepsDecision(s, acts[0], j, d);
      RunKeepsDecision(Do(s, acts[0]), acts[1..], j, d);
    }
  }

  lemma DecidedEnd(s: State, j: nat, d: Decision)
    requires Inv(s) && Decided(s, j, d)
    ensures EndsAs(s, j, d)
  {
    if s.place[j].WithWorker? {
      HolderHolds(s, s.place[j].w, j);
    }
    hide Inv, CarriesOutput;
  }

  /** A worker's step that binds it to a decision binds the job for ever. */
  lemma StepDecides(s: State, w: nat, c: Choice, d: Decision, acts: seq<Action>)
    requires Reachable(s) && Enabled(s, WorkerStep(w, c)) && s.pcs[w].HoldsJob() && !s.pcs[w].SendEvent?
    requires var r := Work(s.pcs[w], s.jobs[s.pcs[w].j], c); r.0.HoldsJob() && Bound(d, r.0, r.1)
    requires Runs(DoWorker(s, w, c), acts)
    ensures EndsAs(After(DoWorker(s, w, c), acts), s.pcs[w].j, d)
  {
    var j := s.pcs[w].j;
    ReachableInv(s);
    HolderHolds(s, w, j);
    HolderWorks(s, w, c, j);
    WorkKeepsJob(s.pcs[w], s.jobs[j], c);
    var s1 := DoWorker(s, w, c);
    assert Decided(s1, j, d) by {
      hide Inv, DoWorker, Enabled, PcOk, Work, Bound, CarriesOutput;
    }
    assert Inv(s1) by {
      StepKeepsInv(s, WorkerStep(w, c));
    }
    hide Inv, DoWorker, Enabled, PcOk, Work, Bound, CarriesOutput, EndsAs, Decided;
    RunKeepsDecision(s1, acts, j, d);
    DecidedEnd(After(s1, acts), j, d);
  }

  /** What the codec, validation or capacity call of a job returns is what the job ends with: FAILED
      with the call's message, or DONE with its message and, for an encode or decode, its output. */
  lemma CodecDecides(s: State, w: nat, c: Choice, acts: seq<Action>)
    requires Reachable(s) && Enabled(s, WorkerStep(w, c)) && s.pcs[w].InCodec? && Runs(Do(s, WorkerStep(w, c)), acts)
    ensures EndsAs(After(Do(s, WorkerStep(w, c)), acts), s.pcs[w].j,
                   Decision(if c.fails then Failed else Done, c.msg, c.out))
  {
    hide Reachable, Enabled, DoWorker, Runs, After, EndsAs;
    StepDecides(s, w, c, Decision(if c.fails then Failed else Done, c.msg, c.out), acts);
  }

  /** An encode whose preparation fails ends FAILED with the failure's message; otherwise an encode
      or decode that finds its cancel flag set ends CANCELED. */
  lemma PreparationDecides(s: State, w: nat, c: Choice, acts: seq<Action>)
    requires Reachable(s) && Enabled(s, WorkerStep(w, c)) && s.pcs[w].BeforeCodec? && Runs(Do(s, WorkerStep(w, c)), acts)
    ensures var j := s.pcs[w].j; var t := After(Do(s, WorkerStep(w, c)), acts); var job := s.jobs[j];
      && (c.fails && job.kind != Decode ==> EndsAs(t, j, Decision(Failed, c.msg, c.out)))
      && (job.cancel && (!c.fails || job.kind == Decode) ==> EndsAs(t, j, Decision(Canceled, "job canceled", c.out)))
  {
    var job := s.jobs[s.pcs[w].j];
    hide Reachable, Enabled, DoWorker, Runs, After, EndsAs;
    if c.fails && job.kind != Decode {
      StepDecides(s, w, c, Decision(Failed, c.msg, c.out), acts);
    } else if job.cancel {
      StepDecides(s, w, c, Decision(Canceled, "job canceled", c.out), acts);
    }
  }

  /** A TEXT job that finds its flag set at any of its tests ends CANCELED, one that passes the
      fifth ends DONE; a job of no known type ends FAILED; a job canceled before its start ends
      CANCELED. */
  lemma TestsDecide(s: State, w: nat, c: Choice, acts: seq<Action>)
    requires Reachable(s) && Enabled(s, WorkerStep(w, c)) && s.pcs[w].HoldsJob() && !s.pcs[w].SendEvent?
    requires Runs(Do(s, WorkerStep(w, c)), acts)
    ensures var pc := s.pcs[w]; var j := pc.j; var t := After(Do(s, WorkerStep(w, c)), acts); var job := s.jobs[j];
      && ((pc.TextStep? || pc.CheckCancel?) && job.cancel ==> EndsAs(t, j, Decision(Canceled, "job canceled", c.out)))
      && (pc == TextStep(j, 4) && !job.cancel ==> EndsAs(t, j, Decision(Done, c.msg, c.out)))
      && (pc.Dispatch? && job.kind == UnknownType ==> EndsAs(t, j, Decision(Failed, "unknown job type", c.out)))
  {
    var pc, job := s.pcs[w], s.jobs[s.pcs[w].j];
    hide Reachable, Enabled, DoWorker, Runs, After, EndsAs;
    if pc.TextStep? {
      TextIsText(s, w);
    }
    if (pc.TextStep? || pc.CheckCancel?) && job.cancel {
      StepDecides(s, w, c, Decision(Canceled, "job canceled", c.out), acts);
    } else if pc == TextStep(pc.j, 4) {
      StepDecides(s, w, c, Decision(Done, c.msg, c.out), acts);
    } else if pc.Dispatch? && job.kind == UnknownType {
      StepDecides(s, w, c, Decision(Failed, "unknown job type", c.out), acts);
    }
  }

  lemma TextIsText(s: State, w: nat)
    requires Reachable(s) && w < |s.pcs| && s.pcs[w].TextStep?
    ensures s.pcs[w].j < |s.jobs| && s.jobs[s.pcs[w].j].kind == TextJob
  {
    ReachableInv(s);
    HolderHolds(s, w, s.pcs[w].j);
    hide Inv;
  }

  // ----- What a job must pass before it can be DONE

  datatype Gate =
    | FirstTest             // the cancel test after the pop
    | TextTest(k: nat)      // one of the five cancel tests of a TEXT job
    | CodecTest             // the cancel test of an encode or decode
    | CodecCall             // the codec, validation or capacity call

  predicate Applies(g: Gate, kind: JobType) {
    match g
    case FirstTest => true
    case TextTest(k) => kind == TextJob && k < 5
    case CodecTest => kind.MakesOutput()
    case CodecCall => kind != TextJob
  }

  /** At this point, with this choice, the job passes the gate: a test finds no cancel flag, the call succeeds. */
  predicate Passes(g: Gate, pc: Pc, job: Job, c: Choice) {
    match g
    case FirstTest => pc.CheckCancel? && !job.cancel
    case TextTest(k) => pc.TextStep? && pc.step == k && !job.cancel
    case CodecTest => pc.BeforeCodec? && !job.cancel
    case CodecCall => pc.InCodec? && !c.fails
  }

  /** The gate is still ahead, or the job is not going to be DONE. */
  predicate Ahead(g: Gate, pc: Pc, job: Job)
    requires pc.HoldsJob()
  {
    match pc
    case CheckCancel(_) => true
    case StartRun(_) => g != FirstTest
    case Dispatch(_) => g != FirstTest
    case TextStep(_, step) => g.TextTest? && step <= g.k
    case BeforeCodec(_) => g == CodecTest || g == CodecCall
    case InCodec(_) => g == CodecCall
    case PutOutput(_, _, _) => false
    case PutMeta(_, _, _) => false
    case PutResult(_, fin, _, _) => fin != Done
    case PutState(_, fin, _) => fin != Done
    case CheckFailed(_) => job.state != Done
    case ReadState(_) => job.state != Done
    case SendEvent(_, st) => st != Done
  }

  predicate AheadIn(s: State, j: nat, g: Gate) {
    j < |s.jobs| && Applies(g, s.jobs[j].kind) ==>
      && j < |s.place|
      && match s.place[j]
         case WithMain => true
         case InQueue => true
         case WithWorker(w) => w < |s.pcs| && s.pcs[w].HoldsJob() && s.pcs[w].j == j && Ahead(g, s.pcs[w], s.jobs[j])
         case Retired => s.jobs[j].state != Done
  }

  /** The action is the step in which job `j` passes the gate. */
  predicate PassesNow(s: State, a: Action, j: nat, g: Gate) {
    && a.WorkerStep? && a.w < |s.pcs| && s.pcs[a.w].HoldsJob() && s.pcs[a.w].j == j && j < |s.jobs|
    && Passes(g, s.pcs[a.w], s.jobs[j], a.c)
  }

  predicate PassedAt(s: State, acts: seq<Action>, i: nat, j: nat, g: Gate)
    requires Runs(s, acts) && i < |acts|
    decreases i
  {
    if i == 0 then PassesNow(s, acts[0], j, g) else PassedAt(Do(s, acts[0]), acts[1..], i - 1, j, g)
  }

  /** Somewhere in the run job `j` passes the gate. */
  predicate Passed(s: State, acts: seq<Action>, j: nat, g: Gate)
    requires Runs(s, acts)
  {
    exists i :: 0 <= i < |acts| && PassedAt(s, acts, i, j, g)
  }

  lemma WorkKeepsAhead(g: Gate, pc: Pc, job: Job, c: Choice)
    requires pc.HoldsJob() && !pc.SendEvent? && PcOk(pc, job) && Applies(g, job.kind) && Ahead(g, pc, job)
    requires !Passes(g, pc, job, c)
    ensures var r := Work(pc, job, c); r.0.HoldsJob() && Ahead(g, r.0, r.1) && r.1.kind == job.kind
  {
  }

  lemma WorkerKeepsAhead(s: State, w: nat, c: Choice, j: nat, g: Gate)
    requires Inv(s) && Enabled(s, WorkerStep(w, c)) && j < |s.jobs| && Applies(g, s.jobs[j].kind) && AheadIn(s, j, g)
    requires !PassesNow(s, WorkerStep(w, c), j, g)
    ensures AheadIn(DoWorker(s, w, c), j, g)
  {
    assert w < |s.pcs|;
    hide Inv, DoWorker, Enabled, PcOk, Work, Ahead, Applies, Passes;
    if s.pcs[w].HoldsJob() && s.pcs[w].j == j {
      HolderKeepsAhead(s, w, c, j, g);
    } else if PopsNow(s, w, j) {
      PoppedIsAhead(s, w, c, j, g);
    } else {
      WorkerLeavesOthers(s, w, c, j);
    }
  }

  lemma HolderKeepsAhead(s: State, w: nat, c: Choice, j: nat, g: Gate)
    requires Inv(s) && Enabled(s, WorkerStep(w, c)) && j < |s.jobs| && Applies(g, s.jobs[j].kind) && AheadIn(s, j, g)
    requires !PassesNow(s, WorkerStep(w, c), j, g) && s.pcs[w].HoldsJob() && s.pcs[w].j == j
    ensures AheadIn(DoWorker(s, w, c), j, g)
  {
    if s.pcs[w].SendEvent? {
      hide Inv, PcOk, Work, Applies, Passes, Plausible;
      HolderHolds(s, w, j);
    } else {
      hide Inv, DoWorker, Enabled, PcOk, Work, Ahead, Applies, Passes;
      HolderHolds(s, w, j);
      WorkKeepsAhead(g, s.pcs[w], s.jobs[j], c);
      WorkKeepsJob(s.pcs[w], s.jobs[j], c);
      HolderWorks(s, w, c, j);
    }
  }

  lemma PoppedIsAhead(s: State, w: nat, c: Choice, j: nat, g: Gate)
    requires Inv(s) && Enabled(s, WorkerStep(w, c)) && j < |s.jobs| && PopsNow(s, w, j)
    ensures AheadIn(DoWorker(s, w, c), j, g)
  {
    hide JobsOk, WorkersOk, HistoryOk, EventsOk, FlagsOk, MainOk, Applies, Work, Plausible;
  }

  lemma MainKeepsAhead(s: State, ok: bool, woken: set<nat>, j: nat, g: Gate)
    requires Inv(s) && Enabled(s, MainStep(ok, woken)) && j < |s.jobs| && AheadIn(s, j, g)
    ensures AheadIn(DoMain(s, ok, woken), j, g)
  {
    if s.place[j] == WithMain {
      hide JobOk, WorkersOk, QueueOk, HistoryOk, EventsOk, FlagsOk, Ahead, Applies, SignalWakes;
      WithMainIsHeld(s, j);
    } else {
      hide Inv, DoMain, Enabled, Ahead, Applies;
      MainLeavesOthers(s, ok, woken, j);
    }
  }

  lemma OthersKeepAhead(s: State, a: Action, j: nat, g: Gate)
    requires Inv(s) && Enabled(s, a) && !a.WorkerStep? && j < |s.jobs| && AheadIn(s, j, g)
    ensures AheadIn(Do(s, a), j, g)
  {
    hide Inv, Applies, DoMain;
    if a.MainStep? {
      MainKeepsAhead(s, a.ok, a.woken, j, g);
    } else {
      hide SignalWakes;
    }
  }

  lemma NewJobIsAhead(s: State, a: Action, j: nat, g: Gate)
    requires Inv(s) && Enabled(s, a) && j >= |s.jobs|
    ensures AheadIn(Do(s, a), j, g)
  {
    hide JobsOk, JobOk, WorkersOk, QueueOk, HistoryOk, EventsOk, FlagsOk, Ahead, Applies, Work, Plausible, SignalWakes;
    if a.WorkerStep? {
      hide DoMain;
    } else {
      hide DoWorker;
    }
  }

  lemma StepKeepsAhead(s: State, a: Action, j: nat, g: Gate)
    requires Inv(s) && Enabled(s, a) && AheadIn(s, j, g) && !PassesNow(s, a, j, g)
    ensures AheadIn(Do(s, a), j, g)
  {
    if j >= |s.jobs| {
      NewJobIsAhead(s, a, j, g);
    } else {
      StepOnJob(s, a, j);
      if Applies(g, s.jobs[j].kind) {
        if a.WorkerStep? {
          WorkerKeepsAhead(s, a.w, a.c, j, g);
        } else {
          OthersKeepAhead(s, a, j, g);
        }
      }
      hide Inv, Do, Enabled, Applies, PassesNow;
    }
  }

  /** A job that is DONE has passed every gate that applies to it. */
  lemma {:induction false} DoneHasPassed(s: State, acts: seq<Action>, j: nat, g: Gate)
    requires Inv(s) && Runs(s, acts) && AheadIn(s, j, g)
    requires var t := After(s, acts); j < |t.jobs| && t.jobs[j].state == Done && Applies(g, t.jobs[j].kind)
    ensures Passed(s, acts, j, g)
    decreases |acts|
  {
    hide Inv, Do, Enabled, AheadIn, PassesNow, Applies;
    if acts == [] {
      AheadIsNotDone(s, j, g);
      assert false;
    } else if PassesNow(s, acts[0], j, g) {
      assert PassedAt(s, acts, 0, j, g);
    } else {
      var s1 := Do(s, acts[0]);
      StepKeepsInv(s, acts[0]);
      StepKeepsAhead(s, acts[0], j, g);
      DoneHasPassed(s1, acts[1..], j, g);
      var i :| 0 <= i < |acts[1..]| && PassedAt(s1, acts[1..], i, j, g);
      assert PassedAt(s, acts, i + 1, j, g);
    }
  }

  lemma AheadIsNotDone(s: State, j: nat, g: Gate)
    requires Inv(s) && AheadIn(s, j, g) && j < |s.jobs| && Applies(g, s.jobs[j].kind)
    ensures s.jobs[j].state != Done
  {
    WithMainIsHeld(s, j);
    if s.place[j].WithWorker? {
      HolderHolds(s, s.place[j].w, j);
    }
    hide Inv, Settled, NamedFor, Applies;
  }

  /** In a run of the server from its start: before a job is DONE, it has passed the cancel test
      after its pop; a TEXT job each of its five cancel tests; an encode or decode its own cancel
      test; and every other job a call that succeeded. */
  lemma DonePassedEverything(n: nat, acts: seq<Action>, j: nat)
    requires Runs(Init(n), acts) && var t := After(Init(n), acts); j < |t.jobs| && t.jobs[j].state == Done
    ensures var kind := After(Init(n), acts).jobs[j].kind;
      && Passed(Init(n), acts, j, FirstTest)
      && (kind == TextJob ==> forall k: nat :: k < 5 ==> Passed(Init(n), acts, j, TextTest(k)))
      && (kind.MakesOutput() ==> Passed(Init(n), acts, j, CodecTest))
      && (kind != TextJob ==> Passed(Init(n), acts, j, CodecCall))
  {
    hide Runs, After, Passed;
    InitInv(n);
    var kind := After(Init(n), acts).jobs[j].kind;
    DoneHasPassed(Init(n), acts, j, FirstTest);
    if kind == TextJob {
      forall k: nat | k < 5
        ensures Passed(Init(n), acts, j, TextTest(k))
      {
        DoneHasPassed(Init(n), acts, j, TextTest(k));
      }
    } else {
      DoneHasPassed(Init(n), acts, j, CodecCall);
    }
    if kind.MakesOutput() {
      DoneHasPassed(Init(n), acts, j, CodecTest);
    }
  }

  // ----- Events

  /** No worker's write to the event pipe fails in this run. */
  predicate WritesSucceed(s: State, acts: seq<Action>)
    requires Runs(s, acts)
    decreases |acts|
  {
    acts == [] ||
    (&& (acts[0].WorkerStep? && s.pcs[acts[0].w].SendEvent? ==> !acts[0].c.fails)
     && WritesSucceed(Do(s, acts[0]), acts[1..]))
  }

  /** Every job handed out is still with its worker, or has had its event. */
  predicate EventsComplete(s: State) {
    forall j :: j in s.popped ==>
      j < |s.place| && (s.place[j].WithWorker? || exists e :: 0 <= e < |s.events| && s.events[e].0 == j)
  }

  lemma WorkerKeepsComplete(s: State, w: nat, c: Choice)
    requires Inv(s) && Enabled(s, WorkerStep(w, c)) && EventsComplete(s)
    requires s.pcs[w].SendEvent? ==> !c.fails
    ensures EventsComplete(DoWorker(s, w, c))
  {
    hide JobsOk, WorkersOk, QueueOk, HistoryOk, EventsOk, FlagsOk, MainOk, Work, Plausible;
    var s' := DoWorker(s, w, c);
    assert s.events <= s'.events;
    forall j | j in s'.popped
      ensures j < |s'.place| && (s'.place[j].WithWorker? || exists e :: 0 <= e < |s'.events| && s'.events[e].0 == j)
    {
      if s.pcs[w].SendEvent? && s.pcs[w].j == j {
        assert s'.events[|s.events|].0 == j;
      } else if j in s.popped && !s.place[j].WithWorker? {
        var e :| 0 <= e < |s.events| && s.events[e].0 == j;
        assert s'.events[e].0 == j;
      }
    }
  }

  lemma PoppedIsNotWithMain(s: State, j: nat)
    requires Inv(s) && j in s.popped
    ensures j < |s.place| && s.place[j] != WithMain
  {
    assert s.pushed == s.popped + s.queue;
    hide JobsOk, WorkersOk, QueueOk, EventsOk, FlagsOk, MainOk;
    var i :| 0 <= i < |s.popped| && s.popped[i] == j;
    assert s.pushed[i] == j;
  }

  lemma StepKeepsComplete(s: State, a: Action)
    requires Inv(s) && Enabled(s, a) && EventsComplete(s)
    requires a.WorkerStep? && s.pcs[a.w].SendEvent? ==> !a.c.fails
    ensures EventsComplete(Do(s, a))
  {
    if a.WorkerStep? {
      WorkerKeepsComplete(s, a.w, a.c);
    } else if a.MainStep? {
      MainKeepsHistory(s, a.ok, a.woken);
      forall j | j in s.popped
        ensures j < |s.jobs| && s.place[j] != WithMain && j < |Do(s, a).place| && Do(s, a).place[j] == s.place[j]
      {
        PoppedIsNotWithMain(s, j);
        MainLeavesOthers(s, a.ok, a.woken, j);
      }
      hide Inv, DoMain, Enabled;
    } else {
      hide Inv;
    }
  }

  /** As long as no write fails, every job that was handed out and is no longer with its worker has
      had its event. */
  lemma {:induction false} EveryEventIsSent(s: State, acts: seq<Action>)
    requires Inv(s) && EventsComplete(s) && Runs(s, acts) && WritesSucceed(s, acts)
    ensures EventsComplete(After(s, acts))
    decreases |acts|
  {
    hide Inv, EventsComplete, Enabled, Do;
    if acts != [] {
      StepKeepsInv(s, acts[0]);
      StepKeepsComplete(s, acts[0]);
      EveryEventIsSent(Do(s, acts[0]), acts[1..]);
    }
  }

  lemma InitEventsComplete(n: nat)
    ensures EventsComplete(Init(n))
  {
  }
}
