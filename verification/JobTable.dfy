/** The job table: a fixed array of job records with a linear lookup. */
module JobTable {
  import opened Engine
  import opened Util

  const MAX_JOB_PAYLOAD := 1024
  const MAX_JOB_PATH := 512
  const MAX_JOB_ADDR := 64

  /** What a command says about the job it asks for; a missing string is an empty one. */
  datatype Order = Order(ownerFd: int, ownerAddr: string, kind: JobType, payload: string, inputPath: string)

  /** The order as the record's buffers keep it. */
  function Kept(order: Order): Order {
    order.(ownerAddr := Clipped(order.ownerAddr, MAX_JOB_ADDR), payload := Clipped(order.payload, MAX_JOB_PAYLOAD),
           inputPath := Clipped(order.inputPath, MAX_JOB_PATH))
  }

  /** Numbers and kind are kept as they are; strings are kept whole when they fit their buffers with
      a final NUL, and are cut to what fits otherwise. */
  lemma KeptFields(order: Order)
    ensures var k := Kept(order);
      && k.ownerFd == order.ownerFd && k.kind == order.kind
      && k.ownerAddr == (if |order.ownerAddr| <= 63 then order.ownerAddr else order.ownerAddr[..63])
      && k.payload == (if |order.payload| <= 1023 then order.payload else order.payload[..1023])
      && k.inputPath == (if |order.inputPath| <= 511 then order.inputPath else order.inputPath[..511])
  {
  }

  class Record {
    const id: nat
    const order: Order
    var state: JobState
    var cancelRequested: bool
    var resultKind: ResultKind
    var resultSize: nat
    var storedPath: string
    var outputPath: string
    var resultFilename: string
    var result: string

    /** Zero-filled except for what the order says. */
    constructor (id: nat, order: Order)
      ensures this.id == id && this.order == order && state == Queued && !cancelRequested
      ensures resultKind == NoResult && resultSize == 0
      ensures storedPath == outputPath == resultFilename == result == ""
    {
      this.id, this.order := id, order;
      state, cancelRequested := Queued, false;
      resultKind, resultSize := NoResult, 0;
      storedPath, outputPath, resultFilename, result := "", "", "", "";
    }

    /** Sets the cancel flag of an unfinished job; says whether it did. */
    method RequestCancel() returns (ok: bool)
      modifies this`cancelRequested
      ensures ok == (state == Queued || state == Running)
      ensures state == old(state) && cancelRequested == (ok || old(cancelRequested))
    {
      ok := false;
      if state == Queued || state == Running {
        cancelRequested := true;
        ok := true;
      }
    }
  }

  /** How many of the states are `st`. */
  function Count(states: seq<JobState>, st: JobState): nat
    decreases |states|
  {
    if states == [] then 0
    else Count(states[..|states| - 1], st) + if states[|states| - 1] == st then 1 else 0
  }

  /** Each job is in exactly one of the five states, so the five counts add up. */
  lemma {:induction false} CountsAddUp(states: seq<JobState>)
    ensures Count(states, Queued) + Count(states, Running) + Count(states, Done) + Count(states, Failed)
            + Count(states, Canceled) == |states|
    decreases |states|
  {
    if states != [] {
      CountsAddUp(states[..|states| - 1]);
    }
  }

  /** The statistics of `total` jobs of which those in `states` have been counted. */
  function Tally(total: nat, states: seq<JobState>): Stats {
    Stats(total, Count(states, Queued), Count(states, Running), Count(states, Done),
          Count(states, Failed), Count(states, Canceled))
  }

  lemma EmptyTally(total: nat)
    ensures Tally(total, []) == Stats(total, 0, 0, 0, 0, 0)
  {
  }

  lemma TallyNext(total: nat, states: seq<JobState>, st: JobState)
    ensures Tally(total, states + [st]) == Tally(total, states).Add(st)
  {
    assert (states + [st])[..|states|] == states;
  }

  lemma TallySum(total: nat, states: seq<JobState>)
    ensures Tally(total, states).Sum() == |states| && Tally(total, states).total == total
  {
    CountsAddUp(states);
  }

  class Table {
    const jobs: array<Record?>
    var count: nat
    var nextId: nat

    /** Ids are dense and no record is stored twice. */
    ghost predicate Valid()
      reads this, jobs
    {
      && jobs.Length == MAX_JOBS
      && count <= MAX_JOBS && nextId == count + 1
      && forall i :: 0 <= i < count ==> jobs[i] != null && jobs[i].id == i + 1
    }

    constructor ()
      ensures Valid() && count == 0 && fresh(jobs)
    {
      jobs := new Record?[MAX_JOBS](i => null);
      count, nextId := 0, 1;
    }

    /** The states of the first `n` jobs. */
    ghost function States(n: nat): (s: seq<JobState>)
      requires Valid() && n <= count
      reads this, jobs, jobs[..]
      ensures |s| == n
      ensures forall i :: 0 <= i < n ==> s[i] == jobs[i].state
    {
      if n == 0 then [] else States(n - 1) + [jobs[n - 1].state]
    }

    /** Adds a job under the next id, unless allocation fails or the table is full. */
    method CreateJob(order: Order, canAllocate: bool) returns (job: Record?)
      requires Valid()
      modifies this, jobs
      ensures Valid()
      ensures (job != null) == (canAllocate && old(count) < MAX_JOBS)
      ensures job == null ==> count == old(count) && jobs[..] == old(jobs[..])
      ensures job != null ==>
        && fresh(job) && job.id == old(nextId) && job.order == Kept(order)
        && job.state == Queued && !job.cancelRequested && job.resultKind == NoResult && job.resultSize == 0
        && job.storedPath == job.outputPath == job.resultFilename == job.result == ""
        && count == old(count) + 1 && jobs[..count] == old(jobs[..count]) + [job]
    {
      if !canAllocate || count >= MAX_JOBS {
        return null;
      }
      job := new Record(nextId, Kept(order));
      nextId := nextId + 1;
      jobs[count] := job;
      count := count + 1;
    }

    /** The linear scan finds exactly the job at position id - 1. */
    method Find(jobId: nat) returns (job: Record?)
      requires Valid()
      ensures job == if 1 <= jobId <= count then jobs[jobId - 1] else null
    {
      job := null;
      if jobId == 0 {
        return;
      }
      var i := 0;
      while i < count
        invariant i <= count
        invariant job == null
        invariant jobId > i
      {
        if jobs[i] != null && jobs[i].id == jobId {
          job := jobs[i];
          break;
        }
        i := i + 1;
      }
    }

    /** The aggregate counters. */
    method CollectStats() returns (stats: Stats)
      requires Valid()
      ensures stats == Tally(count, States(count))
      ensures stats.total == count && stats.Sum() == stats.total
    {
      hide Tally;
      stats := Stats(count, 0, 0, 0, 0, 0);
      EmptyTally(count);
      var i := 0;
      while i < count
        invariant i <= count
        invariant stats == Tally(count, States(i))
      {
        TallyNext(count, States(i), jobs[i].state);
        stats := stats.Add(jobs[i].state);
        i := i + 1;
      }
      TallySum(count, States(count));
    }
  }
}
