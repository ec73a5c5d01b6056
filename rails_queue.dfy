/**
 * The prototype queue server of rails/image_to_text_server/app.py: the jobs
 * are a JSON list kept in a file. The enqueue endpoint appends to it and the
 * worker thread takes its head, each reading, changing and writing back the
 * whole list. The file's list is the `jobs` field of `FileQueue`; the worker's
 * `time.sleep` becomes the pause a step returns.
 */
module RailsQueue {
  import opened Wrappers

  datatype Job = Job(jobName: string, data: string)

  const AddedStatus := "Job added to queue"
  /** The simulated processing time of one job, in seconds. */
  const ProcessingPause: nat := 2
  /** The wait after finding the queue empty, in seconds. */
  const EmptyPause: nat := 5

  class FileQueue {
    var jobs: seq<Job>

    /** Start-up: the list already in the file, or a new file holding the empty list. */
    constructor (existing: Option<seq<Job>>)
      ensures jobs == if existing.Some? then existing.value else []
    {
      jobs := if existing.Some? then existing.value else [];
    }

    /** `enqueue_job`: append the job and report it queued. */
    method Enqueue(job: Job) returns (status: string)
      modifies this
      ensures jobs == old(jobs) + [job]
      ensures status == AddedStatus
    {
      jobs := jobs + [job];
      status := AddedStatus;
    }

    /** One pass of `process_jobs`: take the first job, or wait when there is none. */
    method WorkStep() returns (processed: Option<Job>, pause: nat)
      modifies this
      ensures old(jobs) == [] ==> processed == None && pause == EmptyPause && jobs == old(jobs)
      ensures old(jobs) != [] ==> processed == Some(old(jobs)[0]) && pause == ProcessingPause && jobs == old(jobs)[1..]
    {
      if jobs != [] {
        processed := Some(jobs[0]);
        jobs := jobs[1..];
        pause := ProcessingPause;
      } else {
        processed := None;
        pause := EmptyPause;
      }
    }

    /** Requests and worker steps in the order they run. */
    method Serve(ops: seq<Op>) returns (processed: seq<Job>)
      modifies this
      ensures processed == Replay(old(jobs), ops).processed
      ensures jobs == Replay(old(jobs), ops).remaining
    {
      processed := [];
      var i := 0;
      while i < |ops|
        invariant 0 <= i <= |ops|
        invariant processed + Replay(jobs, ops[i..]).processed == Replay(old(jobs), ops).processed
        invariant Replay(jobs, ops[i..]).remaining == Replay(old(jobs), ops).remaining
      {
        assert ops[i..][1..] == ops[i + 1..];
        match ops[i] {
          case Enq(job) =>
            var _ := Enqueue(job);
          case Work =>
            var taken, _ := WorkStep();
            if taken.Some? {
              processed := processed + [taken.value];
            }
        }
        i := i + 1;
      }
    }
  }

  /** An enqueue request or a pass of the worker loop. */
  datatype Op = Enq(job: Job) | Work

  datatype Outcome = Outcome(processed: seq<Job>, remaining: seq<Job>)

  /** The jobs the requests enqueue, in request order. */
  function Enqueued(ops: seq<Op>): seq<Job>
    decreases |ops|
  {
    if ops == [] then []
    else (if ops[0].Enq? then [ops[0].job] else []) + Enqueued(ops[1..])
  }

  /** The jobs processed, in order, and the list left in the file after `ops` on the list `q`. */
  function Replay(q: seq<Job>, ops: seq<Op>): Outcome
    decreases |ops|
  {
    if ops == [] then Outcome([], q)
    else match ops[0]
      case Enq(job) => Replay(q + [job], ops[1..])
      case Work =>
        if q == [] then Replay(q, ops[1..])
        else
          var r := Replay(q[1..], ops[1..]);
          Outcome([q[0]] + r.processed, r.remaining)
  }

  /**
   * The queue is first in, first out: what was processed followed by what is
   * left is exactly the initial list followed by the enqueued jobs, so no job
   * is lost, duplicated or overtaken.
   */
  lemma {:induction false} ReplayFifo(q: seq<Job>, ops: seq<Op>)
    ensures Replay(q, ops).processed + Replay(q, ops).remaining == q + Enqueued(ops)
    decreases |ops|
  {
    if ops != [] {
      var rest := ops[1..];
      match ops[0]
      case Enq(job) =>
        ReplayFifo(q + [job], rest);
        assert Enqueued(ops) == [job] + Enqueued(rest);
        assert (q + [job]) + Enqueued(rest) == q + ([job] + Enqueued(rest));
      case Work =>
        assert Enqueued(ops) == Enqueued(rest);
        if q == [] {
          ReplayFifo(q, rest);
        } else {
          ReplayFifo(q[1..], rest);
          var r := Replay(q[1..], rest);
          assert [q[0]] + r.processed + r.remaining == [q[0]] + (r.processed + r.remaining);
          assert [q[0]] + q[1..] == q;
        }
    }
  }

  /** `n` passes of the worker loop. */
  function Passes(n: nat): (ops: seq<Op>)
    ensures |ops| == n && forall i :: 0 <= i < n ==> ops[i] == Work
  {
    seq(n, _ => Work)
  }

  /** One pass per queued job empties the file, processing the jobs in list order. */
  lemma {:induction false} Drain(q: seq<Job>)
    ensures Replay(q, Passes(|q|)) == Outcome(q, [])
    decreases |q|
  {
    if q != [] {
      var ops := Passes(|q|);
      assert ops[0] == Work && ops[1..] == Passes(|q| - 1);
      Drain(q[1..]);
      assert [q[0]] + q[1..] == q;
    }
  }
}
