/** The upload-completion queue and its processing step, with the tables and the store updated in place. */
module UploadJobs {
  import opened Octets
  import opened Options
  import opened UploadJobsRuns
  import opened UploadJobsSpec

  class UploadCompletionQueue {
    const setup: Setup
    var running: bool
    var jobs: seq<Job>
    var media: seq<Row>
    var objects: map<string, Bytes>

    ghost function S(worker: Worker): State
      reads this
    {
      State(jobs, media, objects, worker)
    }

    constructor (setup: Setup)
      ensures !running && this.setup == setup && S(Down) == Initial()
    {
      this.setup := setup;
      running, jobs, media, objects := false, [], [], map[];
    }

    /** Recovery on start: jobs left running go back to the queue, unless that write fails. */
    method Start(requeued: bool)
      modifies this
      ensures running && media == old(media) && objects == old(objects)
      ensures old(running) ==> jobs == old(jobs)
      ensures !old(running) ==> S(Idle) == Step(setup, old(S(Down)), UploadJobsSpec.Start(requeued))
    {
      if running {
        return;
      }
      running := true;
      if requeued {
        jobs := Requeue(jobs);
      }
    }

    method DeleteFile(key: string, deleted: bool)
      modifies this`objects
      ensures objects == if deleted then old(objects) - {key} else old(objects)
    {
      if deleted {
        objects := objects - {key};
      }
    }

    /** What processing comes to: a new row, a duplicate of one, or an exception. */
    method ProcessUploadCompletionJob(j: nat, a: Answers) returns (outcome: Worker)
      requires j < |jobs|
      modifies this`media, this`objects
      ensures S(outcome) == DoProcess(setup, old(S(Processing(j))), j, a)
    {
      var key := jobs[j].key;
      if jobs[j].folder.Some? && a.folderGone {
        DeleteFile(key, a.deleted);
        return Failing(j);
      }
      if !a.readable || key !in objects {
        return Failing(j);
      }
      var checksum := setup.hash(objects[key]);
      var existing := RowWith(media, checksum, |media|);
      if existing.Some? {
        DeleteFile(key, a.deleted);
        return Found(j, existing.value);
      }
      if !a.inserted {
        return Failing(j);
      }
      var id := |media|;
      media := media + [Row(key, checksum)];
      outcome := if a.finished then Created(j, id) else Failing(j);
    }

    /** Writes a job's last state; says whether the write went through. */
    method MarkJob(j: nat, state: JobState, written: bool)
      requires j < |jobs|
      modifies this`jobs
      ensures jobs == if written then SetState(old(jobs), j, state) else old(jobs)
    {
      if written {
        jobs := SetState(jobs, j, state);
      }
    }

    /** The last state of the job at hand: its outcome, or `failed` when that cannot be written. */
    method MarkOutcome(outcome: Worker, marked: bool, failMarked: bool)
      requires outcome.Failing? || outcome.Created? || outcome.Found?
      requires outcome.job < |jobs|
      modifies this`jobs
      ensures S(Idle) == DoMark(DoMark(old(S(outcome)), marked), failMarked)
    {
      if outcome.Failing? {
        MarkJob(outcome.job, Failed, marked);
      } else {
        MarkJob(outcome.job, if outcome.Created? then Done(outcome.media) else Duplicate(outcome.existing), marked);
        if !marked {
          MarkJob(outcome.job, Failed, failMarked);
        }
      }
    }

    /**
     * Claims and processes one job and writes its last state; when writing an outcome fails, the
     * job is marked failed instead, and when that fails too it stays running.
     */
    method RunOne(a: Answers, marked: bool, failMarked: bool) returns (claimed: bool)
      modifies this`jobs, this`media, this`objects
      ensures claimed <==> NextQueued(old(jobs), |old(jobs)|).Some?
      ensures S(Idle) == Run(setup, old(S(Idle)), [Claim, Process(a), Mark(marked), Mark(failMarked)])
      ensures Inv(setup, old(S(Idle))) ==> Inv(setup, S(Idle))
    {
      ghost var s0 := S(Idle);
      RunOfFour(setup, s0, a, marked, failMarked);
      var job := NextQueued(jobs, |jobs|);
      if job.None? {
        return false;
      }
      var j := job.value;
      jobs := SetState(jobs, j, Running);
      var outcome := ProcessUploadCompletionJob(j, a);
      assert S(outcome) == Step(setup, Step(setup, s0, Claim), Process(a));
      MarkOutcome(outcome, marked, failMarked);
      claimed := true;
    }
  }

  lemma RunOfFour(c: Setup, s: State, a: Answers, marked: bool, failMarked: bool)
    ensures Run(c, s, [Claim, Process(a), Mark(marked), Mark(failMarked)])
         == DoMark(DoMark(Step(c, Step(c, s, Claim), Process(a)), marked), failMarked)
    ensures Inv(c, s) ==> Inv(c, Run(c, s, [Claim, Process(a), Mark(marked), Mark(failMarked)]))
  {
    var ops := [Claim, Process(a), Mark(marked), Mark(failMarked)];
    assert ops == [Claim, Process(a), Mark(marked)] + [Mark(failMarked)];
    RunAppends(c, s, [Claim, Process(a), Mark(marked)], [Mark(failMarked)]);
    RunOfThree(c, s, Claim, Process(a), Mark(marked));
    var t := DoMark(Step(c, Step(c, s, Claim), Process(a)), marked);
    assert Run(c, t, [Mark(failMarked)]) == Run(c, DoMark(t, failMarked), []);
    if Inv(c, s) {
      NoStartIsSafe(c, s, ops);
      SafeRunsKeep(c, s, ops);
    }
  }
}
