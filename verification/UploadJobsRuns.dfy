/** Whole runs of the upload-completion jobs, with crashes and restarts. */
module UploadJobsRuns {
  import opened Octets
  import opened Options
  import opened UploadJobsSpec

  /** Every restart of the run that requeues finds no running job owning a media row. */
  ghost predicate RestartsSafely(c: Setup, s: State, ops: seq<Op>)
    decreases |ops|
  {
    ops == [] ||
    ((ops[0] == Start(true) && s.worker.Down? ==> RestartSafe(s)) && RestartsSafely(c, Step(c, s, ops[0]), ops[1..]))
  }

  lemma {:induction false} SafeRunsKeep(c: Setup, s: State, ops: seq<Op>)
    requires Inv(c, s) && RestartsSafely(c, s, ops)
    ensures Inv(c, Run(c, s, ops))
    decreases |ops|
  {
    if ops != [] {
      StepKeeps(c, s, ops[0]);
      SafeRunsKeep(c, Step(c, s, ops[0]), ops[1..]);
    }
  }

  // ---------------------------------------------------------------- the window

  /** The job at hand already owns a media row that its last state does not yet tell of. */
  ghost predicate InWindow(s: State) {
    AtWork(s.worker) && s.worker.job < |s.jobs| && HasRow(s.media, s.jobs[s.worker.job].key)
  }

  /** No crash in the window, and no job left there by a failed write of `failed`. */
  ghost predicate KeepsOutOfWindow(s: State, op: Op) {
    InWindow(s) ==> !op.Crash? && !(s.worker.Failing? && op == Mark(false))
  }

  ghost predicate CleanRun(c: Setup, s: State, ops: seq<Op>)
    decreases |ops|
  {
    ops == [] || (KeepsOutOfWindow(s, ops[0]) && CleanRun(c, Step(c, s, ops[0]), ops[1..]))
  }

  /** A running job that owns a row is the job at hand. */
  ghost predicate OnlyAtHand(s: State) {
    forall j | 0 <= j < |s.jobs| && s.jobs[j].state.Running? && HasRow(s.media, s.jobs[j].key) ::
      AtWork(s.worker) && s.worker.job == j
  }

  lemma ProcessKeepsOnlyAtHand(c: Setup, s: State, a: Answers)
    requires Inv(c, s) && OnlyAtHand(s) && s.worker.Processing?
    ensures OnlyAtHand(DoProcess(c, s, s.worker.job, a))
  {
    var key := s.jobs[s.worker.job].key;
    forall j | 0 <= j < |s.jobs| {
      AppendedRow(s.media, Row(key, c.hash(c.content(key))), s.jobs[j].key);
    }
  }

  lemma StepKeepsOnlyAtHand(c: Setup, s: State, op: Op)
    requires Inv(c, s) && OnlyAtHand(s) && KeepsOutOfWindow(s, op)
    ensures OnlyAtHand(Step(c, s, op))
  {
    if op.Process? && s.worker.Processing? {
      ProcessKeepsOnlyAtHand(c, s, op.a);
    }
  }

  /**
   * In every run in which no crash falls between the insertion of a media row and the write of
   * its job's last state, every media row's object is in storage with the row's checksum, no two
   * rows share a checksum, and a `duplicate` job names another upload's row with its checksum.
   */
  lemma {:induction false} CleanRunsKeep(c: Setup, s: State, ops: seq<Op>)
    requires Inv(c, s) && OnlyAtHand(s) && CleanRun(c, s, ops)
    ensures Inv(c, Run(c, s, ops)) && OnlyAtHand(Run(c, s, ops))
    decreases |ops|
  {
    if ops != [] {
      StepKeeps(c, s, ops[0]);
      StepKeepsOnlyAtHand(c, s, ops[0]);
      CleanRunsKeep(c, Step(c, s, ops[0]), ops[1..]);
    }
  }

  lemma CleanRunsFromScratch(c: Setup, ops: seq<Op>)
    requires CleanRun(c, Initial(), ops)
    ensures var t := Run(c, Initial(), ops);
            RowsIntact(c, t) && DistinctChecksums(t.media) && Outcomes(c, t.media, t.jobs)
  {
    CleanRunsKeep(c, Initial(), ops);
  }

  /**
   * What a finished job is worth: an object of the upload's checksum is in storage, which is the
   * upload itself when no two contents share a checksum.
   */
  lemma FinishedUploadsAreKept(c: Setup, s: State, j: nat)
    requires Inv(c, s) && j < |s.jobs| && (s.jobs[j].state.Done? || s.jobs[j].state.Duplicate?)
    ensures exists m | 0 <= m < |s.media| ::
              && s.media[m].filepath in s.objects
              && c.hash(s.objects[s.media[m].filepath]) == c.hash(c.content(s.jobs[j].key))
              && ((forall b :: c.hash(b) == c.hash(c.content(s.jobs[j].key)) ==> b == c.content(s.jobs[j].key)) ==>
                  s.objects[s.media[m].filepath] == c.content(s.jobs[j].key))
  {
    var m := if s.jobs[j].state.Done? then s.jobs[j].state.media else s.jobs[j].state.existing;
    assert OutcomeHolds(c, s.media, s.jobs[j]);
    assert s.media[m].filepath in s.objects;
  }

  // ---------------------------------------------------------------- exactly when a restart is safe

  ghost function QueuedIds(jobs: seq<Job>): set<nat> { set i: nat | i < |jobs| && jobs[i].state.Queued? }

  /** The environment in which the object cannot be read. */
  const UNREADABLE := Answers(false, false, false, false, false)

  lemma ClaimedLeavesQueue(jobs: seq<Job>, i: nat, state: JobState)
    requires i < |jobs| && jobs[i].state.Queued? && !state.Queued?
    ensures |QueuedIds(SetState(jobs, i, state))| < |QueuedIds(jobs)|
  {
    assert QueuedIds(SetState(jobs, i, state)) == QueuedIds(jobs) - {i};
  }

  lemma RunOfThree(c: Setup, s: State, x: Op, y: Op, z: Op)
    ensures Run(c, s, [x, y, z]) == Step(c, Step(c, Step(c, s, x), y), z)
  {
    assert [x, y, z][1..] == [y, z] && [y, z][1..] == [z];
    assert Run(c, Step(c, Step(c, s, x), y), [z]) == Run(c, Step(c, Step(c, Step(c, s, x), y), z), []);
  }

  lemma FailedAhead(c: Setup, s: State, next: nat)
    requires s.worker.Idle? && NextQueued(s.jobs, |s.jobs|) == Some(next)
    ensures Step(c, Step(c, Step(c, s, Claim), Process(UNREADABLE)), Mark(true))
         == s.(jobs := SetState(s.jobs, next, Failed))
  {
    assert SetState(SetState(s.jobs, next, Running), next, Failed) == SetState(s.jobs, next, Failed);
  }

  /** Claiming and failing the jobs ahead, the worker gets to any queued job. */
  lemma {:induction false} ReachesJob(c: Setup, s: State, j: nat) returns (ops: seq<Op>)
    requires s.worker.Idle? && j < |s.jobs| && s.jobs[j].state.Queued?
    ensures forall op | op in ops :: !op.Start?
    ensures var t := Run(c, s, ops);
            && t.worker == Processing(j) && t.media == s.media && t.objects == s.objects
            && j < |t.jobs| && t.jobs[j].key == s.jobs[j].key
    decreases |QueuedIds(s.jobs)|
  {
    var next := NextQueued(s.jobs, |s.jobs|).value;
    if next == j {
      ops := [Claim];
      assert Run(c, s, ops) == Run(c, Step(c, s, Claim), []);
    } else {
      ClaimedLeavesQueue(s.jobs, next, Failed);
      FailedAhead(c, s, next);
      var rest := ReachesJob(c, s.(jobs := SetState(s.jobs, next, Failed)), j);
      var head := [Claim, Process(UNREADABLE), Mark(true)];
      RunOfThree(c, s, Claim, Process(UNREADABLE), Mark(true));
      RunAppends(c, s, head, rest);
      ops := head + rest;
    }
  }

  ghost predicate NoStart(ops: seq<Op>) { forall op | op in ops :: !op.Start? }

  lemma {:induction false} NoStartIsSafe(c: Setup, s: State, ops: seq<Op>)
    requires NoStart(ops)
    ensures RestartsSafely(c, s, ops)
    decreases |ops|
  {
    if ops != [] {
      NoStartIsSafe(c, Step(c, s, ops[0]), ops[1..]);
    }
  }

  /** The environment in which everything asked succeeds. */
  const SMOOTH := Answers(false, true, true, true, true)

  /** Processed again, a job that owns a row takes the row for a duplicate and deletes its own object. */
  lemma OwnRowIsTakenForDuplicate(c: Setup, s: State, j: nat)
    requires RowsIntact(c, s) && DistinctChecksums(s.media)
    requires j < |s.jobs| && HasRow(s.media, s.jobs[j].key) && s.worker == Processing(j)
    ensures !RowsIntact(c, Step(c, s, Process(SMOOTH)))
  {
    var m :| 0 <= m < |s.media| && s.media[m].filepath == s.jobs[j].key;
    var found := RowWith(s.media, c.hash(s.objects[s.jobs[j].key]), |s.media|);
    assert s.media[m].checksum == c.hash(s.objects[s.jobs[j].key]);
    assert found == Some(m);
    var t := Step(c, s, Process(SMOOTH));
    assert t.media[m].filepath !in t.objects;
  }

  lemma UnsafeRestartLosesFile(c: Setup, s: State, j: nat) returns (ops: seq<Op>)
    requires Inv(c, s) && s.worker.Down?
    requires j < |s.jobs| && s.jobs[j].state.Running? && HasRow(s.media, s.jobs[j].key)
    ensures NoStart(ops) && !RowsIntact(c, Run(c, Step(c, s, Start(true)), ops))
  {
    var up := Step(c, s, Start(true));
    var ahead := ReachesJob(c, up, j);
    var t := Run(c, up, ahead);
    OwnRowIsTakenForDuplicate(c, t, j);
    RunAppends(c, up, ahead, [Process(SMOOTH)]);
    assert Run(c, t, [Process(SMOOTH)]) == Run(c, Step(c, t, Process(SMOOTH)), []);
    ops := ahead + [Process(SMOOTH)];
  }

  /**
   * A restart is safe, whatever the process then does until the next one, if and only if no job
   * left running already has its media row.
   */
  lemma RestartIsSafeIff(c: Setup, s: State)
    requires Inv(c, s) && s.worker.Down?
    ensures RestartSafe(s) <==>
            forall ops | NoStart(ops) :: RowsIntact(c, Run(c, Step(c, s, Start(true)), ops))
  {
    if RestartSafe(s) {
      StartKeeps(c, s, true);
      forall ops | NoStart(ops)
        ensures RowsIntact(c, Run(c, Step(c, s, Start(true)), ops))
      {
        NoStartIsSafe(c, Step(c, s, Start(true)), ops);
        SafeRunsKeep(c, Step(c, s, Start(true)), ops);
      }
    } else {
      var j :| 0 <= j < |s.jobs| && s.jobs[j].state.Running? && HasRow(s.media, s.jobs[j].key);
      var ops := UnsafeRestartLosesFile(c, s, j);
      assert NoStart(ops);
    }
  }

  /** The window is exactly where a crash makes the next restart unsafe. */
  lemma CrashIsSafeIff(c: Setup, s: State)
    requires Inv(c, s) && OnlyAtHand(s)
    ensures RestartSafe(Step(c, s, Crash)) <==> !InWindow(s)
  {
  }

  /** The files of a run from scratch: one upload, a crash before its mark, and a restart. */
  lemma OwnDuplicate(c: Setup)
    ensures var s1 := Run(c, Initial(), [Start(true), Enqueue("k", None, 0), Claim]);
            var s2 := Run(c, s1, [Process(SMOOTH), Crash, Start(true)]);
            var s3 := Run(c, s2, [Claim, Process(SMOOTH), Mark(true)]);
            && s3.jobs == [Job("k", None, 0, Duplicate(0))]
            && s3.media == [Row("k", c.hash(c.content("k")))] && "k" !in s3.objects
  {
    RunOfThree(c, Initial(), Start(true), Enqueue("k", None, 0), Claim);
    var s1 := State([Job("k", None, 0, Running)], [], map["k" := c.content("k")], Processing(0));
    assert Step(c, Initial(), Start(true)) == State([], [], map[], Idle);
    assert Step(c, State([], [], map[], Idle), Enqueue("k", None, 0))
        == State([Job("k", None, 0, Queued)], [], map["k" := c.content("k")], Idle);
    assert Step(c, State([Job("k", None, 0, Queued)], [], map["k" := c.content("k")], Idle), Claim) == s1;
    RunOfThree(c, s1, Process(SMOOTH), Crash, Start(true));
    OwnDuplicateFound(c);
  }

  lemma OwnDuplicateFound(c: Setup)
    ensures var row := Row("k", c.hash(c.content("k")));
            var s1 := State([Job("k", None, 0, Running)], [], map["k" := c.content("k")], Processing(0));
            var s2 := State([Job("k", None, 0, Queued)], [row], map["k" := c.content("k")], Idle);
            && Step(c, Step(c, Step(c, s1, Process(SMOOTH)), Crash), Start(true)) == s2
            && Run(c, s2, [Claim, Process(SMOOTH), Mark(true)])
            == State([Job("k", None, 0, Duplicate(0))], [row], map[], Idle)
  {
    var row := Row("k", c.hash(c.content("k")));
    var s2 := State([Job("k", None, 0, Queued)], [row], map["k" := c.content("k")], Idle);
    RunOfThree(c, s2, Claim, Process(SMOOTH), Mark(true));
    var s3 := State([Job("k", None, 0, Running)], [row], map["k" := c.content("k")], Processing(0));
    assert Step(c, s2, Claim) == s3;
    assert RowWith([row], row.checksum, 1) == Some(0);
    assert Step(c, s3, Process(SMOOTH)) == State([Job("k", None, 0, Running)], [row], map[], Found(0, 0));
  }

  // ---------------------------------------------------------------- what a smooth upload comes to

  /** The environment in which nothing fails; a deletion may still. */
  function Smooth(deleted: bool): Answers { Answers(false, deleted, true, true, true) }

  /** `j` is queued, oldest, and its object is in storage. */
  ghost predicate IsNext(s: State, j: nat) {
    && s.worker.Idle? && j < |s.jobs| && s.jobs[j].state.Queued? && s.jobs[j].key in s.objects
    && forall i | 0 <= i < |s.jobs| && s.jobs[i].state.Queued? :: Before(s.jobs, j, i)
  }

  /** An upload that comes in while nothing waits is the next one, whatever its folder. */
  lemma EnqueuedIsNext(c: Setup, s: State, key: string, folder: Option<nat>, createdAt: nat)
    requires s.worker.Idle? && KeyIsNew(s, key) && forall i | 0 <= i < |s.jobs| :: !s.jobs[i].state.Queued?
    ensures var t := Step(c, s, Enqueue(key, folder, createdAt));
            && IsNext(t, |s.jobs|) && t.jobs[|s.jobs|].key == key && t.jobs[|s.jobs|].folder == folder
            && t.objects[key] == c.content(key) && t.media == s.media
  {
  }

  lemma NextIsClaimed(c: Setup, s: State, j: nat)
    requires IsNext(s, j)
    ensures Step(c, s, Claim) == s.(jobs := SetState(s.jobs, j, Running), worker := Processing(j))
  {
    var i := NextQueued(s.jobs, |s.jobs|).value;
    assert Before(s.jobs, j, i) && Before(s.jobs, i, j);
  }

  /**
   * The oldest upload, into any folder that stands or none, when nothing fails: new content ends
   * the job `done`, naming a new row of its own key and checksum, its object kept; content that a
   * row has ends it `duplicate`, naming such a row, and adds none.
   */
  lemma SmoothUploadIsSettled(c: Setup, s: State, j: nat, deleted: bool)
    requires IsNext(s, j)
    ensures var key := s.jobs[j].key;
            var checksum := c.hash(s.objects[key]);
            var t := Run(c, s, [Claim, Process(Smooth(deleted)), Mark(true)]);
            && t.worker.Idle? && |t.jobs| == |s.jobs| && (forall i | 0 <= i < |s.jobs| && i != j :: t.jobs[i] == s.jobs[i])
            && (!HasChecksum(s.media, checksum) ==>
                  t.jobs[j].state == Done(|s.media|) && t.media == s.media + [Row(key, checksum)] && t.objects == s.objects)
            && (HasChecksum(s.media, checksum) ==>
                  && t.jobs[j].state.Duplicate? && t.media == s.media && t.jobs[j].state.existing < |s.media|
                  && s.media[t.jobs[j].state.existing].checksum == checksum
                  && t.objects == if deleted then s.objects - {key} else s.objects)
  {
    var s1 := s.(jobs := SetState(s.jobs, j, Running), worker := Processing(j));
    RunOfThree(c, s, Claim, Process(Smooth(deleted)), Mark(true));
    NextIsClaimed(c, s, j);
    CreatedIff(c, s1, j, Smooth(deleted));
    FoundIff(c, s1, j, Smooth(deleted));
    DeletedIff(c, s1, j, Smooth(deleted));
    MarkSettles(DoProcess(c, s1, j, Smooth(deleted)), true);
  }
}
