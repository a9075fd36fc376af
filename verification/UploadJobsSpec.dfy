/**
 * The upload-completion jobs: the queue of server/src/services/upload-completion-queue.service.ts
 * and the processing step of server/src/services/media.service.ts, as steps over the job table,
 * the media table and the stored objects. A process may die between any two steps.
 */
module UploadJobsSpec {
  import opened Octets
  import opened Options

  datatype JobState = Queued | Running | Done(media: nat) | Duplicate(existing: nat) | Failed

  datatype Job = Job(key: string, folder: Option<nat>, createdAt: nat, state: JobState)

  datatype Row = Row(filepath: string, checksum: string)

  /** What the worker is doing: between jobs, in a job, or about to write a job's last state. */
  datatype Worker =
    | Down
    | Idle
    | Processing(job: nat)
    | Created(job: nat, media: nat)
    | Found(job: nat, existing: nat)
    | Failing(job: nat)

  /** Row ids are positions in the tables; no row is deleted here. */
  datatype State = State(jobs: seq<Job>, media: seq<Row>, objects: map<string, Bytes>, worker: Worker)

  /** The bytes uploaded under each storage key, and the checksum. */
  datatype Setup = Setup(content: string -> Bytes, hash: Bytes -> string)

  /**
   * What the environment answers while one job is processed: is its folder gone, does a deletion
   * succeed, can the object be read, is the row inserted, and does the rest of the step succeed.
   */
  datatype Answers = Answers(folderGone: bool, deleted: bool, readable: bool, inserted: bool, finished: bool)

  datatype Op =
    | Enqueue(key: string, folder: Option<nat>, createdAt: nat)
    | Claim
    | Process(a: Answers)
    | Mark(written: bool)
    | Crash
    | Start(requeued: bool)

  function Initial(): State { State([], [], map[], Down) }

  predicate KeyIsNew(s: State, key: string) {
    key !in s.objects && forall j | 0 <= j < |s.jobs| :: s.jobs[j].key != key
  }

  predicate Before(jobs: seq<Job>, i: nat, j: nat)
    requires i < |jobs| && j < |jobs|
  {
    jobs[i].createdAt < jobs[j].createdAt || (jobs[i].createdAt == jobs[j].createdAt && i <= j)
  }

  /** The oldest queued job among the first `n`, ties to the lower id. */
  function NextQueued(jobs: seq<Job>, n: nat): (r: Option<nat>)
    requires n <= |jobs|
    ensures r.Some? ==> r.value < n && jobs[r.value].state.Queued?
    ensures forall j | 0 <= j < n && jobs[j].state.Queued? :: r.Some? && Before(jobs, r.value, j)
  {
    if n == 0 then None
    else
      var best := NextQueued(jobs, n - 1);
      if !jobs[n - 1].state.Queued? || (best.Some? && Before(jobs, best.value, n - 1)) then best else Some(n - 1)
  }

  /** The media row with a checksum, looked up among the first `n`. */
  function RowWith(media: seq<Row>, checksum: string, n: nat): (r: Option<nat>)
    requires n <= |media|
    ensures r.Some? ==> r.value < n && media[r.value].checksum == checksum
    ensures r.None? ==> forall m | 0 <= m < n :: media[m].checksum != checksum
  {
    if n == 0 then None
    else if media[n - 1].checksum == checksum then Some(n - 1)
    else RowWith(media, checksum, n - 1)
  }

  function SetState(jobs: seq<Job>, j: nat, state: JobState): (r: seq<Job>)
    requires j < |jobs|
  {
    jobs[j := jobs[j].(state := state)]
  }

  /** Every running job goes back to the queue. */
  function Requeue(jobs: seq<Job>): (r: seq<Job>)
    ensures |r| == |jobs|
  {
    seq(|jobs|, i requires 0 <= i < |jobs| => if jobs[i].state.Running? then jobs[i].(state := Queued) else jobs[i])
  }

  function DoClaim(s: State): State {
    var next := NextQueued(s.jobs, |s.jobs|);
    if s.worker.Idle? && next.Some?
    then s.(jobs := SetState(s.jobs, next.value, Running), worker := Processing(next.value))
    else s
  }

  /** One job up to, and not including, the write of its last state. */
  function DoProcess(c: Setup, s: State, j: nat, a: Answers): State
    requires j < |s.jobs|
  {
    var key := s.jobs[j].key;
    if s.jobs[j].folder.Some? && a.folderGone then
      s.(objects := if a.deleted then s.objects - {key} else s.objects, worker := Failing(j))
    else if !a.readable || key !in s.objects then
      s.(worker := Failing(j))
    else
      var checksum := c.hash(s.objects[key]);
      match RowWith(s.media, checksum, |s.media|)
      case Some(e) =>
        s.(objects := if a.deleted then s.objects - {key} else s.objects, worker := Found(j, e))
      case None =>
        if !a.inserted then s.(worker := Failing(j))
        else s.(media := s.media + [Row(key, checksum)],
                worker := if a.finished then Created(j, |s.media|) else Failing(j))
  }

  /** The write of a job's last state; a failed write of an outcome falls back to `failed`. */
  function DoMark(s: State, written: bool): State {
    match s.worker
    case Created(j, m) =>
      if j < |s.jobs| && written then s.(jobs := SetState(s.jobs, j, Done(m)), worker := Idle)
      else s.(worker := Failing(j))
    case Found(j, e) =>
      if j < |s.jobs| && written then s.(jobs := SetState(s.jobs, j, Duplicate(e)), worker := Idle)
      else s.(worker := Failing(j))
    case Failing(j) =>
      if j < |s.jobs| && written then s.(jobs := SetState(s.jobs, j, Failed), worker := Idle)
      else s.(worker := Idle)
    case _ => s
  }

  /** One step; a step that is not possible in the state changes nothing. */
  function Step(c: Setup, s: State, op: Op): State {
    match op
    case Enqueue(key, folder, createdAt) =>
      if KeyIsNew(s, key)
      then s.(jobs := s.jobs + [Job(key, folder, createdAt, Queued)], objects := s.objects[key := c.content(key)])
      else s
    case Claim => DoClaim(s)
    case Process(a) => if s.worker.Processing? && s.worker.job < |s.jobs| then DoProcess(c, s, s.worker.job, a) else s
    case Mark(written) => DoMark(s, written)
    case Crash => s.(worker := Down)
    case Start(requeued) =>
      if s.worker.Down? then s.(jobs := if requeued then Requeue(s.jobs) else s.jobs, worker := Idle) else s
  }

  function Run(c: Setup, s: State, ops: seq<Op>): State
    decreases |ops|
  {
    if ops == [] then s else Run(c, Step(c, s, ops[0]), ops[1..])
  }

  lemma {:induction false} RunAppends(c: Setup, s: State, a: seq<Op>, b: seq<Op>)
    ensures Run(c, s, a + b) == Run(c, Run(c, s, a), b)
    decreases |a|
  {
    if a == [] {
      assert a + b == b;
    } else {
      assert (a + b)[0] == a[0] && (a + b)[1..] == a[1..] + b;
      RunAppends(c, Step(c, s, a[0]), a[1..], b);
    }
  }

  // ---------------------------------------------------------------- what each step comes to

  /** Some media row has this checksum. */
  ghost predicate HasChecksum(media: seq<Row>, checksum: string) { exists m | 0 <= m < |media| :: media[m].checksum == checksum }

  /** The job names a folder and the folder is gone. */
  predicate FolderIsGone(job: Job, a: Answers) { job.folder.Some? && a.folderGone }

  /** The folder stands and the object is read. */
  predicate IsRead(s: State, job: Job, a: Answers) { !FolderIsGone(job, a) && a.readable && job.key in s.objects }

  /**
   * Processing creates a row exactly when the folder stands, the object is read, no row has its
   * checksum and the insertion succeeds; it reports the row when the rest succeeds as well. The
   * row is the new last one, of the job's key and the object's checksum.
   */
  lemma CreatedIff(c: Setup, s: State, j: nat, a: Answers)
    requires j < |s.jobs|
    ensures var job, t := s.jobs[j], DoProcess(c, s, j, a);
            var inserts := IsRead(s, job, a) && !HasChecksum(s.media, c.hash(s.objects[job.key])) && a.inserted;
            && (t.media != s.media <==> inserts)
            && (inserts ==> t.media == s.media + [Row(job.key, c.hash(s.objects[job.key]))])
            && (t.worker == Created(j, |s.media|) <==> inserts && a.finished)
            && (t.worker.Created? ==> t.worker == Created(j, |s.media|))
  {
    var key := s.jobs[j].key;
    if key in s.objects {
      var row := Row(key, c.hash(s.objects[key]));
      assert |s.media + [row]| == |s.media| + 1;
    }
  }

  /** It finds a duplicate exactly when the object is read and a row has its checksum; it names one. */
  lemma FoundIff(c: Setup, s: State, j: nat, a: Answers)
    requires j < |s.jobs|
    ensures var job, t := s.jobs[j], DoProcess(c, s, j, a);
            && (t.worker.Found? <==> IsRead(s, job, a) && HasChecksum(s.media, c.hash(s.objects[job.key])))
            && (t.worker.Found? ==>
                  t.worker.job == j && t.worker.existing < |s.media|
                  && s.media[t.worker.existing].checksum == c.hash(s.objects[job.key]))
            && (!t.worker.Found? && !t.worker.Created? ==> t.worker == Failing(j))
  {
  }

  /** It deletes the object only for a gone folder or a duplicate, touches no other, and no job. */
  lemma DeletedIff(c: Setup, s: State, j: nat, a: Answers)
    requires j < |s.jobs|
    ensures var job, t := s.jobs[j], DoProcess(c, s, j, a);
            && t.jobs == s.jobs
            && t.objects == (if a.deleted && (FolderIsGone(job, a) || t.worker.Found?) then s.objects - {job.key} else s.objects)
  {
  }

  /** A claim takes the oldest queued job, marks it running and changes nothing else. */
  lemma ClaimTakesOldest(s: State)
    ensures var t := DoClaim(s);
            if s.worker.Idle? && exists j | 0 <= j < |s.jobs| :: s.jobs[j].state.Queued?
            then && t.worker.Processing? && t.worker.job < |s.jobs| && s.jobs[t.worker.job].state.Queued?
                 && (forall j | 0 <= j < |s.jobs| && s.jobs[j].state.Queued? :: Before(s.jobs, t.worker.job, j))
                 && t == s.(jobs := s.jobs[t.worker.job := s.jobs[t.worker.job].(state := Running)], worker := t.worker)
            else t == s
  {
  }

  /** A start puts exactly the running jobs back into the queue. */
  lemma StartRequeues(c: Setup, s: State, requeued: bool)
    requires s.worker.Down?
    ensures var t := Step(c, s, Start(requeued));
            && t.worker.Idle? && t.media == s.media && t.objects == s.objects && |t.jobs| == |s.jobs|
            && forall j | 0 <= j < |s.jobs| ::
                 t.jobs[j] == if requeued && s.jobs[j].state.Running? then s.jobs[j].(state := Queued) else s.jobs[j]
  {
  }

  /** The write of a last state: the outcome reported, or `failed` after an exception or a failed write. */
  lemma MarkSettles(s: State, written: bool)
    requires WorkerRuns(s)
    ensures var t := DoMark(s, written);
            && t.media == s.media && t.objects == s.objects && |t.jobs| == |s.jobs|
            && (forall i | 0 <= i < |s.jobs| && !(AtWork(s.worker) && i == s.worker.job) :: t.jobs[i] == s.jobs[i])
            && (s.worker.Created? || s.worker.Found? || s.worker.Failing? ==>
                  var j := s.worker.job;
                  && (t.jobs[j].state.Done? <==> s.worker.Created? && written)
                  && (t.jobs[j].state.Done? ==> t.jobs[j].state.media == s.worker.media)
                  && (t.jobs[j].state.Duplicate? <==> s.worker.Found? && written)
                  && (t.jobs[j].state.Duplicate? ==> t.jobs[j].state.existing == s.worker.existing)
                  && (t.jobs[j].state.Failed? <==> s.worker.Failing? && written)
                  && t.worker == if written || s.worker.Failing? then Idle else Failing(j))
  {
  }

  // ---------------------------------------------------------------- terminal states

  predicate IsTerminal(st: JobState) { st.Done? || st.Duplicate? || st.Failed? }

  predicate AtWork(w: Worker) { !w.Down? && !w.Idle? }

  /** The job at hand is marked running. */
  predicate WorkerRuns(s: State) {
    AtWork(s.worker) ==> s.worker.job < |s.jobs| && s.jobs[s.worker.job].state.Running?
  }

  /** A step keeps every key and every terminal state. */
  lemma StepKeepsTerminal(c: Setup, s: State, op: Op, j: nat)
    requires WorkerRuns(s) && j < |s.jobs|
    ensures var t := Step(c, s, op);
            && WorkerRuns(t) && j < |t.jobs| && t.jobs[j].key == s.jobs[j].key
            && (IsTerminal(s.jobs[j].state) ==> t.jobs[j] == s.jobs[j])
  {
  }

  /** Over any run, crashes and restarts included, a terminal state never changes. */
  lemma {:induction false} TerminalStatesNeverChange(c: Setup, s: State, ops: seq<Op>, j: nat)
    requires WorkerRuns(s) && j < |s.jobs| && IsTerminal(s.jobs[j].state)
    ensures var t := Run(c, s, ops); j < |t.jobs| && t.jobs[j] == s.jobs[j]
    decreases |ops|
  {
    if ops != [] {
      StepKeepsTerminal(c, s, ops[0], j);
      TerminalStatesNeverChange(c, Step(c, s, ops[0]), ops[1..], j);
    }
  }

  // ---------------------------------------------------------------- what every safe run keeps

  ghost predicate HasRow(media: seq<Row>, key: string) { exists m | 0 <= m < |media| :: media[m].filepath == key }

  /** Every media row's object is in storage with the row's checksum. */
  ghost predicate RowsIntact(c: Setup, s: State) {
    forall m | 0 <= m < |s.media| ::
      s.media[m].filepath in s.objects && c.hash(s.objects[s.media[m].filepath]) == s.media[m].checksum
  }

  ghost predicate DistinctChecksums(media: seq<Row>) {
    forall m, n | 0 <= m < n < |media| :: media[m].checksum != media[n].checksum
  }

  ghost predicate DistinctKeys(jobs: seq<Job>) {
    forall i, j | 0 <= i < j < |jobs| :: jobs[i].key != jobs[j].key
  }

  ghost predicate AsUploaded(c: Setup, objects: map<string, Bytes>) {
    forall k | k in objects :: objects[k] == c.content(k)
  }

  predicate IsPending(s: State, j: nat)
    requires j < |s.jobs|
  {
    s.jobs[j].state.Queued? || s.worker == Processing(j)
  }

  /** No job still to be processed already owns a media row. */
  ghost predicate PendingOwnNothing(s: State) {
    forall j | 0 <= j < |s.jobs| && IsPending(s, j) :: !HasRow(s.media, s.jobs[j].key)
  }

  ghost predicate OwnRow(media: seq<Row>, key: string, m: nat) { m < |media| && media[m].filepath == key }

  /** A row of another upload with the same checksum. */
  ghost predicate OtherRow(c: Setup, media: seq<Row>, key: string, e: nat) {
    e < |media| && media[e].filepath != key && media[e].checksum == c.hash(c.content(key))
  }

  ghost predicate OutcomeHolds(c: Setup, media: seq<Row>, job: Job) {
    match job.state
    case Done(m) => OwnRow(media, job.key, m)
    case Duplicate(e) => OtherRow(c, media, job.key, e)
    case _ => true
  }

  ghost predicate Outcomes(c: Setup, media: seq<Row>, jobs: seq<Job>) {
    forall j | 0 <= j < |jobs| :: OutcomeHolds(c, media, jobs[j])
  }

  ghost predicate WorkerOutcome(c: Setup, s: State)
    requires WorkerRuns(s)
  {
    match s.worker
    case Created(j, m) => OwnRow(s.media, s.jobs[j].key, m)
    case Found(j, e) => OtherRow(c, s.media, s.jobs[j].key, e)
    case _ => true
  }

  ghost predicate Inv(c: Setup, s: State) {
    && WorkerRuns(s) && WorkerOutcome(c, s)
    && RowsIntact(c, s) && DistinctChecksums(s.media) && DistinctKeys(s.jobs) && AsUploaded(c, s.objects)
    && PendingOwnNothing(s) && Outcomes(c, s.media, s.jobs)
  }

  /** What a restart needs: no job left running already has its media row. */
  ghost predicate RestartSafe(s: State) {
    forall j | 0 <= j < |s.jobs| && s.jobs[j].state.Running? :: !HasRow(s.media, s.jobs[j].key)
  }

  lemma EnqueueKeeps(c: Setup, s: State, op: Op)
    requires Inv(c, s) && op.Enqueue?
    ensures Inv(c, Step(c, s, op))
  {
  }

  lemma ClaimKeeps(c: Setup, s: State)
    requires Inv(c, s)
    ensures Inv(c, DoClaim(s))
  {
  }

  lemma AppendedRow(media: seq<Row>, row: Row, key: string)
    ensures HasRow(media + [row], key) <==> HasRow(media, key) || row.filepath == key
  {
    if HasRow(media, key) {
      var m :| 0 <= m < |media| && media[m].filepath == key;
      assert (media + [row])[m] == media[m];
    }
    if row.filepath == key {
      assert (media + [row])[|media|] == row;
    }
  }

  /** An object that no row uses may go. */
  lemma DeletionKeeps(c: Setup, s: State, deleted: bool, worker: Worker)
    requires Inv(c, s) && s.worker.Processing?
    requires worker == Failing(s.worker.job)
             || (worker.Found? && worker.job == s.worker.job
                 && OtherRow(c, s.media, s.jobs[s.worker.job].key, worker.existing))
    ensures var key := s.jobs[s.worker.job].key;
            Inv(c, s.(objects := if deleted then s.objects - {key} else s.objects, worker := worker))
  {
    assert IsPending(s, s.worker.job);
  }

  /** A row for the job's own object, with a checksum that no row has. */
  lemma InsertionKeeps(c: Setup, s: State, finished: bool)
    requires Inv(c, s) && s.worker.Processing?
    requires var key := s.jobs[s.worker.job].key;
             key in s.objects && RowWith(s.media, c.hash(s.objects[key]), |s.media|).None?
    ensures var j := s.worker.job;
            var row := Row(s.jobs[j].key, c.hash(s.objects[s.jobs[j].key]));
            Inv(c, s.(media := s.media + [row], worker := if finished then Created(j, |s.media|) else Failing(j)))
  {
    var key := s.jobs[s.worker.job].key;
    assert IsPending(s, s.worker.job);
    forall j | 0 <= j < |s.jobs| {
      AppendedRow(s.media, Row(key, c.hash(s.objects[key])), s.jobs[j].key);
    }
  }

  /** Processing deletes only an object that no row uses, and adds only a row with a new checksum. */
  lemma ProcessKeeps(c: Setup, s: State, a: Answers)
    requires Inv(c, s) && s.worker.Processing?
    ensures Inv(c, DoProcess(c, s, s.worker.job, a))
  {
    var j := s.worker.job;
    var key := s.jobs[j].key;
    assert IsPending(s, j);
    if s.jobs[j].folder.Some? && a.folderGone {
      DeletionKeeps(c, s, a.deleted, Failing(j));
    } else if !a.readable || key !in s.objects {
      DeletionKeeps(c, s, false, Failing(j));
    } else {
      match RowWith(s.media, c.hash(s.objects[key]), |s.media|)
      case Some(e) => DeletionKeeps(c, s, a.deleted, Found(j, e));
      case None =>
        DeletionKeeps(c, s, false, Failing(j));
        InsertionKeeps(c, s, a.finished);
    }
  }

  /** Writing a state that holds for a running job leaves the other jobs as they are. */
  lemma SetStateKeeps(c: Setup, s: State, state: JobState)
    requires Inv(c, s) && AtWork(s.worker) && !state.Queued? && !state.Running?
    requires OutcomeHolds(c, s.media, s.jobs[s.worker.job].(state := state))
    ensures Inv(c, s.(jobs := SetState(s.jobs, s.worker.job, state), worker := Idle))
  {
  }

  lemma MarkKeeps(c: Setup, s: State, written: bool)
    requires Inv(c, s)
    ensures Inv(c, DoMark(s, written))
  {
    match s.worker
    case Created(j, m) => SetStateKeeps(c, s, Done(m));
    case Found(j, e) => SetStateKeeps(c, s, Duplicate(e));
    case Failing(j) => SetStateKeeps(c, s, Failed);
    case _ =>
  }

  lemma StartKeeps(c: Setup, s: State, requeued: bool)
    requires Inv(c, s) && s.worker.Down? && (requeued ==> RestartSafe(s))
    ensures Inv(c, Step(c, s, Start(requeued)))
  {
  }

  lemma StepKeeps(c: Setup, s: State, op: Op)
    requires Inv(c, s)
    requires op == Start(true) && s.worker.Down? ==> RestartSafe(s)
    ensures Inv(c, Step(c, s, op))
  {
    match op
    case Enqueue(_, _, _) => EnqueueKeeps(c, s, op);
    case Claim => ClaimKeeps(c, s);
    case Process(a) => if s.worker.Processing? { ProcessKeeps(c, s, a); }
    case Mark(written) => MarkKeeps(c, s, written);
    case Crash =>
    case Start(requeued) => if s.worker.Down? { StartKeeps(c, s, requeued); }
  }
}
