/**
 The sync / cancel / worker protocol as a transition system.

 The shared state is what the gateway, the Celery workers and the cancel requests
 read and write: the Redis slice locks, the Redis cancel flags and task keys, the
 ETLJob rows, the task queue with one program counter per worker, and the author of
 the committed snapshot of each slice.  Every action below is one access to that
 state, except the sync request, which is a single step.
 */
module SyncProtocol {
  import opened Options

  type JobId = string

  datatype Slice = Slice(tenant: string, loanType: string)

  datatype Status = Queued | Processing | Completed | Failed | Cancelled

  datatype JobRow = JobRow(slice: Slice, status: Status, progress: nat)

  /** What the call of the native pipeline returned. */
  datatype Verdict = Succeeded | Rejected | Aborted

  /** The next access of a worker that runs the task of one job. */
  datatype Pc =
    | Pending                                // the task waits in the Celery queue
    | Discarded                              // revoked and thrown away before it started
    | ReadRow                                // load the job row
    | CheckEntry(seen: Status)               // row status or cancel flag, before anything is done
    | EarlyRelease
    | EarlyClear
    | WriteProcessing                        // first access inside the try block
    | Recheck                                // cancel flag again, after the PROCESSING write
    | Loading                                // inside the pipeline, its transaction open
    | ProgressWrite(last: bool, percent: nat) // the flag was clear: the callback saves progress
    | CommitReady                            // the callback at 95 percent said continue
    | Refresh(verdict: Verdict)
    | CheckExit(verdict: Verdict, seen: Status)
    | WriteFinal(ok: bool)
    | ExceptRefresh
    | ExceptCheck(seen: Status)
    | WriteFailed
    | FinallyRelease
    | FinallyClear
    | Done

  datatype Worker = Worker(slice: Slice, pc: Pc)

  /** The next access of one cancel request. */
  datatype CancelPc = SetFlag | Revoke | SaveRow | ReleaseLock | DropKey | Finished | Broken

  datatype Canceller = Canceller(job: JobId, wasQueued: bool, pc: CancelPc)

  datatype State = State(
    locks: map<Slice, JobId>,
    flags: set<JobId>,
    taskKeys: set<JobId>,
    revoked: set<JobId>,
    rows: map<JobId, JobRow>,
    workers: map<JobId, Worker>,
    cancels: seq<Canceller>,
    warehouse: map<Slice, JobId>)

  datatype Action =
    | SyncData(slice: Slice, job: JobId)
    | ActiveSync(slice: Slice)
    | CancelAtOnce(job: JobId)
    | CancelStart(job: JobId)
    | CancelStep(request: nat)
    | DeleteRow(job: JobId)
    | PickUp(job: JobId)
    | Discard(job: JobId)
    | Advance(job: JobId)
    | Report(job: JobId, last: bool, percent: nat)
    | Commit(job: JobId, ok: bool)
    | Raise(job: JobId)

  ghost predicate Init(s: State) {
    && s.locks == map[] && s.flags == {} && s.taskKeys == {} && s.revoked == {}
    && s.rows == map[] && s.workers == map[] && s.cancels == []
  }

  // ----- the Redis lock ----------------------------------------------------------

  predicate Holds(s: State, slice: Slice, job: JobId) {
    slice in s.locks && s.locks[slice] == job
  }

  /** Compare-and-delete. */
  function Release(locks: map<Slice, JobId>, slice: Slice, job: JobId): map<Slice, JobId> {
    if slice in locks && locks[slice] == job then locks - {slice} else locks
  }

  // ----- the gateway ---------------------------------------------------------------

  /** The lock of a slice is an orphan when the job it names has no row. */
  predicate Orphaned(s: State, slice: Slice) {
    slice in s.locks && s.locks[slice] !in s.rows
  }

  predicate Published(s: State, job: JobId) {
    job in s.warehouse.Values
  }

  /** Job identifiers are fresh. */
  predicate Fresh(s: State, job: JobId) {
    job !in s.workers && !Published(s, job)
  }

  /** Looking up the active job drops an orphan lock. */
  function AfterLookup(s: State, slice: Slice): State {
    if Orphaned(s, slice) then s.(locks := Release(s.locks, slice, s.locks[slice])) else s
  }

  predicate Accepts(s: State, slice: Slice) {
    slice !in s.locks || Orphaned(s, slice)
  }

  function AfterSync(s: State, slice: Slice, job: JobId): State {
    if Accepts(s, slice) then
      s.(locks := s.locks[slice := job],
         rows := s.rows[job := JobRow(slice, Queued, 0)],
         workers := s.workers[job := Worker(slice, Pending)],
         taskKeys := s.taskKeys + {job})
    else s
  }

  // ----- cancel --------------------------------------------------------------------

  predicate Cancellable(s: State, job: JobId) {
    job in s.rows && s.rows[job].status in {Queued, Processing}
  }

  function Revoked(s: State, job: JobId): set<JobId> {
    if job in s.taskKeys then s.revoked + {job} else s.revoked
  }

  /** A whole cancel request as one step. */
  function AfterCancel(s: State, job: JobId): State
    requires Cancellable(s, job)
  {
    var row := s.rows[job];
    var wasQueued := row.status == Queued;
    s.(flags := s.flags + {job},
       revoked := Revoked(s, job),
       rows := s.rows[job := row.(status := Cancelled)],
       locks := if wasQueued then Release(s.locks, row.slice, job) else s.locks,
       taskKeys := s.taskKeys - {job},
       cancels := s.cancels + [Canceller(job, wasQueued, Finished)])
  }

  /** One access of a cancel request that is spread over several steps. */
  function AfterCancelStep(s: State, i: nat): State
    requires i < |s.cancels| && s.cancels[i].job in s.workers
  {
    var c := s.cancels[i];
    var job := c.job;
    match c.pc
    case SetFlag =>
      s.(flags := s.flags + {job}, cancels := s.cancels[i := c.(pc := Revoke)])
    case Revoke =>
      s.(revoked := Revoked(s, job), cancels := s.cancels[i := c.(pc := SaveRow)])
    case SaveRow =>
      if job in s.rows then
        s.(rows := s.rows[job := s.rows[job].(status := Cancelled)],
           cancels := s.cancels[i := c.(pc := ReleaseLock)])
      else
        s.(cancels := s.cancels[i := c.(pc := Broken)])
    case ReleaseLock =>
      s.(locks := if c.wasQueued then Release(s.locks, s.workers[job].slice, job) else s.locks,
         cancels := s.cancels[i := c.(pc := DropKey)])
    case DropKey =>
      s.(taskKeys := s.taskKeys - {job}, cancels := s.cancels[i := c.(pc := Finished)])
    case Finished => s
    case Broken => s
  }

  // ----- the worker ------------------------------------------------------------------

  function At(s: State, job: JobId, pc: Pc): State
    requires job in s.workers
  {
    s.(workers := s.workers[job := s.workers[job].(pc := pc)])
  }

  predicate Cancelling(flagged: bool, seen: Status) {
    seen == Cancelled || flagged
  }

  predicate Deterministic(pc: Pc) {
    !(pc.Pending? || pc.Discarded? || pc.Loading? || pc.CommitReady? || pc.Done?)
  }

  predicate WritesRow(pc: Pc) {
    pc.WriteProcessing? || pc.ProgressWrite? || pc.WriteFinal? || pc.WriteFailed?
  }

  predicate ReleasesLock(pc: Pc) {
    pc.EarlyRelease? || pc.FinallyRelease?
  }

  predicate ClearsFlags(pc: Pc) {
    pc.EarlyClear? || pc.FinallyClear?
  }

  /** Where the worker goes, given the row it finds and its cancel flag. */
  function NextPc(pc: Pc, row: Option<JobRow>, flagged: bool): Pc
    requires Deterministic(pc)
  {
    match pc
    case ReadRow => if row.Some? then CheckEntry(row.value.status) else Done
    case CheckEntry(seen) => if Cancelling(flagged, seen) then EarlyRelease else WriteProcessing
    case EarlyRelease => EarlyClear
    case EarlyClear => Done
    case WriteProcessing => if row.Some? then Recheck else ExceptRefresh
    case Recheck => if flagged then FinallyRelease else Loading
    case ProgressWrite(last, _) =>
      if row.None? then ExceptRefresh else if last then CommitReady else Loading
    case Refresh(verdict) =>
      if row.Some? then CheckExit(verdict, row.value.status) else ExceptRefresh
    case CheckExit(verdict, seen) =>
      if Cancelling(flagged, seen) || verdict == Aborted then FinallyRelease
      else WriteFinal(verdict == Succeeded)
    case WriteFinal(ok) => if row.Some? && ok then FinallyRelease else ExceptRefresh
    case ExceptRefresh => if row.Some? then ExceptCheck(row.value.status) else FinallyRelease
    case ExceptCheck(seen) => if Cancelling(flagged, seen) then FinallyRelease else WriteFailed
    case WriteFailed => FinallyRelease
    case FinallyRelease => FinallyClear
    case FinallyClear => Done
  }

  /** What a row write leaves; the progress callback does not touch the status. */
  function WrittenRow(pc: Pc, row: JobRow): JobRow {
    match pc
    case WriteProcessing => row.(status := Processing, progress := 5)
    case ProgressWrite(_, percent) => row.(progress := percent)
    case WriteFinal(ok) => row.(status := if ok then Completed else Failed, progress := 100)
    case WriteFailed => row.(status := Failed)
    case _ => row
  }

  function RowOf(s: State, job: JobId): Option<JobRow> {
    if job in s.rows then Some(s.rows[job]) else None
  }

  /** The store after the access, the worker not yet moved on. */
  function Accessed(s: State, job: JobId): (s': State)
    requires job in s.workers
    ensures s'.workers == s.workers && s'.cancels == s.cancels && s'.warehouse == s.warehouse
    ensures s'.revoked == s.revoked && s'.rows.Keys == s.rows.Keys
  {
    var w := s.workers[job];
    if WritesRow(w.pc) then
      if job in s.rows then s.(rows := s.rows[job := WrittenRow(w.pc, s.rows[job])]) else s
    else if ReleasesLock(w.pc) then
      s.(locks := Release(s.locks, w.slice, job))
    else if ClearsFlags(w.pc) then
      s.(flags := s.flags - {job}, taskKeys := s.taskKeys - {job})
    else s
  }

  /** The worker performs the access its program counter stands at. */
  function AfterAdvance(s: State, job: JobId): State
    requires job in s.workers && Deterministic(s.workers[job].pc)
  {
    At(Accessed(s, job), job, NextPc(s.workers[job].pc, RowOf(s, job), job in s.flags))
  }

  /** The progress callback reads the cancel flag. */
  function AfterReport(s: State, job: JobId, last: bool, percent: nat): State
    requires job in s.workers
  {
    At(s, job, if job in s.flags then Refresh(Aborted) else ProgressWrite(last, percent))
  }

  /** COMMIT publishes the job's snapshot of its slice, or fails and publishes nothing. */
  function AfterCommit(s: State, job: JobId, ok: bool): State
    requires job in s.workers
  {
    if ok then
      At(s.(warehouse := s.warehouse[s.workers[job].slice := job]), job, Refresh(Succeeded))
    else At(s, job, Refresh(Rejected))
  }

  predicate InTry(pc: Pc) {
    pc.WriteProcessing? || pc.Recheck? || pc.Loading? || pc.ProgressWrite? || pc.CommitReady?
    || pc.Refresh? || pc.CheckExit? || pc.WriteFinal?
  }

  predicate InExcept(pc: Pc) {
    pc.ExceptRefresh? || pc.ExceptCheck? || pc.WriteFailed?
  }

  /** An exception goes to the except block, or from there to the finally block. */
  function RaisedPc(pc: Pc): Pc {
    if InTry(pc) then ExceptRefresh else FinallyRelease
  }

  // ----- the transition relation --------------------------------------------------------

  predicate At?(s: State, job: JobId, pc: Pc) {
    job in s.workers && s.workers[job].pc == pc
  }

  predicate Enabled(s: State, a: Action) {
    match a
    case SyncData(_, job) => Fresh(s, job)
    case ActiveSync(_) => true
    case CancelAtOnce(job) => Cancellable(s, job) && job in s.workers
    case CancelStart(job) => Cancellable(s, job) && job in s.workers
    case CancelStep(i) => i < |s.cancels| && s.cancels[i].job in s.workers
    case DeleteRow(job) => At?(s, job, Pending) || At?(s, job, Discarded) || At?(s, job, Done)
    case PickUp(job) => At?(s, job, Pending)
    case Discard(job) => At?(s, job, Pending) && job in s.revoked
    case Advance(job) => job in s.workers && Deterministic(s.workers[job].pc)
    case Report(job, _, _) => At?(s, job, Loading)
    case Commit(job, _) => At?(s, job, CommitReady)
    case Raise(job) => job in s.workers && (InTry(s.workers[job].pc) || InExcept(s.workers[job].pc))
  }

  function Apply(s: State, a: Action): State
    requires Enabled(s, a)
  {
    match a
    case SyncData(slice, job) => AfterSync(s, slice, job)
    case ActiveSync(slice) => AfterLookup(s, slice)
    case CancelAtOnce(job) => AfterCancel(s, job)
    case CancelStart(job) =>
      s.(cancels := s.cancels + [Canceller(job, s.rows[job].status == Queued, SetFlag)])
    case CancelStep(i) => AfterCancelStep(s, i)
    case DeleteRow(job) => s.(rows := s.rows - {job})
    case PickUp(job) => At(s, job, ReadRow)
    case Discard(job) => At(s, job, Discarded)
    case Advance(job) => AfterAdvance(s, job)
    case Report(job, last, percent) => AfterReport(s, job, last, percent)
    case Commit(job, ok) => AfterCommit(s, job, ok)
    case Raise(job) => At(s, job, RaisedPc(s.workers[job].pc))
  }

  /** A run: consecutive states are joined by enabled actions. */
  ghost predicate Run(states: seq<State>, acts: seq<Action>) {
    && |states| == |acts| + 1
    && forall i :: 0 <= i < |acts| ==>
         Enabled(states[i], acts[i]) && states[i + 1] == Apply(states[i], acts[i])
  }

  ghost predicate RunFromStart(states: seq<State>, acts: seq<Action>) {
    Run(states, acts) && Init(states[0])
  }

}
