/**
 The gateway and the worker as programs over the shared stores.

 Each method makes the accesses of the source function it is named after, in the same
 order and under the same tests.  The object also records, as a ghost, the list of
 protocol actions made so far; every method keeps that record a legal execution of the
 transition system that ends in the present contents of the stores.
 */
module SyncBackend {
  import opened Options
  import opened SyncProtocol
  import opened SyncInvariants
  import opened SyncTheorems

  datatype SyncReply = Accepted | Conflict(active: Option<JobId>)

  datatype TaskReply = TaskCancelled | TaskCompleted | TaskRaised

  /** What the native pipeline does if nobody cancels it. */
  datatype Ending = CommitWorks | CommitFails | RaisesFirst

  datatype Script = Script(reports: seq<nat>, ending: Ending)

  /** A lock is never given to a job that exists already. */
  lemma ElsewhereGivesNoLock(s: State, a: Action, job: JobId)
    requires Enabled(s, a) && !WorkOf(a, job) && job in s.workers
    ensures HoldsOwnLock(Apply(s, a), job) ==> HoldsOwnLock(s, job)
  {
    ElsewhereLeavesWorker(s, a, job);
    match a
    case Advance(k) =>
    case CancelStep(i) =>
    case _ =>
  }

  lemma FlagChecksIgnoreRow(pc: Pc, row: Option<JobRow>, flagged: bool)
    requires pc.CheckEntry? || pc.Recheck? || pc.CheckExit? || pc.ExceptCheck?
    ensures NextPc(pc, row, flagged) == NextPc(pc, None, flagged)
  {
  }

  /** The job has committed its snapshot since the first part of the record. */
  ghost predicate CommittedSince(past: nat, trace: seq<Action>, job: JobId) {
    exists i :: past <= i < |trace| && trace[i] == Commit(job, true)
  }

  class Backend {
    // Redis
    var locks: map<Slice, JobId>
    var flags: set<JobId>
    var taskKeys: set<JobId>
    // Celery
    var revoked: set<JobId>
    var workers: map<JobId, Worker>
    var cancels: seq<Canceller>
    // Postgres
    var rows: map<JobId, JobRow>
    var warehouse: map<Slice, JobId>

    // how often the others have been given a turn
    var turn: nat

    // the run so far: the states passed through and the actions between them
    ghost var states: seq<State>
    ghost var trace: seq<Action>

    function View(): State
      reads this
    {
      State(locks, flags, taskKeys, revoked, rows, workers, cancels, warehouse)
    }

    ghost predicate Recorded()
      reads this
    {
      RunFromStart(states, trace) && states[|trace|] == View()
    }

    constructor ()
      ensures Init(View()) && Recorded() && trace == []
    {
      locks, flags, taskKeys, revoked := map[], {}, {}, {};
      workers, cancels, rows, warehouse, turn := map[], [], map[], map[], 0;
      states, trace := [State(map[], {}, {}, {}, map[], map[], [], map[])], [];
    }

    // ----- redis_lock.py ------------------------------------------------------------

    /** Set if absent. */
    method AcquireSyncLock(slice: Slice, job: JobId) returns (acquired: bool)
      modifies this`locks
      ensures acquired <==> slice !in old(locks)
      ensures locks == if acquired then old(locks)[slice := job] else old(locks)
    {
      acquired := slice !in locks;
      if acquired { locks := locks[slice := job]; }
    }

    method GetActiveJobId(slice: Slice) returns (job: Option<JobId>)
      ensures job == if slice in locks then Some(locks[slice]) else None
    {
      job := if slice in locks then Some(locks[slice]) else None;
    }

    /** Compare and delete: another job's lock is left alone. */
    method ReleaseSyncLock(slice: Slice, job: JobId)
      modifies this`locks
      ensures locks == Release(old(locks), slice, job)
      ensures slice in locks ==> locks[slice] != job
      ensures forall other :: other in old(locks) && (other != slice || old(locks)[other] != job) ==>
                other in locks && locks[other] == old(locks)[other]
    {
      if slice in locks && locks[slice] == job { locks := locks - {slice}; }
    }

    // ----- views.py ---------------------------------------------------------------------

    /** The job that holds the slice, or none; an orphan lock is dropped on the way. */
    method ActiveJob(slice: Slice) returns (active: Option<JobId>)
      modifies this`locks
      ensures View() == AfterLookup(old(View()), slice)
      ensures active == if slice in locks then Some(locks[slice]) else None
    {
      var id := GetActiveJobId(slice);
      if id.None? { return None; }
      if id.value in rows { return id; }
      ReleaseSyncLock(slice, id.value);
      active := None;
    }

    /**
     Acquire; if that fails look the active job up, and try once more if there is none.
     The source looks once again when the second try fails as well, which takes another
     request in between and so cannot happen here.
     */
    method AcquireOrFindActive(slice: Slice, job: JobId) returns (acquired: bool, active: Option<JobId>)
      modifies this`locks
      ensures acquired <==> Accepts(old(View()), slice)
      ensures locks == if acquired then old(locks)[slice := job] else old(locks)
      ensures !acquired ==> slice in locks && active == Some(locks[slice])
    {
      active := None;
      acquired := AcquireSyncLock(slice, job);
      if !acquired {
        active := ActiveJob(slice);
        if active.None? { acquired := AcquireSyncLock(slice, job); }
      }
    }

    method SyncData(slice: Slice, job: JobId) returns (reply: SyncReply)
      requires Recorded() && Fresh(View(), job)
      modifies this
      ensures Recorded() && old(states) <= states && trace == old(trace) + [Action.SyncData(slice, job)]
      ensures View() == AfterSync(old(View()), slice, job)
      ensures reply.Accepted? <==> Accepts(old(View()), slice)
      ensures reply.Conflict? ==> slice in locks && reply.active == Some(locks[slice])
    {
      ghost var before := View();
      var acquired, active := AcquireOrFindActive(slice, job);
      if acquired {
        rows := rows[job := JobRow(slice, Queued, 0)];
        workers := workers[job := Worker(slice, Pending)];
        taskKeys := taskKeys + {job};
        reply := Accepted;
      } else {
        reply := Conflict(active);
      }
      assert View() == AfterSync(before, slice, job);
      Record(before, Action.SyncData(slice, job));
    }

    // ----- cancel_sync.py --------------------------------------------------------------

    /** Flag, revoke, row, lock, key: in this order. */
    method MarkCancelled(job: JobId)
      requires Cancellable(View(), job)
      modifies this`flags, this`revoked, this`rows, this`locks, this`taskKeys, this`cancels
      ensures View() == AfterCancel(old(View()), job)
    {
      var row := rows[job];
      var wasQueued := row.status == Queued;
      flags := flags + {job};
      if job in taskKeys { revoked := revoked + {job}; }
      rows := rows[job := row.(status := Cancelled)];
      if wasQueued { ReleaseSyncLock(row.slice, job); }
      taskKeys := taskKeys - {job};
      cancels := cancels + [Canceller(job, wasQueued, Finished)];
    }

    method CancelSyncJob(job: JobId) returns (done: bool)
      requires Recorded() && job in rows
      modifies this
      ensures Recorded()
      ensures done <==> old(rows)[job].status in {Queued, Processing}
      ensures done ==> View() == AfterCancel(old(View()), job) && trace == old(trace) + [CancelAtOnce(job)]
      ensures !done ==> View() == old(View()) && trace == old(trace)
    {
      ghost var before := View();
      done := rows[job].status in {Queued, Processing};
      if done {
        InvFromStart(states, trace, |trace|);
        MarkCancelled(job);
        Record(before, CancelAtOnce(job));
      }
    }

    // ----- bookkeeping -------------------------------------------------------------------

    ghost method Record(before: State, a: Action)
      requires RunFromStart(states, trace) && states[|trace|] == before
      requires Enabled(before, a) && View() == Apply(before, a)
      modifies this`trace, this`states
      ensures trace == old(trace) + [a] && old(states) <= states && Recorded()
    {
      states := states + [View()];
      trace := trace + [a];
    }

    /** The row of a started task is there. */
    lemma StartedHasRow(job: JobId)
      requires Recorded() && job in workers && Started(workers[job].pc)
      ensures job in rows
    {
      InvFromStart(states, trace, |trace|);
      assert JobOk(View(), job);
    }

    method SetView(s: State)
      modifies this`locks, this`flags, this`taskKeys, this`revoked, this`workers, this`cancels, this`rows,
               this`warehouse
      ensures View() == s
    {
      locks, flags, taskKeys, revoked := s.locks, s.flags, s.taskKeys, s.revoked;
      workers, cancels, rows, warehouse := s.workers, s.cancels, s.rows, s.warehouse;
    }

    // ----- tasks.py ---------------------------------------------------------------------------

    /** Everybody else gets a turn: the listed actions, as far as they are enabled. */
    method Others(env: nat -> seq<Action>, job: JobId)
      requires Recorded() && job in workers
      modifies this
      ensures Recorded() && Extends(old(states), old(trace))
      ensures job in workers && workers[job] == old(workers)[job]
      ensures job in old(flags) ==> job in flags
      ensures HoldsOwnLock(View(), job) ==> old(HoldsOwnLock(View(), job))
    {
      var acts := env(turn);
      turn := turn + 1;
      for i := 0 to |acts|
        invariant Recorded() && Extends(old(states), old(trace))
        invariant job in workers && workers[job] == old(workers)[job]
        invariant job in old(flags) ==> job in flags
        invariant HoldsOwnLock(View(), job) ==> old(HoldsOwnLock(View(), job))
      {
        var before := View();
        if Enabled(before, acts[i]) && !WorkOf(acts[i], job) {
          ElsewhereLeavesWorker(before, acts[i], job);
          ElsewhereGivesNoLock(before, acts[i], job);
          SetView(Apply(before, acts[i]));
          Record(before, acts[i]);
        }
      }
    }

    /** The record has only grown since. */
    ghost predicate Extends(was: seq<State>, past: seq<Action>)
      reads this
    {
      was <= states && past <= trace
    }

    /** Load the row, first or again. */
    method LoadRow(job: JobId) returns (row: Option<JobRow>)
      requires Recorded() && job in workers
      requires workers[job].pc.ReadRow? || workers[job].pc.Refresh? || workers[job].pc.ExceptRefresh?
      modifies this
      ensures Recorded() && old(states) <= states && trace == old(trace) + [Advance(job)]
      ensures View() == AfterAdvance(old(View()), job) && row == RowOf(View(), job)
    {
      ghost var before := View();
      row := if job in rows then Some(rows[job]) else None;
      Move(job, NextPc(workers[job].pc, row, job in flags));
      Record(before, Advance(job));
    }

    method IsCancelRequested(job: JobId) returns (flagged: bool)
      requires Recorded() && job in workers
      requires var pc := workers[job].pc; pc.CheckEntry? || pc.Recheck? || pc.CheckExit? || pc.ExceptCheck?
      modifies this
      ensures Recorded() && old(states) <= states && trace == old(trace) + [Advance(job)]
      ensures View() == AfterAdvance(old(View()), job) && flagged == (job in flags)
    {
      ghost var before := View();
      flagged := job in flags;
      Move(job, NextPc(workers[job].pc, RowOf(View(), job), flagged));
      Record(before, Advance(job));
    }

    /** A save with a list of fields; it fails when the row is gone. */
    method UpdateJob(job: JobId) returns (saved: bool)
      requires Recorded() && job in workers && WritesRow(workers[job].pc)
      modifies this
      ensures Recorded() && old(states) <= states && trace == old(trace) + [Advance(job)]
      ensures View() == AfterAdvance(old(View()), job) && saved == (job in old(rows))
    {
      ghost var before := View();
      saved := job in rows;
      var row := RowOf(View(), job);
      if saved { rows := rows[job := WrittenRow(workers[job].pc, rows[job])]; }
      Move(job, NextPc(workers[job].pc, row, job in flags));
      Record(before, Advance(job));
    }

    method ReleaseOwnLock(job: JobId)
      requires Recorded() && job in workers && ReleasesLock(workers[job].pc)
      modifies this
      ensures Recorded() && old(states) <= states && trace == old(trace) + [Advance(job)]
      ensures View() == AfterAdvance(old(View()), job)
    {
      ghost var before := View();
      ReleaseSyncLock(workers[job].slice, job);
      Move(job, NextPc(workers[job].pc, RowOf(View(), job), job in flags));
      Record(before, Advance(job));
    }

    method ClearCancelFlags(job: JobId)
      requires Recorded() && job in workers && ClearsFlags(workers[job].pc)
      modifies this
      ensures Recorded() && old(states) <= states && trace == old(trace) + [Advance(job)]
      ensures View() == AfterAdvance(old(View()), job)
    {
      ghost var before := View();
      flags := flags - {job};
      taskKeys := taskKeys - {job};
      Move(job, Done);
      Record(before, Advance(job));
    }

    /** The progress callback looks at the flag. */
    method OnProgress(job: JobId, last: bool, percent: nat) returns (proceed: bool)
      requires Recorded() && At?(View(), job, Loading)
      modifies this
      ensures Recorded() && old(states) <= states && trace == old(trace) + [Report(job, last, percent)]
      ensures View() == AfterReport(old(View()), job, last, percent) && proceed == (job !in flags)
    {
      ghost var before := View();
      proceed := job !in flags;
      Move(job, if proceed then ProgressWrite(last, percent) else Refresh(Aborted));
      Record(before, Report(job, last, percent));
    }

    method CommitSnapshot(job: JobId, ok: bool)
      requires Recorded() && At?(View(), job, CommitReady)
      modifies this
      ensures Recorded() && old(states) <= states && trace == old(trace) + [Commit(job, ok)]
      ensures View() == AfterCommit(old(View()), job, ok)
    {
      ghost var before := View();
      if ok { warehouse := warehouse[workers[job].slice := job]; }
      Move(job, Refresh(if ok then Succeeded else Rejected));
      Record(before, Commit(job, ok));
    }

    method Move(job: JobId, pc: Pc)
      requires job in workers
      modifies this`workers
      ensures workers == old(workers)[job := old(workers)[job].(pc := pc)]
    {
      workers := workers[job := workers[job].(pc := pc)];
    }

    method PickUpTask(job: JobId)
      requires Recorded() && At?(View(), job, Pending)
      modifies this
      ensures Recorded() && old(states) <= states && trace == old(trace) + [PickUp(job)]
      ensures View() == At(old(View()), job, ReadRow)
    {
      ghost var before := View();
      Move(job, ReadRow);
      Record(before, PickUp(job));
    }

    method RaiseError(job: JobId)
      requires Recorded() && job in workers && InTry(workers[job].pc)
      modifies this
      ensures Recorded() && old(states) <= states && trace == old(trace) + [Raise(job)]
      ensures View() == At(old(View()), job, ExceptRefresh)
    {
      ghost var before := View();
      Move(job, ExceptRefresh);
      Record(before, Raise(job));
    }

    // ----- the same accesses, each after a turn of the others ---------------------------------

    method LoadRowInTurn(job: JobId, env: nat -> seq<Action>) returns (row: Option<JobRow>)
      requires Recorded() && job in workers
      requires workers[job].pc.ReadRow? || workers[job].pc.Refresh? || workers[job].pc.ExceptRefresh?
      modifies this
      ensures Recorded() && Extends(old(states), old(trace))
      ensures job in workers && workers[job].pc == NextPc(old(workers)[job].pc, row, job in flags)
      ensures !old(workers)[job].pc.ReadRow? ==> row.Some?
      ensures row.None? ==> job !in rows
      ensures job in old(flags) ==> job in flags
    {
      Others(env, job);
      if Started(workers[job].pc) { StartedHasRow(job); }
      row := LoadRow(job);
    }

    method CheckFlagInTurn(job: JobId, env: nat -> seq<Action>) returns (flagged: bool)
      requires Recorded() && job in workers
      requires var pc := workers[job].pc; pc.CheckEntry? || pc.Recheck? || pc.CheckExit? || pc.ExceptCheck?
      modifies this
      ensures Recorded() && Extends(old(states), old(trace))
      ensures job in workers && workers[job].pc == NextPc(old(workers)[job].pc, None, flagged)
      ensures job in old(flags) ==> flagged
    {
      Others(env, job);
      ghost var pc, row := workers[job].pc, RowOf(View(), job);
      flagged := IsCancelRequested(job);
      FlagChecksIgnoreRow(pc, row, flagged);
    }

    method UpdateJobInTurn(job: JobId, env: nat -> seq<Action>) returns (ghost row: JobRow)
      requires Recorded() && job in workers && WritesRow(workers[job].pc)
      modifies this
      ensures Recorded() && Extends(old(states), old(trace))
      ensures job in workers && workers[job].pc == NextPc(old(workers)[job].pc, Some(row), job in flags)
    {
      Others(env, job);
      StartedHasRow(job);
      row := rows[job];
      var saved := UpdateJob(job);
    }

    method OnProgressInTurn(job: JobId, env: nat -> seq<Action>, last: bool, percent: nat) returns (proceed: bool)
      requires Recorded() && At?(View(), job, Loading)
      modifies this
      ensures Recorded() && Extends(old(states), old(trace))
      ensures job in workers && workers[job].pc == if proceed then ProgressWrite(last, percent) else Refresh(Aborted)
    {
      Others(env, job);
      proceed := OnProgress(job, last, percent);
    }

    method CommitInTurn(job: JobId, env: nat -> seq<Action>, ok: bool)
      requires Recorded() && At?(View(), job, CommitReady)
      modifies this
      ensures Recorded() && Extends(old(states), old(trace)) && old(trace) < trace
              && trace[|trace| - 1] == Commit(job, ok)
      ensures job in workers && workers[job].pc == Refresh(if ok then Succeeded else Rejected)
    {
      Others(env, job);
      CommitSnapshot(job, ok);
    }

    method ReleaseInTurn(job: JobId, env: nat -> seq<Action>)
      requires Recorded() && job in workers && ReleasesLock(workers[job].pc)
      modifies this
      ensures Recorded() && Extends(old(states), old(trace))
      ensures job in workers && ClearsFlags(workers[job].pc) && !HoldsOwnLock(View(), job)
    {
      Others(env, job);
      ReleaseOwnLock(job);
    }

    method ClearInTurn(job: JobId, env: nat -> seq<Action>)
      requires Recorded() && job in workers && ClearsFlags(workers[job].pc) && !HoldsOwnLock(View(), job)
      modifies this
      ensures Recorded() && Extends(old(states), old(trace))
      ensures job in workers && workers[job].pc == Done && !HoldsOwnLock(View(), job) && job !in flags
    {
      Others(env, job);
      ClearCancelFlags(job);
    }

    method PickUpInTurn(job: JobId, env: nat -> seq<Action>)
      requires Recorded() && At?(View(), job, Pending)
      modifies this
      ensures Recorded() && Extends(old(states), old(trace))
      ensures job in workers && workers[job].pc == ReadRow
      ensures job in old(flags) ==> job in flags
    {
      Others(env, job);
      PickUpTask(job);
    }

    method RaiseInTurn(job: JobId, env: nat -> seq<Action>)
      requires Recorded() && job in workers && InTry(workers[job].pc)
      modifies this
      ensures Recorded() && Extends(old(states), old(trace))
      ensures job in workers && workers[job].pc == ExceptRefresh
    {
      Others(env, job);
      RaiseError(job);
    }

    // ----- the task ----------------------------------------------------------------------------

    /** One progress report; what it returns says whether the pipeline goes on. */
    method ReportOnce(job: JobId, env: nat -> seq<Action>, last: bool, percent: nat) returns (proceed: bool)
      requires Recorded() && At?(View(), job, Loading)
      modifies this
      ensures Recorded() && Extends(old(states), old(trace))
      ensures job in workers
      ensures workers[job].pc == if !proceed then Refresh(Aborted) else if last then CommitReady else Loading
    {
      proceed := OnProgressInTurn(job, env, last, percent);
      if proceed { ghost var row := UpdateJobInTurn(job, env); }
    }

    method ReportAll(job: JobId, env: nat -> seq<Action>, percents: seq<nat>) returns (proceed: bool)
      requires Recorded() && At?(View(), job, Loading)
      modifies this
      ensures Recorded() && Extends(old(states), old(trace))
      ensures job in workers && workers[job].pc == if proceed then Loading else Refresh(Aborted)
    {
      for i := 0 to |percents|
        invariant Recorded() && Extends(old(states), old(trace))
        invariant job in workers && workers[job].pc == Loading
      {
        proceed := ReportOnce(job, env, false, percents[i]);
        if !proceed { return; }
      }
      proceed := true;
    }

    /** The native pipeline: progress reports, then the commit.  None: it raised. */
    method ExecuteEtlPipeline(job: JobId, env: nat -> seq<Action>, script: Script) returns (verdict: Option<Verdict>)
      requires Recorded() && At?(View(), job, Loading)
      modifies this
      ensures Recorded() && Extends(old(states), old(trace))
      ensures job in workers && workers[job].pc == if verdict.None? then ExceptRefresh else Refresh(verdict.value)
      ensures verdict == Some(Succeeded) ==> CommittedSince(|old(trace)|, trace, job)
    {
      var proceed := ReportAll(job, env, script.reports);
      if !proceed { return Some(Aborted); }
      if script.ending == RaisesFirst {
        RaiseInTurn(job, env);
        return None;
      }
      proceed := ReportOnce(job, env, true, 95);
      if !proceed { return Some(Aborted); }
      CommitInTurn(job, env, script.ending == CommitWorks);
      verdict := Some(if script.ending == CommitWorks then Succeeded else Rejected);
    }

    /** After the pipeline returned: has the job been cancelled, or what is its final status? */
    method SettleStatus(job: JobId, env: nat -> seq<Action>, verdict: Verdict) returns (reply: TaskReply)
      requires Recorded() && At?(View(), job, Refresh(verdict))
      modifies this
      ensures Recorded() && Extends(old(states), old(trace))
      ensures job in workers && workers[job].pc == if reply.TaskRaised? then ExceptRefresh else FinallyRelease
      ensures reply.TaskCompleted? ==> verdict == Succeeded
    {
      var row := LoadRowInTurn(job, env);
      var flagged := CheckFlagInTurn(job, env);
      if row.value.status == Cancelled || flagged || verdict == Aborted { return TaskCancelled; }
      ghost var saved := UpdateJobInTurn(job, env);
      reply := if verdict == Succeeded then TaskCompleted else TaskRaised;
    }

    /** The except block. */
    method HandleError(job: JobId, env: nat -> seq<Action>) returns (reply: TaskReply)
      requires Recorded() && At?(View(), job, ExceptRefresh)
      modifies this
      ensures Recorded() && Extends(old(states), old(trace))
      ensures job in workers && workers[job].pc == FinallyRelease && !reply.TaskCompleted?
    {
      var row := LoadRowInTurn(job, env);
      var flagged := CheckFlagInTurn(job, env);
      if row.value.status == Cancelled || flagged { return TaskCancelled; }
      ghost var saved := UpdateJobInTurn(job, env);
      reply := TaskRaised;
    }

    /** The PROCESSING write and the second look at the flag. */
    method EnterPipeline(job: JobId, env: nat -> seq<Action>) returns (flagged: bool)
      requires Recorded() && At?(View(), job, WriteProcessing)
      modifies this
      ensures Recorded() && Extends(old(states), old(trace))
      ensures job in workers && workers[job].pc == if flagged then FinallyRelease else Loading
    {
      ghost var saved := UpdateJobInTurn(job, env);
      flagged := CheckFlagInTurn(job, env);
    }

    /** Run the pipeline and settle the status. */
    method Ingest(job: JobId, env: nat -> seq<Action>, script: Script) returns (reply: TaskReply)
      requires Recorded() && At?(View(), job, Loading)
      modifies this
      ensures Recorded() && Extends(old(states), old(trace))
      ensures job in workers && workers[job].pc == if reply.TaskRaised? then ExceptRefresh else FinallyRelease
      ensures reply.TaskCompleted? ==> CommittedSince(|old(trace)|, trace, job)
    {
      var verdict := ExecuteEtlPipeline(job, env, script);
      if verdict.None? { return TaskRaised; }
      reply := SettleStatus(job, env, verdict.value);
    }

    /** The try block with its handler. */
    method TryBlock(job: JobId, env: nat -> seq<Action>, script: Script) returns (reply: TaskReply)
      requires Recorded() && At?(View(), job, WriteProcessing)
      modifies this
      ensures Recorded() && Extends(old(states), old(trace))
      ensures job in workers && workers[job].pc == FinallyRelease
      ensures reply.TaskCompleted? ==> CommittedSince(|old(trace)|, trace, job)
    {
      var flagged := EnterPipeline(job, env);
      if flagged { return TaskCancelled; }
      reply := Ingest(job, env, script);
      if reply.TaskRaised? { reply := HandleError(job, env); }
    }

    /** Give the lock back and clear the flags, early or in the finally block. */
    method Leave(job: JobId, env: nat -> seq<Action>)
      requires Recorded() && job in workers && ReleasesLock(workers[job].pc)
      modifies this
      ensures Recorded() && Extends(old(states), old(trace))
      ensures job in workers && workers[job].pc == Done && !HoldsOwnLock(View(), job) && job !in flags
    {
      ReleaseInTurn(job, env);
      ClearInTurn(job, env);
    }

    /** Load the row and decide whether to begin; nothing is done for a deleted row. */
    method EntryCheck(job: JobId, env: nat -> seq<Action>) returns (found: bool, cancelled: bool)
      requires Recorded() && At?(View(), job, Pending)
      modifies this
      ensures Recorded() && Extends(old(states), old(trace))
      ensures job in workers
      ensures workers[job].pc == if !found then Done else if cancelled then EarlyRelease else WriteProcessing
      ensures !found ==> job !in rows
      ensures found && job in old(flags) ==> cancelled
    {
      PickUpInTurn(job, env);
      var row := LoadRowInTurn(job, env);
      found, cancelled := row.Some?, false;
      if found {
        var flagged := CheckFlagInTurn(job, env);
        cancelled := row.value.status == Cancelled || flagged;
      }
    }

    /**
     The task of one job, from the queue to its end, with everybody else running in
     between any two of its accesses.  Whatever they do, the execution is a run of the
     protocol; the task ends, its lock given back unless its row was deleted before it
     started; it reports completion only if it committed; and a job flagged before its
     task starts is cancelled, if its row is there.
     */
    method RunEtlPipeline(job: JobId, env: nat -> seq<Action>, script: Script) returns (reply: TaskReply)
      requires Recorded() && At?(View(), job, Pending)
      modifies this
      ensures Recorded() && Extends(old(states), old(trace))
      ensures At?(View(), job, Done)
      ensures HoldsOwnLock(View(), job) ==> job !in rows
      ensures reply.TaskCompleted? ==> CommittedSince(|old(trace)|, trace, job)
      ensures job in old(flags) ==> Commit(job, true) !in trace
      ensures job in old(flags) && job in rows ==> reply.TaskCancelled?
    {
      ghost var start := |trace|;
      var found, cancelled := EntryCheck(job, env);
      if found {
        reply := TaskCancelled;
        if !cancelled { reply := TryBlock(job, env, script); }
        Leave(job, env);
      } else {
        reply := TaskRaised;
      }
      if job in old(flags) { FlaggedNeverCommits(states, trace, start, job); }
    }
  }
}
