/**
 What the CANCELLED status is worth: when it is permanent, runs in which it is
 overwritten, and the run in which a cancel request that is interrupted lets two jobs
 into the same slice.
 */
module SyncCancelled {
  import opened Options
  import opened SyncProtocol
  import opened SyncRuns
  import opened SyncInvariants
  import opened SyncTheorems

  // ----- when CANCELLED is permanent ------------------------------------------------------

  predicate ShowsCancelled(s: State, job: JobId) {
    job in s.rows && s.rows[job].status == Cancelled
  }

  predicate CancelledOrDeleted(s: State, job: JobId) {
    job in s.rows ==> s.rows[job].status == Cancelled
  }

  ghost predicate StaysCancelled(s: State, job: JobId) {
    forall acts :: Executable(s, acts) ==> CancelledOrDeleted(Exec(s, acts), job)
  }

  /** The worker has made its last check before one of its three status writes. */
  predicate AboutToWriteStatus(pc: Pc) {
    pc.WriteProcessing? || pc.WriteFinal? || pc.WriteFailed?
  }

  predicate Sealed(s: State, job: JobId) {
    && job in s.workers
    && CancelledOrDeleted(s, job)
    && !AboutToWriteStatus(s.workers[job].pc)
    && (s.workers[job].pc == Done || job in s.flags)
  }

  lemma ElsewhereLeavesCancelled(s: State, a: Action, job: JobId)
    requires Enabled(s, a) && !WorkOf(a, job) && job in s.workers && CancelledOrDeleted(s, job)
    ensures CancelledOrDeleted(Apply(s, a), job)
  {
    match a
    case Advance(k) =>
    case CancelStep(i) =>
    case _ =>
  }

  lemma WorkKeepsSeal(s: State, a: Action, job: JobId)
    requires Sealed(s, job) && Enabled(s, a) && WorkOf(a, job)
    ensures Sealed(Apply(s, a), job)
  {
  }

  lemma {:induction false} StepKeepsSeal(s: State, a: Action, job: JobId)
    requires Sealed(s, job) && Enabled(s, a)
    ensures Sealed(Apply(s, a), job)
  {
    if WorkOf(a, job) {
      WorkKeepsSeal(s, a, job);
    } else {
      ElsewhereLeavesWorker(s, a, job);
      ElsewhereLeavesCancelled(s, a, job);
    }
  }

  lemma {:induction false} SealedForever(s: State, acts: seq<Action>, job: JobId)
    requires Sealed(s, job) && Executable(s, acts)
    ensures CancelledOrDeleted(Exec(s, acts), job)
    decreases |acts|
  {
    if acts != [] {
      StepKeepsSeal(s, acts[0], job);
      SealedForever(Apply(s, acts[0]), acts[1..], job);
    }
  }

  /**
   A job row that shows CANCELLED shows it for ever (or until it is deleted) if and only
   if the job's worker does not stand before one of its three status writes.
   */
  lemma CancelledIsPermanentIff(s: State, job: JobId)
    requires Inv(s) && ShowsCancelled(s, job)
    ensures job in s.workers
    ensures StaysCancelled(s, job) <==> !AboutToWriteStatus(s.workers[job].pc)
  {
    assert JobOk(s, job);
    var pc := s.workers[job].pc;
    if AboutToWriteStatus(pc) {
      ExecAppend(s, [], Advance(job));
      var acts := [] + [Advance(job)];
      assert Exec(s, acts) == AfterAdvance(s, job);
      assert !CancelledOrDeleted(AfterAdvance(s, job), job);
    } else {
      forall acts | Executable(s, acts) ensures CancelledOrDeleted(Exec(s, acts), job) {
        SealedForever(s, acts, job);
      }
    }
  }

  // ----- one cancel request: six steps make one ------------------------------------------------

  /** The request just started, then its next step, five times over. */
  lemma {:induction false} StartedRequestFinishes(s: State, job: JobId) returns (s6: State)
    requires Cancellable(s, job) && job in s.workers && s.workers[job].slice == s.rows[job].slice
    ensures var n, c := |s.cancels|, CancelStep(|s.cancels|);
            Executable(Apply(s, CancelStart(job)), [c, c, c, c, c])
            && Exec(Apply(s, CancelStart(job)), [c, c, c, c, c]) == s6
    ensures s6 == AfterCancel(s, job)
  {
    var n, q := |s.cancels|, s.rows[job].status == Queued;
    var c := CancelStep(n);
    var s1 := Apply(s, CancelStart(job));
    var s2 := s1.(flags := s.flags + {job}, cancels := s.cancels + [Canceller(job, q, Revoke)]);
    assert AfterCancelStep(s1, n) == s2 by { LastUpdated(s.cancels, s1.cancels[n], s2.cancels[n]); }
    var s3 := s2.(revoked := Revoked(s, job), cancels := s.cancels + [Canceller(job, q, SaveRow)]);
    assert AfterCancelStep(s2, n) == s3 by { LastUpdated(s.cancels, s2.cancels[n], s3.cancels[n]); }
    var s4 := s3.(rows := s.rows[job := s.rows[job].(status := Cancelled)],
                  cancels := s.cancels + [Canceller(job, q, ReleaseLock)]);
    assert AfterCancelStep(s3, n) == s4 by { LastUpdated(s.cancels, s3.cancels[n], s4.cancels[n]); }
    var s5 := s4.(locks := if q then Release(s.locks, s.workers[job].slice, job) else s.locks,
                  cancels := s.cancels + [Canceller(job, q, DropKey)]);
    assert AfterCancelStep(s4, n) == s5 by { LastUpdated(s.cancels, s4.cancels[n], s5.cancels[n]); }
    s6 := s5.(taskKeys := s.taskKeys - {job}, cancels := s.cancels + [Canceller(job, q, Finished)]);
    assert AfterCancelStep(s5, n) == s6 by { LastUpdated(s.cancels, s5.cancels[n], s6.cancels[n]); }
    ExecCons(s5, c, []);
    assert [c] + [] == [c];
    ExecCons(s4, c, [c]);
    ExecCons(s3, c, [c, c]);
    ExecCons(s2, c, [c, c, c]);
    ExecCons(s1, c, [c, c, c, c]);
    assert [c] + [c] == [c, c] && [c] + [c, c] == [c, c, c] && [c] + [c, c, c] == [c, c, c, c];
    assert [c] + [c, c, c, c] == [c, c, c, c, c];
  }

  lemma LastUpdated(cancels: seq<Canceller>, before: Canceller, after: Canceller)
    ensures (cancels + [before])[|cancels| := after] == cancels + [after]
  {
  }

  /** A cancel request whose six accesses are not interrupted is the one-step cancel. */
  lemma UninterruptedStepsAreOneCancel(s: State, job: JobId)
    requires Inv(s) && Cancellable(s, job)
    ensures var acts := [CancelStart(job)] + seq(5, _ => CancelStep(|s.cancels|));
            job in s.workers && Executable(s, acts) && Exec(s, acts) == AfterCancel(s, job)
  {
    assert JobOk(s, job);
    var c := CancelStep(|s.cancels|);
    var s6 := StartedRequestFinishes(s, job);
    assert seq(5, _ => c) == [c, c, c, c, c];
    ExecCons(s, CancelStart(job), [c, c, c, c, c]);
  }

  // ----- witness runs -------------------------------------------------------------------------

  const IDLE := State(map[], {}, {}, {}, map[], map[], [], map[])

  /** Start the waiting task and take it up to its first write. */
  function Start(job: JobId): seq<Action> {
    [PickUp(job), Advance(job), Advance(job)]
  }

  lemma MovedTwice(s: State, job: JobId, a: Pc, b: Pc)
    requires job in s.workers
    ensures At(At(s, job, a), job, b) == At(s, job, b)
  {
    assert At(At(s, job, a), job, b).workers == At(s, job, b).workers;
  }

  lemma NotMoved(s: State, job: JobId)
    requires job in s.workers
    ensures At(s, job, s.workers[job].pc) == s
  {
    assert At(s, job, s.workers[job].pc).workers == s.workers;
  }

  /** An access that only reads. */
  lemma ReadAccess(s: State, job: JobId, pc: Pc)
    requires job in s.workers && Deterministic(pc) && !WritesRow(pc) && !ReleasesLock(pc) && !ClearsFlags(pc)
    ensures AfterAdvance(At(s, job, pc), job) == At(s, job, NextPc(pc, RowOf(s, job), job in s.flags))
  {
    MovedTwice(s, job, pc, NextPc(pc, RowOf(s, job), job in s.flags));
  }

  /** An access that writes the row. */
  lemma WriteAccess(s: State, job: JobId, pc: Pc)
    requires job in s.workers && WritesRow(pc) && job in s.rows
    ensures AfterAdvance(At(s, job, pc), job)
            == At(s.(rows := s.rows[job := WrittenRow(pc, s.rows[job])]), job,
                  NextPc(pc, RowOf(s, job), job in s.flags))
  {
    MovedTwice(s.(rows := s.rows[job := WrittenRow(pc, s.rows[job])]), job, pc,
               NextPc(pc, RowOf(s, job), job in s.flags));
  }

  lemma StartReachesWrite(s: State, job: JobId)
    requires At?(s, job, Pending) && job !in s.flags && job in s.rows && s.rows[job].status == Queued
    ensures Executable(s, Start(job)) && Exec(s, Start(job)) == At(s, job, WriteProcessing)
  {
    ReadAccess(s, job, ReadRow);
    ReadAccess(s, job, CheckEntry(Queued));
    ExecThree(s, PickUp(job), Advance(job), Advance(job));
  }

  /** Write PROCESSING and look at the flag again. */
  function Enter(job: JobId): seq<Action> {
    [Advance(job), Advance(job)]
  }

  lemma EnterReachesPipeline(s: State, job: JobId)
    requires At?(s, job, WriteProcessing) && job in s.rows
    ensures Executable(s, Enter(job))
    ensures Exec(s, Enter(job))
            == At(s.(rows := s.rows[job := JobRow(s.rows[job].slice, Processing, 5)]), job,
                  if job in s.flags then FinallyRelease else Loading)
  {
    NotMoved(s, job);
    WriteAccess(s, job, WriteProcessing);
    ReadAccess(s.(rows := s.rows[job := JobRow(s.rows[job].slice, Processing, 5)]), job, Recheck);
    ExecTwo(s, Advance(job), Advance(job));
  }

  /**
   A queued job cancelled between the entry check and the PROCESSING write: CANCELLED is
   overwritten, and the row still shows PROCESSING when the worker has left for good.
   */
  lemma CancelledOverwrittenByProcessing(slice: Slice, job: JobId) returns (acts: seq<Action>, more: seq<Action>)
    ensures Executable(IDLE, acts) && ShowsCancelled(Exec(IDLE, acts), job)
    ensures Executable(Exec(IDLE, acts), more)
    ensures var s := Exec(Exec(IDLE, acts), more);
            At?(s, job, Done) && RowOf(s, job) == Some(JobRow(slice, Processing, 5)) && slice !in s.locks
  {
    acts := [SyncData(slice, job)];
    ExecOne(IDLE, SyncData(slice, job));
    var s1 := AfterSync(IDLE, slice, job);
    StartReachesWrite(s1, job);
    ExecConcat(IDLE, acts, Start(job));
    acts := acts + Start(job);
    var s2 := At(s1, job, WriteProcessing);
    assert s2.rows == map[job := JobRow(slice, Queued, 0)] && s2.cancels == [];
    ExecAppend(IDLE, acts, CancelAtOnce(job));
    acts := acts + [CancelAtOnce(job)];
    more := FlaggedWorkerLeaves(AfterCancel(s2, job), job);
  }

  /** From the PROCESSING write on, a flagged worker goes straight to its finally block. */
  lemma FlaggedWorkerLeaves(s: State, job: JobId) returns (more: seq<Action>)
    requires At?(s, job, WriteProcessing) && job in s.rows && job in s.flags
    requires s.workers[job].slice !in s.locks
    ensures Executable(s, more) && At?(Exec(s, more), job, Done)
    ensures RowOf(Exec(s, more), job) == Some(JobRow(s.rows[job].slice, Processing, 5))
    ensures Exec(s, more).locks == s.locks
  {
    EnterReachesPipeline(s, job);
    more := Enter(job);
    var s1 := Exec(s, more);
    FinallyAccesses(s1, job);
    ExecAppend(s, more, Advance(job));
    more := more + [Advance(job)];
    ExecAppend(s, more, Advance(job));
    more := more + [Advance(job)];
  }

  lemma FinallyAccesses(s: State, job: JobId)
    requires At?(s, job, FinallyRelease) && s.workers[job].slice !in s.locks
    ensures At?(AfterAdvance(s, job), job, FinallyClear)
    ensures var s' := AfterAdvance(AfterAdvance(s, job), job);
            At?(s', job, Done) && s'.rows == s.rows && s'.locks == s.locks
  {
  }

  /** The last report and its progress write; the commit and the exit check. */
  function ReportLast(job: JobId): seq<Action> {
    [Report(job, true, 95), Advance(job)]
  }

  function CommitAndCheck(job: JobId): seq<Action> {
    [Commit(job, true), Advance(job), Advance(job)]
  }

  lemma ReportReachesCommit(s: State, job: JobId)
    requires At?(s, job, Loading) && job !in s.flags && job in s.rows
    ensures Executable(s, ReportLast(job))
    ensures Exec(s, ReportLast(job)) == At(s.(rows := s.rows[job := s.rows[job].(progress := 95)]), job, CommitReady)
  {
    WriteAccess(s, job, ProgressWrite(true, 95));
    ExecTwo(s, Report(job, true, 95), Advance(job));
  }

  lemma CommitReachesFinalWrite(s: State, job: JobId)
    requires At?(s, job, CommitReady) && job !in s.flags && job in s.rows && s.rows[job].status == Processing
    ensures Executable(s, CommitAndCheck(job))
    ensures Exec(s, CommitAndCheck(job))
            == At(s.(warehouse := s.warehouse[s.workers[job].slice := job]), job, WriteFinal(true))
  {
    var t := s.(warehouse := s.warehouse[s.workers[job].slice := job]);
    ReadAccess(t, job, Refresh(Succeeded));
    ReadAccess(t, job, CheckExit(Succeeded, Processing));
    ExecThree(s, Commit(job, true), Advance(job), Advance(job));
  }

  /** A cancel between the exit check and the final write. */
  lemma FinalWriteOverwrites(s: State, job: JobId)
    requires At?(s, job, WriteFinal(true)) && Cancellable(s, job)
    ensures Executable(s, [CancelAtOnce(job)]) && ShowsCancelled(Exec(s, [CancelAtOnce(job)]), job)
    ensures var t := Exec(s, [CancelAtOnce(job)]);
            && Executable(t, [Advance(job)])
            && RowOf(Exec(t, [Advance(job)]), job) == Some(JobRow(s.rows[job].slice, Completed, 100))
            && Exec(t, [Advance(job)]).warehouse == s.warehouse
  {
    var t := AfterCancel(s, job);
    ExecOne(s, CancelAtOnce(job));
    NotMoved(t, job);
    WriteAccess(t, job, WriteFinal(true));
    ExecOne(t, Advance(job));
  }

  /** One job, accepted by the empty system, up to its final write. */
  lemma RunToFinalWrite(slice: Slice, job: JobId) returns (acts: seq<Action>)
    ensures Executable(IDLE, acts)
    ensures var s := Exec(IDLE, acts);
            At?(s, job, WriteFinal(true)) && RowOf(s, job) == Some(JobRow(slice, Processing, 95))
            && s.warehouse == map[slice := job]
  {
    acts := [SyncData(slice, job)];
    ExecOne(IDLE, SyncData(slice, job));
    var s1 := AfterSync(IDLE, slice, job);
    StartReachesWrite(s1, job);
    ExecConcat(IDLE, acts, Start(job));
    acts := acts + Start(job);
    var s2 := At(s1, job, WriteProcessing);
    EnterReachesPipeline(s2, job);
    ExecConcat(IDLE, acts, Enter(job));
    acts := acts + Enter(job);
    var s3 := Exec(s2, Enter(job));
    ReportReachesCommit(s3, job);
    ExecConcat(IDLE, acts, ReportLast(job));
    acts := acts + ReportLast(job);
    CommitReachesFinalWrite(Exec(s3, ReportLast(job)), job);
    ExecConcat(IDLE, acts, CommitAndCheck(job));
    acts := acts + CommitAndCheck(job);
  }

  /**
   A processing job cancelled between the exit check and the final write: CANCELLED is
   overwritten by COMPLETED, the snapshot being committed already.
   */
  lemma CancelledOverwrittenByCompleted(slice: Slice, job: JobId) returns (acts: seq<Action>, more: seq<Action>)
    ensures Executable(IDLE, acts) && ShowsCancelled(Exec(IDLE, acts), job)
    ensures Executable(Exec(IDLE, acts), more)
    ensures var s := Exec(Exec(IDLE, acts), more);
            RowOf(s, job) == Some(JobRow(slice, Completed, 100)) && s.warehouse == map[slice := job]
  {
    acts := RunToFinalWrite(slice, job);
    FinalWriteOverwrites(Exec(IDLE, acts), job);
    ExecConcat(IDLE, acts, [CancelAtOnce(job)]);
    acts := acts + [CancelAtOnce(job)];
    more := [Advance(job)];
  }

  /** A fresh job goes all the way into the pipeline of a slice that is open. */
  function SyncAndEnter(slice: Slice, job: JobId): seq<Action> {
    [SyncData(slice, job)] + (Start(job) + Enter(job))
  }

  lemma FreshJobEnters(s: State, slice: Slice, job: JobId)
    requires Accepts(s, slice) && Fresh(s, job) && job !in s.flags
    ensures Executable(s, SyncAndEnter(slice, job))
    ensures var t := Exec(s, SyncAndEnter(slice, job));
            && At?(t, job, Loading) && t.workers[job].slice == slice && Holds(t, slice, job)
            && t.flags == s.flags && t.workers == s.workers[job := t.workers[job]]
  {
    var s1 := AfterSync(s, slice, job);
    StartReachesWrite(s1, job);
    EnterReachesPipeline(At(s1, job, WriteProcessing), job);
    ExecConcat(s1, Start(job), Enter(job));
    ExecCons(s, SyncData(slice, job), Start(job) + Enter(job));
  }

  /** A job whose cancel request has read QUEUED is in the pipeline when the request releases its lock. */
  lemma InterruptedCancelTakesLock(slice: Slice, job: JobId) returns (acts: seq<Action>)
    ensures Executable(IDLE, acts)
    ensures var s := Exec(IDLE, acts);
            && At?(s, job, Loading) && s.workers == map[job := Worker(slice, Loading)]
            && slice !in s.locks && s.flags == {job} && s.warehouse == map[]
  {
    var s1 := AfterSync(IDLE, slice, job);
    ExecOne(IDLE, SyncData(slice, job));
    acts := [SyncData(slice, job)];
    var s2 := Apply(s1, CancelStart(job));
    ExecAppend(IDLE, acts, CancelStart(job));
    acts := acts + [CancelStart(job)];
    StartReachesWrite(s2, job);
    ExecConcat(IDLE, acts, Start(job));
    acts := acts + Start(job);
    var s3 := At(s2, job, WriteProcessing);
    EnterReachesPipeline(s3, job);
    ExecConcat(IDLE, acts, Enter(job));
    acts := acts + Enter(job);
    var s4 := Exec(s3, Enter(job));
    assert s4.cancels == [Canceller(job, true, SetFlag)] && At?(s4, job, Loading);
    var s8 := FourStepsRelease(s4, job);
    var c := CancelStep(0);
    ExecConcat(IDLE, acts, [c, c, c, c]);
    acts := acts + [c, c, c, c];
  }

  /**
   With an interrupted cancel request mutual exclusion fails: the request reads QUEUED,
   the worker enters the pipeline, the request then releases the worker's lock, and the
   next job enters the same slice.  The first job is flagged by then.
   */
  lemma InterruptedCancelLetsTwoIn(slice: Slice, first: JobId, second: JobId) returns (acts: seq<Action>)
    requires first != second
    ensures Executable(IDLE, acts)
    ensures var s := Exec(IDLE, acts);
            && Ingesting(s, first) && Ingesting(s, second)
            && s.workers[first].slice == s.workers[second].slice == slice
            && !HoldsOwnLock(s, first) && first in s.flags && HoldsOwnLock(s, second)
  {
    acts := InterruptedCancelTakesLock(slice, first);
    FreshJobEnters(Exec(IDLE, acts), slice, second);
    ExecConcat(IDLE, acts, SyncAndEnter(slice, second));
    acts := acts + SyncAndEnter(slice, second);
  }

  /** Flag, revoke, save and release of the only request, which read QUEUED. */
  lemma FourStepsRelease(s: State, job: JobId) returns (s': State)
    requires s.cancels == [Canceller(job, true, SetFlag)] && job in s.workers && job in s.rows
    ensures var c := CancelStep(0); Executable(s, [c, c, c, c]) && Exec(s, [c, c, c, c]) == s'
    ensures s'.locks == Release(s.locks, s.workers[job].slice, job)
    ensures s'.workers == s.workers && s'.flags == s.flags + {job} && s'.warehouse == s.warehouse
  {
    var c := CancelStep(0);
    var s1 := s.(flags := s.flags + {job}, cancels := [Canceller(job, true, Revoke)]);
    assert AfterCancelStep(s, 0) == s1;
    var s2 := s1.(revoked := Revoked(s, job), cancels := [Canceller(job, true, SaveRow)]);
    assert AfterCancelStep(s1, 0) == s2;
    var s3 := s2.(rows := s.rows[job := s.rows[job].(status := Cancelled)],
                  cancels := [Canceller(job, true, ReleaseLock)]);
    assert AfterCancelStep(s2, 0) == s3;
    s' := AfterCancelStep(s3, 0);
    ExecCons(s3, c, []);
    assert [c] + [] == [c] && [c] + [c] == [c, c] && [c] + [c, c] == [c, c, c] && [c] + [c, c, c] == [c, c, c, c];
    ExecCons(s2, c, [c]);
    ExecCons(s1, c, [c, c]);
    ExecCons(s, c, [c, c, c]);
  }
}
