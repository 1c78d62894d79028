/**
 The sync protocol when no cancel request is interrupted: mutual exclusion on a slice,
 and no lock that leaks.
 */
module SyncUninterrupted {
  import opened SyncProtocol
  import opened SyncInvariants

  ghost predicate CalmJob(s: State, job: JobId)
    requires job in s.workers
  {
    var pc := s.workers[job].pc;
    && (Ingesting(s, job) ==> !LockTakenByCancel(s.cancels, job))
    && (HoldsOwnLock(s, job) ==>
          && (pc.Pending? ==> job !in s.revoked)
          && !pc.Discarded? && !pc.EarlyClear? && !pc.FinallyClear?
          && (pc.Done? ==> job !in s.rows))
  }

  ghost predicate CalmInv(s: State) {
    && Inv(s)
    && s.revoked <= s.workers.Keys
    && (forall i :: 0 <= i < |s.cancels| ==> s.cancels[i].pc == Finished)
    && (forall job :: job in s.workers ==> CalmJob(s, job))
  }

  lemma UnflaggedKeepsLock(s: State, job: JobId)
    requires CalmInv(s) && job in s.workers && s.workers[job].pc != Done && job !in s.flags
    ensures !LockTakenByCancel(s.cancels, job)
  {
    forall i | 0 <= i < |s.cancels| ensures !ReleasedAsQueued(s.cancels[i], job) {
      assert CancelOk(s, s.cancels[i]);
    }
  }

  lemma NewJobIsUntouched(s: State, job: JobId)
    requires Inv(s) && job !in s.workers
    ensures !LockTakenByCancel(s.cancels, job)
  {
    forall i | 0 <= i < |s.cancels| ensures !ReleasedAsQueued(s.cancels[i], job) {
      assert CancelOk(s, s.cancels[i]);
    }
  }

  lemma {:induction false} SyncKeepsCalm(s: State, slice: Slice, job: JobId)
    requires CalmInv(s) && Fresh(s, job)
    ensures CalmInv(AfterSync(s, slice, job))
  {
    var s' := AfterSync(s, slice, job);
    SyncKeepsInv(s, slice, job);
    NewJobIsUntouched(s, job);
    forall k | k in s'.workers ensures CalmJob(s', k) {
      if k != job { assert CalmJob(s, k) && JobOk(s, k); }
    }
  }

  lemma {:induction false} CancelKeepsCalm(s: State, job: JobId)
    requires CalmInv(s) && Cancellable(s, job) && job in s.workers
    ensures CalmInv(AfterCancel(s, job))
  {
    var s' := AfterCancel(s, job);
    CancelKeepsInv(s, job);
    assert JobOk(s, job);
    forall k | k in s'.workers ensures CalmJob(s', k) {
      assert CalmJob(s, k);
      TakenAfterAppend(s.cancels, s'.cancels[|s.cancels|], k);
    }
  }

  /** Cancel requests are left alone, one worker moves, and locks and rows only go. */
  ghost predicate MovesOnly(s: State, s': State, job: JobId) {
    && s'.cancels == s.cancels && s'.revoked == s.revoked
    && s'.workers.Keys == s.workers.Keys
    && (forall k :: k in s.workers && k != job ==> s'.workers[k] == s.workers[k])
    && (forall sl :: sl in s'.locks ==> sl in s.locks && s'.locks[sl] == s.locks[sl])
    && s'.rows.Keys <= s.rows.Keys
  }

  lemma {:induction false} MoveKeepsCalm(s: State, s': State, job: JobId)
    requires CalmInv(s) && Inv(s') && job in s'.workers && MovesOnly(s, s', job)
    requires CalmJob(s', job)
    ensures CalmInv(s')
  {
    forall k | k in s'.workers ensures CalmJob(s', k) {
      if k != job { assert CalmJob(s, k); }
    }
  }

  lemma AdvanceMovesOnly(s: State, job: JobId)
    requires job in s.workers && Deterministic(s.workers[job].pc)
    ensures MovesOnly(s, AfterAdvance(s, job), job)
  {
  }

  lemma WorkMovesOnly(s: State, a: Action)
    requires Enabled(s, a)
    requires a.DeleteRow? || a.PickUp? || a.Discard? || a.Report? || a.Commit? || a.Raise?
    ensures a.job in s.workers && MovesOnly(s, Apply(s, a), a.job)
  {
  }

  lemma {:induction false} AdvanceKeepsCalmJob(s: State, job: JobId)
    requires job in s.workers && Deterministic(s.workers[job].pc)
    requires CalmJob(s, job) && JobOk(s, job)
    requires job !in s.flags ==> !LockTakenByCancel(s.cancels, job)
    ensures CalmJob(AfterAdvance(s, job), job)
  {
    var s' := AfterAdvance(s, job);
    assert HoldsOwnLock(s', job) ==> HoldsOwnLock(s, job) && !ReleasesLock(s.workers[job].pc);
  }

  lemma {:induction false} AdvanceKeepsCalm(s: State, job: JobId)
    requires CalmInv(s) && job in s.workers && Deterministic(s.workers[job].pc)
    ensures CalmInv(AfterAdvance(s, job))
  {
    AdvanceKeepsInv(s, job);
    assert CalmJob(AfterAdvance(s, job), job) by {
      if job !in s.flags { UnflaggedKeepsLock(s, job); }
      AdvanceKeepsCalmJob(s, job);
    }
    AdvanceMovesOnly(s, job);
    MoveKeepsCalm(s, AfterAdvance(s, job), job);
  }

  lemma {:induction false} WorkKeepsCalmJob(s: State, a: Action)
    requires CalmInv(s) && Enabled(s, a)
    requires a.DeleteRow? || a.PickUp? || a.Discard? || a.Report? || a.Commit? || a.Raise?
    ensures CalmJob(Apply(s, a), a.job)
  {
    assert CalmJob(s, a.job) && JobOk(s, a.job);
  }

  lemma {:induction false} WorkKeepsCalm(s: State, a: Action)
    requires CalmInv(s) && Enabled(s, a)
    requires a.DeleteRow? || a.PickUp? || a.Discard? || a.Report? || a.Commit? || a.Raise?
    ensures CalmInv(Apply(s, a))
  {
    StepKeepsInv(s, a);
    WorkKeepsCalmJob(s, a);
    WorkMovesOnly(s, a);
    MoveKeepsCalm(s, Apply(s, a), a.job);
  }

  predicate Calm(a: Action) {
    !a.CancelStart? && !a.CancelStep?
  }

  lemma {:induction false} StepKeepsCalm(s: State, a: Action)
    requires CalmInv(s) && Enabled(s, a) && Calm(a)
    ensures CalmInv(Apply(s, a))
  {
    match a
    case SyncData(slice, job) => SyncKeepsCalm(s, slice, job);
    case ActiveSync(slice) =>
      var s' := AfterLookup(s, slice);
      LookupKeepsInv(s, slice);
      forall k | k in s'.workers ensures CalmJob(s', k) { assert CalmJob(s, k); }
    case CancelAtOnce(job) => CancelKeepsCalm(s, job);
    case Advance(job) => AdvanceKeepsCalm(s, job);
    case _ => WorkKeepsCalm(s, a);
  }

  ghost predicate CalmRun(states: seq<State>, acts: seq<Action>) {
    RunFromStart(states, acts) && forall i :: 0 <= i < |acts| ==> Calm(acts[i])
  }

  lemma {:induction false} CalmAlongRun(states: seq<State>, acts: seq<Action>, k: nat)
    requires CalmRun(states, acts) && k <= |acts|
    ensures CalmInv(states[k])
  {
    if k > 0 {
      CalmAlongRun(states, acts, k - 1);
      StepKeepsCalm(states[k - 1], acts[k - 1]);
    }
  }

  /** At most one job per slice is ever inside the pipeline, and it owns the lock. */
  lemma MutualExclusion(states: seq<State>, acts: seq<Action>, k: nat, a: JobId, b: JobId)
    requires CalmRun(states, acts) && k <= |acts|
    requires Ingesting(states[k], a) && Ingesting(states[k], b)
    requires states[k].workers[a].slice == states[k].workers[b].slice
    ensures a == b && HoldsOwnLock(states[k], a)
  {
    CalmAlongRun(states, acts, k);
    var s := states[k];
    assert CalmJob(s, a) && CalmJob(s, b) && JobOk(s, a) && JobOk(s, b);
  }

  /**
   No leaked lock: the job a lock names still has a task that will start, or a worker
   that has not given the lock back, or no row at all.
   */
  lemma NoLeakedLock(states: seq<State>, acts: seq<Action>, k: nat, slice: Slice)
    requires CalmRun(states, acts) && k <= |acts| && slice in states[k].locks
    ensures var job := states[k].locks[slice];
            && job in states[k].workers && states[k].workers[job].slice == slice
            && (Orphaned(states[k], slice)
                || (NotReleased(states[k].workers[job].pc)
                    && (states[k].workers[job].pc.Pending? ==> job !in states[k].revoked)))
  {
    CalmAlongRun(states, acts, k);
    assert CalmJob(states[k], states[k].locks[slice]);
  }

  /**
   The next sync request is accepted exactly when the slice is free or its lock is an
   orphan; it then owns the lock, has a QUEUED row and a task, and nothing else moved.
   */
  lemma SyncRecoversOrphan(states: seq<State>, acts: seq<Action>, k: nat, slice: Slice, job: JobId)
    requires CalmRun(states, acts) && k <= |acts| && Fresh(states[k], job)
    ensures var s, s' := states[k], AfterSync(states[k], slice, job);
            && (job in s'.workers <==> slice !in s.locks || s.locks[slice] !in s.rows)
            && (job in s'.workers ==> Live(s', job) && HoldsOwnLock(s', job))
            && (job !in s'.workers ==> s' == s && Live(s, s.locks[slice]))
            && (forall other :: other != slice ==> (other in s'.locks <==> other in s.locks))
            && (forall other :: other != slice && other in s.locks ==> s'.locks[other] == s.locks[other])
  {
    CalmAlongRun(states, acts, k);
    if slice in states[k].locks {
      NoLeakedLock(states, acts, k, slice);
    }
  }
}
