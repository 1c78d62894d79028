/**
 Safety over whole runs of the sync protocol.
 */
module SyncTheorems {
  import opened SyncProtocol
  import opened SyncInvariants

  lemma InvFromStart(states: seq<State>, acts: seq<Action>, k: nat)
    requires RunFromStart(states, acts) && k <= |acts|
    ensures Inv(states[k])
  {
    InvAlongRun(states, acts, k);
  }

  // ----- the lock of a live job -----------------------------------------------------

  /**
   However cancel requests interleave with the worker, a live job has lost its slice
   lock exactly when a request that read its row as QUEUED has performed its release,
   and then its cancel flag is set.
   */
  lemma LiveJobIsLockedOrFlagged(states: seq<State>, acts: seq<Action>, k: nat, job: JobId)
    requires RunFromStart(states, acts) && k <= |acts| && Live(states[k], job)
    ensures HoldsOwnLock(states[k], job) <==> !LockTakenByCancel(states[k].cancels, job)
    ensures HoldsOwnLock(states[k], job) || job in states[k].flags
  {
    InvFromStart(states, acts, k);
    var s := states[k];
    assert JobOk(s, job);
    if LockTakenByCancel(s.cancels, job) {
      var i :| 0 <= i < |s.cancels| && ReleasedAsQueued(s.cancels[i], job);
      assert CancelOk(s, s.cancels[i]);
    }
  }

  /** The worker will read the cancel flag once more before it can commit. */
  predicate BeforeLastCheck(pc: Pc) {
    pc.Pending? || pc.ReadRow? || pc.CheckEntry? || pc.WriteProcessing? || pc.Recheck? || pc.Loading?
    || (pc.ProgressWrite? && !pc.last)
  }

  /** The commit stands at the end of the stretch that the last flag check opened. */
  predicate PastLastCheck(pc: Pc) {
    pc.CommitReady? || (pc.ProgressWrite? && pc.last)
  }

  /** 0 before the last flag check, 1 between it and the commit, 2 when no commit can follow. */
  function Phase(pc: Pc): nat {
    if BeforeLastCheck(pc) then 0 else if PastLastCheck(pc) then 1 else 2
  }

  /** The action is performed by the worker of this job. */
  predicate WorkOf(a: Action, job: JobId) {
    (a.PickUp? || a.Discard? || a.Advance? || a.Report? || a.Commit? || a.Raise?) && a.job == job
  }

  lemma ElsewhereLeavesWorker(s: State, a: Action, k: JobId)
    requires Enabled(s, a) && k in s.workers && !WorkOf(a, k)
    ensures k in Apply(s, a).workers && Apply(s, a).workers[k] == s.workers[k]
    ensures k in s.flags ==> k in Apply(s, a).flags
    ensures a != Commit(k, true)
  {
    match a
    case Advance(job) =>
    case CancelStep(i) =>
    case _ =>
  }

  lemma AdvancePhase(s: State, k: JobId)
    requires k in s.workers && Deterministic(s.workers[k].pc)
    ensures var s' := AfterAdvance(s, k);
            var p, p' := Phase(s.workers[k].pc), Phase(s'.workers[k].pc);
            p <= p' && (p == 0 ==> p' != 1) && (p' == 0 ==> s'.flags == s.flags)
  {
  }

  /**
   Phases only grow; the last check opens phase 1 with the flag clear; a commit ends it;
   and a flag survives phase 0.
   */
  lemma {:induction false} PhaseMoves(s: State, a: Action, k: JobId)
    requires Enabled(s, a) && k in s.workers
    ensures k in Apply(s, a).workers
    ensures Phase(s.workers[k].pc) <= Phase(Apply(s, a).workers[k].pc)
    ensures Phase(s.workers[k].pc) == 0 && Phase(Apply(s, a).workers[k].pc) == 1 ==>
              a.Report? && a.job == k && a.last && k !in s.flags
    ensures Phase(Apply(s, a).workers[k].pc) == 0 && k in s.flags ==> k in Apply(s, a).flags
    ensures a == Commit(k, true) ==> Phase(s.workers[k].pc) == 1 && Phase(Apply(s, a).workers[k].pc) == 2
  {
    if WorkOf(a, k) {
      if a.Advance? { AdvancePhase(s, k); }
    } else {
      ElsewhereLeavesWorker(s, a, k);
    }
  }

  lemma NewWorkersWait(s: State, a: Action, k: JobId)
    requires Enabled(s, a) && k !in s.workers && k in Apply(s, a).workers
    ensures Apply(s, a).workers[k].pc == Pending
  {
  }

  lemma {:induction false} LastCheckOpens(s: State, a: Action, job: JobId)
    requires Enabled(s, a)
    requires job in Apply(s, a).workers && PastLastCheck(Apply(s, a).workers[job].pc)
    ensures job in s.workers
    ensures PastLastCheck(s.workers[job].pc) || (a.Report? && a.job == job && a.last && job !in s.flags)
  {
    if job !in s.workers {
      NewWorkersWait(s, a, job);
    } else {
      PhaseMoves(s, a, job);
    }
  }

  lemma {:induction false} LastCheckBefore(states: seq<State>, acts: seq<Action>, k: nat, job: JobId)
    returns (i: nat)
    requires RunFromStart(states, acts) && k <= |acts|
    requires job in states[k].workers && PastLastCheck(states[k].workers[job].pc)
    ensures i < k && acts[i].Report? && acts[i].job == job && acts[i].last
    ensures job in states[i].workers && job !in states[i].flags
    ensures forall m :: i < m <= k ==> job in states[m].workers && PastLastCheck(states[m].workers[job].pc)
  {
    i := k - 1;
    LastCheckOpens(states[i], acts[i], job);
    if PastLastCheck(states[i].workers[job].pc) {
      i := LastCheckBefore(states, acts, i, job);
    }
  }

  /**
   Every job that commits held its slice lock, with its cancel flag clear, at its last
   flag check; between that check and the commit it only saved its progress.
   */
  lemma CommitHeldLockAtLastCheck(states: seq<State>, acts: seq<Action>, k: nat, job: JobId) returns (i: nat)
    requires RunFromStart(states, acts) && k < |acts| && acts[k] == Commit(job, true)
    ensures i < k && acts[i].Report? && acts[i].job == job && acts[i].last
    ensures HoldsOwnLock(states[i], job) && job !in states[i].flags
    ensures forall m :: i < m <= k ==> job in states[m].workers && PastLastCheck(states[m].workers[job].pc)
  {
    assert Enabled(states[k], acts[k]);
    i := LastCheckBefore(states, acts, k, job);
    InvFromStart(states, acts, i);
    assert Enabled(states[i], acts[i]);
    assert JobOk(states[i], job);
    LiveJobIsLockedOrFlagged(states, acts, i, job);
  }

  // ----- cancel is effective ----------------------------------------------------------

  lemma StepOfRun(states: seq<State>, acts: seq<Action>, k: nat)
    requires Run(states, acts) && k < |acts|
    ensures Enabled(states[k], acts[k]) && states[k + 1] == Apply(states[k], acts[k])
  {
  }

  lemma PhaseStep(states: seq<State>, acts: seq<Action>, k: nat, job: JobId)
    requires Run(states, acts) && k < |acts| && job in states[k].workers
    ensures job in states[k + 1].workers && Phase(states[k].workers[job].pc) <= Phase(states[k + 1].workers[job].pc)
  {
    StepOfRun(states, acts, k);
    PhaseMoves(states[k], acts[k], job);
  }

  lemma {:induction false} PhaseGrows(states: seq<State>, acts: seq<Action>, i: nat, k: nat, job: JobId)
    requires Run(states, acts) && i <= k <= |acts| && job in states[i].workers
    ensures job in states[k].workers && Phase(states[i].workers[job].pc) <= Phase(states[k].workers[job].pc)
  {
    if i < k {
      PhaseGrows(states, acts, i, k - 1, job);
      PhaseStep(states, acts, k - 1, job);
    }
  }

  /** Flagged before the last check, or past any chance of a commit. */
  predicate Doomed(s: State, job: JobId) {
    && job in s.workers
    && (Phase(s.workers[job].pc) == 2 || (Phase(s.workers[job].pc) == 0 && job in s.flags))
  }

  lemma DoomedStep(states: seq<State>, acts: seq<Action>, k: nat, job: JobId)
    requires Run(states, acts) && k < |acts| && Doomed(states[k], job)
    ensures Doomed(states[k + 1], job)
  {
    StepOfRun(states, acts, k);
    PhaseMoves(states[k], acts[k], job);
  }

  lemma {:induction false} DoomedForever(states: seq<State>, acts: seq<Action>, i: nat, k: nat, job: JobId)
    requires Run(states, acts) && i <= k <= |acts| && Doomed(states[i], job)
    ensures Doomed(states[k], job)
  {
    if i < k {
      DoomedForever(states, acts, i, k - 1, job);
      DoomedStep(states, acts, k - 1, job);
    }
  }

  predicate FlaggedOrDone(s: State, job: JobId) {
    job in s.workers && (s.workers[job].pc != Done ==> job in s.flags)
  }

  /** The worker itself clears its flag, as its last access. */
  lemma {:induction false} StepKeepsFlag(s: State, a: Action, job: JobId)
    requires Enabled(s, a) && FlaggedOrDone(s, job)
    ensures FlaggedOrDone(Apply(s, a), job)
  {
    if !WorkOf(a, job) { ElsewhereLeavesWorker(s, a, job); }
  }

  lemma FlagStep(states: seq<State>, acts: seq<Action>, k: nat, job: JobId)
    requires Run(states, acts) && k < |acts| && FlaggedOrDone(states[k], job)
    ensures FlaggedOrDone(states[k + 1], job)
  {
    StepOfRun(states, acts, k);
    StepKeepsFlag(states[k], acts[k], job);
  }

  /** A flag, once set for a job, stays set until its worker's exit. */
  lemma {:induction false} FlagStays(states: seq<State>, acts: seq<Action>, i: nat, k: nat, job: JobId)
    requires Run(states, acts) && i <= k <= |acts| && job in states[i].workers && job in states[i].flags
    ensures FlaggedOrDone(states[k], job)
  {
    if i < k {
      FlagStays(states, acts, i, k - 1, job);
      FlagStep(states, acts, k - 1, job);
    }
  }

  /** A flag set before the last check keeps the job from committing, before or after that moment. */
  lemma FlaggedNeverCommits(states: seq<State>, acts: seq<Action>, i: nat, job: JobId)
    requires Run(states, acts) && i <= |acts|
    requires job in states[i].workers && BeforeLastCheck(states[i].workers[job].pc) && job in states[i].flags
    ensures Commit(job, true) !in acts
  {
    forall m | 0 <= m < |acts| ensures acts[m] != Commit(job, true) {
      if acts[m] == Commit(job, true) {
        StepOfRun(states, acts, m);
        PhaseMoves(states[m], acts[m], job);
        if m < i {
          PhaseGrows(states, acts, m + 1, i, job);
        } else {
          DoomedForever(states, acts, i, m, job);
        }
        assert false;
      }
    }
  }

  /** The committed snapshots change only when a job commits, and only in that job's slice. */
  lemma WarehouseChangesOnlyByCommit(states: seq<State>, acts: seq<Action>, k: nat)
    requires Run(states, acts) && k < |acts| && states[k + 1].warehouse != states[k].warehouse
    ensures acts[k].Commit? && acts[k].ok && acts[k].job in states[k].workers
    ensures states[k + 1].warehouse
            == states[k].warehouse[states[k].workers[acts[k].job].slice := acts[k].job]
  {
    StepOfRun(states, acts, k);
  }

  lemma PublishStep(states: seq<State>, acts: seq<Action>, k: nat, job: JobId)
    requires Run(states, acts) && k < |acts| && Commit(job, true) !in acts
    ensures Published(states[k + 1], job) ==> Published(states[k], job)
  {
    if Published(states[k + 1], job) && states[k + 1].warehouse != states[k].warehouse {
      WarehouseChangesOnlyByCommit(states, acts, k);
      var slice :| slice in states[k + 1].warehouse && states[k + 1].warehouse[slice] == job;
      assert acts[k] != Commit(job, true);
      assert slice in states[k].warehouse && states[k].warehouse[slice] == job;
    }
  }

  lemma {:induction false} OnlyCommitsPublish(states: seq<State>, acts: seq<Action>, i: nat, k: nat, job: JobId)
    requires Run(states, acts) && i <= k <= |acts| && Commit(job, true) !in acts
    ensures Published(states[k], job) ==> Published(states[i], job)
    decreases k
  {
    if i < k {
      OnlyCommitsPublish(states, acts, i, k - 1, job);
      PublishStep(states, acts, k - 1, job);
    }
  }

  /** A job that comes into existence is not published. */
  lemma NewJobIsUnpublished(states: seq<State>, acts: seq<Action>, k: nat, job: JobId)
    requires RunFromStart(states, acts) && k < |acts| && job !in states[k].workers && job in states[k + 1].workers
    ensures !Published(states[k + 1], job)
  {
    InvFromStart(states, acts, k + 1);
    StepOfRun(states, acts, k);
    NewWorkersWait(states[k], acts[k], job);
    assert JobOk(states[k + 1], job);
  }

  lemma {:induction false} UnpublishedSinceItExists(states: seq<State>, acts: seq<Action>, k: nat, job: JobId)
    requires RunFromStart(states, acts) && k <= |acts| && Commit(job, true) !in acts
    ensures job in states[k].workers ==> !Published(states[k], job)
    decreases k
  {
    if k > 0 && job in states[k].workers {
      if job in states[k - 1].workers {
        UnpublishedSinceItExists(states, acts, k - 1, job);
        PublishStep(states, acts, k - 1, job);
      } else {
        NewJobIsUnpublished(states, acts, k - 1, job);
      }
    }
  }

  /**
   Cancel is effective.  If a job's cancel flag is set at any moment before its last flag
   check, the warehouse never shows the job: not in any state in which the job exists, and
   not in any state at all if its name is not in use from the start.  And the flag stays
   set until the worker's exit.
   */
  lemma CancelIsEffective(states: seq<State>, acts: seq<Action>, i: nat, job: JobId)
    requires RunFromStart(states, acts) && i <= |acts|
    requires job in states[i].workers && BeforeLastCheck(states[i].workers[job].pc) && job in states[i].flags
    ensures forall m :: 0 <= m <= |acts| && job in states[m].workers ==> !Published(states[m], job)
    ensures !Published(states[0], job) ==> forall m :: 0 <= m <= |acts| ==> !Published(states[m], job)
    ensures forall m :: i <= m <= |acts| ==> FlaggedOrDone(states[m], job)
  {
    FlaggedNeverCommits(states, acts, i, job);
    forall m | 0 <= m <= |acts|
      ensures job in states[m].workers ==> !Published(states[m], job)
      ensures Published(states[m], job) ==> Published(states[0], job)
    {
      UnpublishedSinceItExists(states, acts, m, job);
      OnlyCommitsPublish(states, acts, 0, m, job);
    }
    forall m | i <= m <= |acts| ensures FlaggedOrDone(states[m], job) {
      FlagStays(states, acts, i, m, job);
    }
  }

  // ----- mutual exclusion ---------------------------------------------------------------

  /**
   With cancels interleaving freely, at most one job per slice is inside the pipeline
   without its cancel flag set; and it owns the lock.
   */
  lemma OneUnflaggedIngestPerSlice(states: seq<State>, acts: seq<Action>, k: nat, a: JobId, b: JobId)
    requires RunFromStart(states, acts) && k <= |acts|
    requires Ingesting(states[k], a) && Ingesting(states[k], b)
    requires states[k].workers[a].slice == states[k].workers[b].slice
    requires a !in states[k].flags && b !in states[k].flags
    ensures a == b && HoldsOwnLock(states[k], a)
  {
    InvFromStart(states, acts, k);
    assert JobOk(states[k], a) && JobOk(states[k], b);
    LiveJobIsLockedOrFlagged(states, acts, k, a);
    LiveJobIsLockedOrFlagged(states, acts, k, b);
  }
}
