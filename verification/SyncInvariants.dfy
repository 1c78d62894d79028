/**
 What every step of the sync protocol keeps.

 Two facts are carried by the same induction.  A live job has lost its slice lock
 exactly when a cancel request that read the row as QUEUED has performed its release;
 and a cancel request that got past its first write has left the flag of a live job set.
 */
module SyncInvariants {
  import opened SyncProtocol

  /** The worker has read its row and will still write. */
  predicate Started(pc: Pc) {
    !(pc.Pending? || pc.Discarded? || pc.ReadRow? || pc.Done?)
  }

  predicate NotReleased(pc: Pc) {
    !(pc.Discarded? || pc.EarlyClear? || pc.FinallyClear? || pc.Done?)
  }

  /** Live: the task can still run, and its lock has not been given back by its own worker. */
  predicate Live(s: State, job: JobId) {
    && job in s.workers && job in s.rows
    && NotReleased(s.workers[job].pc)
  }

  predicate HoldsOwnLock(s: State, job: JobId) {
    job in s.workers && Holds(s, s.workers[job].slice, job)
  }

  /** Inside the native pipeline, its database transaction open. */
  predicate Ingesting(s: State, job: JobId) {
    job in s.workers && (var pc := s.workers[job].pc; pc.Loading? || pc.ProgressWrite? || pc.CommitReady?)
  }

  /** This request read the row as QUEUED and has performed its release. */
  predicate ReleasedAsQueued(c: Canceller, job: JobId) {
    c.job == job && c.wasQueued && (c.pc.DropKey? || c.pc.Finished?)
  }

  ghost predicate LockTakenByCancel(cancels: seq<Canceller>, job: JobId) {
    exists i :: 0 <= i < |cancels| && ReleasedAsQueued(cancels[i], job)
  }

  /** Nothing this worker did has reached the warehouse yet. */
  predicate BeforeCommit(pc: Pc) {
    pc.Pending? || pc.Discarded? || pc.ReadRow? || pc.CheckEntry? || pc.EarlyRelease? || pc.EarlyClear?
    || pc.WriteProcessing? || pc.Recheck? || pc.Loading? || pc.ProgressWrite? || pc.CommitReady?
  }

  predicate StatusFits(pc: Pc, status: Status) {
    && (pc.Pending? || pc.ReadRow? ==> status == Queued || status == Cancelled)
    && (pc.Recheck? || pc.Loading? || pc.ProgressWrite? || pc.CommitReady? ==>
          status == Processing || status == Cancelled)
  }

  ghost predicate JobOk(s: State, job: JobId)
    requires job in s.workers
  {
    var w := s.workers[job];
    && (Started(w.pc) ==> job in s.rows)
    && (job in s.rows ==> s.rows[job].slice == w.slice && StatusFits(w.pc, s.rows[job].status))
    && (job in s.rows && s.rows[job].status == Cancelled && w.pc != Done ==> job in s.flags)
    && (BeforeCommit(w.pc) ==> !Published(s, job))
    && (Live(s, job) ==> (Holds(s, w.slice, job) <==> !LockTakenByCancel(s.cancels, job)))
  }

  predicate CancelOk(s: State, c: Canceller) {
    && c.job in s.workers
    && (c.pc != SetFlag && s.workers[c.job].pc != Done ==> c.job in s.flags)
  }

  ghost predicate Inv(s: State) {
    && s.rows.Keys <= s.workers.Keys
    && (forall slice :: slice in s.locks ==>
          s.locks[slice] in s.workers && s.workers[s.locks[slice]].slice == slice)
    && (forall job :: job in s.workers ==> JobOk(s, job))
    && (forall i :: 0 <= i < |s.cancels| ==> CancelOk(s, s.cancels[i]))
  }

  lemma {:induction false} TakenAfterAppend(cancels: seq<Canceller>, c: Canceller, k: JobId)
    ensures LockTakenByCancel(cancels + [c], k) <==> LockTakenByCancel(cancels, k) || ReleasedAsQueued(c, k)
  {
    var after := cancels + [c];
    assert after[|cancels|] == c;
    if LockTakenByCancel(cancels, k) {
      var m :| 0 <= m < |cancels| && ReleasedAsQueued(cancels[m], k);
      assert after[m] == cancels[m];
    }
  }

  /** Only the release of a request that read QUEUED takes a lock. */
  lemma {:induction false} TakenAfterUpdate(cancels: seq<Canceller>, i: nat, c: Canceller, k: JobId)
    requires i < |cancels|
    requires ReleasedAsQueued(cancels[i], k) ==> ReleasedAsQueued(c, k)
    ensures LockTakenByCancel(cancels[i := c], k) <==> LockTakenByCancel(cancels, k) || ReleasedAsQueued(c, k)
  {
    var after := cancels[i := c];
    assert after[i] == c;
    if LockTakenByCancel(cancels, k) {
      var m :| 0 <= m < |cancels| && ReleasedAsQueued(cancels[m], k);
      assert m != i ==> after[m] == cancels[m];
    }
  }

  // ----- preservation, one kind of action at a time ---------------------------------

  lemma {:induction false} SyncKeepsInv(s: State, slice: Slice, job: JobId)
    requires Inv(s) && Fresh(s, job)
    ensures Inv(AfterSync(s, slice, job))
  {
    var s' := AfterSync(s, slice, job);
    if Accepts(s, slice) {
      forall k | k in s'.workers ensures JobOk(s', k) {
        if k != job { assert JobOk(s, k); }
      }
      forall i | 0 <= i < |s'.cancels| ensures CancelOk(s', s'.cancels[i]) {
        assert CancelOk(s, s.cancels[i]);
      }
    }
  }

  lemma {:induction false} LookupKeepsInv(s: State, slice: Slice)
    requires Inv(s)
    ensures Inv(AfterLookup(s, slice))
  {
    var s' := AfterLookup(s, slice);
    forall k | k in s'.workers ensures JobOk(s', k) { assert JobOk(s, k); }
    forall i | 0 <= i < |s'.cancels| ensures CancelOk(s', s'.cancels[i]) {
      assert CancelOk(s, s.cancels[i]);
    }
  }

  lemma {:induction false} CancelKeepsInv(s: State, job: JobId)
    requires Inv(s) && Cancellable(s, job) && job in s.workers
    ensures Inv(AfterCancel(s, job))
  {
    var s' := AfterCancel(s, job);
    var n := |s.cancels|;
    assert JobOk(s, job);
    forall k | k in s'.workers ensures JobOk(s', k) {
      assert JobOk(s, k);
      assert s'.cancels[n].job == job;
      TakenAfterAppend(s.cancels, s'.cancels[n], k);
    }
    forall i | 0 <= i < |s'.cancels| ensures CancelOk(s', s'.cancels[i]) {
      if i < n { assert CancelOk(s, s.cancels[i]); }
    }
  }

  lemma {:induction false} CancelStartKeepsInv(s: State, job: JobId)
    requires Inv(s) && Cancellable(s, job) && job in s.workers
    ensures Inv(Apply(s, CancelStart(job)))
  {
    var s' := Apply(s, CancelStart(job));
    var n := |s.cancels|;
    forall k | k in s'.workers ensures JobOk(s', k) {
      assert JobOk(s, k);
      TakenAfterAppend(s.cancels, s'.cancels[n], k);
    }
    forall i | 0 <= i < |s'.cancels| ensures CancelOk(s', s'.cancels[i]) {
      if i < n { assert CancelOk(s, s.cancels[i]); }
    }
  }

  lemma {:induction false} CancelFlagKeepsInv(s: State, i: nat)
    requires Inv(s) && i < |s.cancels| && s.cancels[i].job in s.workers
    requires s.cancels[i].pc == SetFlag || s.cancels[i].pc == Revoke
    ensures Inv(AfterCancelStep(s, i))
  {
    var s' := AfterCancelStep(s, i);
    assert CancelOk(s, s.cancels[i]);
    forall k | k in s'.workers ensures JobOk(s', k) {
      assert JobOk(s, k);
      TakenAfterUpdate(s.cancels, i, s'.cancels[i], k);
    }
    forall m | 0 <= m < |s'.cancels| ensures CancelOk(s', s'.cancels[m]) {
      assert CancelOk(s, s.cancels[m]);
    }
  }

  lemma {:induction false} CancelSaveKeepsInv(s: State, i: nat)
    requires Inv(s) && i < |s.cancels| && s.cancels[i].job in s.workers
    requires s.cancels[i].pc == SaveRow
    ensures Inv(AfterCancelStep(s, i))
  {
    var s' := AfterCancelStep(s, i);
    assert CancelOk(s, s.cancels[i]);
    forall k | k in s'.workers ensures JobOk(s', k) {
      assert JobOk(s, k);
      TakenAfterUpdate(s.cancels, i, s'.cancels[i], k);
    }
    forall m | 0 <= m < |s'.cancels| ensures CancelOk(s', s'.cancels[m]) {
      assert CancelOk(s, s.cancels[m]);
    }
  }

  lemma {:induction false} CancelReleaseKeepsInv(s: State, i: nat)
    requires Inv(s) && i < |s.cancels| && s.cancels[i].job in s.workers
    requires s.cancels[i].pc == ReleaseLock
    ensures Inv(AfterCancelStep(s, i))
  {
    var s' := AfterCancelStep(s, i);
    var job := s.cancels[i].job;
    assert CancelOk(s, s.cancels[i]);
    forall k | k in s'.workers ensures JobOk(s', k) {
      assert JobOk(s, k) && JobOk(s, job);
      TakenAfterUpdate(s.cancels, i, s'.cancels[i], k);
    }
    forall m | 0 <= m < |s'.cancels| ensures CancelOk(s', s'.cancels[m]) {
      assert CancelOk(s, s.cancels[m]);
    }
  }

  lemma {:induction false} CancelEndKeepsInv(s: State, i: nat)
    requires Inv(s) && i < |s.cancels| && s.cancels[i].job in s.workers
    requires s.cancels[i].pc in {DropKey, Finished, Broken}
    ensures Inv(AfterCancelStep(s, i))
  {
    var s' := AfterCancelStep(s, i);
    assert CancelOk(s, s.cancels[i]);
    forall k | k in s'.workers ensures JobOk(s', k) {
      assert JobOk(s, k);
      TakenAfterUpdate(s.cancels, i, s'.cancels[i], k);
    }
    forall m | 0 <= m < |s'.cancels| ensures CancelOk(s', s'.cancels[m]) {
      assert CancelOk(s, s.cancels[m]);
    }
  }

  /** Steps of one worker: they touch its own program counter, row, flags, lock and slice. */
  ghost predicate OnlyTouches(s: State, s': State, job: JobId)
    requires job in s.workers
  {
    && s'.cancels == s.cancels
    && s'.workers.Keys == s.workers.Keys
    && (forall k :: k in s.workers && k != job ==> s'.workers[k] == s.workers[k])
    && (forall k :: k != job ==> (k in s'.rows <==> k in s.rows))
    && (forall k :: k != job && k in s.rows ==> s'.rows[k] == s.rows[k])
    && (forall k :: k != job ==> (k in s'.flags <==> k in s.flags))
    && (forall k :: k != job && Published(s', k) ==> Published(s, k))
    && (s'.locks == s.locks || s'.locks == Release(s.locks, s.workers[job].slice, job))
  }

  /** The moved job is fine on its own. */
  ghost predicate MovedJobOk(s': State, job: JobId) {
    && job in s'.workers
    && JobOk(s', job)
    && forall i :: 0 <= i < |s'.cancels| && s'.cancels[i].job == job ==> CancelOk(s', s'.cancels[i])
  }

  lemma {:induction false} LocalStepKeepsInv(s: State, s': State, job: JobId)
    requires Inv(s) && job in s.workers && OnlyTouches(s, s', job)
    requires MovedJobOk(s', job) && s'.workers[job].slice == s.workers[job].slice
    ensures Inv(s')
  {
    forall k | k in s'.workers ensures JobOk(s', k) {
      if k != job { assert JobOk(s, k); }
    }
    forall i | 0 <= i < |s'.cancels| ensures CancelOk(s', s'.cancels[i]) {
      assert CancelOk(s, s.cancels[i]);
    }
    assert s'.rows.Keys <= s'.workers.Keys by {
      forall k | k in s'.rows ensures k in s'.workers {}
    }
  }

  /** Accesses that only read: nothing but the worker's own program counter moves. */
  lemma {:induction false} MoveKeepsInv(s: State, job: JobId, pc: Pc)
    requires Inv(s) && job in s.workers
    requires Started(pc) ==> job in s.rows
    requires job in s.rows ==> StatusFits(pc, s.rows[job].status)
    requires BeforeCommit(pc) ==> BeforeCommit(s.workers[job].pc)
    requires NotReleased(pc) ==> NotReleased(s.workers[job].pc)
    requires s.workers[job].pc == Done ==> pc == Done
    ensures Inv(At(s, job, pc))
  {
    var s' := At(s, job, pc);
    assert JobOk(s, job);
    forall i | 0 <= i < |s.cancels| ensures CancelOk(s', s'.cancels[i]) {
      assert CancelOk(s, s.cancels[i]);
    }
    LocalStepKeepsInv(s, s', job);
  }

  lemma {:induction false} ReadKeepsInv(s: State, job: JobId)
    requires Inv(s) && job in s.workers && Deterministic(s.workers[job].pc)
    requires var pc := s.workers[job].pc; !WritesRow(pc) && !ReleasesLock(pc) && !ClearsFlags(pc)
    ensures Inv(AfterAdvance(s, job))
  {
    assert JobOk(s, job);
    MoveKeepsInv(s, job, NextPc(s.workers[job].pc, RowOf(s, job), job in s.flags));
  }

  /** A row write by the worker; it never writes CANCELLED unless the row shows it already. */
  lemma {:induction false} WriteKeepsJobOk(s: State, job: JobId)
    requires Inv(s) && job in s.workers && WritesRow(s.workers[job].pc)
    ensures JobOk(AfterAdvance(s, job), job)
  {
    assert JobOk(s, job);
    var s' := AfterAdvance(s, job);
    assert s'.locks == s.locks && s'.flags == s.flags && job in s'.rows;
  }

  lemma {:induction false} WriteKeepsInv(s: State, job: JobId)
    requires Inv(s) && job in s.workers && WritesRow(s.workers[job].pc)
    ensures Inv(AfterAdvance(s, job))
  {
    var s' := AfterAdvance(s, job);
    WriteKeepsJobOk(s, job);
    forall i | 0 <= i < |s.cancels| && s'.cancels[i].job == job ensures CancelOk(s', s'.cancels[i]) {
      assert CancelOk(s, s.cancels[i]);
    }
    assert s'.flags == s.flags && s'.locks == s.locks;
    LocalStepKeepsInv(s, s', job);
  }

  lemma {:induction false} ReleaseKeepsInv(s: State, job: JobId)
    requires Inv(s) && job in s.workers && ReleasesLock(s.workers[job].pc)
    ensures Inv(AfterAdvance(s, job))
  {
    var s' := AfterAdvance(s, job);
    assert JobOk(s', job) by { assert JobOk(s, job); }
    forall i | 0 <= i < |s.cancels| && s'.cancels[i].job == job ensures CancelOk(s', s'.cancels[i]) {
      assert CancelOk(s, s.cancels[i]);
    }
    LocalStepKeepsInv(s, s', job);
  }

  lemma {:induction false} ClearKeepsInv(s: State, job: JobId)
    requires Inv(s) && job in s.workers && ClearsFlags(s.workers[job].pc)
    ensures Inv(AfterAdvance(s, job))
  {
    var s' := AfterAdvance(s, job);
    assert JobOk(s', job) by { assert JobOk(s, job); }
    LocalStepKeepsInv(s, s', job);
  }

  lemma {:induction false} AdvanceKeepsInv(s: State, job: JobId)
    requires Inv(s) && job in s.workers && Deterministic(s.workers[job].pc)
    ensures Inv(AfterAdvance(s, job))
  {
    var pc := s.workers[job].pc;
    if WritesRow(pc) { WriteKeepsInv(s, job); }
    else if ReleasesLock(pc) { ReleaseKeepsInv(s, job); }
    else if ClearsFlags(pc) { ClearKeepsInv(s, job); }
    else { ReadKeepsInv(s, job); }
  }

  lemma {:induction false} DeleteKeepsInv(s: State, job: JobId)
    requires Inv(s) && Enabled(s, DeleteRow(job))
    ensures Inv(Apply(s, DeleteRow(job)))
  {
    var s' := Apply(s, DeleteRow(job));
    assert JobOk(s, job);
    forall i | 0 <= i < |s.cancels| ensures CancelOk(s', s'.cancels[i]) {
      assert CancelOk(s, s.cancels[i]);
    }
    LocalStepKeepsInv(s, s', job);
  }

  lemma {:induction false} CommitKeepsInv(s: State, job: JobId)
    requires Inv(s) && Enabled(s, Commit(job, true))
    ensures Inv(Apply(s, Commit(job, true)))
  {
    var s' := Apply(s, Commit(job, true));
    assert JobOk(s, job);
    forall i | 0 <= i < |s.cancels| ensures CancelOk(s', s'.cancels[i]) {
      assert CancelOk(s, s.cancels[i]);
    }
    forall k | k != job && Published(s', k) ensures Published(s, k) {
      var sl :| sl in s'.warehouse && s'.warehouse[sl] == k;
      assert sl in s.warehouse && s.warehouse[sl] == k;
    }
    LocalStepKeepsInv(s, s', job);
  }

  lemma {:induction false} CancelStepKeepsInv(s: State, i: nat)
    requires Inv(s) && i < |s.cancels| && s.cancels[i].job in s.workers
    ensures Inv(AfterCancelStep(s, i))
  {
    match s.cancels[i].pc
    case SetFlag => CancelFlagKeepsInv(s, i);
    case Revoke => CancelFlagKeepsInv(s, i);
    case SaveRow => CancelSaveKeepsInv(s, i);
    case ReleaseLock => CancelReleaseKeepsInv(s, i);
    case _ => CancelEndKeepsInv(s, i);
  }

  lemma {:induction false} WorkKeepsInv(s: State, a: Action)
    requires Inv(s) && Enabled(s, a)
    requires a.PickUp? || a.Discard? || a.Report? || a.Raise? || (a.Commit? && !a.ok)
    ensures Inv(Apply(s, a))
  {
    var pc := Apply(s, a).workers[a.job].pc;
    assert JobOk(s, a.job);
    MoveKeepsInv(s, a.job, pc);
  }

  /** Every step, of the gateway, of a cancel request or of a worker, keeps the invariant. */
  lemma {:induction false} StepKeepsInv(s: State, a: Action)
    requires Inv(s) && Enabled(s, a)
    ensures Inv(Apply(s, a))
  {
    match a
    case SyncData(slice, job) => SyncKeepsInv(s, slice, job);
    case ActiveSync(slice) => LookupKeepsInv(s, slice);
    case CancelAtOnce(job) => CancelKeepsInv(s, job);
    case CancelStart(job) => CancelStartKeepsInv(s, job);
    case CancelStep(i) => CancelStepKeepsInv(s, i);
    case Advance(job) => AdvanceKeepsInv(s, job);
    case DeleteRow(job) => DeleteKeepsInv(s, job);
    case Commit(job, ok) => if ok { CommitKeepsInv(s, job); } else { WorkKeepsInv(s, a); }
    case PickUp(_) => WorkKeepsInv(s, a);
    case Discard(_) => WorkKeepsInv(s, a);
    case Report(_, _, _) => WorkKeepsInv(s, a);
    case Raise(_) => WorkKeepsInv(s, a);
  }

  lemma {:induction false} InvAlongRun(states: seq<State>, acts: seq<Action>, k: nat)
    requires Run(states, acts) && Inv(states[0]) && k <= |acts|
    ensures Inv(states[k])
  {
    if k > 0 {
      InvAlongRun(states, acts, k - 1);
      StepKeepsInv(states[k - 1], acts[k - 1]);
    }
  }
}
