/**
 Exactly when a job that is in the pipeline stays alone there, cancel requests interleaving
 freely.
 */
module SyncAlone {
  import opened SyncProtocol
  import opened SyncRuns
  import opened SyncInvariants
  import opened SyncTheorems
  import opened SyncCancelled

  /** Another job is in the pipeline of the same slice. */
  ghost predicate HasCompany(s: State, a: JobId)
    requires a in s.workers
  {
    exists b :: b != a && IngestsBeside(s, a, b)
  }

  predicate IngestsBeside(s: State, a: JobId, b: JobId)
    requires a in s.workers
  {
    Ingesting(s, b) && s.workers[b].slice == s.workers[a].slice
  }

  /** The request read QUEUED and has released the lock of the job, or is going to. */
  predicate Releases(c: Canceller, a: JobId) {
    c.job == a && c.wasQueued && c.pc != Broken
  }

  ghost predicate Threatened(s: State, a: JobId) {
    exists i :: 0 <= i < |s.cancels| && Releases(s.cancels[i], a)
  }

  /** Whatever happens, no other job joins it while it is in the pipeline. */
  ghost predicate StaysAlone(s: State, a: JobId) {
    forall acts :: Executable(s, acts) && Ingesting(Exec(s, acts), a) ==> !HasCompany(Exec(s, acts), a)
  }

  // ----- nobody joins a job that is not threatened ---------------------------------------------

  /** The worker is past the pipeline. */
  predicate Past(s: State, a: JobId) {
    && a in s.workers
    && !Ingesting(s, a)
    && (var pc := s.workers[a].pc;
        !(pc.Pending? || pc.ReadRow? || pc.CheckEntry? || pc.WriteProcessing? || pc.Recheck?))
  }

  lemma {:induction false} StepKeepsSlice(s: State, a: Action, job: JobId)
    requires Enabled(s, a) && job in s.workers
    ensures job in Apply(s, a).workers && Apply(s, a).workers[job].slice == s.workers[job].slice
  {
    if !WorkOf(a, job) { ElsewhereLeavesWorker(s, a, job); }
  }

  /** A job comes into the pipeline only from its second look at the flag, which was clear. */
  lemma {:induction false} EntersFromRecheck(s: State, a: Action, job: JobId)
    requires Enabled(s, a) && Ingesting(Apply(s, a), job)
    ensures Ingesting(s, job) || (a == Advance(job) && At?(s, job, Recheck) && job !in s.flags)
  {
    if job !in s.workers {
      NewWorkersWait(s, a, job);
    } else if !WorkOf(a, job) {
      ElsewhereLeavesWorker(s, a, job);
    }
  }

  lemma {:induction false} StepKeepsPast(s: State, a: Action, job: JobId)
    requires Enabled(s, a) && Past(s, job)
    ensures Past(Apply(s, a), job)
  {
    if !WorkOf(a, job) { ElsewhereLeavesWorker(s, a, job); }
  }

  lemma {:induction false} LeavesToPast(s: State, a: Action, job: JobId)
    requires Enabled(s, a) && Ingesting(s, job)
    ensures Ingesting(Apply(s, a), job) || Past(Apply(s, a), job)
  {
    if !WorkOf(a, job) { ElsewhereLeavesWorker(s, a, job); }
  }

  /** A request that starts now does not read QUEUED. */
  lemma {:induction false} StepKeepsUnthreatened(s: State, a: Action, job: JobId)
    requires Inv(s) && Enabled(s, a) && Ingesting(s, job) && !Threatened(s, job)
    ensures !Threatened(Apply(s, a), job)
  {
    var s' := Apply(s, a);
    assert JobOk(s, job);
    forall i | 0 <= i < |s'.cancels| ensures !Releases(s'.cancels[i], job) {
      if i < |s.cancels| {
        assert !Releases(s.cancels[i], job);
        RequestKeepsJob(s, a, i);
      } else {
        NewRequest(s, a, i);
      }
    }
  }

  lemma RequestStep(s: State, i: nat)
    requires i < |s.cancels| && s.cancels[i].job in s.workers
    ensures var s', c := AfterCancelStep(s, i), s.cancels[i];
            exists pc :: s'.cancels == s.cancels[i := c.(pc := pc)] && (c.pc == Broken ==> pc == Broken)
  {
    var s', c := AfterCancelStep(s, i), s.cancels[i];
    assert s.cancels[i := c] == s.cancels;
    assert s'.cancels == s.cancels[i := c.(pc := s'.cancels[i].pc)];
  }

  lemma RequestKeepsJob(s: State, a: Action, i: nat)
    requires Enabled(s, a) && i < |s.cancels|
    ensures |s.cancels| <= |Apply(s, a).cancels|
    ensures forall job :: Releases(Apply(s, a).cancels[i], job) ==> Releases(s.cancels[i], job)
  {
    if a.CancelStep? { RequestStep(s, a.request); }
  }

  lemma NewRequest(s: State, a: Action, i: nat)
    requires Enabled(s, a) && |s.cancels| <= i < |Apply(s, a).cancels|
    ensures var c := Apply(s, a).cancels[i]; c.job in s.rows && c.wasQueued == (s.rows[c.job].status == Queued)
  {
    if a.CancelStep? { RequestStep(s, a.request); }
  }

  /** Of two jobs of one slice, the one without the lock has lost it to a cancel, so it is flagged. */
  lemma OtherIsFlagged(s: State, a: JobId, b: JobId)
    requires Inv(s) && Ingesting(s, a) && !Threatened(s, a)
    requires b != a && At?(s, b, Recheck) && s.workers[b].slice == s.workers[a].slice
    ensures b in s.flags
  {
    assert JobOk(s, a) && JobOk(s, b);
    forall i | 0 <= i < |s.cancels| ensures !ReleasedAsQueued(s.cancels[i], a) {
      assert !Releases(s.cancels[i], a);
    }
    assert LockTakenByCancel(s.cancels, b);
    var i :| 0 <= i < |s.cancels| && ReleasedAsQueued(s.cancels[i], b);
    assert CancelOk(s, s.cancels[i]);
  }

  lemma {:induction false} StepKeepsAlone(s: State, a: Action, job: JobId)
    requires Inv(s) && Enabled(s, a) && Ingesting(s, job) && !Threatened(s, job) && !HasCompany(s, job)
    requires job in Apply(s, a).workers
    ensures !HasCompany(Apply(s, a), job)
  {
    var s' := Apply(s, a);
    StepKeepsSlice(s, a, job);
    forall b | b != job ensures !IngestsBeside(s', job, b) {
      if IngestsBeside(s', job, b) {
        EntersFromRecheck(s, a, b);
        StepKeepsSlice(s, a, b);
        assert !IngestsBeside(s, job, b);
        OtherIsFlagged(s, job, b);
        assert false;
      }
    }
  }

  lemma {:induction false} PastForever(s: State, acts: seq<Action>, job: JobId)
    requires Past(s, job) && Executable(s, acts)
    ensures Past(Exec(s, acts), job)
    decreases |acts|
  {
    if acts != [] {
      StepKeepsPast(s, acts[0], job);
      PastForever(Apply(s, acts[0]), acts[1..], job);
    }
  }

  lemma {:induction false} AloneForever(s: State, acts: seq<Action>, job: JobId)
    requires Inv(s) && Ingesting(s, job) && !Threatened(s, job) && !HasCompany(s, job)
    requires Executable(s, acts) && Ingesting(Exec(s, acts), job)
    ensures !HasCompany(Exec(s, acts), job)
    decreases |acts|
  {
    if acts != [] {
      var s' := Apply(s, acts[0]);
      StepKeepsInv(s, acts[0]);
      LeavesToPast(s, acts[0], job);
      if Past(s', job) {
        PastForever(s', acts[1..], job);
      } else {
        StepKeepsUnthreatened(s, acts[0], job);
        StepKeepsAlone(s, acts[0], job);
        AloneForever(s', acts[1..], job);
      }
    }
  }

  // ----- somebody can join a job that is threatened ----------------------------------------------

  /** One more action in front, which leaves the job where it is. */
  ghost predicate Leaves(s: State, t: State, job: JobId) {
    && Inv(t) && job in s.workers && job in t.workers && t.workers[job] == s.workers[job]
  }

  lemma FirstStepLeaves(s: State, a: Action, job: JobId)
    requires Inv(s) && Enabled(s, a) && job in s.workers && !WorkOf(a, job)
    ensures Leaves(s, Apply(s, a), job)
  {
    StepKeepsInv(s, a);
    ElsewhereLeavesWorker(s, a, job);
  }

  function StepsToRelease(pc: CancelPc): nat {
    match pc
    case SetFlag => 4
    case Revoke => 3
    case SaveRow => 2
    case ReleaseLock => 1
    case _ => 0
  }

  lemma NextCancelStep(s: State, job: JobId, i: nat)
    requires Inv(s) && Ingesting(s, job) && i < |s.cancels| && Releases(s.cancels[i], job)
    requires StepsToRelease(s.cancels[i].pc) > 0
    ensures Enabled(s, CancelStep(i))
    ensures var s' := Apply(s, CancelStep(i));
            && i < |s'.cancels| && Releases(s'.cancels[i], job)
            && StepsToRelease(s'.cancels[i].pc) < StepsToRelease(s.cancels[i].pc)
  {
    assert JobOk(s, job) && CancelOk(s, s.cancels[i]);
  }

  /** The request goes on until it has released. */
  lemma {:induction false} RequestReleases(s: State, job: JobId, i: nat) returns (acts: seq<Action>)
    requires Inv(s) && Ingesting(s, job) && i < |s.cancels| && Releases(s.cancels[i], job)
    ensures Executable(s, acts) && Leaves(s, Exec(s, acts), job)
    ensures !Holds(Exec(s, acts), s.workers[job].slice, job)
    decreases StepsToRelease(s.cancels[i].pc)
  {
    if StepsToRelease(s.cancels[i].pc) == 0 {
      acts := [];
      assert ReleasedAsQueued(s.cancels[i], job) && JobOk(s, job);
    } else {
      var a := CancelStep(i);
      NextCancelStep(s, job, i);
      FirstStepLeaves(s, a, job);
      var rest := RequestReleases(Apply(s, a), job, i);
      ExecCons(s, a, rest);
      acts := [a] + rest;
    }
  }

  function StepsToOpen(pc: Pc): nat {
    if pc.ReadRow? then 6
    else if pc.CheckEntry? then 5
    else if InTry(pc) then 4
    else if InExcept(pc) then 3
    else if ReleasesLock(pc) then 2
    else if ClearsFlags(pc) then 1
    else 0
  }

  /** What takes the holder of the lock closer to giving it back, or makes the lock an orphan. */
  function Opening(pc: Pc, holder: JobId): Action {
    if StepsToOpen(pc) == 0 then DeleteRow(holder)
    else if InTry(pc) || InExcept(pc) then Raise(holder)
    else Advance(holder)
  }

  /** The slice is open, or its holder is closer to opening it. */
  predicate Closer(s: State, slice: Slice, holder: JobId, steps: nat) {
    || Accepts(s, slice)
    || (Holds(s, slice, holder) && holder in s.workers && StepsToOpen(s.workers[holder].pc) < steps)
  }

  lemma DeleteOpens(s: State, slice: Slice, holder: JobId)
    requires Holds(s, slice, holder) && holder in s.workers && holder in s.rows
    requires StepsToOpen(s.workers[holder].pc) == 0
    ensures Enabled(s, DeleteRow(holder)) && Accepts(Apply(s, DeleteRow(holder)), slice)
  {
  }

  lemma RaiseGetsCloser(s: State, slice: Slice, holder: JobId)
    requires Holds(s, slice, holder) && holder in s.workers
    requires InTry(s.workers[holder].pc) || InExcept(s.workers[holder].pc)
    ensures Enabled(s, Raise(holder))
    ensures Closer(Apply(s, Raise(holder)), slice, holder, StepsToOpen(s.workers[holder].pc))
  {
  }

  lemma AdvanceGetsCloser(s: State, slice: Slice, holder: JobId)
    requires Holds(s, slice, holder) && holder in s.workers && holder in s.rows && s.workers[holder].slice == slice
    requires var pc := s.workers[holder].pc; StepsToOpen(pc) > 0 && !InTry(pc) && !InExcept(pc)
    ensures Enabled(s, Advance(holder))
    ensures Closer(Apply(s, Advance(holder)), slice, holder, StepsToOpen(s.workers[holder].pc))
  {
  }

  lemma NextOpening(s: State, slice: Slice)
    requires Inv(s) && !Accepts(s, slice)
    ensures var holder := s.locks[slice];
            && holder in s.workers && Enabled(s, Opening(s.workers[holder].pc, holder))
            && Closer(Apply(s, Opening(s.workers[holder].pc, holder)), slice, holder, StepsToOpen(s.workers[holder].pc))
  {
    var holder := s.locks[slice];
    var pc := s.workers[holder].pc;
    if StepsToOpen(pc) == 0 { DeleteOpens(s, slice, holder); }
    else if InTry(pc) || InExcept(pc) { RaiseGetsCloser(s, slice, holder); }
    else { AdvanceGetsCloser(s, slice, holder); }
  }

  function StepsLeft(s: State, slice: Slice): nat {
    if slice in s.locks && s.locks[slice] in s.workers then StepsToOpen(s.workers[s.locks[slice]].pc) else 0
  }

  /** The slice becomes free, or its lock an orphan. */
  lemma {:induction false} SliceOpens(s: State, job: JobId) returns (acts: seq<Action>)
    requires Inv(s) && job in s.workers && !Holds(s, s.workers[job].slice, job)
    ensures Executable(s, acts) && Leaves(s, Exec(s, acts), job)
    ensures Accepts(Exec(s, acts), s.workers[job].slice)
    decreases StepsLeft(s, s.workers[job].slice)
  {
    var slice := s.workers[job].slice;
    acts := [];
    if !Accepts(s, slice) {
      NextOpening(s, slice);
      var holder := s.locks[slice];
      var a := Opening(s.workers[holder].pc, holder);
      FirstStepLeaves(s, a, job);
      if Accepts(Apply(s, a), slice) {
        ExecCons(s, a, []);
        acts := [a] + [];
      } else {
        var rest := SliceOpens(Apply(s, a), job);
        ExecCons(s, a, rest);
        acts := [a] + rest;
      }
    }
  }

  lemma {:induction false} LongerThanAll(names: set<JobId>) returns (n: nat)
    ensures forall x :: x in names ==> |x| < n
    decreases |names|
  {
    n := 0;
    if names != {} {
      var x :| x in names;
      var m := LongerThanAll(names - {x});
      n := if m > |x| then m else |x| + 1;
    }
  }

  lemma FreshName(names: set<JobId>) returns (x: JobId)
    ensures x !in names
  {
    var n := LongerThanAll(names);
    x := seq(n, _ => 'x');
  }

  /** A fresh job joins in the pipeline of an open slice. */
  lemma FreshJobJoins(s: State, job: JobId) returns (acts: seq<Action>)
    requires job in s.workers && Accepts(s, s.workers[job].slice)
    ensures Executable(s, acts)
    ensures var t := Exec(s, acts);
            job in t.workers && t.workers[job] == s.workers[job] && HasCompany(t, job)
  {
    var slice := s.workers[job].slice;
    var other := FreshName(s.workers.Keys + s.warehouse.Values + s.flags);
    acts := SyncAndEnter(slice, other);
    FreshJobEnters(s, slice, other);
    assert IngestsBeside(Exec(s, acts), job, other);
  }

  lemma ThreatenedGetsCompany(s: State, job: JobId) returns (acts: seq<Action>)
    requires Inv(s) && Ingesting(s, job) && Threatened(s, job)
    ensures Executable(s, acts) && Ingesting(Exec(s, acts), job) && HasCompany(Exec(s, acts), job)
  {
    var i :| 0 <= i < |s.cancels| && Releases(s.cancels[i], job);
    acts := RequestReleases(s, job, i);
    var opening := SliceOpens(Exec(s, acts), job);
    ExecConcat(s, acts, opening);
    acts := acts + opening;
    var entering := FreshJobJoins(Exec(s, acts), job);
    ExecConcat(s, acts, entering);
    acts := acts + entering;
  }

  /**
   A job in the pipeline stays alone in its slice, whatever happens, if and only if it is
   alone now and no cancel request that read it as QUEUED has released its lock or is still
   under way.
   */
  lemma StaysAloneIff(s: State, job: JobId)
    requires Inv(s) && Ingesting(s, job)
    ensures StaysAlone(s, job) <==> !HasCompany(s, job) && !Threatened(s, job)
  {
    if !HasCompany(s, job) && !Threatened(s, job) {
      forall acts | Executable(s, acts) && Ingesting(Exec(s, acts), job) ensures !HasCompany(Exec(s, acts), job) {
        AloneForever(s, acts, job);
      }
    } else if Threatened(s, job) {
      var acts := ThreatenedGetsCompany(s, job);
      assert Executable(s, acts) && Ingesting(Exec(s, acts), job) && HasCompany(Exec(s, acts), job);
    } else {
      assert Executable(s, []) && Exec(s, []) == s;
    }
  }
}
