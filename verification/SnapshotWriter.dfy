/**
 The snapshot writer: one transaction that empties a slice and fills it again in batches.

 The transaction works on a private copy of the tables, which the commit publishes.  Any
 statement may fail; a failed statement aborts the transaction.
 */
module SnapshotWriter {
  import opened Collections
  import opened Options
  import opened Warehouse
  import opened Dedup
  import opened SnapshotState

  datatype DbError = StatementFailed | MissingCreditId(account: Account)

  /** Batch and chunk sizes; the adapter uses 2000, 2000, 100 and 200. */
  datatype Sizes = Sizes(creditBatch: nat, paymentBatch: nat, creditChunk: nat, paymentChunk: nat)

  predicate GoodSizes(z: Sizes) {
    z.creditBatch >= 1 && z.paymentBatch >= 1 && z.creditChunk >= 1 && z.paymentChunk >= 1
  }

  const ADAPTER_SIZES := Sizes(2000, 2000, 100, 200)

  /** How many wait in a batch after one more; a full batch is flushed. */
  function AfterOneMore(waiting: nat, size: nat): nat {
    if waiting + 1 >= size then 0 else waiting + 1
  }

  /** How many of the first n wait in the batch. */
  function Waiting(n: nat, size: nat): (waiting: nat)
    ensures waiting <= n
  {
    if n == 0 then 0 else AfterOneMore(Waiting(n - 1, size), size)
  }

  /** It is what is left over from full batches. */
  lemma {:induction false} WaitingIsRemainder(n: nat, size: nat) returns (batches: nat)
    requires size >= 1
    ensures Waiting(n, size) < size && n == batches * size + Waiting(n, size)
  {
    batches := 0;
    if n > 0 {
      var before := WaitingIsRemainder(n - 1, size);
      batches := if Waiting(n, size) == 0 then before + 1 else before;
      assert (before + 1) * size == before * size + size;
    }
  }

  // ----- the database ----------------------------------------------------------------------

  class Database<C, Q> {
    var committed: Tables<C, Q>
    /** The sequence of credit ids; a rollback does not turn it back. */
    var nextId: nat
    var statements: nat
    /** Some statement has failed for a reason outside of the modelled keys. */
    var faulted: bool
    const faults: nat -> bool

    constructor (tables: Tables<C, Q>, nextId: nat, faults: nat -> bool)
      ensures committed == tables && this.nextId == nextId && !faulted && this.faults == faults
    {
      committed, this.nextId, statements, faulted, this.faults := tables, nextId, 0, false, faults;
    }

    method NextFails() returns (fails: bool)
      modifies this`statements, this`faulted
      ensures faulted == (old(faulted) || fails)
    {
      fails := faults(statements);
      statements := statements + 1;
      faulted := faulted || fails;
    }
  }

  class Writer<C, Q> {
    const db: Database<C, Q>
    const slice: Slice
    const sizes: Sizes

    var work: Tables<C, Q>
    var aborted: bool
    var creditIdMap: map<Account, nat>
    var creditBatch: seq<Credit<C>>
    var paymentBatch: seq<Payment<Q>>
    var paymentsIngested: nat

    ghost const base: Tables<C, Q>
    ghost var flushedCredits: seq<Credit<C>>
    ghost var flushedPayments: seq<Payment<Q>>
    ghost var shown: map<Account, C>

    ghost function State(): Filled<C, Q>
      reads this, db
    {
      Filled(work, db.nextId, creditIdMap, shown, flushedPayments)
    }

    /** What holds between any two statements. */
    ghost predicate Consistent()
      reads this, db
    {
      && !aborted && GoodSizes(sizes)
      && InOrder(base, State(), slice)
      && paymentsIngested == |flushedPayments|
    }

    ghost predicate Valid()
      reads this, db
    {
      Consistent() && shown == LastWins(flushedCredits)
    }

    ghost function PushedCredits(): seq<Credit<C>>
      reads this
    {
      flushedCredits + creditBatch
    }

    ghost function PushedPayments(): seq<Payment<Q>>
      reads this
    {
      flushedPayments + paymentBatch
    }

    constructor (db: Database<C, Q>, slice: Slice, sizes: Sizes)
      ensures this.db == db && this.slice == slice && this.sizes == sizes && base == work == db.committed
      ensures !aborted && creditIdMap == map[] && creditBatch == [] && paymentBatch == [] && paymentsIngested == 0
      ensures flushedCredits == [] && flushedPayments == [] && shown == map[]
    {
      this.db, this.slice, this.sizes := db, slice, sizes;
      work, base, aborted := db.committed, db.committed, false;
      creditIdMap, creditBatch, paymentBatch, paymentsIngested := map[], [], [], 0;
      flushedCredits, flushedPayments, shown := [], [], map[];
    }

    /** The two DELETE statements that open the snapshot. */
    method DeleteSlice() returns (error: Option<DbError>)
      requires GoodSizes(sizes) && !aborted && Sound(work, db.nextId) && base == work
      requires creditIdMap == map[] && creditBatch == [] && paymentBatch == [] && paymentsIngested == 0
      requires flushedCredits == [] && flushedPayments == [] && shown == map[]
      modifies this`work, this`aborted, db`statements, db`faulted
      ensures error.None? ==> Valid() && db.faulted == old(db.faulted)
      ensures error.Some? ==> db.faulted
    {
      var fails := db.NextFails();
      if !fails { fails := db.NextFails(); }
      if fails {
        aborted := true;
        return Some(StatementFailed);
      }
      ClearedIsInOrder(work, db.nextId, slice);
      work := Cleared(work, slice);
      error := None;
    }

    function CreditsIngested(): nat
      reads this
    {
      |creditIdMap|
    }

    // ----- credits ---------------------------------------------------------------------------

    /** One statement; it fails on an injected fault or when it names an account twice. */
    method InsertCreditsMulti(credits: seq<Credit<C>>) returns (error: Option<DbError>)
      requires Consistent()
      modifies this`work, this`aborted, this`creditIdMap, this`shown, db`nextId, db`statements, db`faulted
      ensures error.None? ==> Consistent() && shown == old(shown) + LastWins(credits) && db.faulted == old(db.faulted)
      ensures error.None? ==> KeepsIds(old(work), work, slice)
      ensures db.nextId >= old(db.nextId)
      ensures error.Some? ==> error.value == StatementFailed && (db.faulted || !DistinctAccounts(credits))
      ensures db.faulted || !old(db.faulted)
    {
      if credits == [] {
        assert shown + LastWins(credits) == shown;
        return None;
      }
      var fails := db.NextFails();
      if fails || !DistinctAccounts(credits) {
        aborted := true;
        return Some(StatementFailed);
      }
      Statement(credits);
      error := None;
    }

    /** The statement takes effect. */
    method Statement(credits: seq<Credit<C>>)
      requires Consistent()
      modifies this`work, this`creditIdMap, this`shown, db`nextId
      ensures Consistent() && shown == old(shown) + LastWins(credits)
      ensures KeepsIds(old(work), work, slice) && db.nextId >= old(db.nextId)
    {
      ghost var before := State();
      Execute(credits);
      CreditStatementInOrder(base, before, slice, credits, creditIdMap);
      ghost var after := Filled(work, db.nextId, creditIdMap, shown + LastWins(credits), flushedPayments);
      assert InOrder(base, after, slice);
      shown := shown + LastWins(credits);
      assert State() == after;
    }

    /** The rows change, and what the statement returns is recorded. */
    method Execute(credits: seq<Credit<C>>)
      requires InOrder(base, State(), slice)
      modifies this`work, this`creditIdMap, db`nextId
      ensures work == old(Upsert(work, db.nextId, slice, credits)) && db.nextId == old(db.nextId) + |credits|
      ensures IdView(creditIdMap, work, slice)
    {
      ghost var before := work;
      CreditStatement(base, State(), slice, credits);
      work := Upsert(work, db.nextId, slice, credits);
      db.nextId := db.nextId + |credits|;
      RecordIds(credits, before);
    }

    /** The accounts and ids the statement returned go into the map. */
    method RecordIds(credits: seq<Credit<C>>, ghost before: Tables<C, Q>)
      requires UpsertKeeps(before, work, slice, credits) && AddsOnly(before, work, slice, credits)
      requires IdView(creditIdMap, before, slice)
      modifies this`creditIdMap
      ensures IdView(creditIdMap, work, slice)
    {
      for i := 0 to |credits|
        invariant forall a :: a in creditIdMap ==>
                    CreditKey(slice, a) in work.credits && creditIdMap[a] == work.credits[CreditKey(slice, a)].id
        invariant forall a :: CreditKey(slice, a) in before.credits ==> a in creditIdMap
        invariant forall j :: 0 <= j < i ==> credits[j].account in creditIdMap
      {
        var a := credits[i].account;
        creditIdMap := creditIdMap[a := work.credits[CreditKey(slice, a)].id];
      }
      forall a | CreditKey(slice, a) in work.credits ensures a in creditIdMap {
        if CreditKey(slice, a) !in before.credits {
          LastWinsKeys(credits, a);
        }
      }
    }

    /** The batch, one entry per account, goes to the slice in chunks. */
    method FlushCredits() returns (error: Option<DbError>)
      requires Valid()
      modifies this`work, this`aborted, this`creditIdMap, this`creditBatch, this`shown, this`flushedCredits
      modifies db`nextId, db`statements, db`faulted
      ensures error.None? ==> Valid() && creditBatch == [] && flushedCredits == old(PushedCredits())
      ensures error.None? ==> KeepsIds(old(work), work, slice) && db.faulted == old(db.faulted)
      ensures db.nextId >= old(db.nextId)
      ensures error.Some? ==> error.value == StatementFailed && db.faulted
    {
      if creditBatch == [] {
        assert flushedCredits + creditBatch == flushedCredits;
        return None;
      }
      var credits := creditBatch;
      creditBatch := [];
      var deduped := DedupCredits(credits);
      error := InsertInChunks(deduped);
      LastWinsConcat(flushedCredits, credits);
      flushedCredits := flushedCredits + credits;
    }

    method InsertInChunks(deduped: seq<Credit<C>>) returns (error: Option<DbError>)
      requires Consistent() && DistinctAccounts(deduped)
      modifies this`work, this`aborted, this`creditIdMap, this`shown, db`nextId, db`statements, db`faulted
      ensures error.None? ==> Consistent() && shown == old(shown) + LastWins(deduped)
      ensures error.None? ==> KeepsIds(old(work), work, slice) && db.faulted == old(db.faulted)
      ensures db.nextId >= old(db.nextId)
      ensures error.Some? ==> error.value == StatementFailed && db.faulted
    {
      var i := 0;
      assert shown + LastWins(deduped[..0]) == shown;
      while i < |deduped|
        invariant 0 <= i <= |deduped| && Consistent() && db.faulted == old(db.faulted)
        invariant shown == old(shown) + LastWins(deduped[..i])
        invariant KeepsIds(old(work), work, slice) && db.nextId >= old(db.nextId)
      {
        var j := if i + sizes.creditChunk <= |deduped| then i + sizes.creditChunk else |deduped|;
        ghost var before := work;
        error := InsertCreditsMulti(deduped[i..j]);
        if error.Some? { return; }
        KeepsIdsTransitive(old(work), before, work, slice);
        assert deduped[..j] == deduped[..i] + deduped[i..j];
        LastWinsConcat(deduped[..i], deduped[i..j]);
        Over(old(shown), LastWins(deduped[..i]), LastWins(deduped[i..j]));
        i := j;
      }
      assert deduped[..|deduped|] == deduped;
      error := None;
    }

    method PushCredit(credit: Credit<C>) returns (error: Option<DbError>)
      requires Valid()
      modifies this`work, this`aborted, this`creditIdMap, this`creditBatch, this`shown, this`flushedCredits
      modifies db`nextId, db`statements, db`faulted
      ensures error.None? ==> Valid() && |creditBatch| < sizes.creditBatch
      ensures error.None? ==> |creditBatch| == AfterOneMore(|old(creditBatch)|, sizes.creditBatch)
      ensures error.None? ==> PushedCredits() == old(PushedCredits()) + [credit]
      ensures error.None? ==> KeepsIds(old(work), work, slice) && db.faulted == old(db.faulted)
      ensures db.nextId >= old(db.nextId)
      ensures error.Some? ==> error.value == StatementFailed && db.faulted
    {
      assert flushedCredits + (creditBatch + [credit]) == flushedCredits + creditBatch + [credit];
      creditBatch := creditBatch + [credit];
      if |creditBatch| >= sizes.creditBatch {
        error := FlushCredits();
        if error.Some? { return; }
        assert flushedCredits + creditBatch == flushedCredits;
      }
      error := None;
    }

    // ----- payments --------------------------------------------------------------------------

    /** One statement; it fails on an injected fault or when a unique or foreign key refuses a row. */
    method InsertPaymentsMulti(binds: seq<PaymentBind<Q>>, ghost ps: seq<Payment<Q>>) returns (error: Option<DbError>)
      requires Consistent() && Bound(binds, creditIdMap, ps)
      modifies this`work, this`aborted, this`paymentsIngested, this`flushedPayments, db`statements, db`faulted
      ensures error.None? ==>
                Consistent() && flushedPayments == old(flushedPayments) + ps && db.faulted == old(db.faulted)
      ensures error.Some? ==>
                error.value == StatementFailed && (db.faulted || !DistinctPayments(old(flushedPayments) + ps))
    {
      if binds == [] {
        assert flushedPayments + ps == flushedPayments;
        return None;
      }
      var fails := db.NextFails();
      if fails || !Insertable(work, binds) {
        if DistinctPayments(flushedPayments + ps) {
          RefusedOnlyForDuplicates(base, State(), slice, ps, binds);
        }
        aborted := true;
        return Some(StatementFailed);
      }
      InsertEffect(base, State(), slice, ps, binds);
      work := Insert(work, binds);
      paymentsIngested := paymentsIngested + |binds|;
      flushedPayments := flushedPayments + ps;
      error := None;
    }

    /** The batch goes to the slice in chunks, each payment under the id of its credit. */
    method FlushPayments() returns (error: Option<DbError>)
      requires Valid()
      modifies this`work, this`aborted, this`paymentBatch, this`paymentsIngested, this`flushedPayments
      modifies db`statements, db`faulted
      ensures error.None? ==> Valid() && paymentBatch == [] && flushedPayments == old(PushedPayments())
      ensures error.None? ==> db.faulted == old(db.faulted)
      ensures error.Some? && error.value.StatementFailed? ==> db.faulted || !DistinctPayments(old(PushedPayments()))
      ensures error.Some? && error.value.MissingCreditId? ==>
                !(forall i :: 0 <= i < |old(paymentBatch)| ==> old(paymentBatch)[i].account in creditIdMap)
    {
      if paymentBatch == [] {
        assert flushedPayments + paymentBatch == flushedPayments;
        return None;
      }
      var payments := paymentBatch;
      paymentBatch := [];
      var binds: seq<PaymentBind<Q>> := [];
      for i := 0 to |payments|
        invariant Bound(binds, creditIdMap, payments[..i])
      {
        if payments[i].account !in creditIdMap {
          return Some(MissingCreditId(payments[i].account));
        }
        binds := binds + [Bind(creditIdMap, payments[i])];
      }
      assert payments[..|payments|] == payments;
      error := InsertPaymentsInChunks(binds, payments);
    }

    method InsertPaymentsInChunks(binds: seq<PaymentBind<Q>>, ghost ps: seq<Payment<Q>>)
      returns (error: Option<DbError>)
      requires Consistent() && Bound(binds, creditIdMap, ps)
      modifies this`work, this`aborted, this`paymentsIngested, this`flushedPayments, db`statements, db`faulted
      ensures error.None? ==>
                Consistent() && flushedPayments == old(flushedPayments) + ps && db.faulted == old(db.faulted)
      ensures error.Some? ==>
                error.value == StatementFailed && (db.faulted || !DistinctPayments(old(flushedPayments) + ps))
    {
      var i := 0;
      while i < |binds|
        invariant 0 <= i <= |binds| && Consistent() && db.faulted == old(db.faulted)
        invariant flushedPayments == old(flushedPayments) + ps[..i]
      {
        var j := if i + sizes.paymentChunk <= |binds| then i + sizes.paymentChunk else |binds|;
        assert flushedPayments + ps[i..j] == old(flushedPayments) + ps[..j];
        error := InsertPaymentsMulti(binds[i..j], ps[i..j]);
        if error.Some? {
          PrefixIsDistinct(old(flushedPayments), ps, j);
          return;
        }
        i := j;
      }
      assert ps[..|ps|] == ps;
      error := None;
    }

    method PushPayment(payment: Payment<Q>) returns (error: Option<DbError>)
      requires Valid()
      modifies this`work, this`aborted, this`paymentBatch, this`paymentsIngested, this`flushedPayments
      modifies db`statements, db`faulted
      ensures error.None? ==> Valid() && |paymentBatch| < sizes.paymentBatch
      ensures error.None? ==> PushedPayments() == old(PushedPayments()) + [payment] && db.faulted == old(db.faulted)
      ensures error.Some? && error.value.StatementFailed? ==>
              db.faulted || !DistinctPayments(old(PushedPayments()) + [payment])
      ensures error.Some? && error.value.MissingCreditId? ==>
                !(forall i :: 0 <= i < |old(paymentBatch) + [payment]| ==>
                  (old(paymentBatch) + [payment])[i].account in creditIdMap)
    {
      assert flushedPayments + (paymentBatch + [payment]) == flushedPayments + paymentBatch + [payment];
      paymentBatch := paymentBatch + [payment];
      if |paymentBatch| >= sizes.paymentBatch {
        error := FlushPayments();
        if error.Some? { return; }
        assert flushedPayments + paymentBatch == flushedPayments;
      }
      error := None;
    }

    // ----- commit ------------------------------------------------------------------------------

    /**
     Publishes the slice with the last credit of each account and all the payments pushed, and
     every other slice as it was; or publishes nothing.
     */
    method Commit() returns (result: CommitResult)
      requires Valid()
      modifies this, db`committed, db`nextId, db`statements, db`faulted
      ensures result.Failed? ==> db.committed == old(db.committed)
      ensures db.nextId >= old(db.nextId)
      ensures result.Committed? ==>
                && result.payments == |old(PushedPayments())| && db.faulted == old(db.faulted)
                && Sound(db.committed, db.nextId)
                && Shows(db.committed, slice, LastWins(old(PushedCredits())), PaymentMap(old(PushedPayments())))
                && SameElsewhere(base, db.committed, slice)
                && DistinctPayments(old(PushedPayments()))
      ensures result.Failed? && result.error.StatementFailed? ==> db.faulted || !DistinctPayments(old(PushedPayments()))
      ensures result.Failed? && result.error.MissingCreditId? ==>
                !(forall i :: 0 <= i < |old(paymentBatch)| ==>
                  old(paymentBatch)[i].account in LastWins(old(PushedCredits())))
    {
      var error := FlushCredits();
      if error.Some? { return Failed(error.value); }
      IdsOfWritten(base, State(), slice);
      error := FlushPayments();
      if error.Some? { return Failed(error.value); }
      var fails := db.NextFails();
      if fails { return Failed(StatementFailed); }
      InOrderHere(base, State(), slice);
      InOrderElsewhere(base, State(), slice);
      db.committed := work;
      result := Committed(paymentsIngested);
    }
  }

  datatype CommitResult = Committed(payments: nat) | Failed(error: DbError)
}
