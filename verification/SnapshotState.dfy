/**
 What a half-filled snapshot is: the slice shows the credits and payments written so far,
 and every other slice is as it was.
 */
module SnapshotState {
  import opened Warehouse

  // ----- payments as a map -----------------------------------------------------------------

  function Pair<Q>(p: Payment<Q>): (Account, int) {
    (p.account, p.installment)
  }

  predicate DistinctPayments<Q>(ps: seq<Payment<Q>>) {
    forall i, j :: 0 <= i < j < |ps| ==> Pair(ps[i]) != Pair(ps[j])
  }

  function PaymentMap<Q>(ps: seq<Payment<Q>>): map<(Account, int), Q>
    decreases |ps|
  {
    if ps == [] then map[] else map[Pair(ps[0]) := ps[0].data] + PaymentMap(ps[1..])
  }

  lemma {:induction false} PaymentMapAppend<Q>(ps: seq<Payment<Q>>, p: Payment<Q>)
    ensures PaymentMap(ps + [p]) == PaymentMap(ps)[Pair(p) := p.data]
    decreases |ps|
  {
    if ps == [] {
      assert ps + [p] == [p] && [p][1..] == [];
      assert PaymentMap([p]) == map[Pair(p) := p.data] + map[];
    } else {
      assert (ps + [p])[1..] == ps[1..] + [p];
      PaymentMapAppend(ps[1..], p);
      UpdateOver(map[Pair(ps[0]) := ps[0].data], PaymentMap(ps[1..]), Pair(p), p.data);
    }
  }

  lemma UpdateOver<K, V>(a: map<K, V>, b: map<K, V>, k: K, v: V)
    ensures a + b[k := v] == (a + b)[k := v]
  {
  }

  lemma {:induction false} PaymentMapKeys<Q>(ps: seq<Payment<Q>>, k: (Account, int))
    ensures k in PaymentMap(ps) <==> exists i :: 0 <= i < |ps| && Pair(ps[i]) == k
    decreases |ps|
  {
    if ps != [] {
      PaymentMapKeys(ps[1..], k);
      if i :| 0 <= i < |ps[1..]| && Pair(ps[1..][i]) == k { assert Pair(ps[i + 1]) == k; }
      if i :| 0 <= i < |ps| && Pair(ps[i]) == k { assert i > 0 ==> Pair(ps[1..][i - 1]) == k; }
    }
  }

  // ----- the state of the transaction ------------------------------------------------------

  /** The ids of the slice's credits, by account. */
  ghost predicate IdView<C, Q>(ids: map<Account, nat>, t: Tables<C, Q>, slice: Slice) {
    && (forall a :: a in ids <==> CreditKey(slice, a) in t.credits)
    && (forall a :: a in ids ==> ids[a] == t.credits[CreditKey(slice, a)].id)
  }

  function Bind<Q>(ids: map<Account, nat>, p: Payment<Q>): PaymentBind<Q>
    requires p.account in ids
  {
    PaymentBind(PaymentKey(ids[p.account], p.installment), p.data)
  }

  /** The rows sent for the payments, each under the id of its own credit. */
  ghost predicate Bound<Q>(binds: seq<PaymentBind<Q>>, ids: map<Account, nat>, ps: seq<Payment<Q>>) {
    |binds| == |ps| && forall i :: 0 <= i < |ps| ==> ps[i].account in ids && binds[i] == Bind(ids, ps[i])
  }

  /** The transaction's tables, the map of credit ids, and what has been written. */
  datatype Filled<C, Q> = Filled(tables: Tables<C, Q>, nextId: nat, ids: map<Account, nat>,
                                 credits: map<Account, C>, payments: seq<Payment<Q>>)

  ghost predicate SliceInOrder<C, Q>(base: Tables<C, Q>, f: Filled<C, Q>, slice: Slice, s: Slice) {
    if s == slice then
      && Sound(f.tables, f.nextId)
      && IdView(f.ids, f.tables, slice)
      && Shows(f.tables, slice, f.credits, PaymentMap(f.payments))
      && DistinctPayments(f.payments)
    else
      SameRows(base, f.tables, s)
  }

  ghost predicate InOrder<C, Q>(base: Tables<C, Q>, f: Filled<C, Q>, slice: Slice) {
    forall s :: SliceInOrder(base, f, slice, s)
  }

  lemma InOrderHere<C, Q>(base: Tables<C, Q>, f: Filled<C, Q>, slice: Slice)
    requires InOrder(base, f, slice)
    ensures Sound(f.tables, f.nextId) && IdView(f.ids, f.tables, slice)
    ensures Shows(f.tables, slice, f.credits, PaymentMap(f.payments)) && DistinctPayments(f.payments)
  {
    assert SliceInOrder(base, f, slice, slice);
  }

  lemma InOrderElsewhere<C, Q>(base: Tables<C, Q>, f: Filled<C, Q>, slice: Slice)
    requires InOrder(base, f, slice)
    ensures SameElsewhere(base, f.tables, slice)
  {
    forall s: Slice | s != slice ensures SameRows(base, f.tables, s) {
      assert SliceInOrder(base, f, slice, s);
    }
  }

  lemma IsInOrder<C, Q>(base: Tables<C, Q>, f: Filled<C, Q>, slice: Slice)
    requires Sound(f.tables, f.nextId) && IdView(f.ids, f.tables, slice)
    requires Shows(f.tables, slice, f.credits, PaymentMap(f.payments)) && DistinctPayments(f.payments)
    requires SameElsewhere(base, f.tables, slice)
    ensures InOrder(base, f, slice)
  {
    forall s ensures SliceInOrder(base, f, slice, s) {
      assert s != slice ==> SameRows(base, f.tables, s);
    }
  }

  /** The accounts with an id are the ones written. */
  lemma IdsOfWritten<C, Q>(base: Tables<C, Q>, f: Filled<C, Q>, slice: Slice)
    requires InOrder(base, f, slice)
    ensures f.ids.Keys == f.credits.Keys
  {
    InOrderHere(base, f, slice);
  }

  /** The emptied slice. */
  lemma ClearedIsInOrder<C, Q>(base: Tables<C, Q>, nextId: nat, slice: Slice)
    requires Sound(base, nextId)
    ensures InOrder(base, Filled(Cleared(base, slice), nextId, map[], map[], []), slice)
  {
    ClearedIsEmpty(base, nextId, slice);
    IsInOrder(base, Filled(Cleared(base, slice), nextId, map[], map[], []), slice);
  }

  // ----- the effect of one credit statement ------------------------------------------------

  /** Rows are added for listed accounts only. */
  ghost predicate AddsOnly<C, Q>(t: Tables<C, Q>, t': Tables<C, Q>, slice: Slice, chunk: seq<Credit<C>>) {
    forall a :: CreditKey(slice, a) in t'.credits ==> CreditKey(slice, a) in t.credits || a in LastWins(chunk)
  }

  lemma AddsOnlyWhatIsShown<C, Q>(t: Tables<C, Q>, t': Tables<C, Q>, slice: Slice, chunk: seq<Credit<C>>,
                                  shown: map<Account, C>, payments: map<(Account, int), Q>)
    requires Shows(t, slice, shown, payments) && Shows(t', slice, shown + LastWins(chunk), payments)
    ensures AddsOnly(t, t', slice, chunk)
  {
    forall a | CreditKey(slice, a) in t'.credits ensures CreditKey(slice, a) in t.credits || a in LastWins(chunk) {
      assert a in shown + LastWins(chunk);
    }
  }

  lemma KeepsIdsTransitive<C, Q>(a: Tables<C, Q>, b: Tables<C, Q>, c: Tables<C, Q>, slice: Slice)
    requires KeepsIds(a, b, slice) && KeepsIds(b, c, slice)
    ensures KeepsIds(a, c, slice)
  {
  }

  /** What the ids are recorded from. */
  lemma CreditStatement<C, Q>(base: Tables<C, Q>, f: Filled<C, Q>, slice: Slice, chunk: seq<Credit<C>>)
    requires InOrder(base, f, slice)
    ensures var t := Upsert(f.tables, f.nextId, slice, chunk);
            IdView(f.ids, f.tables, slice) && UpsertKeeps(f.tables, t, slice, chunk)
            && AddsOnly(f.tables, t, slice, chunk)
  {
    InOrderHere(base, f, slice);
    UpsertKeepsRows(f.tables, f.nextId, slice, chunk);
    UpsertShows(f.tables, f.nextId, slice, chunk, f.credits, PaymentMap(f.payments));
    AddsOnlyWhatIsShown(f.tables, Upsert(f.tables, f.nextId, slice, chunk), slice, chunk, f.credits,
                        PaymentMap(f.payments));
  }

  /** The credits written so far, under the ids they had, and the ones of the statement. */
  lemma CreditStatementInOrder<C, Q>(base: Tables<C, Q>, f: Filled<C, Q>, slice: Slice, chunk: seq<Credit<C>>,
                                     ids': map<Account, nat>)
    requires InOrder(base, f, slice)
    requires IdView(ids', Upsert(f.tables, f.nextId, slice, chunk), slice)
    ensures var t := Upsert(f.tables, f.nextId, slice, chunk);
            && InOrder(base, Filled(t, f.nextId + |chunk|, ids', f.credits + LastWins(chunk), f.payments), slice)
            && KeepsIds(f.tables, t, slice)
  {
    var t := Upsert(f.tables, f.nextId, slice, chunk);
    InOrderHere(base, f, slice);
    InOrderElsewhere(base, f, slice);
    UpsertIsSound(f.tables, f.nextId, slice, chunk);
    UpsertKeepsRows(f.tables, f.nextId, slice, chunk);
    UpsertShows(f.tables, f.nextId, slice, chunk, f.credits, PaymentMap(f.payments));
    SameElsewhereTransitive(base, f.tables, t, slice);
    IsInOrder(base, Filled(t, f.nextId + |chunk|, ids', f.credits + LastWins(chunk), f.payments), slice);
  }

  // ----- the effect of one payment statement -----------------------------------------------

  /** A key not in the table is a pair not shown. */
  lemma NewPair<C, Q>(t: Tables<C, Q>, slice: Slice, ids: map<Account, nat>, p: Payment<Q>,
                      shown: map<Account, C>, payments: map<(Account, int), Q>)
    requires IdView(ids, t, slice) && Shows(t, slice, shown, payments) && p.account in ids
    ensures CreditKey(slice, p.account) in t.credits
    ensures Bind(ids, p).key == PaymentKey(t.credits[CreditKey(slice, p.account)].id, p.installment)
    ensures Bind(ids, p).key in t.payments <==> Pair(p) in payments
  {
    assert CreditKey(slice, p.account) in t.credits;
  }

  /** A payment not written yet is not refused. */
  lemma NewPaymentIsFree<C, Q>(base: Tables<C, Q>, f: Filled<C, Q>, slice: Slice, p: Payment<Q>)
    requires InOrder(base, f, slice) && p.account in f.ids && Pair(p) !in PaymentMap(f.payments)
    ensures Bind(f.ids, p).key !in f.tables.payments && Bind(f.ids, p).key.credit in Ids(f.tables)
  {
    InOrderHere(base, f, slice);
    NewPair(f.tables, slice, f.ids, p, f.credits, PaymentMap(f.payments));
    assert f.tables.credits[CreditKey(slice, p.account)].id in Ids(f.tables);
  }

  lemma DifferentPairs<C, Q>(base: Tables<C, Q>, f: Filled<C, Q>, slice: Slice, p: Payment<Q>, q: Payment<Q>)
    requires InOrder(base, f, slice) && p.account in f.ids && q.account in f.ids && Pair(p) != Pair(q)
    ensures Bind(f.ids, p).key != Bind(f.ids, q).key
  {
    InOrderHere(base, f, slice);
  }

  lemma DistinctFrom<Q>(before: seq<Payment<Q>>, ps: seq<Payment<Q>>, i: nat)
    requires DistinctPayments(before + ps) && i < |ps|
    ensures Pair(ps[i]) !in PaymentMap(before)
    ensures forall j :: i < j < |ps| ==> Pair(ps[i]) != Pair(ps[j])
  {
    PaymentMapKeys(before, Pair(ps[i]));
    assert (before + ps)[|before| + i] == ps[i];
    assert forall j :: 0 <= j < |before| ==> (before + ps)[j] == before[j];
    assert forall j :: 0 <= j < |ps| ==> (before + ps)[|before| + j] == ps[j];
  }

  /** The statement is refused only when some account and installment number come twice. */
  lemma RefusedOnlyForDuplicates<C, Q>(base: Tables<C, Q>, f: Filled<C, Q>, slice: Slice,
                                       ps: seq<Payment<Q>>, binds: seq<PaymentBind<Q>>)
    requires InOrder(base, f, slice) && Bound(binds, f.ids, ps) && DistinctPayments(f.payments + ps)
    ensures Insertable(f.tables, binds)
  {
    forall i | 0 <= i < |binds|
      ensures binds[i].key !in f.tables.payments && binds[i].key.credit in Ids(f.tables)
      ensures forall j :: i < j < |binds| ==> binds[i].key != binds[j].key
    {
      assert binds[i] == Bind(f.ids, ps[i]);
      DistinctFrom(f.payments, ps, i);
      NewPaymentIsFree(base, f, slice, ps[i]);
      forall j | i < j < |binds| ensures binds[i].key != binds[j].key {
        assert binds[j] == Bind(f.ids, ps[j]);
        DifferentPairs(base, f, slice, ps[i], ps[j]);
      }
    }
  }

  lemma DistinctAppend<Q>(before: seq<Payment<Q>>, p: Payment<Q>)
    requires DistinctPayments(before) && Pair(p) !in PaymentMap(before)
    ensures DistinctPayments(before + [p])
  {
    PaymentMapKeys(before, Pair(p));
    forall i, j | 0 <= i < j < |before + [p]| ensures Pair((before + [p])[i]) != Pair((before + [p])[j]) {
      assert (before + [p])[i] == before[i];
    }
  }

  /** One row of the statement. */
  lemma InsertOneEffect<C, Q>(base: Tables<C, Q>, f: Filled<C, Q>, slice: Slice, p: Payment<Q>)
    requires InOrder(base, f, slice)
    requires p.account in f.ids && Bind(f.ids, p).key !in f.tables.payments
    ensures var t := f.tables.(payments := f.tables.payments[Bind(f.ids, p).key := p.data]);
            InOrder(base, f.(tables := t, payments := f.payments + [p]), slice)
  {
    InOrderHere(base, f, slice);
    InOrderElsewhere(base, f, slice);
    NewPair(f.tables, slice, f.ids, p, f.credits, PaymentMap(f.payments));
    var t := InsertOne(f.tables, slice, p);
    InsertOneSound(f.tables, f.nextId, slice, p);
    InsertOneElsewhere(f.tables, f.nextId, slice, p);
    InsertOneShows(f.tables, f.nextId, slice, p, f.credits, PaymentMap(f.payments));
    PaymentMapAppend(f.payments, p);
    DistinctAppend(f.payments, p);
    SameElsewhereTransitive(base, f.tables, t, slice);
    IsInOrder(base, f.(tables := t, payments := f.payments + [p]), slice);
  }

  /** The payments of the statement join the ones shown. */
  lemma {:induction false} InsertEffect<C, Q>(base: Tables<C, Q>, f: Filled<C, Q>, slice: Slice,
                                              ps: seq<Payment<Q>>, binds: seq<PaymentBind<Q>>)
    requires InOrder(base, f, slice) && Bound(binds, f.ids, ps) && Insertable(f.tables, binds)
    ensures InOrder(base, f.(tables := Insert(f.tables, binds), payments := f.payments + ps), slice)
    decreases |ps|
  {
    if ps == [] {
      assert f.payments + ps == f.payments;
    } else {
      assert binds[0] == Bind(f.ids, ps[0]);
      InsertOneEffect(base, f, slice, ps[0]);
      var t := f.tables.(payments := f.tables.payments[binds[0].key := binds[0].data]);
      StillInsertable(f.tables, binds);
      BoundTail(binds, f.ids, ps);
      InsertEffect(base, f.(tables := t, payments := f.payments + [ps[0]]), slice, ps[1..], binds[1..]);
      assert f.payments + [ps[0]] + ps[1..] == f.payments + ps;
    }
  }

  lemma BoundTail<Q>(binds: seq<PaymentBind<Q>>, ids: map<Account, nat>, ps: seq<Payment<Q>>)
    requires ps != [] && Bound(binds, ids, ps)
    ensures Bound(binds[1..], ids, ps[1..])
  {
  }

  lemma StillInsertable<C, Q>(t: Tables<C, Q>, binds: seq<PaymentBind<Q>>)
    requires binds != [] && Insertable(t, binds)
    ensures Insertable(t.(payments := t.payments[binds[0].key := binds[0].data]), binds[1..])
  {
    var t1 := t.(payments := t.payments[binds[0].key := binds[0].data]);
    assert Ids(t1) == Ids(t);
    forall i | 0 <= i < |binds[1..]| ensures binds[1..][i].key !in t1.payments {
      assert binds[1..][i] == binds[i + 1];
    }
  }

  lemma PrefixIsDistinct<Q>(before: seq<Payment<Q>>, ps: seq<Payment<Q>>, n: nat)
    requires n <= |ps|
    ensures DistinctPayments(before + ps) ==> DistinctPayments(before + ps[..n])
  {
    assert forall i :: 0 <= i < |before + ps[..n]| ==> (before + ps[..n])[i] == (before + ps)[i];
  }
}
