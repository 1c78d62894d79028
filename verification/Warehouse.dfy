/**
 The two warehouse tables, the statements the adapter sends, and what a slice shows.

 A credit row is identified by its slice and account (a unique key); its id is drawn from a
 sequence and never drawn again.  A payment row is identified by the id of its credit and
 its installment number (a unique key), and its credit must exist.
 */
module Warehouse {
  import opened Collections
  import opened Bytes
  import SyncProtocol

  type Slice = SyncProtocol.Slice
  type Account = Text

  datatype Credit<+C> = Credit(account: Account, data: C)
  datatype Payment<+Q> = Payment(account: Account, installment: int, data: Q)

  datatype CreditKey = CreditKey(slice: Slice, account: Account)
  datatype CreditRow<+C> = CreditRow(id: nat, data: C)
  datatype PaymentKey = PaymentKey(credit: nat, installment: int)
  datatype PaymentBind<+Q> = PaymentBind(key: PaymentKey, data: Q)

  datatype Tables<C, Q> = Tables(credits: map<CreditKey, CreditRow<C>>, payments: map<PaymentKey, Q>)

  /** Ids are distinct and below the sequence; every payment belongs to a credit. */
  ghost predicate Sound<C, Q>(t: Tables<C, Q>, nextId: nat) {
    && (forall k :: k in t.credits ==> t.credits[k].id < nextId)
    && (forall k, l :: k in t.credits && l in t.credits && t.credits[k].id == t.credits[l].id ==> k == l)
    && (forall p :: p in t.payments ==> CreditExists(t, p.credit))
  }

  ghost predicate CreditExists<C, Q>(t: Tables<C, Q>, id: nat) {
    exists k :: k in t.credits && t.credits[k].id == id
  }

  // ----- what a slice shows ----------------------------------------------------------------

  /** The slice holds exactly these credits, and these payments of them. */
  ghost predicate Shows<C, Q>(t: Tables<C, Q>, slice: Slice,
                              credits: map<Account, C>, payments: map<(Account, int), Q>) {
    && (forall a :: a in credits <==> CreditKey(slice, a) in t.credits)
    && (forall a :: a in credits ==> t.credits[CreditKey(slice, a)].data == credits[a])
    && (forall a, n :: (a, n) in payments <==>
          CreditKey(slice, a) in t.credits && PaymentKey(t.credits[CreditKey(slice, a)].id, n) in t.payments)
    && (forall a, n :: (a, n) in payments ==>
          CreditKey(slice, a) in t.credits
          && PaymentKey(t.credits[CreditKey(slice, a)].id, n) in t.payments
          && t.payments[PaymentKey(t.credits[CreditKey(slice, a)].id, n)] == payments[(a, n)])
  }

  /** One slice has the same rows in both, with the same ids and payments. */
  ghost predicate SameRows<C, Q>(t: Tables<C, Q>, t': Tables<C, Q>, slice: Slice) {
    && (forall a :: CreditKey(slice, a) in t.credits <==> CreditKey(slice, a) in t'.credits)
    && (forall a :: CreditKey(slice, a) in t.credits ==>
        t.credits[CreditKey(slice, a)] == t'.credits[CreditKey(slice, a)])
    && (forall a, n :: CreditKey(slice, a) in t.credits ==>
          (PaymentKey(t.credits[CreditKey(slice, a)].id, n) in t.payments
           <==> PaymentKey(t.credits[CreditKey(slice, a)].id, n) in t'.payments))
    && (forall a, n ::
          (&& CreditKey(slice, a) in t.credits
           && PaymentKey(t.credits[CreditKey(slice, a)].id, n) in t.payments) ==>
            t.payments[PaymentKey(t.credits[CreditKey(slice, a)].id, n)]
            == t'.payments[PaymentKey(t.credits[CreditKey(slice, a)].id, n)])
  }

  /** Every other slice has the same rows. */
  ghost predicate SameElsewhere<C, Q>(t: Tables<C, Q>, t': Tables<C, Q>, slice: Slice) {
    forall s: Slice :: s != slice ==> SameRows(t, t', s)
  }

  lemma SameElsewhereTransitive<C, Q>(a: Tables<C, Q>, b: Tables<C, Q>, c: Tables<C, Q>, slice: Slice)
    requires SameElsewhere(a, b, slice) && SameElsewhere(b, c, slice)
    ensures SameElsewhere(a, c, slice)
  {
    forall s: Slice | s != slice ensures SameRows(a, c, s) {
      assert SameRows(a, b, s) && SameRows(b, c, s);
    }
  }

  // ----- DELETE ------------------------------------------------------------------------------

  /** The payments of the slice's credits are deleted, then the credits. */
  function Cleared<C, Q>(t: Tables<C, Q>, slice: Slice): Tables<C, Q> {
    Tables(
      map k | k in t.credits && k.slice != slice :: t.credits[k],
      map p | p in t.payments && !OfSlice(t, p, slice) :: t.payments[p])
  }

  predicate OfSlice<C, Q>(t: Tables<C, Q>, p: PaymentKey, slice: Slice) {
    exists k: CreditKey :: k in t.credits && k.slice == slice && t.credits[k].id == p.credit
  }

  lemma ClearedIsEmpty<C, Q>(t: Tables<C, Q>, nextId: nat, slice: Slice)
    requires Sound(t, nextId)
    ensures Sound(Cleared(t, slice), nextId)
    ensures Shows(Cleared(t, slice), slice, map[], map[])
    ensures SameElsewhere(t, Cleared(t, slice), slice)
  {
    ClearedSound(t, nextId, slice);
    forall s: Slice | s != slice ensures SameRows(t, Cleared(t, slice), s) { ClearedElsewhere(t, nextId, slice, s); }
  }

  lemma ClearedSound<C, Q>(t: Tables<C, Q>, nextId: nat, slice: Slice)
    requires Sound(t, nextId)
    ensures Sound(Cleared(t, slice), nextId)
  {
    var t' := Cleared(t, slice);
    forall p | p in t'.payments ensures CreditExists(t', p.credit) {
      assert CreditExists(t, p.credit);
      var k :| k in t.credits && t.credits[k].id == p.credit;
      assert k.slice == slice ==> OfSlice(t, p, slice);
      assert k in t'.credits;
    }
  }

  lemma ClearedElsewhere<C, Q>(t: Tables<C, Q>, nextId: nat, slice: Slice, s: Slice)
    requires Sound(t, nextId) && s != slice
    ensures SameRows(t, Cleared(t, slice), s)
  {
    forall a, n | CreditKey(s, a) in t.credits
      ensures PaymentKey(t.credits[CreditKey(s, a)].id, n) in t.payments
              <==> PaymentKey(t.credits[CreditKey(s, a)].id, n) in Cleared(t, slice).payments
    {
      assert !OfSlice(t, PaymentKey(t.credits[CreditKey(s, a)].id, n), slice);
    }
  }

  // ----- INSERT ... ON CONFLICT DO UPDATE ---------------------------------------------------------

  /** One credit: a new row with a fresh id, or new data under the id the account has. */
  function UpsertOne<C, Q>(t: Tables<C, Q>, nextId: nat, slice: Slice, c: Credit<C>): Tables<C, Q> {
    var key := CreditKey(slice, c.account);
    var id := if key in t.credits then t.credits[key].id else nextId;
    t.(credits := t.credits[key := CreditRow(id, c.data)])
  }

  /** The whole statement; the sequence advances for every row of it. */
  function Upsert<C, Q>(t: Tables<C, Q>, nextId: nat, slice: Slice, chunk: seq<Credit<C>>): Tables<C, Q>
    decreases |chunk|
  {
    if chunk == [] then t
    else Upsert(UpsertOne(t, nextId, slice, chunk[0]), nextId + 1, slice, chunk[1..])
  }

  /** The statement fails when it would touch one row twice. */
  predicate DistinctAccounts<C>(chunk: seq<Credit<C>>) {
    forall i, j :: 0 <= i < j < |chunk| ==> chunk[i].account != chunk[j].account
  }

  /** Rows and ids that were there stay there. */
  ghost predicate KeepsIds<C, Q>(t: Tables<C, Q>, t': Tables<C, Q>, slice: Slice) {
    forall a :: CreditKey(slice, a) in t.credits ==>
      CreditKey(slice, a) in t'.credits && t'.credits[CreditKey(slice, a)].id == t.credits[CreditKey(slice, a)].id
  }

  /** An id not drawn yet has no payments. */
  lemma FreshIdIsUnused<C, Q>(t: Tables<C, Q>, nextId: nat, id: nat, n: int)
    requires Sound(t, nextId) && id >= nextId
    ensures PaymentKey(id, n) !in t.payments
  {
    assert PaymentKey(id, n) in t.payments ==> CreditExists(t, PaymentKey(id, n).credit);
  }

  lemma UpsertOneSound<C, Q>(t: Tables<C, Q>, nextId: nat, slice: Slice, c: Credit<C>)
    requires Sound(t, nextId)
    ensures Sound(UpsertOne(t, nextId, slice, c), nextId + 1)
  {
    var t' := UpsertOne(t, nextId, slice, c);
    forall p | p in t'.payments ensures CreditExists(t', p.credit) {
      assert CreditExists(t, p.credit);
      var k :| k in t.credits && t.credits[k].id == p.credit;
      assert k in t'.credits && t'.credits[k].id == p.credit;
    }
  }

  lemma UpsertOneKeeps<C, Q>(t: Tables<C, Q>, nextId: nat, slice: Slice, c: Credit<C>)
    ensures var t' := UpsertOne(t, nextId, slice, c);
            SameElsewhere(t, t', slice) && KeepsIds(t, t', slice) && CreditKey(slice, c.account) in t'.credits
  {
  }

  lemma UpsertOneShows<C, Q>(t: Tables<C, Q>, nextId: nat, slice: Slice, c: Credit<C>,
                             credits: map<Account, C>, payments: map<(Account, int), Q>)
    requires Sound(t, nextId) && Shows(t, slice, credits, payments)
    ensures Shows(UpsertOne(t, nextId, slice, c), slice, credits[c.account := c.data], payments)
  {
    var t' := UpsertOne(t, nextId, slice, c);
    var key := CreditKey(slice, c.account);
    forall a, n
      ensures (a, n) in payments <==>
              CreditKey(slice, a) in t'.credits && PaymentKey(t'.credits[CreditKey(slice, a)].id, n) in t'.payments
    {
      if CreditKey(slice, a) !in t.credits { FreshIdIsUnused(t, nextId, nextId, n); }
    }
  }

  /** The credits of a list, the last one of each account. */
  function LastWins<C>(cs: seq<Credit<C>>): map<Account, C>
    decreases |cs|
  {
    if cs == [] then map[] else map[cs[0].account := cs[0].data] + LastWins(cs[1..])
  }

  lemma {:induction false} LastWinsConcat<C>(a: seq<Credit<C>>, b: seq<Credit<C>>)
    ensures LastWins(a + b) == LastWins(a) + LastWins(b)
    decreases |a|
  {
    if a == [] {
      assert a + b == b;
      assert map[] + LastWins(b) == LastWins(b);
    } else {
      assert (a + b)[1..] == a[1..] + b;
      LastWinsConcat(a[1..], b);
      Over(map[a[0].account := a[0].data], LastWins(a[1..]), LastWins(b));
    }
  }

  lemma LastWinsAppend<C>(a: seq<Credit<C>>, c: Credit<C>)
    ensures LastWins(a + [c]) == LastWins(a)[c.account := c.data]
  {
    LastWinsConcat(a, [c]);
    LastWinsOne(c);
    UpdateIsOver(LastWins(a), c.account, c.data);
  }

  lemma LastWinsOne<C>(c: Credit<C>)
    ensures LastWins([c]) == map[c.account := c.data]
  {
    assert [c][1..] == [];
  }

  lemma UpdateIsOver<K, V>(m: map<K, V>, k: K, v: V)
    ensures m[k := v] == m + map[k := v]
  {
  }

  lemma LastWinsOver<C>(credits: map<Account, C>, chunk: seq<Credit<C>>)
    requires chunk != []
    ensures credits[chunk[0].account := chunk[0].data] + LastWins(chunk[1..]) == credits + LastWins(chunk)
  {
    UpdateIsOver(credits, chunk[0].account, chunk[0].data);
    Over(credits, map[chunk[0].account := chunk[0].data], LastWins(chunk[1..]));
  }

  /** What a statement on a list of credits leaves of, and adds to, what was there. */
  ghost predicate UpsertKeeps<C, Q>(t: Tables<C, Q>, t': Tables<C, Q>, slice: Slice, chunk: seq<Credit<C>>) {
    && SameElsewhere(t, t', slice) && KeepsIds(t, t', slice)
    && (forall i :: 0 <= i < |chunk| ==> CreditKey(slice, chunk[i].account) in t'.credits)
  }

  lemma {:induction false} UpsertIsSound<C, Q>(t: Tables<C, Q>, nextId: nat, slice: Slice, chunk: seq<Credit<C>>)
    requires Sound(t, nextId)
    ensures Sound(Upsert(t, nextId, slice, chunk), nextId + |chunk|)
    decreases |chunk|
  {
    if chunk != [] {
      UpsertOneSound(t, nextId, slice, chunk[0]);
      UpsertIsSound(UpsertOne(t, nextId, slice, chunk[0]), nextId + 1, slice, chunk[1..]);
    }
  }

  lemma {:induction false} UpsertKeepsRows<C, Q>(t: Tables<C, Q>, nextId: nat, slice: Slice, chunk: seq<Credit<C>>)
    ensures UpsertKeeps(t, Upsert(t, nextId, slice, chunk), slice, chunk)
    decreases |chunk|
  {
    if chunk != [] {
      var t1 := UpsertOne(t, nextId, slice, chunk[0]);
      UpsertOneKeeps(t, nextId, slice, chunk[0]);
      UpsertKeepsRows(t1, nextId + 1, slice, chunk[1..]);
      UpsertKeepsChain(t, t1, Upsert(t, nextId, slice, chunk), slice, chunk);
    }
  }

  lemma UpsertKeepsChain<C, Q>(t: Tables<C, Q>, t1: Tables<C, Q>, t2: Tables<C, Q>, slice: Slice, chunk: seq<Credit<C>>)
    requires chunk != [] && SameElsewhere(t, t1, slice) && KeepsIds(t, t1, slice)
    requires CreditKey(slice, chunk[0].account) in t1.credits
    requires UpsertKeeps(t1, t2, slice, chunk[1..])
    ensures UpsertKeeps(t, t2, slice, chunk)
  {
    SameElsewhereTransitive(t, t1, t2, slice);
    forall i | 0 <= i < |chunk| ensures CreditKey(slice, chunk[i].account) in t2.credits {
      if i > 0 { assert chunk[i] == chunk[1..][i - 1]; }
    }
  }

  /** After the statement the slice shows the listed credits over what it showed before. */
  lemma {:induction false} UpsertShows<C, Q>(t: Tables<C, Q>, nextId: nat, slice: Slice, chunk: seq<Credit<C>>,
                                             credits: map<Account, C>, payments: map<(Account, int), Q>)
    requires Sound(t, nextId) && Shows(t, slice, credits, payments)
    ensures Shows(Upsert(t, nextId, slice, chunk), slice, credits + LastWins(chunk), payments)
    decreases |chunk|
  {
    if chunk == [] {
      assert credits + LastWins(chunk) == credits;
    } else {
      var c, rest := chunk[0], chunk[1..];
      UpsertOneSound(t, nextId, slice, c);
      UpsertOneShows(t, nextId, slice, c, credits, payments);
      UpsertShows(UpsertOne(t, nextId, slice, c), nextId + 1, slice, rest, credits[c.account := c.data], payments);
      LastWinsOver(credits, chunk);
    }
  }

  // ----- INSERT of payments --------------------------------------------------------------------

  /** Both unique keys and the foreign key, row by row. */
  predicate Insertable<C, Q>(t: Tables<C, Q>, binds: seq<PaymentBind<Q>>) {
    && (forall i :: 0 <= i < |binds| ==> binds[i].key !in t.payments)
    && (forall i, j :: 0 <= i < j < |binds| ==> binds[i].key != binds[j].key)
    && (forall i :: 0 <= i < |binds| ==> binds[i].key.credit in Ids(t))
  }

  function Ids<C, Q>(t: Tables<C, Q>): set<nat> {
    set k | k in t.credits :: t.credits[k].id
  }

  function Insert<C, Q>(t: Tables<C, Q>, binds: seq<PaymentBind<Q>>): Tables<C, Q>
    decreases |binds|
  {
    if binds == [] then t
    else Insert(t.(payments := t.payments[binds[0].key := binds[0].data]), binds[1..])
  }

  lemma InsertOneShows<C, Q>(t: Tables<C, Q>, nextId: nat, slice: Slice, p: Payment<Q>,
                             credits: map<Account, C>, payments: map<(Account, int), Q>)
    requires Sound(t, nextId) && Shows(t, slice, credits, payments)
    requires CreditKey(slice, p.account) in t.credits
    ensures Shows(InsertOne(t, slice, p), slice, credits, payments[(p.account, p.installment) := p.data])
  {
  }

  /** A payment of an account's own credit. */
  function InsertOne<C, Q>(t: Tables<C, Q>, slice: Slice, p: Payment<Q>): Tables<C, Q>
    requires CreditKey(slice, p.account) in t.credits
  {
    t.(payments := t.payments[PaymentKey(t.credits[CreditKey(slice, p.account)].id, p.installment) := p.data])
  }

  lemma InsertOneElsewhere<C, Q>(t: Tables<C, Q>, nextId: nat, slice: Slice, p: Payment<Q>)
    requires Sound(t, nextId)
    requires CreditKey(slice, p.account) in t.credits
    ensures SameElsewhere(t, InsertOne(t, slice, p), slice)
  {
    forall s: Slice | s != slice ensures SameRows(t, InsertOne(t, slice, p), s) {
    }
  }

  lemma InsertOneSound<C, Q>(t: Tables<C, Q>, nextId: nat, slice: Slice, p: Payment<Q>)
    requires Sound(t, nextId)
    requires CreditKey(slice, p.account) in t.credits
    ensures Sound(InsertOne(t, slice, p), nextId)
  {
    var key := PaymentKey(t.credits[CreditKey(slice, p.account)].id, p.installment);
    var t' := InsertOne(t, slice, p);
    forall q | q in t'.payments ensures CreditExists(t', q.credit) {
      if q == key {
        assert CreditKey(slice, p.account) in t'.credits;
      } else {
        assert CreditExists(t, q.credit);
        var k :| k in t.credits && t.credits[k].id == q.credit;
        assert k in t'.credits && t'.credits[k].id == q.credit;
      }
    }
  }
}
