/**
 In-batch deduplication of credits: one entry per account, the last one, in the order in
 which the accounts first occur.
 */
module Dedup {
  import opened Warehouse

  /** The accounts in first-occurrence order. */
  function FirstSeen<C>(cs: seq<Credit<C>>): seq<Account>
    decreases |cs|
  {
    if cs == [] then []
    else
      var before := FirstSeen(cs[..|cs| - 1]);
      var a := cs[|cs| - 1].account;
      if a in before then before else before + [a]
  }

  function Accounts<C>(cs: seq<Credit<C>>): (as': seq<Account>)
    ensures |as'| == |cs| && forall i :: 0 <= i < |cs| ==> as'[i] == cs[i].account
  {
    seq(|cs|, i requires 0 <= i < |cs| => cs[i].account)
  }

  /** The position of every account in the list, as the index map has it. */
  ghost predicate Indexes<C>(index: map<Account, nat>, deduped: seq<Credit<C>>) {
    && (forall a :: a in index ==> index[a] < |deduped| && deduped[index[a]].account == a)
    && (forall i :: 0 <= i < |deduped| ==> deduped[i].account in index && index[deduped[i].account] == i)
  }

  /**
   Exactly one entry per account, the last one, in first-occurrence order; so every part
   of the result has pairwise distinct accounts.
   */
  method DedupCredits<C>(credits: seq<Credit<C>>) returns (deduped: seq<Credit<C>>)
    ensures Accounts(deduped) == FirstSeen(credits)
    ensures forall i :: 0 <= i < |deduped| ==>
              deduped[i].account in LastWins(credits) && deduped[i].data == LastWins(credits)[deduped[i].account]
    ensures DistinctAccounts(deduped)
    ensures LastWins(deduped) == LastWins(credits)
  {
    deduped := [];
    var index: map<Account, nat> := map[];
    for n := 0 to |credits|
      invariant Deduped(index, deduped, FirstSeen(credits[..n]), LastWins(credits[..n]))
    {
      var credit := credits[n];
      assert credits[..n + 1] == credits[..n] + [credit];
      ghost var order, m := FirstSeen(credits[..n]), LastWins(credits[..n]);
      LastWinsAppend(credits[..n], credit);
      FirstSeenAppend(credits[..n], credit);
      if credit.account in index {
        ReplaceKeeps(index, deduped, order, m, credit);
        deduped := deduped[index[credit.account] := credit];
      } else {
        AppendKeeps(index, deduped, order, m, credit);
        index := index[credit.account := |deduped|];
        deduped := deduped + [credit];
      }
    }
    assert credits[..|credits|] == credits;
    EntriesMakeTheMap(deduped, LastWins(credits), index);
  }

  /** The state of the loop, given the order and the last credits of the part done. */
  ghost predicate Deduped<C>(index: map<Account, nat>, deduped: seq<Credit<C>>, order: seq<Account>,
                             m: map<Account, C>) {
    && Indexes(index, deduped)
    && Accounts(deduped) == order
    && index.Keys == m.Keys
    && Entries(deduped, m)
  }

  lemma ReplaceKeeps<C>(index: map<Account, nat>, deduped: seq<Credit<C>>, order: seq<Account>, m: map<Account, C>,
                        c: Credit<C>)
    requires Deduped(index, deduped, order, m) && c.account in index
    ensures Deduped(index, deduped[index[c.account] := c], order, m[c.account := c.data])
    ensures c.account in order
  {
    var pos := index[c.account];
    var after := deduped[pos := c];
    assert order[pos] == c.account;
    assert Accounts(after) == Accounts(deduped);
    assert index.Keys == m[c.account := c.data].Keys;
  }

  lemma AppendKeeps<C>(index: map<Account, nat>, deduped: seq<Credit<C>>, order: seq<Account>, m: map<Account, C>,
                       c: Credit<C>)
    requires Deduped(index, deduped, order, m) && c.account !in index
    ensures Deduped(index[c.account := |deduped|], deduped + [c], order + [c.account], m[c.account := c.data])
    ensures c.account !in order
  {
    assert forall i :: 0 <= i < |deduped| ==> deduped[i].account in index && order[i] == deduped[i].account;
    assert Accounts(deduped + [c]) == Accounts(deduped) + [c.account];
    assert index[c.account := |deduped|].Keys == m[c.account := c.data].Keys;
  }

  ghost predicate Entries<C>(deduped: seq<Credit<C>>, m: map<Account, C>) {
    forall i :: 0 <= i < |deduped| ==> deduped[i].account in m && deduped[i].data == m[deduped[i].account]
  }

  lemma FirstSeenAppend<C>(cs: seq<Credit<C>>, c: Credit<C>)
    ensures FirstSeen(cs + [c]) == if c.account in FirstSeen(cs) then FirstSeen(cs) else FirstSeen(cs) + [c.account]
  {
    assert (cs + [c])[..|cs|] == cs;
  }

  lemma {:induction false} LastWinsEntry<C>(cs: seq<Credit<C>>, i: nat)
    requires i < |cs| && DistinctAccounts(cs)
    ensures cs[i].account in LastWins(cs) && LastWins(cs)[cs[i].account] == cs[i].data
    decreases |cs|
  {
    var rest := cs[1..];
    if i > 0 {
      LastWinsEntry(rest, i - 1);
    } else {
      LastWinsKeys(rest, cs[0].account);
    }
  }

  lemma {:induction false} LastWinsKeys<C>(cs: seq<Credit<C>>, a: Account)
    ensures a in LastWins(cs) <==> exists i :: 0 <= i < |cs| && cs[i].account == a
    decreases |cs|
  {
    if cs != [] {
      LastWinsKeys(cs[1..], a);
      if i :| 0 <= i < |cs[1..]| && cs[1..][i].account == a { assert cs[i + 1].account == a; }
      if i :| 0 <= i < |cs| && cs[i].account == a { assert i > 0 ==> cs[1..][i - 1].account == a; }
    }
  }

  lemma EntriesMakeTheMap<C>(deduped: seq<Credit<C>>, m: map<Account, C>, index: map<Account, nat>)
    requires Indexes(index, deduped) && Entries(deduped, m) && index.Keys == m.Keys
    ensures DistinctAccounts(deduped) && LastWins(deduped) == m
  {
    var l := LastWins(deduped);
    forall a ensures (a in l <==> a in m) && (a in m ==> l[a] == m[a]) {
      LastWinsKeys(deduped, a);
      if a in m {
        assert deduped[index[a]].account == a;
        LastWinsEntry(deduped, index[a]);
      } else {
        assert forall i :: 0 <= i < |deduped| ==> deduped[i].account in index;
      }
    }
  }
}
