/**
 update_account_nonces: nonces are queried for all accounts at once, responses arrive in any
 order, and the accounts whose query failed are removed from the vector by swap_remove.
 */
module AccountNonces {
  import opened Wrappers

  datatype Account = Account(id: string, nonce: nat)

  /** Answer of the node for the account at an index: its nonce, or an error. */
  type Responses = nat -> Option<nat>

  /** The accounts with the nonces of their own responses; those without one keep theirs. */
  function Refreshed(accounts: seq<Account>, responses: Responses): (r: seq<Account>)
    ensures |r| == |accounts|
    ensures forall i :: 0 <= i < |accounts| ==>
      && r[i].id == accounts[i].id
      && r[i].nonce == if responses(i).Some? then responses(i).value else accounts[i].nonce
  {
    seq(|accounts|, i requires 0 <= i < |accounts| =>
      if responses(i).Some? then accounts[i].(nonce := responses(i).value) else accounts[i])
  }

  /** The accounts at the indices outside `gone`. */
  function Kept(accounts: seq<Account>, gone: set<nat>): multiset<Account> {
    if accounts == [] then multiset{}
    else
      var last := |accounts| - 1;
      Kept(accounts[..last], gone) + if last in gone then multiset{} else multiset{accounts[last]}
  }

  function FailedIndices(count: nat, responses: Responses): (r: set<nat>)
    ensures forall i: nat :: i in r <==> i < count && responses(i).None?
  {
    if count == 0 then {} else FailedIndices(count - 1, responses) + if responses(count - 1).None? then {count - 1}
        else {}
  }

  /** Vec::swap_remove: the last element takes the place of the removed one. */
  function SwapRemove(v: seq<Account>, i: nat): (r: seq<Account>)
    requires i < |v|
    ensures |r| == |v| - 1
    ensures multiset(r) == multiset(v) - multiset{v[i]}
    ensures forall j :: 0 <= j < |r| ==> r[j] == if j == i then v[|v| - 1] else v[j]
  {
    var last := v[|v| - 1];
    assert v == v[..|v| - 1] + [last];
    v[i := last][..|v| - 1]
  }

  lemma {:induction false} SameBelow(accounts: seq<Account>, a: set<nat>, b: set<nat>)
    requires forall i: nat :: i < |accounts| ==> (i in a <==> i in b)
    ensures Kept(accounts, a) == Kept(accounts, b)
  {
    if accounts != [] {
      SameBelow(accounts[..|accounts| - 1], a, b);
    }
  }

  lemma {:induction false} RemoveOne(accounts: seq<Account>, gone: set<nat>, i: nat)
    requires i < |accounts| && i !in gone
    ensures Kept(accounts, gone) == Kept(accounts, gone + {i}) + multiset{accounts[i]}
  {
    var last := |accounts| - 1;
    if i == last {
      SameBelow(accounts[..last], gone, gone + {i});
    } else {
      RemoveOne(accounts[..last], gone, i);
    }
  }

  lemma {:induction false} KeepAll(accounts: seq<Account>)
    ensures Kept(accounts, {}) == multiset(accounts)
  {
    if accounts != [] {
      KeepAll(accounts[..|accounts| - 1]);
      assert accounts == accounts[..|accounts| - 1] + [accounts[|accounts| - 1]];
    }
  }

  ghost predicate IsAscending(s: seq<nat>) {
    forall i, j :: 0 <= i < j < |s| ==> s[i] < s[j]
  }

  function Elements(s: seq<nat>): set<nat> {
    set x | x in s
  }

  lemma InsertedElements(s: seq<nat>, i: nat, x: nat)
    requires i <= |s|
    ensures forall y :: y in s[..i] + [x] + s[i..] <==> y in s || y == x
  {
    assert s == s[..i] + s[i..];
  }

  lemma InsertedAscends(s: seq<nat>, i: nat, x: nat)
    requires i <= |s| && IsAscending(s) && (forall j :: i <= j < |s| ==> s[j] > x) && (i > 0 ==> s[i - 1] < x)
    ensures IsAscending(s[..i] + [x] + s[i..])
  {
    var r := s[..i] + [x] + s[i..];
    forall j, k | 0 <= j < k < |r|
      ensures r[j] < r[k]
    {
      assert r[j] == if j < i then s[j] else if j == i then x else s[j - 1];
      assert r[k] == if k < i then s[k] else if k == i then x else s[k - 1];
    }
  }

  method Insert(s: seq<nat>, x: nat) returns (r: seq<nat>)
    requires IsAscending(s) && x !in s
    ensures IsAscending(r) && |r| == |s| + 1
    ensures forall y :: y in r <==> y in s || y == x
  {
    var i := |s|;
    while i > 0 && s[i - 1] > x
      invariant 0 <= i <= |s| && forall j :: i <= j < |s| ==> s[j] > x
    {
      i := i - 1;
    }
    r := s[..i] + [x] + s[i..];
    InsertedElements(s, i, x);
    InsertedAscends(s, i, x);
  }

  /** `sort_unstable` on distinct indices, by insertion. */
  method Sort(s: seq<nat>) returns (r: seq<nat>)
    requires forall i, j :: 0 <= i < j < |s| ==> s[i] != s[j]
    ensures IsAscending(r) && |r| == |s| && Elements(r) == Elements(s)
  {
    r := [];
    for k := 0 to |s|
      invariant IsAscending(r) && |r| == k
      invariant forall x :: x in r <==> x in s[..k]
    {
      assert s[..k + 1] == s[..k] + [s[k]];
      assert s[k] !in s[..k];
      r := Insert(r, s[k]);
    }
    assert s[..|s|] == s;
  }

  lemma NextElement(indices: seq<nat>, k: nat)
    requires IsAscending(indices) && k < |indices|
    ensures Elements(indices[k..]) == Elements(indices[k + 1..]) + {indices[k]}
        && indices[k] !in Elements(indices[k + 1..])
  {
    assert indices[k..] == [indices[k]] + indices[k + 1..];
  }

  /** Distinct larger indices fit above a smaller one. */
  lemma {:induction false} Room(indices: seq<nat>, k: nat, bound: nat)
    requires IsAscending(indices) && k < |indices| && forall i :: 0 <= i < |indices| ==> indices[i] < bound
    ensures indices[k] + (|indices| - k) <= bound
    decreases |indices| - k
  {
    if k + 1 < |indices| {
      Room(indices, k + 1, bound);
    }
  }

  /** The last loop: indices in descending order, so each one still points at its own account. */
  method RemoveAll(accounts: seq<Account>, indices: seq<nat>) returns (r: seq<Account>)
    requires IsAscending(indices) && forall i :: 0 <= i < |indices| ==> indices[i] < |accounts|
    ensures multiset(r) == Kept(accounts, Elements(indices))
    ensures indices == [] ==> r == accounts
  {
    hide Kept;
    r := accounts;
    KeepAll(accounts);
    assert Elements(indices[|indices|..]) == {};
    for k := |indices| downto 0
      invariant |r| == |accounts| - (|indices| - k)
      invariant forall j :: 0 <= j < |r| && (k == |indices| || j < indices[k]) ==> r[j] == accounts[j]
      invariant multiset(r) == Kept(accounts, Elements(indices[k..]))
      invariant k == |indices| ==> r == accounts
    {
      Room(indices, k, |accounts|);
      NextElement(indices, k);
      RemoveOne(accounts, Elements(indices[k + 1..]), indices[k]);
      assert k + 1 < |indices| ==> indices[k] < indices[k + 1];
      r := SwapRemove(r, indices[k]);
    }
    assert indices[0..] == indices;
  }

  /** Responses are joined in the given order, each once. */
  ghost predicate IsCompletionOrder(order: seq<nat>, count: nat) {
    && (forall i, j :: 0 <= i < j < |order| ==> order[i] != order[j])
    && (forall i: nat :: i in order <==> i < count)
  }

  lemma SameElements(a: seq<nat>, b: seq<nat>)
    requires Elements(a) == Elements(b)
    ensures forall i :: 0 <= i < |b| ==> b[i] in a
    ensures Elements(a) == {} ==> b == []
  {
    forall i | 0 <= i < |b|
      ensures b[i] in a
    {
      assert b[i] in Elements(b);
    }
    if b != [] {
      assert b[0] in Elements(b);
    }
  }

  /**
   For every completion order: with `ignoreFailures` the result is, as a multiset, exactly the
   accounts whose query succeeded, each with the nonce of its own response; without it a
   failure anywhere is an error.
   */
  method UpdateAccountNonces(accounts: seq<Account>, responses: Responses, order: seq<nat>, ignoreFailures: bool)
    returns (r: Option<seq<Account>>)
    requires IsCompletionOrder(order, |accounts|)
    ensures r.None? <==> !ignoreFailures && FailedIndices(|accounts|, responses) != {}
    ensures r.Some? ==> multiset(r.value) == Kept(Refreshed(accounts, responses), FailedIndices(|accounts|, responses))
    ensures r.Some? && FailedIndices(|accounts|, responses) == {} ==> r.value == Refreshed(accounts, responses)
  {
    var updated := accounts;
    var toRemove: seq<nat> := [];
    for k := 0 to |order|
      invariant |updated| == |accounts|
      invariant forall i: nat :: i < |accounts| ==>
        updated[i] == if i in order[..k] && responses(i).Some? then accounts[i].(nonce := responses(i).value)
            else accounts[i]
      invariant forall i: nat :: i in toRemove <==> i in order[..k] && responses(i).None?
      invariant forall i, j :: 0 <= i < j < |toRemove| ==> toRemove[i] != toRemove[j]
      invariant toRemove != [] ==> ignoreFailures
    {
      var idx := order[k];
      assert order[..k + 1] == order[..k] + [idx];
      assert idx in order && idx !in order[..k];
      match responses(idx)
      case None =>
        if !ignoreFailures {
          assert idx in FailedIndices(|accounts|, responses);
          return None;
        }
        toRemove := toRemove + [idx];
      case Some(nonce) =>
        if updated[idx].nonce != nonce {
          updated := updated[idx := updated[idx].(nonce := nonce)];
        }
    }
    assert order[..|order|] == order;
    assert updated == Refreshed(accounts, responses);
    assert Elements(toRemove) == FailedIndices(|accounts|, responses);
    var indices := Sort(toRemove);
    SameElements(toRemove, indices);
    assert FailedIndices(|accounts|, responses) == {} ==> indices == [];
    var kept := RemoveAll(updated, indices);
    return Some(kept);
  }
}
