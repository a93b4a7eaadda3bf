/** Null-terminated singly linked lists threaded through a table of next pointers. The
    pageref lists and the free lists inside heap pages are both of this shape. */
module Chains {

  /** Element i of a list, or the null pointer past its end. */
  function Nth(list: seq<int>, i: nat): int
  {
    if i < |list| then list[i] else 0
  }

  /** Following next from base visits exactly list and then ends. */
  ghost predicate IsChain(next: map<int, int>, base: int, list: seq<int>)
  {
    && base == Nth(list, 0)
    && forall i :: 0 <= i < |list| ==> Linked(next, list, i)
  }

  ghost predicate Linked(next: map<int, int>, list: seq<int>, i: nat)
    requires i < |list|
  {
    list[i] != 0 && list[i] in next && next[list[i]] == Nth(list, i + 1)
  }

  /** No pointer is in the list twice. */
  ghost predicate Distinct(list: seq<int>)
  {
    forall x :: multiset(list)[x] <= 1
  }

  lemma DistinctAt(list: seq<int>, i: nat, j: nat)
    requires Distinct(list) && i < j < |list|
    ensures list[i] != list[j]
  {
    var x := list[j];
    assert list == list[..j] + list[j..];
    assert multiset(list)[x] == multiset(list[..j])[x] + multiset(list[j..])[x];
    assert list[j..][0] in list[j..];
    assert list[..j][i] in list[..j];
  }

  lemma EndsInNull(next: map<int, int>, base: int, list: seq<int>, k: nat)
    requires IsChain(next, base, list)
    ensures Nth(list, k) == 0 <==> |list| <= k
  {
    if k < |list| { assert Linked(next, list, k); }
  }

  /** A write outside the list does not disturb it. */
  lemma Frame(next: map<int, int>, next': map<int, int>, base: int, list: seq<int>)
    requires IsChain(next, base, list)
    requires forall x :: x in list && x in next ==> x in next' && next'[x] == next[x]
    ensures IsChain(next', base, list)
  {
    forall i | 0 <= i < |list| ensures Linked(next', list, i) {
      assert Linked(next, list, i);
    }
  }

  lemma Push(next: map<int, int>, base: int, list: seq<int>, p: int)
    requires IsChain(next, base, list) && p != 0 && p !in list
    ensures IsChain(next[p := base], p, [p] + list)
  {
    var l', n' := [p] + list, next[p := base];
    forall i | 0 <= i < |l'| ensures Linked(n', l', i) {
      if i > 0 { assert Linked(next, list, i - 1); }
    }
  }

  lemma Pop(next: map<int, int>, base: int, list: seq<int>)
    requires IsChain(next, base, list) && list != []
    ensures base != 0 && base in next && base == list[0] && IsChain(next, next[base], list[1..])
  {
    assert Linked(next, list, 0);
    forall i | 0 <= i < |list[1..]| ensures Linked(next, list[1..], i) {
      assert Linked(next, list, i + 1);
    }
  }

  function Without(list: seq<int>, k: nat): seq<int>
    requires k < |list|
  {
    list[..k] + list[k + 1..]
  }

  lemma WithoutCounts(list: seq<int>, k: nat)
    requires k < |list|
    ensures multiset(list) == multiset(Without(list, k)) + multiset{list[k]}
  {
    assert list == list[..k] + [list[k]] + list[k + 1..];
  }

  /** Taking element k out by redirecting the pointer before it. */
  lemma Skip(next: map<int, int>, base: int, list: seq<int>, k: nat)
    requires IsChain(next, base, list) && Distinct(list) && 0 < k < |list|
    ensures IsChain(next[list[k - 1] := Nth(list, k + 1)], base, Without(list, k))
  {
    var l', n' := Without(list, k), next[list[k - 1] := Nth(list, k + 1)];
    forall i | 0 <= i < |l'| ensures Linked(n', l', i) {
      var j := if i < k then i else i + 1;
      assert Linked(next, list, j);
      if j < k - 1 { DistinctAt(list, j, k - 1); }
      if k - 1 < j { DistinctAt(list, k - 1, j); }
    }
  }

  /** One of the two loops of remove_lists: walk the list by the address of the pointer to
      the current element and, at p, make that pointer skip it. `prev == 0` stands for
      the address of the list's base. */
  method Unlink(next: map<int, int>, base: int, p: int, ghost list: seq<int>)
    returns (next': map<int, int>, base': int, ghost list': seq<int>)
    requires IsChain(next, base, list) && Distinct(list)
    ensures IsChain(next', base', list')
    ensures p !in list ==> next' == next && list' == list
    ensures p in list ==> multiset(list) == multiset(list') + multiset{p}
    ensures next'.Keys == next.Keys
    ensures forall x :: x in next && x !in list ==> next'[x] == next[x]
  {
    next', base', list' := next, base, list;
    var prev, cur := 0, base;
    ghost var k := 0;
    while cur != 0
      invariant k <= |list| && cur == Nth(list, k) && prev == (if k == 0 then 0 else list[k - 1])
      invariant next' == next && base' == base && list' == list && p !in list[..k]
      decreases |list| - k
    {
      assert Linked(next, list, k);
      EndsInNull(next, base, list, if k == 0 then 0 else k - 1);
      if cur == p {
        list' := Without(list, k);
        WithoutCounts(list, k);
        if prev == 0 {
          base' := next[p];
          Pop(next, base, list);
          assert list' == list[1..];
        } else {
          next' := next[prev := next[p]];
          assert Linked(next, list, k - 1);
          Skip(next, base, list, k);
        }
        return;
      }
      assert list[..k + 1] == list[..k] + [list[k]];
      prev, cur, k := cur, next[cur], k + 1;
    }
    EndsInNull(next, base, list, k);
    assert list[..k] == list;
  }
}
