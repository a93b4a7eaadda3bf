/** The hashed page table: one chain of entries per bucket, shared by all address spaces.
    Each operation is what runs under page_table_lock. */
module PageTable {
  import opened Chains

  /** The addresses of an addrspace and of a page in it. */
  type Space = bv32
  type Page = bv32

  const FRAME_SIZE := 4096

  /** A page_table_entry without its next pointer: frame is a physical address whose last
      12 bits are flags. */
  datatype Pte = Pte(space: Space, page: Page, frame: nat)

  /** Which bucket a page goes to. What follows holds whatever hash is used. */
  type Hash = (Space, Page) -> nat

  /** hpt_hash, in a table of n buckets. */
  function HptHash(n: nat, a: Space, v: Page): nat
    requires n > 0
  {
    (a ^ (v >> 12)) as nat % n
  }

  datatype Table = Table(heads: seq<int>, next: map<int, int>, pte: map<int, Pte>, ghost lists: seq<seq<int>>)

  // ----- The invariant

  /** The chain of bucket b is exactly the entries that hash to it, each once. */
  ghost predicate BucketOk(h: Hash, next: map<int, int>, pte: map<int, Pte>, head: int, list: seq<int>, b: nat)
  {
    && IsChain(next, head, list)
    && forall p {:trigger multiset(list)[p]} ::
         multiset(list)[p] == if p in pte && h(pte[p].space, pte[p].page) == b then 1 else 0
  }

  ghost predicate SameKey(pte: map<int, Pte>, p: int, q: int)
    requires p in pte && q in pte
  {
    pte[p].space == pte[q].space && pte[p].page == pte[q].page
  }

  /** The index of the frame an address is in. */
  function FrameIndex(frame: nat): nat
  {
    frame / FRAME_SIZE
  }

  ghost predicate SameFrame(pte: map<int, Pte>, p: int, q: int)
    requires p in pte && q in pte
  {
    FrameIndex(pte[p].frame) == FrameIndex(pte[q].frame)
  }

  /** No entry uses this frame. */
  ghost predicate Unused(pte: map<int, Pte>, frame: nat)
  {
    forall p :: p in pte ==> FrameIndex(pte[p].frame) != FrameIndex(frame)
  }

  /** The table is in order: no page has two entries, and no two entries share a frame. */
  ghost predicate Inv(h: Hash, t: Table)
  {
    && |t.heads| == |t.lists|
    && (forall b :: 0 <= b < |t.heads| ==> BucketOk(h, t.next, t.pte, t.heads[b], t.lists[b], b))
    && (forall p :: p in t.pte ==> p != 0 && h(t.pte[p].space, t.pte[p].page) < |t.heads|)
    && (forall p, q :: p in t.pte && q in t.pte && SameKey(t.pte, p, q) ==> p == q)
    && (forall p, q :: p in t.pte && q in t.pte && SameFrame(t.pte, p, q) ==> p == q)
  }

  lemma InBucket(h: Hash, t: Table, b: nat, p: int)
    requires Inv(h, t) && b < |t.heads|
    ensures p in t.lists[b] <==> p in t.pte && h(t.pte[p].space, t.pte[p].page) == b
    ensures IsChain(t.next, t.heads[b], t.lists[b]) && Distinct(t.lists[b])
  {
    assert BucketOk(h, t.next, t.pte, t.heads[b], t.lists[b], b);
    assert p in t.lists[b] <==> multiset(t.lists[b])[p] > 0;
  }

  // ----- What the table says

  /** The page of an address space that entry p maps. */
  ghost predicate Maps(t: Table, p: int, a: Space, v: Page)
  {
    p in t.pte && t.pte[p].space == a && t.pte[p].page == v
  }

  ghost predicate Mapped(t: Table, a: Space, v: Page)
  {
    exists p :: Maps(t, p, a, v)
  }

  /** lookup_pht finds the entry of a page exactly when there is one. */
  method Lookup(h: Hash, t: Table, a: Space, v: Page) returns (p: int)
    requires Inv(h, t) && h(a, v) < |t.heads|
    ensures p == 0 <==> !Mapped(t, a, v)
    ensures p != 0 ==> Maps(t, p, a, v) && forall q :: Maps(t, q, a, v) ==> q == p
  {
    ghost var b, k := h(a, v), 0;
    ghost var list := t.lists[b];
    InBucket(h, t, b, 0);
    p := t.heads[h(a, v)];
    while p != 0
      invariant k <= |list| && p == Nth(list, k)
      invariant forall i :: 0 <= i < k ==> !Maps(t, list[i], a, v)
      decreases |list| - k
    {
      assert Linked(t.next, list, k);
      InBucket(h, t, b, p);
      if t.pte[p].space == a && t.pte[p].page == v {
        assert Maps(t, p, a, v) && forall q :: Maps(t, q, a, v) ==> SameKey(t.pte, p, q);
        return;
      }
      p, k := t.next[p], k + 1;
    }
    EndsInNull(t.next, t.heads[b], list, k);
    forall q ensures !Maps(t, q, a, v) {
      InBucket(h, t, b, q);
    }
  }

  // ----- Inserting

  lemma AppendOk(next: map<int, int>, head: int, list: seq<int>, p: int)
    requires IsChain(next, head, list) && Distinct(list) && p != 0 && p !in list
    ensures list == [] ==> IsChain(next[p := 0], p, [p])
    ensures list != [] ==> IsChain(next[p := 0][list[|list| - 1] := p], head, list + [p])
  {
    var n := |list| - 1;
    if list == [] {
      assert Linked(next[p := 0], [p], 0);
    } else {
      var l', n' := list + [p], next[p := 0][list[n] := p];
      forall i | 0 <= i < |l'| ensures Linked(n', l', i) {
        if i < n { DistinctAt(list, i, n); }
        if i <= n { assert Linked(next, list, i); }
      }
    }
  }

  /** The loop that finds the last entry of a chain. */
  method Last(next: map<int, int>, head: int, ghost list: seq<int>) returns (p: int)
    requires IsChain(next, head, list) && list != []
    ensures p == list[|list| - 1]
  {
    p := head;
    ghost var k := 0;
    EndsInNull(next, head, list, 0);
    assert Linked(next, list, 0);
    while next[p] != 0
      invariant k < |list| && p == list[k] && p in next && next[p] == Nth(list, k + 1)
      decreases |list| - k
    {
      EndsInNull(next, head, list, k + 1);
      assert Linked(next, list, k + 1);
      p, k := next[p], k + 1;
    }
    EndsInNull(next, head, list, k + 1);
  }

  ghost predicate Insertable(h: Hash, t: Table, p: int, e: Pte)
  {
    && p != 0 && p !in t.pte && h(e.space, e.page) < |t.heads|
    && !Mapped(t, e.space, e.page) && Unused(t.pte, e.frame)
  }

  /** The end of vm_fault, and of a turn of vm_copy: a new entry goes to the end of its
      chain. No page had it before, and nothing else changes. */
  method Insert(h: Hash, t: Table, p: int, e: Pte) returns (t': Table)
    requires Inv(h, t) && Insertable(h, t, p, e)
    ensures Inv(h, t') && t'.pte == t.pte[p := e]
    ensures var b := h(e.space, e.page); t'.lists == t.lists[b := t.lists[b] + [p]]
    ensures var b := h(e.space, e.page); t'.heads == if t.heads[b] == 0 then t.heads[b := p] else t.heads
  {
    var b := h(e.space, e.page);
    ghost var list := t.lists[b];
    InBucket(h, t, b, p);
    EndsInNull(t.next, t.heads[b], list, 0);
    AppendOk(t.next, t.heads[b], list, p);
    if t.heads[b] != 0 {
      var last := Last(t.next, t.heads[b], list);
      t' := t.(next := t.next[p := 0][last := p], pte := t.pte[p := e], lists := t.lists[b := list + [p]]);
    } else {
      t' := t.(heads := t.heads[b := p], next := t.next[p := 0], pte := t.pte[p := e],
               lists := t.lists[b := list + [p]]);
    }
    InsertKeeps(h, t, t', p, e);
  }

  lemma InsertKeeps(h: Hash, t: Table, t': Table, p: int, e: Pte)
    requires Inv(h, t) && Insertable(h, t, p, e)
    requires |t'.heads| == |t.heads|
    requires var b := h(e.space, e.page);
             && t'.lists == t.lists[b := t.lists[b] + [p]] && IsChain(t'.next, t'.heads[b], t'.lists[b])
             && (forall c :: 0 <= c < |t.heads| && c != b ==> t'.heads[c] == t.heads[c])
             && (forall x :: x in t.next && x != p && x !in t.lists[b] ==> x in t'.next && t'.next[x] == t.next[x])
    requires t'.pte == t.pte[p := e]
    ensures Inv(h, t')
  {
    var b := h(e.space, e.page);
    forall c | 0 <= c < |t'.heads| ensures BucketOk(h, t'.next, t'.pte, t'.heads[c], t'.lists[c], c) {
      OneBucket(h, t, t', p, e, c);
    }
    forall x, y | x in t'.pte && y in t'.pte && SameKey(t'.pte, x, y) ensures x == y {
      if x != p && y != p { assert SameKey(t.pte, x, y); }
      assert x != p && y == p ==> Maps(t, x, e.space, e.page);
      assert x == p && y != p ==> Maps(t, y, e.space, e.page);
    }
    forall x, y | x in t'.pte && y in t'.pte && SameFrame(t'.pte, x, y) ensures x == y {
      if x != p && y != p { assert SameFrame(t.pte, x, y); }
    }
  }

  lemma OneBucket(h: Hash, t: Table, t': Table, p: int, e: Pte, c: nat)
    requires Inv(h, t) && Insertable(h, t, p, e) && t'.pte == t.pte[p := e] && c < |t.heads| && |t'.heads| == |t.heads|
    requires var b := h(e.space, e.page);
             && t'.lists == t.lists[b := t.lists[b] + [p]] && IsChain(t'.next, t'.heads[b], t'.lists[b])
             && (c != b ==> t'.heads[c] == t.heads[c])
             && (forall x :: x in t.next && x != p && x !in t.lists[b] ==> x in t'.next && t'.next[x] == t.next[x])
    ensures BucketOk(h, t'.next, t'.pte, t'.heads[c], t'.lists[c], c)
  {
    var b := h(e.space, e.page);
    assert BucketOk(h, t.next, t.pte, t.heads[c], t.lists[c], c);
    if c != b {
      forall x | x in t.lists[c] && x in t.next ensures x in t'.next && t'.next[x] == t.next[x] {
        InBucket(h, t, c, x);
        InBucket(h, t, b, x);
      }
      Frame(t.next, t'.next, t.heads[c], t.lists[c]);
    }
  }

  // ----- Removing an address space

  predicate Belongs(pte: map<int, Pte>, p: int, a: Space)
  {
    p in pte && pte[p].space == a
  }

  /** Address space a has the same entries in both. */
  ghost predicate SameIn(pte: map<int, Pte>, pte': map<int, Pte>, a: Space)
  {
    && (forall p :: Belongs(pte, p, a) <==> Belongs(pte', p, a))
    && (forall p :: Belongs(pte, p, a) && p in pte' ==> pte'[p] == pte[p])
  }

  /** The entries of a chain that stay, and those that go, in order. Both are defined in
      two steps so that proofs unfold them only where they say so. */
  function Kept(pte: map<int, Pte>, list: seq<int>, a: Space): seq<int>
    decreases |list|, 1
  {
    Kept1(pte, list, a)
  }

  function Kept1(pte: map<int, Pte>, list: seq<int>, a: Space): seq<int>
    decreases |list|, 0
  {
    if list == [] then [] else
      var n := |list| - 1;
      Kept(pte, list[..n], a) + if Belongs(pte, list[n], a) then [] else [list[n]]
  }

  function Gone(pte: map<int, Pte>, list: seq<int>, a: Space): seq<int>
    decreases |list|, 1
  {
    Gone1(pte, list, a)
  }

  function Gone1(pte: map<int, Pte>, list: seq<int>, a: Space): seq<int>
    decreases |list|, 0
  {
    if list == [] then [] else
      var n := |list| - 1;
      Gone(pte, list[..n], a) + if Belongs(pte, list[n], a) then [list[n]] else []
  }

  lemma {:induction false} KeptDef(pte: map<int, Pte>, list: seq<int>, a: Space)
    ensures list == [] ==> Kept(pte, list, a) == [] && Gone(pte, list, a) == []
    ensures list != [] ==>
              var n := |list| - 1;
              && Kept(pte, list, a) == Kept(pte, list[..n], a) + (if Belongs(pte, list[n], a) then [] else [list[n]])
              && Gone(pte, list, a) == Gone(pte, list[..n], a) + (if Belongs(pte, list[n], a) then [list[n]] else [])
  {
    assert Kept(pte, list, a) == Kept1(pte, list, a) && Gone(pte, list, a) == Gone1(pte, list, a);
  }

  lemma SnocCount(l: seq<int>, x: int, p: int)
    ensures multiset(l + [x])[p] == multiset(l)[p] + if x == p then 1 else 0
  {}

  lemma KeptSnoc(pte: map<int, Pte>, l: seq<int>, x: int, a: Space)
    ensures Kept(pte, l + [x], a) == Kept(pte, l, a) + if Belongs(pte, x, a) then [] else [x]
    ensures Gone(pte, l + [x], a) == Gone(pte, l, a) + if Belongs(pte, x, a) then [x] else []
  {
    KeptDef(pte, l + [x], a);
    assert (l + [x])[..|l|] == l;
  }

  ghost predicate Counted(pte: map<int, Pte>, list: seq<int>, a: Space, p: int)
  {
    && multiset(Kept(pte, list, a))[p] == (if Belongs(pte, p, a) then 0 else multiset(list)[p])
    && multiset(Gone(pte, list, a))[p] == (if Belongs(pte, p, a) then multiset(list)[p] else 0)
  }

  lemma CountedSnoc(pte: map<int, Pte>, l: seq<int>, x: int, a: Space, p: int)
    requires Counted(pte, l, a, p)
    ensures Counted(pte, l + [x], a, p)
  {
    KeptSnoc(pte, l, x, a);
    SnocCount(l, x, p);
    SnocCount(Kept(pte, l, a), x, p);
    SnocCount(Gone(pte, l, a), x, p);
  }

  /** What stays and what goes is the whole chain, and depends on the space alone. */
  lemma {:induction false} KeptCounts(pte: map<int, Pte>, list: seq<int>, a: Space, p: int)
    ensures Counted(pte, list, a, p)
    decreases |list|
  {
    if list == [] {
      KeptDef(pte, list, a);
    } else {
      var n := |list| - 1;
      KeptCounts(pte, list[..n], a, p);
      CountedSnoc(pte, list[..n], list[n], a, p);
      assert list == list[..n] + [list[n]];
    }
  }

  lemma KeptDistinct(pte: map<int, Pte>, list: seq<int>, k: nat, a: Space)
    requires Distinct(list) && k <= |list|
    ensures Distinct(Kept(pte, list[..k], a) + list[k..])
  {
    forall x ensures multiset(Kept(pte, list[..k], a) + list[k..])[x] <= 1 {
      KeptCounts(pte, list[..k], a, x);
      assert list == list[..k] + list[k..];
      assert multiset(list)[x] <= 1;
    }
  }

  /** One step of the walk over a chain: the entry at the front of the rest stays ... */
  lemma KeepOne(pte: map<int, Pte>, list: seq<int>, k: nat, a: Space)
    requires k < |list|
    ensures var kept := Kept(pte, list[..k], a);
            && Kept(pte, list[..k + 1], a) == kept + (if Belongs(pte, list[k], a) then [] else [list[k]])
            && Gone(pte, list[..k + 1], a) ==
               Gone(pte, list[..k], a) + (if Belongs(pte, list[k], a) then [list[k]] else [])
            && list[k..] != [] && list[k..][0] == list[k]
            && list[k..][1..] == list[k + 1..] && Nth(list[k..], 1) == Nth(list, k + 1)
  {
    KeptDef(pte, list[..k + 1], a);
    assert list[..k + 1][..k] == list[..k];
  }

  /** ... or goes, by moving the pointer before it. */
  lemma DropOne(next: map<int, int>, head: int, kept: seq<int>, rest: seq<int>)
    requires IsChain(next, head, kept + rest) && Distinct(kept + rest) && rest != []
    ensures rest[0] in next && next[rest[0]] == Nth(rest, 1) && rest[0] != 0
    ensures kept == [] ==> head == rest[0] && IsChain(next, next[rest[0]], rest[1..])
    ensures kept != [] ==> kept[|kept| - 1] in next
    ensures kept != [] ==> head != rest[0] && IsChain(next[kept[|kept| - 1] := next[rest[0]]], head, kept + rest[1..])
  {
    var list, k := kept + rest, |kept|;
    assert Linked(next, list, k);
    assert Nth(list, k + 1) == Nth(rest, 1);
    if kept == [] {
      assert list == rest;
      Pop(next, head, list);
    } else {
      Skip(next, head, list, k);
      assert Linked(next, list, k - 1);
      assert Without(list, k) == kept + rest[1..];
      DistinctAt(list, 0, k);
    }
  }

  lemma KeptIn(pte: map<int, Pte>, list: seq<int>, k: nat, a: Space, p: int)
    requires k <= |list| && p in Kept(pte, list[..k], a)
    ensures p in list
  {
    KeptCounts(pte, list[..k], a, p);
    assert multiset(Kept(pte, list[..k], a))[p] > 0;
    assert p in list[..k] <==> multiset(list[..k])[p] > 0;
  }

  /** A turn of the inner loop of vm_destroy: prev is the last entry kept so far, cur the
      first not yet looked at. */
  method SweepOne(next: map<int, int>, pte: map<int, Pte>, head: int, prev: int, cur: int, a: Space,
          ghost kept: seq<int>, ghost rest: seq<int>)
    returns (next': map<int, int>, head': int, prev': int, cur': int, ghost kept': seq<int>)
    requires IsChain(next, head, kept + rest) && Distinct(kept + rest) && rest != [] && cur == rest[0] && cur in pte
    requires kept != [] ==> prev == kept[|kept| - 1]
    ensures kept' == kept + if Belongs(pte, cur, a) then [] else [cur]
    ensures IsChain(next', head', kept' + rest[1..]) && cur' == Nth(rest, 1)
    ensures kept' != [] ==> prev' == kept'[|kept'| - 1]
    ensures next'.Keys == next.Keys && forall x :: x in next && x !in kept ==> next'[x] == next[x]
  {
    next', head', kept' := next, head, kept;
    DropOne(next, head, kept, rest);
    cur' := next[cur];
    if pte[cur].space == a {
      if head == cur {
        head', prev' := cur', cur';
        assert kept + rest[1..] == rest[1..];
      } else {
        prev' := prev;
        next' := next[prev := cur'];
      }
    } else {
      prev', kept' := cur, kept + [cur];
      assert kept' + rest[1..] == kept + rest;
    }
  }

  /** The frames of these entries, in order, in two steps like Kept. */
  function Frames(pte: map<int, Pte>, list: seq<int>): seq<nat>
    decreases |list|, 1
  {
    Frames1(pte, list)
  }

  function Frames1(pte: map<int, Pte>, list: seq<int>): seq<nat>
    decreases |list|, 0
  {
    if list == [] then [] else
      var n := |list| - 1;
      Frames(pte, list[..n]) + if list[n] in pte then [pte[list[n]].frame] else []
  }

  lemma {:induction false} FramesSnoc(pte: map<int, Pte>, list: seq<int>, p: int)
    ensures Frames(pte, []) == []
    ensures Frames(pte, list + [p]) == Frames(pte, list) + if p in pte then [pte[p].frame] else []
  {
    assert Frames(pte, []) == Frames1(pte, []);
    assert Frames(pte, list + [p]) == Frames1(pte, list + [p]);
    assert (list + [p])[..|list|] == list;
  }

  lemma {:induction false} FramesConcat(pte: map<int, Pte>, a: seq<int>, b: seq<int>)
    ensures Frames(pte, a + b) == Frames(pte, a) + Frames(pte, b)
    decreases |b|
  {
    if b == [] {
      FramesSnoc(pte, a, 0);
      assert a + b == a;
    } else {
      var n := |b| - 1;
      FramesConcat(pte, a, b[..n]);
      FramesSnoc(pte, a + b[..n], b[n]);
      FramesSnoc(pte, b[..n], b[n]);
      assert a + b == (a + b[..n]) + [b[n]] && b == b[..n] + [b[n]];
    }
  }

  /** The inner loop of vm_destroy. */
  method Sweep(next: map<int, int>, pte: map<int, Pte>, head: int, a: Space, ghost list: seq<int>)
    returns (next': map<int, int>, head': int, gone: seq<int>, frames: seq<nat>)
    requires IsChain(next, head, list) && Distinct(list) && forall p :: p in list ==> p in pte
    ensures IsChain(next', head', Kept(pte, list, a)) && gone == Gone(pte, list, a) && frames == Frames(pte, gone)
    ensures next'.Keys == next.Keys && forall x :: x in next && x !in list ==> next'[x] == next[x]
  {
    next', head', gone, frames := next, head, [], [];
    var prev, cur := head, head;
    ghost var k := 0;
    ghost var kept: seq<int> := [];
    ghost var rest := list;
    assert kept + rest == list;
    KeptDef(pte, [], a);
    FramesSnoc(pte, [], 0);
    while cur != 0
      invariant k <= |list| && rest == list[k..] && cur == Nth(list, k)
      invariant kept == Kept(pte, list[..k], a) && gone == Gone(pte, list[..k], a)
      invariant IsChain(next', head', kept + rest) && frames == Frames(pte, gone)
      invariant kept != [] ==> prev == kept[|kept| - 1]
      invariant next'.Keys == next.Keys && forall x :: x in next && x !in list ==> next'[x] == next[x]
      decreases |list| - k
    {
      KeptDistinct(pte, list, k, a);
      KeepOne(pte, list, k, a);
      forall x | x in kept ensures x in list {
        KeptIn(pte, list, k, a, x);
      }
      FramesSnoc(pte, gone, cur);
      if pte[cur].space == a { gone, frames := gone + [cur], frames + [pte[cur].frame]; }
      next', head', prev, cur, kept := SweepOne(next', pte, head', prev, cur, a, kept, rest);
      k, rest := k + 1, rest[1..];
    }
    EndsInNull(next, head, list, k);
    assert list[..k] == list && kept + rest == kept;
  }

  /** The chain of bucket c when the first i buckets have been swept. */
  ghost function ChainOf(t: Table, a: Space, i: nat, c: nat): seq<int>
    requires c < |t.lists|
  {
    if c < i then Kept(t.pte, t.lists[c], a) else t.lists[c]
  }

  ghost predicate Swept(t: Table, a: Space, i: nat, next: map<int, int>, heads: seq<int>)
  {
    && |heads| == |t.heads| == |t.lists|
    && forall c {:trigger heads[c]} :: 0 <= c < |heads| ==> IsChain(next, heads[c], ChainOf(t, a, i, c))
  }

  ghost predicate DeadOk(h: Hash, t: Table, a: Space, i: nat, dead: seq<int>)
  {
    forall p {:trigger multiset(dead)[p]} :: multiset(dead)[p] ==
      if Belongs(t.pte, p, a) && h(t.pte[p].space, t.pte[p].page) < i then 1 else 0
  }

  lemma ChainIn(h: Hash, t: Table, a: Space, i: nat, c: nat, p: int)
    requires Inv(h, t) && c < |t.heads| && p in ChainOf(t, a, i, c)
    ensures p in t.pte && h(t.pte[p].space, t.pte[p].page) == c
  {
    var list := t.lists[c];
    if c < i {
      assert list[..|list|] == list;
      KeptIn(t.pte, list, |list|, a, p);
    }
    InBucket(h, t, c, p);
  }

  lemma SweptOne(h: Hash, t: Table, a: Space, i: nat, next: map<int, int>, heads: seq<int>, next': map<int, int>,
                 head': int)
    requires Inv(h, t) && Swept(t, a, i, next, heads) && i < |heads|
    requires IsChain(next', head', Kept(t.pte, t.lists[i], a))
    requires next'.Keys == next.Keys && forall x :: x in next && x !in t.lists[i] ==> next'[x] == next[x]
    ensures Swept(t, a, i + 1, next', heads[i := head'])
  {
    var heads' := heads[i := head'];
    forall c | 0 <= c < |heads'| ensures IsChain(next', heads'[c], ChainOf(t, a, i + 1, c)) {
      if c != i {
        var list := ChainOf(t, a, i, c);
        assert heads[c] == heads'[c];
        forall x | x in list && x in next ensures x in next' && next'[x] == next[x] {
          ChainIn(h, t, a, i, c, x);
          InBucket(h, t, i, x);
        }
        Frame(next, next', heads[c], list);
      }
    }
  }

  lemma DeadOne(h: Hash, t: Table, a: Space, i: nat, dead: seq<int>)
    requires Inv(h, t) && i < |t.heads| && DeadOk(h, t, a, i, dead)
    ensures DeadOk(h, t, a, i + 1, dead + Gone(t.pte, t.lists[i], a))
  {
    var gone := Gone(t.pte, t.lists[i], a);
    forall p
      ensures multiset(dead + gone)[p] ==
              if Belongs(t.pte, p, a) && h(t.pte[p].space, t.pte[p].page) < i + 1 then 1 else 0
    {
      assert multiset(dead + gone)[p] == multiset(dead)[p] + multiset(gone)[p];
      KeptCounts(t.pte, t.lists[i], a, p);
      assert BucketOk(h, t.next, t.pte, t.heads[i], t.lists[i], i);
    }
  }

  /** vm_destroy: exactly the entries of one address space go, each once, and every chain
      keeps the others in their order. `dead` are the entries freed, in order, and `frames`
      the frames freed with them. */
  method Destroy(h: Hash, t: Table, a: Space) returns (t': Table, dead: seq<int>, frames: seq<nat>)
    requires Inv(h, t)
    ensures Inv(h, t') && |t'.heads| == |t.heads|
    ensures t'.pte == map p | p in t.pte && t.pte[p].space != a :: t.pte[p]
    ensures |t'.lists| == |t.lists| && forall b :: 0 <= b < |t.lists| ==> t'.lists[b] == Kept(t.pte, t.lists[b], a)
    ensures (forall p :: multiset(dead)[p] == if Belongs(t.pte, p, a) then 1 else 0) && frames == Frames(t.pte, dead)
    ensures forall i, j :: 0 <= i < j < |frames| ==> FrameIndex(frames[i]) != FrameIndex(frames[j])
    ensures forall i :: 0 <= i < |frames| ==> Unused(t'.pte, frames[i])
  {
    var next, heads := t.next, t.heads;
    dead, frames := [], [];
    FramesSnoc(t.pte, [], 0);
    var i := 0;
    forall c | 0 <= c < |heads| ensures IsChain(next, heads[c], ChainOf(t, a, 0, c)) {
      InBucket(h, t, c, 0);
    }
    while i < |t.heads|
      invariant i <= |t.heads| && Swept(t, a, i, next, heads)
      invariant DeadOk(h, t, a, i, dead) && frames == Frames(t.pte, dead)
      invariant forall c :: i <= c < |heads| ==> heads[c] == t.heads[c]
    {
      assert IsChain(next, heads[i], ChainOf(t, a, i, i));
      forall p | p in t.lists[i] ensures p in t.pte {
        InBucket(h, t, i, p);
      }
      InBucket(h, t, i, 0);
      var next', head', gone, fs := Sweep(next, t.pte, heads[i], a, t.lists[i]);
      SweptOne(h, t, a, i, next, heads, next', head');
      DeadOne(h, t, a, i, dead);
      FramesConcat(t.pte, dead, gone);
      next, heads, dead, frames := next', heads[i := head'], dead + gone, frames + fs;
      i := i + 1;
    }
    ghost var lists' := seq(|t.lists|, c requires 0 <= c < |t.lists| => Kept(t.pte, t.lists[c], a));
    t' := Table(heads, next, map p | p in t.pte && t.pte[p].space != a :: t.pte[p], lists');
    DestroyKeeps(h, t, a, t');
    AllDead(h, t, a, i, dead);
    FreedOnce(h, t, a, t', dead);
  }

  lemma {:induction false} FramesAt(pte: map<int, Pte>, list: seq<int>, i: nat)
    requires i < |list| && forall j :: 0 <= j < |list| ==> list[j] in pte
    ensures |Frames(pte, list)| == |list| && Frames(pte, list)[i] == pte[list[i]].frame
    decreases |list|
  {
    var n := |list| - 1;
    FramesSnoc(pte, list[..n], list[n]);
    assert list == list[..n] + [list[n]];
    if n > 0 { FramesAt(pte, list[..n], if i < n then i else 0); }
  }

  /** No frame is freed twice, and none that is still in use. */
  lemma FreedOnce(h: Hash, t: Table, a: Space, t': Table, dead: seq<int>)
    requires Inv(h, t) && t'.pte == map p | p in t.pte && t.pte[p].space != a :: t.pte[p]
    requires forall p :: multiset(dead)[p] == if Belongs(t.pte, p, a) then 1 else 0
    ensures var frames := Frames(t.pte, dead);
            && (forall i, j :: 0 <= i < j < |frames| ==> FrameIndex(frames[i]) != FrameIndex(frames[j]))
            && (forall i :: 0 <= i < |frames| ==> Unused(t'.pte, frames[i]))
  {
    var frames := Frames(t.pte, dead);
    forall i | 0 <= i < |dead| ensures Belongs(t.pte, dead[i], a) {
      assert dead[i] in dead && multiset(dead)[dead[i]] > 0;
    }
    if dead == [] { FramesSnoc(t.pte, [], 0); } else { FramesAt(t.pte, dead, 0); }
    forall i, j | 0 <= i < j < |frames| ensures FrameIndex(frames[i]) != FrameIndex(frames[j]) {
      FramesAt(t.pte, dead, i);
      FramesAt(t.pte, dead, j);
      DistinctAt(dead, i, j);
      assert !SameFrame(t.pte, dead[i], dead[j]);
    }
    forall i | 0 <= i < |frames| ensures Unused(t'.pte, frames[i]) {
      FramesAt(t.pte, dead, i);
      forall p | p in t'.pte ensures FrameIndex(t'.pte[p].frame) != FrameIndex(frames[i]) {
        assert Belongs(t.pte, dead[i], a) && !SameFrame(t.pte, p, dead[i]);
      }
    }
  }

  lemma AllDead(h: Hash, t: Table, a: Space, i: nat, dead: seq<int>)
    requires Inv(h, t) && i == |t.heads| && DeadOk(h, t, a, i, dead)
    ensures forall p :: multiset(dead)[p] == if Belongs(t.pte, p, a) then 1 else 0
  {
    forall p ensures multiset(dead)[p] == if Belongs(t.pte, p, a) then 1 else 0 {
      if p in t.pte { assert h(t.pte[p].space, t.pte[p].page) < |t.heads|; }
    }
  }

  lemma DestroyKeeps(h: Hash, t: Table, a: Space, t': Table)
    requires Inv(h, t) && Swept(t, a, |t.heads|, t'.next, t'.heads)
    requires t'.pte == map p | p in t.pte && t.pte[p].space != a :: t.pte[p]
    requires |t'.lists| == |t.lists| && forall b :: 0 <= b < |t.lists| ==> t'.lists[b] == Kept(t.pte, t.lists[b], a)
    ensures Inv(h, t')
  {
    forall b | 0 <= b < |t'.heads| ensures BucketOk(h, t'.next, t'.pte, t'.heads[b], t'.lists[b], b) {
      assert IsChain(t'.next, t'.heads[b], ChainOf(t, a, |t.heads|, b));
      forall p
        ensures multiset(t'.lists[b])[p] == if p in t'.pte && h(t'.pte[p].space, t'.pte[p].page) == b then 1 else 0
      {
        KeptCounts(t.pte, t.lists[b], a, p);
        assert BucketOk(h, t.next, t.pte, t.heads[b], t.lists[b], b);
      }
    }
    forall p, q | p in t'.pte && q in t'.pte && SameKey(t'.pte, p, q) ensures p == q {
      assert SameKey(t.pte, p, q);
    }
    forall p, q | p in t'.pte && q in t'.pte && SameFrame(t'.pte, p, q) ensures p == q {
      assert SameFrame(t.pte, p, q);
    }
  }

  // ----- Copying an address space

  /** Bucket b is headed by a page of address space a: the only entry of the bucket that
      vm_copy looks at. */
  predicate Headed(t: Table, a: Space, b: nat)
  {
    b < |t.heads| && t.heads[b] != 0 && t.heads[b] in t.pte && t.pte[t.heads[b]].space == a
  }

  /** Some bucket before n is headed by page v of address space a. */
  ghost predicate Heads(t: Table, a: Space, v: Page, n: nat)
  {
    exists b: nat :: b < n && Headed(t, a, b) && t.pte[t.heads[b]].page == v
  }

  /** The memory a copy gets: an entry (0 if there is none) and a frame for each bucket. */
  datatype Supply = Supply(entries: seq<int>, frames: seq<nat>)

  /** An entry and a frame that kmalloc and alloc_kpages may give for bucket b. */
  ghost predicate Fresh(t: Table, m: Supply, b: nat)
    requires b < |m.entries| == |m.frames|
  {
    && (m.entries[b] != 0 ==> m.entries[b] !in t.pte)
    && m.frames[b] % FRAME_SIZE == 0 && Unused(t.pte, m.frames[b])
  }

  /** Different buckets get different ones. */
  ghost predicate Apart(m: Supply, b: nat, c: nat)
    requires b < |m.entries| == |m.frames| && c < |m.entries|
  {
    && (m.entries[b] != 0 ==> m.entries[b] != m.entries[c])
    && FrameIndex(m.frames[b]) != FrameIndex(m.frames[c])
  }

  /** What is given for the buckets where something is needed is new each time. */
  ghost predicate SupplyOk(t: Table, from: Space, m: Supply)
  {
    && |m.entries| == |m.frames| == |t.heads|
    && (forall b: nat :: Headed(t, from, b) ==> Fresh(t, m, b))
    && (forall b: nat, c: nat :: Headed(t, from, b) && Headed(t, from, c) && b != c ==> Apart(m, b, c))
  }

  /** The copy of an entry: same page and same flags, new space and new frame. */
  function CopyOf(e: Pte, a: Space, frame: nat): Pte
  {
    Pte(a, e.page, frame + e.frame % FRAME_SIZE)
  }

  /** The entries after the first i buckets have been copied. */
  ghost function PteAfter(t: Table, from: Space, to: Space, m: Supply, i: nat): map<int, Pte>
    requires i <= |t.heads| == |m.entries| == |m.frames|
  {
    if i == 0 then t.pte else
      var before := PteAfter(t, from, to, m, i - 1);
      if Headed(t, from, i - 1) then before[m.entries[i - 1] := CopyOf(t.pte[t.heads[i - 1]], to, m.frames[i - 1])]
      else before
  }

  /** There is an entry for each bucket before n that needs one. */
  ghost predicate Supplied(t: Table, from: Space, m: Supply, n: nat)
    requires n <= |t.heads| == |m.entries|
  {
    forall b :: 0 <= b < n && Headed(t, from, b) ==> m.entries[b] != 0
  }

  /** Entry p is the copy of the head of a bucket before i. */
  ghost predicate CopiedAs(t: Table, from: Space, m: Supply, i: nat, b: nat, p: int)
    requires |t.heads| == |m.entries|
  {
    b < i && Headed(t, from, b) && p == m.entries[b]
  }

  lemma CopiedMore(t: Table, from: Space, m: Supply, i: nat, p: int)
    requires 0 < i <= |t.heads| == |m.entries|
    ensures forall b: nat :: CopiedAs(t, from, m, i, b, p) <==>
              CopiedAs(t, from, m, i - 1, b, p) || (b == i - 1 && Headed(t, from, b) && p == m.entries[b])
  {}

  lemma {:induction false} AfterHas(t: Table, from: Space, to: Space, m: Supply, i: nat, p: int)
    requires SupplyOk(t, from, m) && i <= |t.heads| && Supplied(t, from, m, i)
    ensures var after := PteAfter(t, from, to, m, i);
            && (p in after <==> p in t.pte || exists b: nat :: CopiedAs(t, from, m, i, b, p))
            && (p in t.pte && p in after ==> after[p] == t.pte[p])
            && (forall b: nat :: CopiedAs(t, from, m, i, b, p) ==>
               p in after && after[p] == CopyOf(t.pte[t.heads[b]], to, m.frames[b]))
    decreases i
  {
    if i > 0 {
      AfterHas(t, from, to, m, i - 1, p);
      CopiedMore(t, from, m, i, p);
    }
  }

  /** No two buckets are headed by the same page. */
  lemma HeadsDiffer(h: Hash, t: Table, a: Space, b: nat, c: nat)
    requires Inv(h, t) && Headed(t, a, b) && Headed(t, a, c) && b != c
    ensures t.pte[t.heads[b]].page != t.pte[t.heads[c]].page
  {
    HeadIn(h, t, b);
    HeadIn(h, t, c);
    InBucket(h, t, b, t.heads[b]);
    InBucket(h, t, c, t.heads[c]);
    assert t.heads[b] != t.heads[c];
    assert !SameKey(t.pte, t.heads[b], t.heads[c]);
  }

  lemma HeadIn(h: Hash, t: Table, b: nat)
    requires Inv(h, t) && b < |t.heads| && t.heads[b] != 0
    ensures t.heads[b] in t.lists[b] && t.heads[b] in t.pte && h(t.pte[t.heads[b]].space, t.pte[t.heads[b]].page) == b
  {
    InBucket(h, t, b, t.heads[b]);
    EndsInNull(t.next, t.heads[b], t.lists[b], 0);
  }

  /** How far a copy has come: the first i buckets are done, and a bucket that was not empty
      has the head it had. */
  ghost predicate CopyingAt(h: Hash, t: Table, u: Table, from: Space, to: Space, m: Supply, i: nat)
    requires SupplyOk(t, from, m) && i <= |t.heads|
  {
    && Inv(h, u) && |u.heads| == |t.heads| && u.pte == PteAfter(t, from, to, m, i)
    && Supplied(t, from, m, i)
    && (forall c :: 0 <= c < |t.heads| && t.heads[c] != 0 ==> u.heads[c] == t.heads[c])
    && (forall c :: 0 <= c < |t.heads| && t.heads[c] == 0 && u.heads[c] != 0 ==>
       u.heads[c] in u.pte && u.pte[u.heads[c]].space == to)
  }

  /** At bucket i, the copy sees the head the table had, if any, as it was. */
  lemma SeesHead(h: Hash, t: Table, u: Table, from: Space, to: Space, m: Supply, i: nat)
    requires Inv(h, t) && SupplyOk(t, from, m) && i < |t.heads| && CopyingAt(h, t, u, from, to, m, i) && from != to
    ensures Headed(u, from, i) <==> Headed(t, from, i)
    ensures Headed(t, from, i) ==> u.heads[i] == t.heads[i] && u.pte[u.heads[i]] == t.pte[t.heads[i]]
    ensures u.heads[i] != 0 ==> u.heads[i] in u.pte
  {
    if u.heads[i] != 0 { HeadIn(h, u, i); }
    if t.heads[i] != 0 {
      HeadIn(h, t, i);
      AfterHas(t, from, to, m, i, t.heads[i]);
    }
  }

  lemma CopyFits(h: Hash, t: Table, u: Table, from: Space, to: Space, m: Supply, i: nat)
    requires Inv(h, t) && SupplyOk(t, from, m) && i < |t.heads| && CopyingAt(h, t, u, from, to, m, i) && from != to
    requires Headed(t, from, i) && m.entries[i] != 0
    requires (forall v :: h(to, v) < |t.heads|) && forall v :: !Mapped(t, to, v)
    ensures Insertable(h, u, m.entries[i], CopyOf(t.pte[t.heads[i]], to, m.frames[i]))
  {
    var p, v := m.entries[i], t.pte[t.heads[i]].page;
    AfterHas(t, from, to, m, i, p);
    forall q ensures !Maps(u, q, to, v) {
      AfterHas(t, from, to, m, i, q);
      if q in t.pte {
        assert !Mapped(t, to, v);
        assert Maps(t, q, to, v) ==> Mapped(t, to, v);
      } else if b: nat :| CopiedAs(t, from, m, i, b, q) {
        HeadsDiffer(h, t, from, b, i);
      }
    }
    CopyUnused(t, u, from, to, m, i);
  }

  /** The frame for bucket i is not one that the copy has used. */
  lemma CopyUnused(t: Table, u: Table, from: Space, to: Space, m: Supply, i: nat)
    requires SupplyOk(t, from, m) && i < |t.heads| && Headed(t, from, i) && u.pte == PteAfter(t, from, to, m, i)
    requires Supplied(t, from, m, i)
    ensures Unused(u.pte, CopyOf(t.pte[t.heads[i]], to, m.frames[i]).frame)
  {
    assert Fresh(t, m, i);
    forall q | q in u.pte ensures FrameIndex(u.pte[q].frame) != FrameIndex(m.frames[i]) {
      AfterHas(t, from, to, m, i, q);
      if q !in t.pte {
        var b: nat :| CopiedAs(t, from, m, i, b, q);
        assert Fresh(t, m, b) && Apart(m, b, i);
      }
    }
  }

  lemma CopiedOne(h: Hash, t: Table, u: Table, u': Table, from: Space, to: Space, m: Supply, i: nat)
    requires SupplyOk(t, from, m) && i < |t.heads| && CopyingAt(h, t, u, from, to, m, i)
    requires Headed(t, from, i) && m.entries[i] != 0
    requires var p, e := m.entries[i], CopyOf(t.pte[t.heads[i]], to, m.frames[i]);
             && Insertable(h, u, p, e) && Inv(h, u') && u'.pte == u.pte[p := e]
             && u'.heads == if u.heads[h(to, e.page)] == 0 then u.heads[h(to, e.page) := p] else u.heads
    ensures CopyingAt(h, t, u', from, to, m, i + 1)
  {}

  lemma PassedOne(h: Hash, t: Table, u: Table, from: Space, to: Space, m: Supply, i: nat)
    requires SupplyOk(t, from, m) && i < |t.heads| && CopyingAt(h, t, u, from, to, m, i) && !Headed(t, from, i)
    ensures CopyingAt(h, t, u, from, to, m, i + 1)
  {}

  /** vm_copy. What it copies is exactly the pages that head their bucket, up to the first
      bucket n for which there is no entry to be had. */
  method Copy(h: Hash, t: Table, from: Space, to: Space, m: Supply) returns (u: Table, ok: bool, ghost n: nat)
    requires Inv(h, t) && SupplyOk(t, from, m) && from != to
    requires (forall v :: h(to, v) < |t.heads|) && forall v :: !Mapped(t, to, v)
    ensures Inv(h, u) && |u.heads| == |t.heads|
    ensures ok <==> forall b: nat :: Headed(t, from, b) ==> m.entries[b] != 0
    ensures ok ==> n == |t.heads|
    ensures !ok ==> n < |t.heads| && Headed(t, from, n) && m.entries[n] == 0
    ensures Supplied(t, from, m, n) && u.pte == PteAfter(t, from, to, m, n)
    ensures forall a :: a != to ==> SameIn(t.pte, u.pte, a)
  {
    u, ok, n := t, true, |t.heads|;
    var i := 0;
    while i < |t.heads|
      invariant i <= |t.heads| && CopyingAt(h, t, u, from, to, m, i) && ok
    {
      SeesHead(h, t, u, from, to, m, i);
      var cur := u.heads[i];
      if cur != 0 && u.pte[cur].space == from {
        if m.entries[i] == 0 {
          OthersKept(t, from, to, m, i);
          return u, false, i;
        }
        CopyFits(h, t, u, from, to, m, i);
        ghost var u0 := u;
        u := Insert(h, u, m.entries[i], CopyOf(u.pte[cur], to, m.frames[i]));
        CopiedOne(h, t, u0, u, from, to, m, i);
      } else {
        PassedOne(h, t, u, from, to, m, i);
      }
      i := i + 1;
    }
    OthersKept(t, from, to, m, i);
  }

  /** No other space sees a copy, however far it came. */
  lemma OthersKept(t: Table, from: Space, to: Space, m: Supply, n: nat)
    requires SupplyOk(t, from, m) && n <= |t.heads| && Supplied(t, from, m, n)
    ensures forall a :: a != to ==> SameIn(t.pte, PteAfter(t, from, to, m, n), a)
  {
    var after := PteAfter(t, from, to, m, n);
    forall a | a != to ensures SameIn(t.pte, after, a) {
      forall p ensures Belongs(t.pte, p, a) <==> Belongs(after, p, a) {
        AfterHas(t, from, to, m, n, p);
      }
      forall p | Belongs(t.pte, p, a) ensures after[p] == t.pte[p] {
        AfterHas(t, from, to, m, n, p);
      }
    }
  }

  /** After a copy that came as far as bucket n, a page of the new space is there exactly
      when the old space's page heads a bucket before n. */
  lemma CopyMaps(h: Hash, t: Table, u: Table, from: Space, to: Space, m: Supply, n: nat, v: Page)
    requires Inv(h, t) && SupplyOk(t, from, m) && from != to && !Mapped(t, to, v)
    requires n <= |t.heads| && Supplied(t, from, m, n) && u.pte == PteAfter(t, from, to, m, n)
    ensures Mapped(u, to, v) <==> Heads(t, from, v, n)
    ensures forall p, a :: a != to ==> (Maps(u, p, a, v) <==> Maps(t, p, a, v))
  {
    if p :| Maps(u, p, to, v) {
      AfterHas(t, from, to, m, n, p);
      assert !Maps(t, p, to, v);
      var b: nat :| CopiedAs(t, from, m, n, b, p);
      assert Heads(t, from, v, n);
    }
    if b: nat :| b < n && Headed(t, from, b) && t.pte[t.heads[b]].page == v {
      AfterHas(t, from, to, m, n, m.entries[b]);
      assert CopiedAs(t, from, m, n, b, m.entries[b]);
      assert Maps(u, m.entries[b], to, v);
    }
    forall p, a | a != to ensures Maps(u, p, a, v) <==> Maps(t, p, a, v) {
      AfterHas(t, from, to, m, n, p);
    }
  }

  /** A copy has every page of the old space exactly when each of them heads its bucket. */
  lemma CopyComplete(h: Hash, t: Table, u: Table, from: Space, to: Space, m: Supply)
    requires Inv(h, t) && SupplyOk(t, from, m) && from != to && forall v :: !Mapped(t, to, v)
    requires Supplied(t, from, m, |t.heads|) && u.pte == PteAfter(t, from, to, m, |t.heads|)
    ensures (forall v :: Mapped(t, from, v) ==> Mapped(u, to, v)) <==>
            (forall v :: Mapped(t, from, v) ==> Heads(t, from, v, |t.heads|))
  {
    forall v ensures Mapped(u, to, v) <==> Heads(t, from, v, |t.heads|) {
      CopyMaps(h, t, u, from, to, m, |t.heads|, v);
    }
  }

  /** init_page_table: every bucket is empty. */
  method EmptyTable(h: Hash, n: nat) returns (t: Table)
    ensures Inv(h, t) && |t.heads| == n && t.pte == map[] && forall b :: 0 <= b < n ==> t.heads[b] == 0
  {
    t := Table(seq(n, i => 0), map[], map[], seq(n, i => []));
    forall b | 0 <= b < n ensures BucketOk(h, t.next, t.pte, t.heads[b], t.lists[b], b) {}
  }

  lemma SameBucket()
    ensures HptHash(2048, 0x8000_1000, 0x40_0000) == 1024
    ensures HptHash(2048, 0x8000_1000, 0xc0_0000) == 1024
  {
    var x: bv32 := 0x8000_1000 ^ (0x40_0000 >> 12);
    assert x == 0x8000_1400;
    var y: bv32 := 0x8000_1000 ^ (0xc0_0000 >> 12);
    assert y == 0x8000_1c00;
  }

  /** A table of 2048 buckets into which two pages have been entered, 2048 pages apart. */
  method TwoPages() returns (t: Table)
    ensures Inv((a, v) => HptHash(2048, a, v), t) && |t.heads| == 2048 && t.heads[1024] == 8
    ensures t.pte == map[8 := Pte(0x8000_1000, 0x40_0000, 4096), 24 := Pte(0x8000_1000, 0xc0_0000, 8192)]
  {
    var h: Hash := (a, v) => HptHash(2048, a, v);
    SameBucket();
    t := EmptyTable(h, 2048);
    t := Insert(h, t, 8, Pte(0x8000_1000, 0x40_0000, 4096));
    t := Insert(h, t, 24, Pte(0x8000_1000, 0xc0_0000, 8192));
  }

  lemma OneHead(t: Table, b: nat)
    requires Inv((a, v) => HptHash(2048, a, v), t) && |t.heads| == 2048 && t.heads[1024] == 8
    requires t.pte == map[8 := Pte(0x8000_1000, 0x40_0000, 4096), 24 := Pte(0x8000_1000, 0xc0_0000, 8192)]
    ensures Headed(t, 0x8000_1000, b) <==> b == 1024
  {
    SameBucket();
    if b < 2048 && t.heads[b] != 0 { HeadIn((a, v) => HptHash(2048, a, v), t, b); }
  }

  /** A copy need not have every page: it reports success, and the second page is missing. */
  method CopyMisses() returns (t: Table, u: Table, ok: bool)
    ensures Inv((a, v) => HptHash(2048, a, v), t)
    ensures Mapped(t, 0x8000_1000, 0x40_0000) && Mapped(t, 0x8000_1000, 0xc0_0000)
    ensures ok && Mapped(u, 0x8000_2000, 0x40_0000) && !Mapped(u, 0x8000_2000, 0xc0_0000)
  {
    var h: Hash := (a, v) => HptHash(2048, a, v);
    t := TwoPages();
    forall b: nat ensures Headed(t, 0x8000_1000, b) <==> b == 1024 {
      OneHead(t, b);
    }
    assert Maps(t, 8, 0x8000_1000, 0x40_0000) && Maps(t, 24, 0x8000_1000, 0xc0_0000);
    var m := Supply(seq(2048, i => 40), seq(2048, i => 12288));
    ghost var n;
    u, ok, n := Copy(h, t, 0x8000_1000, 0x8000_2000, m);
    CopyMaps(h, t, u, 0x8000_1000, 0x8000_2000, m, n, 0x40_0000);
    CopyMaps(h, t, u, 0x8000_1000, 0x8000_2000, m, n, 0xc0_0000);
  }

  // ----- Page faults

  datatype FaultKind = ReadOnlyFault | ReadFault | WriteFault | OtherFault
  datatype Access = NoRegion | CanRead | CanWrite
  datatype FaultResult = EFAULT | EINVAL | ENOMEM | Loaded(frame: nat)

  const TLB_VALID := 0x200
  const TLB_DIRTY := 0x400

  /** What may happen to the table while a thread of address space a has it unlocked and
      holds a new entry p and a new frame. */
  ghost predicate Meanwhile(h: Hash, t: Table, t': Table, a: Space, p: int, frame: nat)
  {
    && Inv(h, t') && |t'.heads| == |t.heads| && SameIn(t.pte, t'.pte, a)
    && p !in t'.pte && Unused(t'.pte, frame)
  }

  /** Another space's page is entered ... */
  lemma MeanwhileInsert(h: Hash, t: Table, t': Table, a: Space, p: int, frame: nat, q: int, e: Pte)
    requires p !in t.pte && Unused(t.pte, frame) && e.space != a && Insertable(h, t, q, e)
    requires Inv(h, t') && |t'.heads| == |t.heads| && t'.pte == t.pte[q := e]
    requires q != p && FrameIndex(e.frame) != FrameIndex(frame)
    ensures Meanwhile(h, t, t', a, p, frame)
  {}

  /** ... or another space goes ... */
  lemma MeanwhileDestroy(h: Hash, t: Table, t': Table, a: Space, p: int, frame: nat, c: Space)
    requires p !in t.pte && Unused(t.pte, frame) && c != a
    requires Inv(h, t') && |t'.heads| == |t.heads| && t'.pte == map q | q in t.pte && t.pte[q].space != c :: t.pte[q]
    ensures Meanwhile(h, t, t', a, p, frame)
  {}

  /** ... or one is copied to another, as far as that went ... */
  lemma MeanwhileCopy(h: Hash, t: Table, t': Table, a: Space, p: int, frame: nat, from: Space, to: Space, m: Supply,
                      n: nat)
    requires p !in t.pte && Unused(t.pte, frame) && to != a && SupplyOk(t, from, m)
    requires n <= |t.heads| && Supplied(t, from, m, n)
    requires Inv(h, t') && |t'.heads| == |t.heads| && t'.pte == PteAfter(t, from, to, m, n)
    requires forall b: nat :: Headed(t, from, b) ==> m.entries[b] != p && FrameIndex(m.frames[b]) != FrameIndex(frame)
    ensures Meanwhile(h, t, t', a, p, frame)
  {
    OthersKept(t, from, to, m, n);
    AfterHas(t, from, to, m, n, p);
    forall q | q in t'.pte ensures FrameIndex(t'.pte[q].frame) != FrameIndex(frame) {
      AfterHas(t, from, to, m, n, q);
      if q !in t.pte {
        var b: nat :| CopiedAs(t, from, m, n, b, q);
        assert Fresh(t, m, b);
      }
    }
  }

  /** ... and so on, any number of times. */
  lemma MeanwhileTwice(h: Hash, t: Table, t': Table, t'': Table, a: Space, p: int, frame: nat)
    requires Meanwhile(h, t, t', a, p, frame) && Meanwhile(h, t', t'', a, p, frame)
    ensures Meanwhile(h, t, t'', a, p, frame)
  {
    forall q | Belongs(t.pte, q, a) && q in t''.pte ensures t''.pte[q] == t.pte[q] {
      assert Belongs(t'.pte, q, a);
    }
  }

  lemma SameMapped(h: Hash, t: Table, t': Table, a: Space, v: Page)
    requires SameIn(t.pte, t'.pte, a)
    ensures Mapped(t, a, v) <==> Mapped(t', a, v)
  {
    forall q ensures Maps(t, q, a, v) <==> Maps(t', q, a, v) {
      assert Belongs(t.pte, q, a) <==> Belongs(t'.pte, q, a);
    }
  }

  class Vm {
    var t: Table
    const h: Hash

    /** Other address spaces at work while the table is unlocked. What they may do is the
        contract; doing nothing is one instance of it. */
    method Others(a: Space, p: int, frame: nat)
      requires Inv(h, t) && p !in t.pte && Unused(t.pte, frame)
      modifies this
      ensures Meanwhile(h, old(t), t, a, p, frame)
    {
    }

    /** vm_fault, for the only thread of address space a. `frame` and `p` are what the frame
        allocator and kmalloc have to give, 0 for nothing. Whatever the other spaces do, the
        page is mapped once afterwards, by the frame it had or the one it got. `before` is
        the table as it is when it is locked for the new entry. */
    method Fault(kind: FaultKind, a: Space, v: Page, access: Access, frame: nat, p: int)
      returns (r: FaultResult, ghost before: Table)
      requires Inv(h, t) && h(a, v) < |t.heads| && p !in t.pte
      requires frame != 0 ==> frame % FRAME_SIZE == 0 && Unused(t.pte, frame)
      modifies this
      ensures Inv(h, t)
      ensures r.EINVAL? <==> kind == OtherFault
      ensures r.EFAULT? <==> kind == ReadOnlyFault || (kind != OtherFault && access.NoRegion? && !Mapped(old(t), a, v))
      ensures r.ENOMEM? <==> (kind == ReadFault || kind == WriteFault) && !Mapped(old(t), a, v)
                             && !access.NoRegion? && (frame == 0 || p == 0)
      ensures r.Loaded? ==>
              exists q :: Maps(t, q, a, v) && t.pte[q].frame == r.frame && forall x :: Maps(t, x, a, v) ==> x == q
      ensures !r.Loaded? || Mapped(old(t), a, v) ==> t == old(t)
      ensures r.Loaded? && !Mapped(old(t), a, v) ==>
                && Meanwhile(h, old(t), before, a, p, frame)
                && r.frame == frame + TLB_VALID + (if access.CanWrite? then TLB_DIRTY else 0)
                && t.pte == before.pte[p := Pte(a, v, r.frame)]
    {
      before := t;
      if kind == ReadOnlyFault { return EFAULT, before; }
      if kind == OtherFault { return EINVAL, before; }
      var q := Lookup(h, t, a, v);
      if q != 0 {
        assert Maps(t, q, a, v);
        return Loaded(t.pte[q].frame), before;
      }
      if access.NoRegion? { return EFAULT, before; }
      if frame == 0 || p == 0 { return ENOMEM, before; }
      Others(a, p, frame);
      before := t;
      SameMapped(h, old(t), t, a, v);
      var f := frame + TLB_VALID + if access.CanWrite? then TLB_DIRTY else 0;
      t := Insert(h, t, p, Pte(a, v, f));
      OnlyEntry(h, t, p, a, v);
      r := Loaded(f);
    }
  }

  lemma OnlyEntry(h: Hash, t: Table, p: int, a: Space, v: Page)
    requires Inv(h, t) && Maps(t, p, a, v)
    ensures forall x :: Maps(t, x, a, v) ==> x == p
  {
    forall x | Maps(t, x, a, v) ensures x == p {
      assert SameKey(t.pte, p, x);
    }
  }
}
