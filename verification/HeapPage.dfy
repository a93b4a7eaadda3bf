/** One page of the subpage allocator: equal blocks, a free list threaded through the free
    ones, and the pageref that describes it. */
module HeapPage {
  import opened Arith
  import opened Chains

  const PAGE_SIZE := 4096
  const INVALID_OFFSET := 0xffff
  const NUM_SIZES := 8

  function Size(b: nat): (s: nat)
    requires b < NUM_SIZES
    ensures 16 <= s <= 2048
  {
    if b == 0 then 16 else if b == 1 then 32 else if b == 2 then 64 else if b == 3 then 128
    else if b == 4 then 256 else if b == 5 then 512 else if b == 6 then 1024 else 2048
  }

  /** PAGE_SIZE / sizes[b] */
  function NumBlocks(b: nat): (n: nat)
    requires b < NUM_SIZES
    ensures n >= 2
  {
    if b == 0 then 256 else if b == 1 then 128 else if b == 2 then 64 else if b == 3 then 32
    else if b == 4 then 16 else if b == 5 then 8 else if b == 6 then 4 else 2
  }

  lemma SizesDivide(b: nat)
    requires b < NUM_SIZES
    ensures NumBlocks(b) * Size(b) == PAGE_SIZE && NumBlocks(b) == PAGE_SIZE / Size(b)
  {}

  /** The first n blocks of size s on a page, last first: the order in which a fresh page's
      free list is threaded. */
  function Ladder(page: int, s: nat, n: nat): seq<int>
    decreases n, 2
  {
    Ladder1(page, s, n)
  }

  function Ladder1(page: int, s: nat, n: nat): seq<int>
    decreases n, 1
  {
    Ladder2(page, s, n)
  }

  function Ladder2(page: int, s: nat, n: nat): seq<int>
    decreases n, 0
  {
    if n == 0 then [] else [page + Times(n - 1, s)] + Ladder(page, s, n - 1)
  }

  lemma {:induction false} LadderDef(page: int, s: nat, n: nat)
    ensures Ladder(page, s, n) == if n == 0 then [] else [page + Times(n - 1, s)] + Ladder(page, s, n - 1)
  {
    assert Ladder(page, s, n) == Ladder1(page, s, n);
    assert Ladder1(page, s, n) == Ladder2(page, s, n);
  }

  /** The addresses of the blocks of a page. */
  function Blocks(page: int, b: nat): set<int>
    requires b < NUM_SIZES
  {
    set x | x in Ladder(page, Size(b), NumBlocks(b))
  }

  /** A multiple of s between two neighbouring multiples is the lower one. */
  lemma NoneBetween(s: nat, k: nat, m: nat, d: int)
    requires m == Times(k, s) && m <= d < m + s
    ensures Rem(d, s) == 0 <==> d == m
  {
    QuotRemUnique(s, k, d - m);
  }

  lemma {:induction false} LadderLength(page: int, s: nat, n: nat)
    ensures |Ladder(page, s, n)| == n
    decreases n
  {
    LadderDef(page, s, n);
    if n > 0 { LadderLength(page, s, n - 1); }
  }

  /** A block address is on the ladder once, any other address not at all. */
  lemma {:induction false} LadderHas(page: int, s: nat, n: nat, x: int)
    requires s > 0
    ensures multiset(Ladder(page, s, n))[x] == if page <= x < page + Times(n, s) && Rem(x - page, s) == 0 then 1 else 0
    decreases n
  {
    TimesOne(s);
    LadderDef(page, s, n);
    if n > 0 {
      LadderHas(page, s, n - 1, x);
      LadderNext(page, s, n, n - 1, x);
    }
  }

  lemma LadderNext(page: int, s: nat, n: nat, k: nat, x: int)
    requires n == k + 1 && s > 0
    requires multiset(Ladder(page, s, k))[x] == if page <= x < page + Times(k, s) && Rem(x - page, s) == 0 then 1 else 0
    ensures multiset(Ladder(page, s, n))[x] == if page <= x < page + Times(n, s) && Rem(x - page, s) == 0 then 1 else 0
  {
    TimesSum(n, k, 1, s);
    TimesOne(s);
    LadderDef(page, s, n);
    LadderStep(page, s, k, Times(k, s), Ladder(page, s, k), x);
  }

  lemma LadderStep(page: int, s: nat, k: nat, m: nat, l: seq<int>, x: int)
    requires m == Times(k, s) && s > 0
    requires multiset(l)[x] == if page <= x < page + m && Rem(x - page, s) == 0 then 1 else 0
    ensures multiset([page + m] + l)[x] == if page <= x < page + m + s && Rem(x - page, s) == 0 then 1 else 0
  {
    var d := x - page;
    if m <= d < m + s { NoneBetween(s, k, m, d); }
    CountCons(page + m, l, x);
  }

  lemma CountCons(a: int, l: seq<int>, x: int)
    ensures multiset([a] + l)[x] == multiset(l)[x] + if x == a then 1 else 0
  {}

  lemma LadderFull(page: int, b: nat, x: int)
    requires b < NUM_SIZES
    ensures var l := Ladder(page, Size(b), NumBlocks(b));
            && |l| == NumBlocks(b)
            && multiset(l)[x] == if page <= x < page + PAGE_SIZE && Rem(x - page, Size(b)) == 0 then 1 else 0
  {
    TimesIs(NumBlocks(b), Size(b));
    SizesDivide(b);
    LadderLength(page, Size(b), NumBlocks(b));
    LadderHas(page, Size(b), NumBlocks(b), x);
  }

  /** The ladder has each block once. */
  lemma BlocksAre(page: int, b: nat)
    requires b < NUM_SIZES
    ensures multiset(Ladder(page, Size(b), NumBlocks(b))) == multiset(Blocks(page, b))
    ensures |Blocks(page, b)| == NumBlocks(b)
  {
    var l, n := Ladder(page, Size(b), NumBlocks(b)), NumBlocks(b);
    forall x ensures multiset(l)[x] == multiset(Blocks(page, b))[x] && |l| == n {
      LadderFull(page, b, x);
    }
    LadderFull(page, b, page);
  }

  lemma BlocksApart(page: int, b: nat, p: int, q: int)
    requires b < NUM_SIZES && p in Blocks(page, b) && q in Blocks(page, b) && p < q
    ensures p + Size(b) <= q
  {
    BlockIs(page, b, p);
    BlockIs(page, b, q);
    QuotRemAre(p - page, Size(b));
    QuotRemAre(q - page, Size(b));
    AlignedApart(b, p - page, q - page);
  }

  lemma BlockInside(page: int, b: nat, p: int)
    requires b < NUM_SIZES && p in Blocks(page, b)
    ensures page <= p && p + Size(b) <= page + PAGE_SIZE
  {
    BlockIs(page, b, p);
    QuotRemAre(p - page, Size(b));
    AlignedInside(b, p - page);
  }

  lemma AlignedInside(b: nat, d: nat)
    requires b < NUM_SIZES && d % Size(b) == 0 && d < PAGE_SIZE
    ensures d + Size(b) <= PAGE_SIZE
  {
    match b
    case 0 => case 1 => case 2 => case 3 => case 4 => case 5 => case 6 => case _ =>
  }

  lemma BlockIs(page: int, b: nat, x: int)
    requires b < NUM_SIZES
    ensures x in Blocks(page, b) <==> page <= x < page + PAGE_SIZE && Rem(x - page, Size(b)) == 0
  {
    LadderFull(page, b, x);
  }

  lemma AlignedApart(b: nat, d: nat, e: nat)
    requires b < NUM_SIZES && d % Size(b) == 0 && e % Size(b) == 0 && d < e < PAGE_SIZE
    ensures d + Size(b) <= e
  {
    match b
    case 0 => case 1 => case 2 => case 3 => case 4 => case 5 => case 6 => case _ =>
  }

  // ----- The pageref of a page

  /** What a heap page holds: the pageref's root and slot, the page, its block type, the
      free list, and the blocks in clients' hands with the sizes asked for. */
  datatype Info = Info(root: nat, slot: nat, page: int, blk: nat, fl: seq<int>, used: map<int, nat>)

  ghost predicate InfoOk(i: Info)
  {
    && i.blk < NUM_SIZES && i.page > 0 && i.page % PAGE_SIZE == 0
    && Folded(i, 3)
  }

  /** Every block is either in use, by a client that asked for no more than its size, or
      once on the free list. */
  ghost predicate Partitioned(i: Info)
    requires i.blk < NUM_SIZES
  {
    && i.used.Keys <= Blocks(i.page, i.blk)
    && (forall p :: p in i.used ==> i.used[p] <= Size(i.blk))
    && multiset(i.fl) == multiset(Blocks(i.page, i.blk) - i.used.Keys)
  }

  /** Partitioned behind a few recursive calls, so that proofs pass it on without looking
      inside. */
  ghost predicate Folded(i: Info, depth: nat)
    requires i.blk < NUM_SIZES
    decreases i, depth
  {
    if depth == 0 then Partitioned(i) else Folded(i, depth - 1)
  }

  lemma {:induction false} Unfold(i: Info, depth: nat)
    requires i.blk < NUM_SIZES
    ensures Folded(i, depth) <==> Partitioned(i)
    decreases depth
  {
    if depth > 0 { Unfold(i, depth - 1); }
  }

  /** The pageref's fields describe the page: the free list starts at the offset, is linked
      through the free blocks, is nfree long, and is exactly the blocks not in use. */
  ghost predicate PageOk(i: Info, pab: int, offset: int, nfree: int, link: map<int, int>)
  {
    && InfoOk(i)
    && pab == i.page + i.blk
    && nfree == |i.fl|
    && offset == (if i.fl == [] then INVALID_OFFSET else i.fl[0] - i.page)
    && IsChain(link, Nth(i.fl, 0), i.fl)
  }

  /** PR_PAGEADDR and PR_BLOCKTYPE, the two halves of pageaddr_and_blocktype. */
  function PageAddr(pab: int): int
  {
    pab / PAGE_SIZE * PAGE_SIZE
  }

  function BlkType(pab: int): nat
  {
    pab % PAGE_SIZE
  }

  lemma Unpack(page: int, blk: nat)
    requires page % PAGE_SIZE == 0 && blk < NUM_SIZES
    ensures BlkType(page + blk) == blk && PageAddr(page + blk) == page
  {}

  lemma FreeIs(i: Info, p: int)
    requires InfoOk(i)
    ensures p in i.fl <==> p in Blocks(i.page, i.blk) && p !in i.used
    ensures p in i.fl || p in i.used ==> i.page <= p < i.page + PAGE_SIZE
    ensures Distinct(i.fl) && |i.fl| + |i.used| == NumBlocks(i.blk)
  {
    Unfold(i, 3);
    BlocksAre(i.page, i.blk);
    BlockIs(i.page, i.blk, p);
    var free := Blocks(i.page, i.blk) - i.used.Keys;
    assert p in i.fl <==> multiset(i.fl)[p] > 0;
    assert |multiset(i.fl)| == |multiset(free)|;
  }

  /** The head of the free list goes to a client. */
  function Given(i: Info, sz: nat): Info
    requires i.fl != []
  {
    i.(fl := i.fl[1..], used := i.used[i.fl[0] := sz])
  }

  /** A block in use goes back to the head of the free list. */
  function Returned(i: Info, p: int): Info
  {
    i.(fl := [p] + i.fl, used := i.used - {p})
  }

  lemma GivenOk(i: Info, sz: nat)
    requires InfoOk(i) && i.fl != [] && sz <= Size(i.blk)
    ensures InfoOk(Given(i, sz)) && i.fl[0] !in i.used
  {
    var i', p := Given(i, sz), i.fl[0];
    Unfold(i, 3);
    Unfold(i', 3);
    FreeIs(i, p);
    assert i.fl == [p] + i.fl[1..];
    forall x ensures multiset(i'.fl)[x] == multiset(Blocks(i.page, i.blk) - i'.used.Keys)[x] {
      assert multiset(i.fl)[x] == multiset(Blocks(i.page, i.blk) - i.used.Keys)[x];
    }
  }

  lemma ReturnedOk(i: Info, p: int)
    requires InfoOk(i) && p in i.used
    ensures InfoOk(Returned(i, p)) && p !in i.fl
  {
    var i' := Returned(i, p);
    Unfold(i, 3);
    Unfold(i', 3);
    FreeIs(i, p);
    forall x ensures multiset(i'.fl)[x] == multiset(Blocks(i.page, i.blk) - i'.used.Keys)[x] {
      assert multiset(i.fl)[x] == multiset(Blocks(i.page, i.blk) - i.used.Keys)[x];
    }
  }

  /** A fresh page: everything free. */
  function Fresh(root: nat, slot: nat, page: int, blk: nat): Info
    requires blk < NUM_SIZES
  {
    Info(root, slot, page, blk, Ladder(page, Size(blk), NumBlocks(blk)), map[])
  }

  lemma FreshOk(root: nat, slot: nat, page: int, blk: nat)
    requires blk < NUM_SIZES && page > 0 && page % PAGE_SIZE == 0
    ensures InfoOk(Fresh(root, slot, page, blk))
  {
    BlocksAre(page, blk);
    Unfold(Fresh(root, slot, page, blk), 3);
    assert Blocks(page, blk) - {} == Blocks(page, blk);
  }

  /** Writes elsewhere than at this page's free blocks leave the page as it is. */
  lemma PageFrame(i: Info, pab: int, offset: int, nfree: int, link: map<int, int>, link': map<int, int>)
    requires PageOk(i, pab, offset, nfree, link)
    requires forall x :: x in i.fl && x in link ==> x in link' && link'[x] == link[x]
    ensures PageOk(i, pab, offset, nfree, link')
  {
    Frame(link, link', Nth(i.fl, 0), i.fl);
  }

  /** The pointer to the first free block, as the offset encodes it. */
  function Head(page: int, offset: int): int
  {
    if offset == INVALID_OFFSET then 0 else page + offset
  }

  lemma HeadIs(i: Info, pab: int, offset: int, nfree: int, link: map<int, int>)
    requires PageOk(i, pab, offset, nfree, link)
    ensures Head(i.page, offset) == Nth(i.fl, 0)
    ensures i.fl != [] ==> 0 <= offset < PAGE_SIZE
  {
    if i.fl != [] { FreeIs(i, i.fl[0]); }
  }

  /** Taking the head block off the free list. */
  lemma TakeOk(i: Info, pab: int, offset: int, nfree: int, link: map<int, int>, sz: nat)
    requires PageOk(i, pab, offset, nfree, link) && i.fl != [] && sz <= Size(i.blk)
    ensures var p := i.page + offset;
            && 0 <= offset < PAGE_SIZE && p == i.fl[0] && p in link && p !in i.used
            && (link[p] == 0 <==> nfree == 1)
            && (link[p] != 0 ==> 0 <= link[p] - i.page < PAGE_SIZE)
            && PageOk(Given(i, sz), pab, if link[p] == 0 then INVALID_OFFSET else link[p] - i.page, nfree - 1, link)
  {
    HeadIs(i, pab, offset, nfree, link);
    Pop(link, Nth(i.fl, 0), i.fl);
    GivenOk(i, sz);
    var i' := Given(i, sz);
    EndsInNull(link, link[i.fl[0]], i'.fl, 0);
    if i'.fl != [] { FreeIs(i', i'.fl[0]); }
  }

  /** Putting a block in use back at the head of the free list. */
  lemma PutOk(i: Info, pab: int, offset: int, nfree: int, link: map<int, int>, p: int)
    requires PageOk(i, pab, offset, nfree, link) && p in i.used
    ensures i.page <= p < i.page + PAGE_SIZE && Rem(p - i.page, Size(i.blk)) == 0 && p != Head(i.page, offset)
    ensures PageOk(Returned(i, p), pab, p - i.page, nfree + 1, link[p := Head(i.page, offset)])
    ensures nfree + 1 <= NumBlocks(i.blk) && (nfree + 1 == NumBlocks(i.blk) <==> Returned(i, p).used == map[])
  {
    HeadIs(i, pab, offset, nfree, link);
    FreeIs(i, p);
    BlockIs(i.page, i.blk, p);
    ReturnedOk(i, p);
    Push(link, Nth(i.fl, 0), i.fl, p);
    FreeIs(Returned(i, p), p);
  }

  /** The free list that subpage_kmalloc threads through a fresh page. */
  lemma FreshPageOk(root: nat, slot: nat, page: int, blk: nat, link: map<int, int>, top: int)
    requires blk < NUM_SIZES && page > 0 && page % PAGE_SIZE == 0
    requires IsChain(link, top, Ladder(page, Size(blk), NumBlocks(blk)))
    ensures PageOk(Fresh(root, slot, page, blk), page + blk, top - page, NumBlocks(blk), link)
    ensures top == page + Times(NumBlocks(blk) - 1, Size(blk))
  {
    FreshOk(root, slot, page, blk);
    LadderDef(page, Size(blk), NumBlocks(blk));
    LadderLength(page, Size(blk), NumBlocks(blk));
    BlockIs(page, blk, top);
    FreeIs(Fresh(root, slot, page, blk), top);
  }

  lemma {:induction false} LadderBelow(page: int, s: nat, n: nat, p: int)
    requires s > 0 && p in Ladder(page, s, n)
    ensures page <= p < page + Times(n, s)
  {
    LadderHas(page, s, n, p);
    assert multiset(Ladder(page, s, n))[p] > 0;
  }

  /** Outside page, nothing was written. */
  ghost predicate WritesOnly(link: map<int, int>, link': map<int, int>, page: int)
  {
    forall x :: x in link && !(page <= x < page + PAGE_SIZE) ==> x in link' && link'[x] == link[x]
  }

  /** The loop that threads the free list through a fresh page. */
  method Thread(link: map<int, int>, page: int, b: nat) returns (link': map<int, int>, top: int)
    requires b < NUM_SIZES && page > 0
    ensures IsChain(link', top, Ladder(page, Size(b), NumBlocks(b)))
    ensures WritesOnly(link, link', page)
  {
    var s, n := Size(b), NumBlocks(b);
    top := page;
    link' := link[page := 0];
    TimesOne(s);
    LadderDef(page, s, 1);
    LadderDef(page, s, 0);
    var i := 1;
    while i < n
      invariant 1 <= i <= n && top == page + Times(i - 1, s)
      invariant IsChain(link', top, Ladder(page, s, i))
      invariant WritesOnly(link, link', page)
    {
      var next := page + i * s;
      ThreadStep(page, b, i, next);
      Push(link', top, Ladder(page, s, i), next);
      link' := link'[next := page + (i - 1) * s];
      top := next;
      i := i + 1;
    }
  }

  lemma ThreadStep(page: int, b: nat, i: nat, next: int)
    requires b < NUM_SIZES && 0 < i < NumBlocks(b) && next == page + i * Size(b)
    ensures Times(i, Size(b)) == i * Size(b) && Times(i - 1, Size(b)) == (i - 1) * Size(b)
    ensures page <= next < page + PAGE_SIZE && next !in Ladder(page, Size(b), i)
    ensures Ladder(page, Size(b), i + 1) == [next] + Ladder(page, Size(b), i)
  {
    var s := Size(b);
    TimesIs(i, s);
    TimesIs(i - 1, s);
    LadderDef(page, s, i + 1);
    TimesMono(i + 1, NumBlocks(b), s);
    TimesSum(i + 1, i, 1, s);
    TimesOne(s);
    TimesIs(NumBlocks(b), s);
    SizesDivide(b);
    if next in Ladder(page, s, i) { LadderBelow(page, s, i, next); }
  }
}
