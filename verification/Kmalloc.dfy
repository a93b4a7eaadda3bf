/** The kernel heap: blocks smaller than a page come from heap pages found through lists of
    pagerefs, larger ones are whole pages.

    This module has the allocator's variables as one value, the invariant, and what each
    change to them keeps; `KernelHeap` has the code that makes the changes. `Valid` holds
    whenever kmalloc_spinlock is free. The lock is dropped around calls to the page
    allocator; what a call in progress owns across such a gap (a page, a pageref slot) is
    recorded in `held` and `reserved`. */
module Kmalloc {
  import opened Arith
  import opened Chains
  import opened HeapPage

  const NUM_ROOTS := 16
  const REFS_PER_PAGE := 256
  const REF_SIZE := 16

  /** A kheap_root: a page of pagerefs (0 if none yet) and which of them are taken. */
  datatype Root = Root(page: int, inuse: seq<bool>, numinuse: int)

  /** What memory obtained from the page allocator is for. `InFlight` pages belong to a call
      in progress. */
  datatype Role = OfRef(ref: int) | OfRoot(root: nat) | Whole(size: nat) | InFlight
  datatype Region = Region(npages: nat, role: Role)

  // ----- Bitmaps

  function Taken(s: seq<bool>): nat
  {
    if s == [] then 0 else Taken(s[1..]) + if s[0] then 1 else 0
  }

  lemma {:induction false} TakenSplit(s: seq<bool>, t: seq<bool>)
    ensures Taken(s + t) == Taken(s) + Taken(t)
    decreases |s|
  {
    if s == [] {
      assert s + t == t;
    } else {
      TakenSplit(s[1..], t);
      assert (s + t)[1..] == s[1..] + t;
    }
  }

  lemma TakenUpdate(s: seq<bool>, i: nat, b: bool)
    requires i < |s|
    ensures Taken(s[i := b]) - (if b then 1 else 0) == Taken(s) - (if s[i] then 1 else 0)
  {
    assert s == s[..i] + ([s[i]] + s[i + 1..]) && s[i := b] == s[..i] + ([b] + s[i + 1..]);
    TakenSplit(s[..i], [s[i]] + s[i + 1..]);
    TakenSplit(s[..i], [b] + s[i + 1..]);
    assert ([s[i]] + s[i + 1..])[1..] == s[i + 1..] && ([b] + s[i + 1..])[1..] == s[i + 1..];
  }

  /** The count reaches the size exactly when no bit is clear. */
  lemma {:induction false} TakenFull(s: seq<bool>)
    ensures Taken(s) <= |s|
    ensures Taken(s) == |s| <==> forall i :: 0 <= i < |s| ==> s[i]
    decreases |s|
  {
    if s != [] {
      TakenFull(s[1..]);
      assert forall i :: 0 < i < |s| ==> s[i] == s[1..][i - 1];
    }
  }

  // ----- The invariant, part by part

  ghost predicate RootOk(root: Root)
  {
    |root.inuse| == REFS_PER_PAGE && root.numinuse == Taken(root.inuse) && root.page >= 0
  }

  /** Pageref r is the slot the bitmap says it is. */
  ghost predicate RefOk(roots: seq<Root>, i: Info, r: int)
  {
    && i.root < |roots| && i.slot < REFS_PER_PAGE && |roots[i.root].inuse| == REFS_PER_PAGE
    && roots[i.root].page > 0 && r == roots[i.root].page + REF_SIZE * i.slot
    && roots[i.root].inuse[i.slot]
  }

  ghost predicate Marked(roots: seq<Root>, e: (nat, nat))
  {
    && e.0 < |roots| && e.1 < REFS_PER_PAGE && |roots[e.0].inuse| == REFS_PER_PAGE
    && roots[e.0].inuse[e.1]
  }

  ghost predicate RefsOk(roots: seq<Root>, info: map<int, Info>, reserved: set<(nat, nat)>)
  {
    && |roots| == NUM_ROOTS
    && (forall w :: 0 <= w < NUM_ROOTS ==> RootOk(roots[w]))
    && (forall r :: r in info ==> RefOk(roots, info[r], r) && (info[r].root, info[r].slot) !in reserved)
    && (forall e :: e in reserved ==> Marked(roots, e))
  }

  ghost predicate PagesOk(pab: map<int, int>, offset: map<int, int>, nfree: map<int, int>, link: map<int, int>,
                          info: map<int, Info>)
  {
    forall r :: r in info ==>
        r in pab && r in offset && r in nfree && PageOk(info[r], pab[r], offset[r], nfree[r], link)
  }

  ghost predicate SizeListOk(next: map<int, int>, base: int, list: seq<int>, info: map<int, Info>, b: nat)
  {
    && IsChain(next, base, list)
    && forall r {:trigger multiset(list)[r]} :: multiset(list)[r] == if r in info && info[r].blk == b then 1 else 0
  }

  /** Every pageref in use is once on the list of its size and once on the list of all. */
  ghost predicate ListsOk(nextSame: map<int, int>, nextAll: map<int, int>, sizebases: seq<int>, allbase: int,
                          info: map<int, Info>, same: seq<seq<int>>, all: seq<int>)
  {
    && |sizebases| == NUM_SIZES && |same| == NUM_SIZES
    && (forall b :: 0 <= b < NUM_SIZES ==> SizeListOk(nextSame, sizebases[b], same[b], info, b))
    && IsChain(nextAll, allbase, all) && multiset(all) == multiset(info.Keys)
  }

  ghost predicate Apart(held: map<int, Region>, a: int, b: int)
    requires a in held && b in held
  {
    a + PAGE_SIZE * held[a].npages <= b || b + PAGE_SIZE * held[b].npages <= a
  }

  ghost predicate RegionOk(a: int, g: Region)
  {
    a > 0 && a % PAGE_SIZE == 0 && g.npages > 0 && (g.role.Whole? ==> g.role.size <= PAGE_SIZE * g.npages)
  }

  ghost predicate HeldOk(held: map<int, Region>, roots: seq<Root>, info: map<int, Info>)
  {
    && (forall a :: a in held ==> RegionOk(a, held[a]))
    && (forall a, b {:trigger Apart(held, a, b)} :: a in held && b in held && a != b ==> Apart(held, a, b))
    && (forall r :: r in info ==> info[r].page in held && held[info[r].page] == Region(1, OfRef(r)))
    && (forall w :: 0 <= w < |roots| && roots[w].page != 0 ==>
       roots[w].page in held && held[roots[w].page] == Region(1, OfRoot(w)))
  }

  // ----- Keeping the parts

  /** The pages of two pagerefs do not meet. */
  lemma PagesApart(held: map<int, Region>, roots: seq<Root>, info: map<int, Info>, r: int, q: int)
    requires HeldOk(held, roots, info) && r in info && q in info && r != q
    ensures info[r].page + PAGE_SIZE <= info[q].page || info[q].page + PAGE_SIZE <= info[r].page
  {
    assert held[info[r].page] == Region(1, OfRef(r)) && held[info[q].page] == Region(1, OfRef(q));
    assert Apart(held, info[r].page, info[q].page);
  }

  /** Same page, same pageref, different blocks in use. */
  ghost predicate SamePage(i: Info, j: Info)
  {
    i.root == j.root && i.slot == j.slot && i.page == j.page && i.blk == j.blk
  }

  lemma UpdateKeepsRefs(roots: seq<Root>, info: map<int, Info>, reserved: set<(nat, nat)>, r: int, i: Info)
    requires RefsOk(roots, info, reserved) && r in info && SamePage(i, info[r])
    ensures RefsOk(roots, info[r := i], reserved)
  {
    var info' := info[r := i];
    forall q | q in info' ensures RefOk(roots, info'[q], q) && (info'[q].root, info'[q].slot) !in reserved {
      assert RefOk(roots, info[q], q);
    }
  }

  lemma UpdateKeepsHeld(held: map<int, Region>, roots: seq<Root>, info: map<int, Info>, r: int, i: Info)
    requires HeldOk(held, roots, info) && r in info && SamePage(i, info[r])
    ensures HeldOk(held, roots, info[r := i])
  {}

  lemma UpdateKeepsLists(nextSame: map<int, int>, nextAll: map<int, int>, sizebases: seq<int>, allbase: int,
                         info: map<int, Info>, same: seq<seq<int>>, all: seq<int>, r: int, i: Info)
    requires ListsOk(nextSame, nextAll, sizebases, allbase, info, same, all) && r in info && SamePage(i, info[r])
    ensures ListsOk(nextSame, nextAll, sizebases, allbase, info[r := i], same, all)
  {
    var info' := info[r := i];
    assert info'.Keys == info.Keys;
    forall b | 0 <= b < NUM_SIZES ensures SizeListOk(nextSame, sizebases[b], same[b], info', b) {
      assert SizeListOk(nextSame, sizebases[b], same[b], info, b);
    }
  }

  lemma OtherPage(i: Info, pab: int, offset: int, nfree: int, link: map<int, int>, link': map<int, int>, page: int)
    requires PageOk(i, pab, offset, nfree, link) && WritesOnly(link, link', page)
    requires i.page + PAGE_SIZE <= page || page + PAGE_SIZE <= i.page
    ensures PageOk(i, pab, offset, nfree, link')
  {
    forall x | x in i.fl && x in link ensures x in link' && link'[x] == link[x] {
      FreeIs(i, x);
    }
    PageFrame(i, pab, offset, nfree, link, link');
  }

  lemma UpdateKeepsPages(held: map<int, Region>, roots: seq<Root>, pab: map<int, int>, offset: map<int, int>,
          nfree: map<int, int>,
                         link: map<int, int>, link': map<int, int>, info: map<int, Info>, r: int, i: Info, off: int,
                         nf: int)
    requires HeldOk(held, roots, info) && PagesOk(pab, offset, nfree, link, info) && r in info && SamePage(i, info[r])
    requires r in pab && PageOk(i, pab[r], off, nf, link') && WritesOnly(link, link', i.page)
    ensures PagesOk(pab, offset[r := off], nfree[r := nf], link', info[r := i])
  {
    var info', offset', nfree' := info[r := i], offset[r := off], nfree[r := nf];
    forall q | q in info'
      ensures q in pab && q in offset' && q in nfree' && PageOk(info'[q], pab[q], offset'[q], nfree'[q], link')
    {
      if q != r {
        PagesApart(held, roots, info, r, q);
        OtherPage(info[q], pab[q], offset[q], nfree[q], link, link', i.page);
      }
    }
  }

  // ----- The whole heap as a value

  /** The variables of the allocator, and what they stand for. */
  datatype View = View(
    nextSame: map<int, int>, nextAll: map<int, int>, pab: map<int, int>, offset: map<int, int>, nfree: map<int, int>,
    sizebases: seq<int>, allbase: int, roots: seq<Root>, link: map<int, int>,
    ghost info: map<int, Info>, ghost same: seq<seq<int>>, ghost all: seq<int>, ghost reserved: set<(nat, nat)>,
    ghost held: map<int, Region>)

  ghost predicate CoreOk(v: View)
  {
    && ListsOk(v.nextSame, v.nextAll, v.sizebases, v.allbase, v.info, v.same, v.all)
    && PagesOk(v.pab, v.offset, v.nfree, v.link, v.info)
    && RefsOk(v.roots, v.info, v.reserved)
    && HeldOk(v.held, v.roots, v.info)
  }

  /** CoreOk behind a few recursive calls, so that methods pass it on without looking inside. */
  ghost predicate Sealed(v: View, depth: nat)
    decreases v, depth
  {
    if depth == 0 then CoreOk(v) else Sealed(v, depth - 1)
  }

  lemma {:induction false} Unseal(v: View, depth: nat)
    ensures Sealed(v, depth) <==> CoreOk(v)
    decreases depth
  {
    if depth > 0 { Unseal(v, depth - 1); }
  }

  ghost predicate Ok(v: View)
  {
    Sealed(v, 4)
  }

  /** Replacing what is known of page r, with the fields that change. */
  ghost function Updated(v: View, r: int, i: Info, off: int, nf: int, link: map<int, int>): View
  {
    v.(info := v.info[r := i], offset := v.offset[r := off], nfree := v.nfree[r := nf], link := link)
  }

  lemma UpdateKeeps(v: View, r: int, i: Info, off: int, nf: int, link: map<int, int>)
    requires CoreOk(v) && r in v.info && SamePage(i, v.info[r])
    requires r in v.pab && PageOk(i, v.pab[r], off, nf, link) && WritesOnly(v.link, link, i.page)
    ensures CoreOk(Updated(v, r, i, off, nf, link))
  {
    UpdateKeepsPages(v.held, v.roots, v.pab, v.offset, v.nfree, v.link, link, v.info, r, i, off, nf);
    UpdateKeepsRefs(v.roots, v.info, v.reserved, r, i);
    UpdateKeepsHeld(v.held, v.roots, v.info, r, i);
    UpdateKeepsLists(v.nextSame, v.nextAll, v.sizebases, v.allbase, v.info, v.same, v.all, r, i);
  }

  lemma PageOf(v: View, r: int)
    requires CoreOk(v) && r in v.info
    ensures r in v.pab && r in v.offset && r in v.nfree && Described(r, v.pab, v.nfree, v.info)
    ensures v.info[r].blk < NUM_SIZES && PageOk(v.info[r], v.pab[r], v.offset[r], v.nfree[r], v.link)
  {
    Describe(v.pab, v.offset, v.nfree, v.link, v.info, r);
  }

  /** The offset of the free block after the one at this offset. */
  function NextOffset(link: map<int, int>, page: int, offset: int): int
    requires page + offset in link
  {
    if link[page + offset] != 0 then link[page + offset] - page else INVALID_OFFSET
  }

  /** doalloc reads the page right: none of its assertions can fail. */
  lemma TakeReads(v: View, r: int, sz: nat)
    requires CoreOk(v) && r in v.info && v.info[r].blk < NUM_SIZES && v.info[r].fl != [] && sz <= Size(v.info[r].blk)
    ensures r in v.pab && r in v.offset && r in v.nfree && PageAddr(v.pab[r]) == v.info[r].page
    ensures var i, off := v.info[r], v.offset[r];
            var p := i.page + off;
            && 0 <= off < PAGE_SIZE && p == i.fl[0] && p in v.link && p !in i.used
            && (v.link[p] == 0 <==> v.nfree[r] == 1)
            && (v.link[p] != 0 ==> v.link[p] - i.page < PAGE_SIZE && v.nfree[r] > 1)
            && PageOk(Given(i, sz), v.pab[r], NextOffset(v.link, i.page, off), v.nfree[r] - 1, v.link)
  {
    PageOf(v, r);
    TakeOk(v.info[r], v.pab[r], v.offset[r], v.nfree[r], v.link, sz);
  }

  ghost function Took(v: View, r: int, sz: nat): View
    requires r in v.info && v.info[r].fl != [] && r in v.offset
    requires r in v.nfree && v.info[r].page + v.offset[r] in v.link
  {
    Updated(v, r, Given(v.info[r], sz), NextOffset(v.link, v.info[r].page, v.offset[r]), v.nfree[r] - 1, v.link)
  }

  lemma TakeKeeps(v: View, r: int, sz: nat)
    requires Ok(v) && r in v.info && v.info[r].blk < NUM_SIZES && v.info[r].fl != [] && sz <= Size(v.info[r].blk)
    ensures r in v.pab && r in v.offset && r in v.nfree && PageAddr(v.pab[r]) == v.info[r].page
    ensures var i, off := v.info[r], v.offset[r];
            var p := i.page + off;
            && 0 <= off < PAGE_SIZE && p == i.fl[0] && p in v.link && p !in i.used
            && (v.link[p] == 0 <==> v.nfree[r] == 1)
            && (v.link[p] != 0 ==> v.link[p] - i.page < PAGE_SIZE && v.nfree[r] > 1)
            && Ok(Took(v, r, sz))
  {
    Unseal(v, 4);
    TakeReads(v, r, sz);
    UpdateKeeps(v, r, Given(v.info[r], sz), NextOffset(v.link, v.info[r].page, v.offset[r]), v.nfree[r] - 1, v.link);
    Unseal(Took(v, r, sz), 4);
  }

  /** subpage_kfree finds the block aligned and not at the head of the free list, and sees
      the page wholly free exactly when this was its last block in use. */
  lemma PutReads(v: View, r: int, p: int)
    requires CoreOk(v) && r in v.info && p in v.info[r].used
    ensures r in v.pab && r in v.offset && r in v.nfree && PageAddr(v.pab[r]) == v.info[r].page
    ensures v.info[r].blk < NUM_SIZES && BlkType(v.pab[r]) == v.info[r].blk
    ensures var i, nf := v.info[r], v.nfree[r];
            var h := Head(i.page, v.offset[r]);
            && i.page <= p < i.page + PAGE_SIZE && Rem(p - i.page, Size(i.blk)) == 0 && p != h
            && nf + 1 <= NumBlocks(i.blk) && (nf + 1 == NumBlocks(i.blk) <==> Returned(i, p).used == map[])
            && PageOk(Returned(i, p), v.pab[r], p - i.page, nf + 1, v.link[p := h])
  {
    PageOf(v, r);
    PutOk(v.info[r], v.pab[r], v.offset[r], v.nfree[r], v.link, p);
  }

  ghost function PutBack(v: View, r: int, p: int): View
    requires r in v.info && r in v.offset && r in v.nfree
  {
    var i := v.info[r];
    Updated(v, r, Returned(i, p), p - i.page, v.nfree[r] + 1, v.link[p := Head(i.page, v.offset[r])])
  }

  lemma PutKeeps(v: View, r: int, p: int)
    requires Ok(v) && r in v.info && p in v.info[r].used
    ensures r in v.pab && r in v.offset && r in v.nfree && PageAddr(v.pab[r]) == v.info[r].page
    ensures v.info[r].blk < NUM_SIZES && BlkType(v.pab[r]) == v.info[r].blk
    ensures var i, nf := v.info[r], v.nfree[r];
            && i.page <= p < i.page + PAGE_SIZE && Rem(p - i.page, Size(i.blk)) == 0 && p != Head(i.page, v.offset[r])
            && nf + 1 <= NumBlocks(i.blk) && (nf + 1 == NumBlocks(i.blk) <==> Returned(i, p).used == map[])
            && Ok(PutBack(v, r, p))
  {
    Unseal(v, 4);
    PutReads(v, r, p);
    var i := v.info[r];
    UpdateKeeps(v, r, Returned(i, p), p - i.page, v.nfree[r] + 1, v.link[p := Head(i.page, v.offset[r])]);
    Unseal(PutBack(v, r, p), 4);
  }

  // ----- A fresh heap page

  /** A reserved slot is not the pageref of any page. */
  lemma SlotUnused(roots: seq<Root>, info: map<int, Info>, reserved: set<(nat, nat)>, held: map<int, Region>,
                   w: nat, j: nat)
    requires RefsOk(roots, info, reserved) && HeldOk(held, roots, info)
    requires (w, j) in reserved && w < |roots| && roots[w].page > 0
    ensures j < REFS_PER_PAGE && roots[w].page + REF_SIZE * j !in info
  {
    assert Marked(roots, (w, j));
    var r := roots[w].page + REF_SIZE * j;
    if r in info { RefRoot(roots, info, held, r, w); }
  }

  /** The page of pagerefs that holds r is its own root's. */
  lemma RefRoot(roots: seq<Root>, info: map<int, Info>, held: map<int, Region>, r: int, w: nat)
    requires HeldOk(held, roots, info) && r in info && RefOk(roots, info[r], r) && w < |roots| && roots[w].page != 0
    ensures roots[w].page <= r < roots[w].page + PAGE_SIZE <==> info[r].root == w
  {
    var u := info[r].root;
    var a, b := roots[u].page, roots[w].page;
    assert held[a] == Region(1, OfRoot(u)) && held[b] == Region(1, OfRoot(w));
    if u != w { assert Apart(held, a, b); }
  }

  lemma AddKeepsRefs(roots: seq<Root>, info: map<int, Info>, reserved: set<(nat, nat)>, r: int, i: Info)
    requires RefsOk(roots, info, reserved) && r !in info && (i.root, i.slot) in reserved
    requires i.root < |roots| && roots[i.root].page > 0 && r == roots[i.root].page + REF_SIZE * i.slot
    ensures RefsOk(roots, info[r := i], reserved - {(i.root, i.slot)})
  {
    assert Marked(roots, (i.root, i.slot));
    var info' := info[r := i];
    forall q | q in info'
        ensures RefOk(roots, info'[q], q) && (info'[q].root, info'[q].slot) !in reserved - {(i.root, i.slot)} {
      if q != r { assert RefOk(roots, info[q], q); }
    }
  }

  lemma AddKeepsHeld(held: map<int, Region>, roots: seq<Root>, info: map<int, Info>, r: int, i: Info)
    requires HeldOk(held, roots, info) && r !in info && i.page in held && held[i.page] == Region(1, InFlight)
    ensures HeldOk(held[i.page := Region(1, OfRef(r))], roots, info[r := i])
  {
    var held' := held[i.page := Region(1, OfRef(r))];
    forall a, b | a in held' && b in held' && a != b ensures Apart(held', a, b) {
      assert Apart(held, a, b);
    }
  }

  lemma AddKeepsPages(held: map<int, Region>, roots: seq<Root>, pab: map<int, int>, offset: map<int, int>,
          nfree: map<int, int>,
                      link: map<int, int>, link': map<int, int>, info: map<int, Info>, r: int, i: Info, pa: int,
                      off: int, nf: int)
    requires HeldOk(held, roots, info) && PagesOk(pab, offset, nfree, link, info) && r !in info
    requires i.page in held && held[i.page] == Region(1, InFlight)
    requires PageOk(i, pa, off, nf, link') && WritesOnly(link, link', i.page)
    ensures PagesOk(pab[r := pa], offset[r := off], nfree[r := nf], link', info[r := i])
  {
    var info', pab', offset', nfree' := info[r := i], pab[r := pa], offset[r := off], nfree[r := nf];
    forall q | q in info'
      ensures q in pab' && q in offset' && q in nfree' && PageOk(info'[q], pab'[q], offset'[q], nfree'[q], link')
    {
      if q != r {
        assert held[info[q].page] == Region(1, OfRef(q));
        assert Apart(held, info[q].page, i.page);
        OtherPage(info[q], pab[q], offset[q], nfree[q], link, link', i.page);
      }
    }
  }

  lemma AddKeepsSizeList(next: map<int, int>, base: int, list: seq<int>, info: map<int, Info>, b: nat, r: int,
                         i: Info, v: int)
    requires SizeListOk(next, base, list, info, b) && r !in info && r != 0
    ensures b != i.blk ==> SizeListOk(next[r := v], base, list, info[r := i], b)
    ensures b == i.blk && v == base ==> SizeListOk(next[r := v], r, [r] + list, info[r := i], b)
  {
    SizeListHas(next, base, list, info, b, r);
    Frame(next, next[r := v], base, list);
    if b == i.blk && v == base { Push(next, base, list, r); }
  }

  lemma AddKeepsLists(nextSame: map<int, int>, nextAll: map<int, int>, sizebases: seq<int>, allbase: int,
                      info: map<int, Info>, same: seq<seq<int>>, all: seq<int>, r: int, i: Info)
    requires ListsOk(nextSame, nextAll, sizebases, allbase, info, same, all)
    requires r !in info && r != 0 && i.blk < NUM_SIZES
    ensures ListsOk(nextSame[r := sizebases[i.blk]], nextAll[r := allbase], sizebases[i.blk := r], r,
                    info[r := i], same[i.blk := [r] + same[i.blk]], [r] + all)
  {
    var bases, same' := sizebases[i.blk := r], same[i.blk := [r] + same[i.blk]];
    forall b | 0 <= b < NUM_SIZES
        ensures SizeListOk(nextSame[r := sizebases[i.blk]], bases[b], same'[b], info[r := i], b) {
      assert SizeListOk(nextSame, sizebases[b], same[b], info, b);
      AddKeepsSizeList(nextSame, sizebases[b], same[b], info, b, r, i, sizebases[i.blk]);
    }
    assert r !in all by { assert multiset(all)[r] == multiset(info.Keys)[r]; }
    Push(nextAll, allbase, all, r);
    assert info[r := i].Keys == info.Keys + {r};
  }

  /** The heap after a page held by a call has been made a heap page. */
  ghost function Added(v: View, r: int, i: Info, link: map<int, int>, top: int): View
    requires i.blk < NUM_SIZES && |v.sizebases| == |v.same| == NUM_SIZES
  {
    v.(nextSame := v.nextSame[r := v.sizebases[i.blk]], sizebases := v.sizebases[i.blk := r],
       nextAll := v.nextAll[r := v.allbase], allbase := r,
       pab := v.pab[r := i.page + i.blk], offset := v.offset[r := top - i.page],
       nfree := v.nfree[r := NumBlocks(i.blk)], link := link,
       info := v.info[r := i], same := v.same[i.blk := [r] + v.same[i.blk]], all := [r] + v.all,
       reserved := v.reserved - {(i.root, i.slot)}, held := v.held[i.page := Region(1, OfRef(r))])
  }

  lemma AddKeeps(v: View, w: nat, j: nat, page: int, b: nat, link: map<int, int>, top: int)
    requires Ok(v) && (w, j) in v.reserved && w < |v.roots| && v.roots[w].page > 0 && b < NUM_SIZES
    requires page in v.held && v.held[page] == Region(1, InFlight)
    requires IsChain(link, top, Ladder(page, Size(b), NumBlocks(b))) && WritesOnly(v.link, link, page)
    ensures |v.sizebases| == |v.same| == NUM_SIZES
    ensures var r, i := v.roots[w].page + REF_SIZE * j, Fresh(w, j, page, b);
            r !in v.info && r > 0 && Ok(Added(v, r, i, link, top))
  {
    SlotOf(v, w, j);
    AddSealed(v, v.roots[w].page + REF_SIZE * j, Fresh(w, j, page, b), link, top);
  }

  lemma SlotOf(v: View, w: nat, j: nat)
    requires Ok(v) && (w, j) in v.reserved && w < |v.roots| && v.roots[w].page > 0
    ensures v.roots[w].page + REF_SIZE * j !in v.info && |v.sizebases| == |v.same| == NUM_SIZES
  {
    Unseal(v, 4);
    SlotUnused(v.roots, v.info, v.reserved, v.held, w, j);
  }

  lemma AddSealed(v: View, r: int, i: Info, link: map<int, int>, top: int)
    requires Ok(v) && Addable(v, r, i, link, top) && |v.sizebases| == |v.same| == NUM_SIZES
    ensures Ok(Added(v, r, i, link, top))
  {
    Unseal(v, 4);
    AddParts(v, r, i, link, top);
    Unseal(Added(v, r, i, link, top), 4);
  }

  ghost predicate Addable(v: View, r: int, i: Info, link: map<int, int>, top: int)
  {
    && (i.root, i.slot) in v.reserved && i.root < |v.roots| && v.roots[i.root].page > 0
    && i.blk < NUM_SIZES && i == Fresh(i.root, i.slot, i.page, i.blk)
    && r == v.roots[i.root].page + REF_SIZE * i.slot && r !in v.info
    && i.page in v.held && v.held[i.page] == Region(1, InFlight)
    && IsChain(link, top, i.fl) && WritesOnly(v.link, link, i.page)
  }

  lemma AddParts(v: View, r: int, i: Info, link: map<int, int>, top: int)
    requires CoreOk(v) && Addable(v, r, i, link, top)
    ensures CoreOk(Added(v, r, i, link, top))
  {
    AddKeepsRefs(v.roots, v.info, v.reserved, r, i);
    AddKeepsHeld(v.held, v.roots, v.info, r, i);
    AddPages(v, r, i, link, top);
    AddKeepsLists(v.nextSame, v.nextAll, v.sizebases, v.allbase, v.info, v.same, v.all, r, i);
  }

  lemma AddPages(v: View, r: int, i: Info, link: map<int, int>, top: int)
    requires HeldOk(v.held, v.roots, v.info)
    requires PagesOk(v.pab, v.offset, v.nfree, v.link, v.info) && Addable(v, r, i, link, top)
    requires |v.sizebases| == |v.same| == NUM_SIZES
    ensures var v' := Added(v, r, i, link, top); PagesOk(v'.pab, v'.offset, v'.nfree, v'.link, v'.info)
  {
    FreshPageOk(i.root, i.slot, i.page, i.blk, link, top);
    AddKeepsPages(v.held, v.roots, v.pab, v.offset, v.nfree, v.link, link, v.info, r, i, i.page + i.blk, top - i.page,
        NumBlocks(i.blk));
  }

  // ----- A page that became wholly free

  lemma DropKeepsSizeList(next: map<int, int>, next': map<int, int>, base: int, list: seq<int>, info: map<int, Info>,
                          b: nat, r: int, gone: seq<int>)
    requires SizeListOk(next, base, list, info, b) && r in info && info[r].blk != b
    requires next'.Keys == next.Keys && (forall x :: x in next && x !in gone ==> next'[x] == next[x])
    requires forall x :: x in gone ==> x in info && info[x].blk == info[r].blk
    ensures SizeListOk(next', base, list, info - {r}, b)
  {
    forall x | x in list && x in next ensures x in next' && next'[x] == next[x] {
      SizeListHas(next, base, list, info, b, x);
    }
    Frame(next, next', base, list);
  }

  lemma DropKeepsLists(v: View, r: int, nextSame': map<int, int>, base': int, list': seq<int>,
                       nextAll': map<int, int>, allbase': int, all': seq<int>)
    requires ListsOk(v.nextSame, v.nextAll, v.sizebases, v.allbase, v.info, v.same, v.all)
    requires r in v.info && v.info[r].blk < NUM_SIZES
    requires var list := v.same[v.info[r].blk];
             && IsChain(nextSame', base', list') && multiset(list) == multiset(list') + multiset{r}
             && nextSame'.Keys == v.nextSame.Keys
             && forall x :: x in v.nextSame && x !in list ==> nextSame'[x] == v.nextSame[x]
    requires IsChain(nextAll', allbase', all') && multiset(v.all) == multiset(all') + multiset{r}
    ensures var b := v.info[r].blk;
            ListsOk(nextSame', nextAll', v.sizebases[b := base'], allbase', v.info - {r}, v.same[b := list'], all')
  {
    var k := v.info[r].blk;
    var bases, same', info' := v.sizebases[k := base'], v.same[k := list'], v.info - {r};
    assert SizeListOk(v.nextSame, v.sizebases[k], v.same[k], v.info, k);
    forall x | x in v.same[k] ensures x in v.info && v.info[x].blk == k {
      SizeListHas(v.nextSame, v.sizebases[k], v.same[k], v.info, k, x);
    }
    forall b | 0 <= b < NUM_SIZES ensures SizeListOk(nextSame', bases[b], same'[b], info', b) {
      assert SizeListOk(v.nextSame, v.sizebases[b], v.same[b], v.info, b);
      if b != k {
        DropKeepsSizeList(v.nextSame, nextSame', v.sizebases[b], v.same[b], v.info, b, r, v.same[k]);
      } else {
        forall x ensures multiset(list')[x] == if x in info' && info'[x].blk == b then 1 else 0 {
          assert multiset(v.same[k])[x] == multiset(list')[x] + multiset{r}[x];
        }
      }
    }
    forall x ensures multiset(all')[x] == multiset(info'.Keys)[x] {
      assert multiset(v.all)[x] == multiset(all')[x] + multiset{r}[x];
    }
  }

  function Cleared(roots: seq<Root>, w: nat, j: nat): seq<Root>
    requires w < |roots| && j < |roots[w].inuse|
  {
    roots[w := roots[w].(inuse := roots[w].inuse[j := false], numinuse := roots[w].numinuse - 1)]
  }

  lemma DropKeepsRefs(roots: seq<Root>, info: map<int, Info>, reserved: set<(nat, nat)>, r: int)
    requires RefsOk(roots, info, reserved) && r in info
    ensures info[r].root < |roots| && info[r].slot < |roots[info[r].root].inuse|
    ensures RefsOk(Cleared(roots, info[r].root, info[r].slot), info - {r}, reserved)
  {
    assert RefOk(roots, info[r], r);
    var w, j := info[r].root, info[r].slot;
    var roots', info' := Cleared(roots, w, j), info - {r};
    TakenUpdate(roots[w].inuse, j, false);
    forall u | 0 <= u < NUM_ROOTS ensures RootOk(roots'[u]) {
      assert RootOk(roots[u]);
    }
    forall q | q in info' ensures RefOk(roots', info'[q], q) && (info'[q].root, info'[q].slot) !in reserved {
      assert RefOk(roots, info[q], q);
    }
    forall e | e in reserved ensures Marked(roots', e) {
      assert Marked(roots, e);
    }
  }

  lemma DropKeepsHeld(held: map<int, Region>, roots: seq<Root>, info: map<int, Info>, r: int, roots': seq<Root>)
    requires HeldOk(held, roots, info) && r in info && info[r].page in held
    requires |roots'| == |roots| && forall w :: 0 <= w < |roots| ==> roots'[w].page == roots[w].page
    ensures HeldOk(held[info[r].page := Region(1, InFlight)], roots', info - {r})
  {
    var held' := held[info[r].page := Region(1, InFlight)];
    assert held[info[r].page] == Region(1, OfRef(r));
    forall a, b | a in held' && b in held' && a != b ensures Apart(held', a, b) {
      assert Apart(held, a, b);
    }
    forall w | 0 <= w < |roots'| && roots'[w].page != 0
      ensures roots'[w].page in held' && held'[roots'[w].page] == Region(1, OfRoot(w))
    {
      assert held[roots[w].page] == Region(1, OfRoot(w));
    }
    forall q | q in info - {r} ensures info[q].page in held' && held'[info[q].page] == Region(1, OfRef(q)) {
      assert held[info[q].page] == Region(1, OfRef(q));
    }
  }

  /** The earlier roots pass freepageref's assertion that a root without a page of pagerefs
      has no bit set. */
  predicate RootsFilled(roots: seq<Root>, w: nat)
    requires w <= |roots|
  {
    forall u :: 0 <= u < w ==> roots[u].page != 0 || roots[u].numinuse == 0
  }

  /** freepageref: find the root whose page holds r and clear its bit. It stops the kernel
      exactly when an earlier root has bits set but no page, which is what a failure to get
      a page of pagerefs leaves behind. */
  method FreeRef(roots: seq<Root>, r: int, ghost info: map<int, Info>, ghost held: map<int, Region>)
    returns (roots': seq<Root>, ok: bool)
    requires HeldOk(held, roots, info) && r in info && RefOk(roots, info[r], r)
    requires forall w :: 0 <= w < |roots| ==> RootOk(roots[w])
    ensures ok <==> RootsFilled(roots, info[r].root)
    ensures ok ==> roots' == Cleared(roots, info[r].root, info[r].slot)
  {
    ghost var w0 := info[r].root;
    var w := 0;
    roots' := roots;
    while w < |roots|
      invariant w <= w0 && roots' == roots && RootsFilled(roots, w)
    {
      var page := roots[w].page;
      if page == 0 {
        if roots[w].numinuse != 0 { return roots, false; }
      } else {
        RefRoot(roots, info, held, r, w);
        if page <= r < page + PAGE_SIZE {
          var j := (r - page) / REF_SIZE;
          assert j == info[r].slot && roots[w].inuse[j];
          TakenUpdate(roots[w].inuse, j, false);
          assert roots[w].numinuse > 0;
          return Cleared(roots, w, j), true;
        }
      }
      w := w + 1;
    }
    assert false;
  }

  ghost function Dropped(v: View, r: int, nextSame: map<int, int>, base: int, list: seq<int>, nextAll: map<int, int>,
          allbase: int, all: seq<int>,
                   roots: seq<Root>): View
    requires r in v.info && v.info[r].blk < NUM_SIZES && |v.sizebases| == |v.same| == NUM_SIZES
  {
    var b := v.info[r].blk;
    v.(nextSame := nextSame, sizebases := v.sizebases[b := base], same := v.same[b := list],
       nextAll := nextAll, allbase := allbase, all := all, roots := roots,
       info := v.info - {r}, held := v.held[v.info[r].page := Region(1, InFlight)])
  }

  /** What Drop needs before it starts. */
  lemma DropReads(v: View, r: int)
    requires Ok(v) && r in v.info
    ensures v.info[r].blk < NUM_SIZES && |v.sizebases| == |v.same| == NUM_SIZES
    ensures r in v.pab && BlkType(v.pab[r]) == v.info[r].blk
    ensures var b := v.info[r].blk;
            IsChain(v.nextSame, v.sizebases[b], v.same[b]) && Distinct(v.same[b]) && r in v.same[b]
    ensures IsChain(v.nextAll, v.allbase, v.all) && Distinct(v.all) && r in v.all
    ensures HeldOk(v.held, v.roots, v.info) && RefOk(v.roots, v.info[r], r)
    ensures |v.roots| == NUM_ROOTS && forall w :: 0 <= w < NUM_ROOTS ==> RootOk(v.roots[w])
  {
    Unseal(v, 4);
    PageOf(v, r);
    var b := v.info[r].blk;
    assert SizeListOk(v.nextSame, v.sizebases[b], v.same[b], v.info, b);
    SizeListHas(v.nextSame, v.sizebases[b], v.same[b], v.info, b, r);
    assert multiset(v.all)[r] == multiset(v.info.Keys)[r];
    forall x ensures multiset(v.all)[x] <= 1 {
      assert multiset(v.all)[x] == multiset(v.info.Keys)[x];
    }
  }

  lemma DropKeeps(v: View, r: int, nextSame: map<int, int>, base: int, list: seq<int>, nextAll: map<int, int>,
                  allbase: int, all: seq<int>)
    requires Ok(v) && r in v.info && v.info[r].blk < NUM_SIZES && |v.sizebases| == |v.same| == NUM_SIZES
    requires var was := v.same[v.info[r].blk];
             && IsChain(nextSame, base, list) && multiset(was) == multiset(list) + multiset{r}
             && nextSame.Keys == v.nextSame.Keys
             && forall x :: x in v.nextSame && x !in was ==> nextSame[x] == v.nextSame[x]
    requires IsChain(nextAll, allbase, all) && multiset(v.all) == multiset(all) + multiset{r}
    ensures v.info[r].root < |v.roots| && v.info[r].slot < |v.roots[v.info[r].root].inuse|
    ensures Ok(Dropped(v, r, nextSame, base, list, nextAll, allbase, all,
            Cleared(v.roots, v.info[r].root, v.info[r].slot)))
  {
    Unseal(v, 4);
    DropKeepsLists(v, r, nextSame, base, list, nextAll, allbase, all);
    DropKeepsRefs(v.roots, v.info, v.reserved, r);
    var roots := Cleared(v.roots, v.info[r].root, v.info[r].slot);
    DropKeepsHeld(v.held, v.roots, v.info, r, roots);
    DropPages(v, r);
    Unseal(Dropped(v, r, nextSame, base, list, nextAll, allbase, all, roots), 4);
  }

  lemma DropPages(v: View, r: int)
    requires PagesOk(v.pab, v.offset, v.nfree, v.link, v.info)
    ensures PagesOk(v.pab, v.offset, v.nfree, v.link, v.info - {r})
  {}

  // ----- Reserving a pageref

  ghost function ReservedSlot(v: View, w: nat, j: nat): View
    requires w < |v.roots| && j < |v.roots[w].inuse|
  {
    v.(roots := Marking(v.roots, w, j), reserved := v.reserved + {(w, j)})
  }

  function Marking(roots: seq<Root>, w: nat, j: nat): seq<Root>
    requires w < |roots| && j < |roots[w].inuse|
  {
    roots[w := roots[w].(inuse := roots[w].inuse[j := true], numinuse := roots[w].numinuse + 1)]
  }

  lemma MarkKeepsRefs(roots: seq<Root>, info: map<int, Info>, reserved: set<(nat, nat)>, w: nat, j: nat)
    requires RefsOk(roots, info, reserved) && w < |roots| && j < |roots[w].inuse| && !roots[w].inuse[j]
    ensures RefsOk(Marking(roots, w, j), info, reserved + {(w, j)})
  {
    var roots' := Marking(roots, w, j);
    TakenUpdate(roots[w].inuse, j, true);
    forall u | 0 <= u < NUM_ROOTS ensures RootOk(roots'[u]) {
      assert RootOk(roots[u]);
    }
    forall q | q in info ensures RefOk(roots', info[q], q) && (info[q].root, info[q].slot) !in reserved + {(w, j)} {
      assert RefOk(roots, info[q], q);
    }
    forall e | e in reserved + {(w, j)} ensures Marked(roots', e) {
      if e != (w, j) { assert Marked(roots, e); } else { assert RootOk(roots[w]); }
    }
  }

  lemma SamePagesHeld(held: map<int, Region>, roots: seq<Root>, info: map<int, Info>, roots': seq<Root>)
    requires HeldOk(held, roots, info) && |roots'| == |roots|
    requires forall w :: 0 <= w < |roots| ==> roots'[w].page == roots[w].page
    ensures HeldOk(held, roots', info)
  {
    forall w | 0 <= w < |roots'| && roots'[w].page != 0
      ensures roots'[w].page in held && held[roots'[w].page] == Region(1, OfRoot(w))
    {
      assert held[roots[w].page] == Region(1, OfRoot(w));
    }
  }

  lemma ReserveKeeps(v: View, w: nat, j: nat)
    requires Ok(v) && w < |v.roots| && j < |v.roots[w].inuse| && !v.roots[w].inuse[j]
    ensures Ok(ReservedSlot(v, w, j)) && (w, j) !in v.reserved
  {
    Unseal(v, 4);
    MarkKeepsRefs(v.roots, v.info, v.reserved, w, j);
    SamePagesHeld(v.held, v.roots, v.info, Marking(v.roots, w, j));
    assert (w, j) in v.reserved ==> Marked(v.roots, (w, j));
    Unseal(ReservedSlot(v, w, j), 4);
  }

  lemma RootsOf(v: View)
    requires Ok(v)
    ensures |v.roots| == NUM_ROOTS && forall w :: 0 <= w < NUM_ROOTS ==> RootOk(v.roots[w])
  {
    Unseal(v, 4);
  }

  predicate AllSet(root: Root)
  {
    forall k :: 0 <= k < |root.inuse| ==> root.inuse[k]
  }

  /** Bit j of root w is clear, and none before it is. */
  predicate FirstClear(roots: seq<Root>, w: nat, j: nat)
  {
    && w < |roots| && j < |roots[w].inuse| && !roots[w].inuse[j]
    && (forall u :: 0 <= u < w ==> AllSet(roots[u])) && forall k :: 0 <= k < j ==> roots[w].inuse[k]
  }

  /** The search of allocpageref: the first clear bit of the first root that is not full. */
  method FindClear(roots: seq<Root>) returns (found: bool, w: nat, j: nat)
    requires forall u :: 0 <= u < |roots| ==> RootOk(roots[u])
    ensures found ==> FirstClear(roots, w, j)
    ensures !found ==> forall u :: 0 <= u < |roots| ==> AllSet(roots[u])
  {
    w, j, found := 0, 0, false;
    while w < |roots|
      invariant w <= |roots| && !found
      invariant forall u :: 0 <= u < w ==> AllSet(roots[u])
    {
      assert RootOk(roots[w]);
      TakenFull(roots[w].inuse);
      if roots[w].numinuse < REFS_PER_PAGE {
        j := 0;
        while j < REFS_PER_PAGE
          invariant j <= REFS_PER_PAGE && forall k :: 0 <= k < j ==> roots[w].inuse[k]
        {
          if !roots[w].inuse[j] { found := true; return; }
          j := j + 1;
        }
        assert false;
      }
      w := w + 1;
    }
  }

  // ----- The page of pagerefs of a root

  ghost function Installed(v: View, w: nat, va: int): View
    requires w < |v.roots|
  {
    v.(roots := v.roots[w := v.roots[w].(page := va)], held := v.held[va := Region(1, OfRoot(w))])
  }

  lemma InstallKeepsHeld(held: map<int, Region>, roots: seq<Root>, info: map<int, Info>, w: nat, va: int)
    requires HeldOk(held, roots, info) && w < |roots| && va in held && held[va] == Region(1, InFlight)
    ensures HeldOk(held[va := Region(1, OfRoot(w))], roots[w := roots[w].(page := va)], info)
  {
    var held', roots' := held[va := Region(1, OfRoot(w))], roots[w := roots[w].(page := va)];
    forall a, b | a in held' && b in held' && a != b ensures Apart(held', a, b) {
      assert Apart(held, a, b);
    }
    forall u | 0 <= u < |roots'| && roots'[u].page != 0
      ensures roots'[u].page in held' && held'[roots'[u].page] == Region(1, OfRoot(u))
    {
      if u != w { assert held[roots[u].page] == Region(1, OfRoot(u)); }
    }
    forall q | q in info ensures info[q].page in held' && held'[info[q].page] == Region(1, OfRef(q)) {
      assert held[info[q].page] == Region(1, OfRef(q));
    }
  }

  lemma InstallKeepsRefs(roots: seq<Root>, info: map<int, Info>, reserved: set<(nat, nat)>, w: nat, va: int)
    requires RefsOk(roots, info, reserved) && w < |roots| && roots[w].page == 0 && va > 0
    ensures RefsOk(roots[w := roots[w].(page := va)], info, reserved)
  {
    var roots' := roots[w := roots[w].(page := va)];
    forall u | 0 <= u < NUM_ROOTS ensures RootOk(roots'[u]) {
      assert RootOk(roots[u]);
    }
    forall q | q in info ensures RefOk(roots', info[q], q) {
      assert RefOk(roots, info[q], q);
    }
    forall e | e in reserved ensures Marked(roots', e) {
      assert Marked(roots, e);
    }
  }

  lemma InstallKeeps(v: View, w: nat, va: int)
    requires Ok(v) && w < |v.roots| && v.roots[w].page == 0 && va > 0
    requires va in v.held && v.held[va] == Region(1, InFlight)
    ensures Ok(Installed(v, w, va))
  {
    Unseal(v, 4);
    InstallKeepsRefs(v.roots, v.info, v.reserved, w, va);
    InstallKeepsHeld(v.held, v.roots, v.info, w, va);
    Unseal(Installed(v, w, va), 4);
  }

  // ----- Finding the page of a pointer

  /** The first loop of subpage_kfree. */
  method FindPage(next: map<int, int>, pab: map<int, int>, base: int, p: int, ghost list: seq<int>) returns (r: int)
    requires IsChain(next, base, list)
    requires forall q :: q in list ==> q in pab && BlkType(pab[q]) < NUM_SIZES
    ensures r == 0 ==> forall q :: q in list ==> !(PageAddr(pab[q]) <= p < PageAddr(pab[q]) + PAGE_SIZE)
    ensures r != 0 ==> r in list && PageAddr(pab[r]) <= p < PageAddr(pab[r]) + PAGE_SIZE
  {
    ghost var k := 0;
    r := base;
    while r != 0
      invariant k <= |list| && r == Nth(list, k)
      invariant forall q :: q in list[..k] ==> !(PageAddr(pab[q]) <= p < PageAddr(pab[q]) + PAGE_SIZE)
      decreases |list| - k
    {
      assert Linked(next, list, k);
      var prpage := PageAddr(pab[r]);
      assert BlkType(pab[r]) < NUM_SIZES;
      if prpage <= p < prpage + PAGE_SIZE { return; }
      assert list[..k + 1] == list[..k] + [list[k]];
      r, k := next[r], k + 1;
    }
    EndsInNull(next, base, list, k);
    assert list[..k] == list;
  }

  // ----- What clients own

  /** A block of sz bytes at p is in a client's hands: part of heap page r ... */
  ghost predicate InPage(v: View, r: int, p: int, sz: nat)
  {
    r in v.info && p in v.info[r].used && v.info[r].used[p] == sz
  }

  /** ... or whole pages. */
  ghost predicate IsWhole(v: View, p: int, sz: nat)
  {
    p in v.held && v.held[p].role == Whole(sz)
  }

  ghost predicate IsLive(v: View, p: int, sz: nat)
  {
    (exists r :: InPage(v, r, p, sz)) || IsWhole(v, p, sz)
  }

  /** The page of r lies in a region of its own, and the block inside the page. */
  lemma InPageWhere(v: View, r: int, p: int, sz: nat)
    requires CoreOk(v) && InPage(v, r, p, sz)
    ensures var i := v.info[r];
            && i.blk < NUM_SIZES && p in Blocks(i.page, i.blk) && sz <= Size(i.blk)
            && i.page <= p && p + Size(i.blk) <= i.page + PAGE_SIZE
            && i.page in v.held && v.held[i.page] == Region(1, OfRef(r))
  {
    var i := v.info[r];
    PageOf(v, r);
    Unfold(i, 3);
    BlockInside(i.page, i.blk, p);
  }

  /** No two live blocks overlap, and a live block is of one size. */
  lemma LiveApart(v: View, p: int, sz: nat, q: int, tz: nat)
    requires Ok(v) && IsLive(v, p, sz) && IsLive(v, q, tz)
    ensures p == q ==> sz == tz
    ensures p != q ==> p + sz <= q || q + tz <= p
  {
    Unseal(v, 4);
    if r :| InPage(v, r, p, sz) {
      if t :| InPage(v, t, q, tz) {
        BothInPages(v, r, p, sz, t, q, tz);
      } else {
        PageAndWhole(v, r, p, sz, q, tz);
      }
    } else if t :| InPage(v, t, q, tz) {
      PageAndWhole(v, t, q, tz, p, sz);
    } else if p != q {
      assert Apart(v.held, p, q);
      assert RegionOk(p, v.held[p]) && RegionOk(q, v.held[q]);
    }
  }

  lemma BothInPages(v: View, r: int, p: int, sz: nat, t: int, q: int, tz: nat)
    requires CoreOk(v) && InPage(v, r, p, sz) && InPage(v, t, q, tz)
    ensures p == q ==> r == t && sz == tz
    ensures p != q ==> p + sz <= q || q + tz <= p
  {
    InPageWhere(v, r, p, sz);
    InPageWhere(v, t, q, tz);
    if r != t {
      PagesApart(v.held, v.roots, v.info, r, t);
    } else if p < q {
      BlocksApart(v.info[r].page, v.info[r].blk, p, q);
    } else if q < p {
      BlocksApart(v.info[r].page, v.info[r].blk, q, p);
    }
  }

  lemma PageAndWhole(v: View, r: int, p: int, sz: nat, q: int, tz: nat)
    requires CoreOk(v) && InPage(v, r, p, sz) && IsWhole(v, q, tz)
    ensures p != q && (p + sz <= q || q + tz <= p)
  {
    InPageWhere(v, r, p, sz);
    assert Apart(v.held, v.info[r].page, q);
    assert RegionOk(q, v.held[q]);
  }

  /** No free list runs through a live block. */
  lemma LiveNotFree(v: View, p: int, sz: nat, x: int, q: int)
    requires CoreOk(v) && IsLive(v, p, sz) && p <= x < p + sz && q in v.info
    ensures x !in v.info[q].fl
  {
    var i := v.info[q];
    PageOf(v, q);
    FreeIs(i, x);
    if r :| InPage(v, r, p, sz) {
      InPageWhere(v, r, p, sz);
      if r != q {
        PagesApart(v.held, v.roots, v.info, r, q);
      } else if p < x && x in i.fl {
        BlocksApart(i.page, i.blk, p, x);
      }
    } else {
      HeldApart(v.held, v.roots, v.info, i.page, p);
      assert RegionOk(p, v.held[p]);
    }
  }

  /** Whatever a client stores in its own block, the heap stays in order. */
  lemma ClientWrite(v: View, p: int, sz: nat, x: int, y: int)
    requires Valid(v) && IsLive(v, p, sz) && p <= x < p + sz
    ensures Valid(v.(link := v.link[x := y]))
  {
    Unseal(v, 4);
    var v' := v.(link := v.link[x := y]);
    forall q | q in v.info
      ensures q in v.pab && q in v.offset && q in v.nfree
      ensures PageOk(v.info[q], v.pab[q], v.offset[q], v.nfree[q], v'.link)
    {
      PageOf(v, q);
      LiveNotFree(v, p, sz, x, q);
      PageFrame(v.info[q], v.pab[q], v.offset[q], v.nfree[q], v.link, v'.link);
    }
    Unseal(v', 4);
  }

  /** Block p of sz bytes is new, and nothing else changed hands. */
  ghost predicate OnlyAdds(v: View, v': View, p: int, sz: nat)
  {
    && (forall t :: !IsLive(v, p, t))
    && forall q, t :: IsLive(v', q, t) <==> IsLive(v, q, t) || (q == p && t == sz)
  }

  ghost predicate OnlyRemoves(v: View, v': View, p: int)
  {
    forall q, t :: IsLive(v', q, t) <==> IsLive(v, q, t) && q != p
  }

  ghost predicate SameLive(v: View, v': View)
  {
    forall q, t :: IsLive(v', q, t) <==> IsLive(v, q, t)
  }

  lemma WholeElsewhere(v: View, r: int, p: int, t: nat)
    requires CoreOk(v) && r in v.info && IsWhole(v, p, t)
    ensures !(v.info[r].page <= p < v.info[r].page + PAGE_SIZE)
  {
    assert v.held[v.info[r].page] == Region(1, OfRef(r));
    assert Apart(v.held, v.info[r].page, p);
    assert RegionOk(p, v.held[p]);
  }

  /** A pointer into heap page r is live only as one of its blocks in use. */
  lemma LiveOnPage(v: View, r: int, p: int, t: nat)
    requires CoreOk(v) && r in v.info && v.info[r].page <= p < v.info[r].page + PAGE_SIZE
    ensures IsLive(v, p, t) <==> InPage(v, r, p, t)
  {
    assert v.held[v.info[r].page] == Region(1, OfRef(r));
    if IsWhole(v, p, t) {
      WholeElsewhere(v, r, p, t);
    } else if q :| InPage(v, q, p, t) && q != r {
      InPageWhere(v, q, p, t);
      PagesApart(v.held, v.roots, v.info, r, q);
    }
  }

  lemma TakeAdds(v: View, v': View, r: int, sz: nat)
    requires Ok(v) && r in v.info && v.info[r].fl != []
    requires v'.info == v.info[r := Given(v.info[r], sz)] && v'.held == v.held
    ensures OnlyAdds(v, v', v.info[r].fl[0], sz)
  {
    Unseal(v, 4);
    var i, p := v.info[r], v.info[r].fl[0];
    PageOf(v, r);
    FreeIs(i, p);
    forall t ensures !IsLive(v, p, t) {
      LiveOnPage(v, r, p, t);
    }
    forall q, t ensures IsLive(v', q, t) <==> IsLive(v, q, t) || (q == p && t == sz) {
      UpdateLive(v, v', r, p, q, t);
      if q == p { LiveIn(v', r, p, sz); }
    }
  }

  lemma LiveIn(v: View, r: int, p: int, sz: nat)
    requires InPage(v, r, p, sz)
    ensures IsLive(v, p, sz)
  {}

  /** Changing only whether p is in use on page r concerns no other block. */
  lemma UpdateLive(v: View, v': View, r: int, p: int, q: int, t: nat)
    requires v'.held == v.held && r in v.info && v'.info.Keys == v.info.Keys
    requires forall x :: x in v.info && x != r ==> v'.info[x] == v.info[x]
    requires forall x :: x != p ==>
               && (x in v'.info[r].used <==> x in v.info[r].used)
               && (x in v.info[r].used && x in v'.info[r].used ==> v'.info[r].used[x] == v.info[r].used[x])
    ensures q != p ==> (IsLive(v', q, t) <==> IsLive(v, q, t))
    ensures q == p ==> (IsLive(v', q, t) <==>
            InPage(v', r, p, t) || IsWhole(v, p, t) || exists x :: x != r && InPage(v, x, p, t))
  {
    forall x ensures x != r || q != p ==> (InPage(v', x, q, t) <==> InPage(v, x, q, t)) {}
  }

  lemma PutRemoves(v: View, v': View, r: int, p: int)
    requires Ok(v) && r in v.info && p in v.info[r].used
    requires v'.info == v.info[r := Returned(v.info[r], p)] && v'.held == v.held
    ensures OnlyRemoves(v, v', p)
  {
    Unseal(v, 4);
    forall q, t ensures IsLive(v', q, t) <==> IsLive(v, q, t) && q != p {
      UpdateLive(v, v', r, p, q, t);
      if q == p { PutGone(v, v', r, p, t); }
    }
  }

  lemma PutGone(v: View, v': View, r: int, p: int, t: nat)
    requires CoreOk(v) && r in v.info && p in v.info[r].used
    requires v'.info == v.info[r := Returned(v.info[r], p)] && v'.held == v.held
    ensures !IsLive(v', p, t)
  {
    InPageWhere(v, r, p, v.info[r].used[p]);
    if IsWhole(v, p, t) {
      PageAndWhole(v, r, p, v.info[r].used[p], p, t);
    } else if x :| InPage(v', x, p, t) {
      BothInPages(v, r, p, v.info[r].used[p], x, p, t);
    }
  }

  /** A page with no block in use comes or goes; page is its address. */
  lemma EmptyPageSameLive(v: View, v': View, r: int, page: int)
    requires r in v'.info && v'.info[r].used == map[] && (r in v.info ==> v.info[r].used == map[])
    requires forall x :: x != r ==>
             (x in v.info <==> x in v'.info) && (x in v.info && x in v'.info ==> v.info[x] == v'.info[x])
    requires forall x :: x != page ==>
             (x in v.held <==> x in v'.held) && (x in v.held && x in v'.held ==> v.held[x] == v'.held[x])
    requires page in v.held && page in v'.held && !v.held[page].role.Whole? && !v'.held[page].role.Whole?
    ensures SameLive(v, v') && SameLive(v', v)
  {
    forall x, q, t ensures InPage(v', x, q, t) <==> InPage(v, x, q, t) {}
  }

  // ----- The page allocator

  /** Pages that no one holds. */
  ghost predicate Unheld(held: map<int, Region>, a: int, n: nat)
  {
    && a > 0 && a % PAGE_SIZE == 0 && n > 0
    && forall b :: b in held ==> a + PAGE_SIZE * n <= b || b + PAGE_SIZE * held[b].npages <= a
  }

  ghost function Acquired(v: View, a: int, n: nat, role: Role): View
  {
    v.(held := v.held[a := Region(n, role)])
  }

  ghost function Released(v: View, a: int): View
  {
    v.(held := v.held - {a})
  }

  lemma AcquireKeeps(v: View, a: int, n: nat, role: Role)
    requires Ok(v) && Unheld(v.held, a, n)
    requires role == InFlight || (role.Whole? && role.size <= PAGE_SIZE * n)
    ensures a !in v.held && Ok(Acquired(v, a, n, role))
  {
    Unseal(v, 4);
    NotYetHeld(v.held, v.roots, v.info, a, n);
    AcquireKeepsHeld(v.held, v.roots, v.info, a, n, role);
    Unseal(Acquired(v, a, n, role), 4);
  }

  lemma NotYetHeld(held: map<int, Region>, roots: seq<Root>, info: map<int, Info>, a: int, n: nat)
    requires HeldOk(held, roots, info) && Unheld(held, a, n)
    ensures a !in held
  {
    assert a in held ==> RegionOk(a, held[a]);
  }

  lemma AcquireKeepsHeld(held: map<int, Region>, roots: seq<Root>, info: map<int, Info>, a: int, n: nat, role: Role)
    requires HeldOk(held, roots, info) && Unheld(held, a, n) && a !in held
    requires role == InFlight || (role.Whole? && role.size <= PAGE_SIZE * n)
    ensures HeldOk(held[a := Region(n, role)], roots, info)
  {
    var held' := held[a := Region(n, role)];
    forall b, c | b in held' && c in held' && b != c ensures Apart(held', b, c) {
      if b != a && c != a { assert Apart(held, b, c); }
    }
    forall b | b in held' ensures RegionOk(b, held'[b]) {
      if b != a { assert RegionOk(b, held[b]); }
    }
  }

  lemma ReleaseKeeps(v: View, a: int)
    requires Ok(v) && a in v.held && (v.held[a].role == InFlight || v.held[a].role.Whole?)
    ensures Ok(Released(v, a))
  {
    Unseal(v, 4);
    ReleaseKeepsHeld(v.held, v.roots, v.info, a);
    Unseal(Released(v, a), 4);
  }

  lemma ReleaseKeepsHeld(held: map<int, Region>, roots: seq<Root>, info: map<int, Info>, a: int)
    requires HeldOk(held, roots, info) && a in held && (held[a].role == InFlight || held[a].role.Whole?)
    ensures HeldOk(held - {a}, roots, info)
  {
    var held' := held - {a};
    forall b, c | b in held' && c in held' && b != c ensures Apart(held', b, c) {
      assert Apart(held, b, c);
    }
    forall r | r in info ensures info[r].page in held' && held'[info[r].page] == Region(1, OfRef(r)) {
      assert held[info[r].page] == Region(1, OfRef(r));
    }
    forall w | 0 <= w < |roots| && roots[w].page != 0
        ensures roots[w].page in held' && held'[roots[w].page] == Region(1, OfRoot(w)) {
      assert held[roots[w].page] == Region(1, OfRoot(w));
    }
  }

  // ----- When the lock is free

  /** The heap when kmalloc_spinlock is free: in order, with no page wholly free. */
  ghost predicate Valid(v: View)
  {
    Ok(v) && forall r :: r in v.info ==> v.info[r].used != map[]
  }

  /** Giving back p empties the page of pageref r, and freepageref would meet a root with bits
      set but no page before it reaches the root of r. */
  ghost predicate PanicsAt(v: View, p: int, r: int)
  {
    && r in v.info && v.info[r].used.Keys == {p}
    && v.info[r].root < |v.roots| && !RootsFilled(v.roots, v.info[r].root)
  }

  ghost predicate WouldPanic(v: View, p: int)
  {
    exists r :: PanicsAt(v, p, r)
  }

  /** Of all pages, only the one p is on counts for that. */
  lemma PanicOn(v: View, r: int, p: int)
    requires Ok(v) && r in v.info && p in v.info[r].used
    ensures v.info[r].root < |v.roots|
    ensures (WouldPanic(v, p) <==> v.info[r].used.Keys == {p} && !RootsFilled(v.roots, v.info[r].root))
  {
    Unseal(v, 4);
    assert RefOk(v.roots, v.info[r], r);
    assert PanicsAt(v, p, r) <==> v.info[r].used.Keys == {p} && !RootsFilled(v.roots, v.info[r].root);
    if q :| PanicsAt(v, p, q) {
      assert p in v.info[q].used;
      BothInPages(v, r, p, v.info[r].used[p], q, p, v.info[q].used[p]);
    }
  }

  lemma WholeNoPanic(v: View, p: int, sz: nat)
    requires Ok(v) && IsWhole(v, p, sz)
    ensures !WouldPanic(v, p)
  {
    if r :| PanicsAt(v, p, r) {
      Unseal(v, 4);
      assert p in v.info[r].used;
      PageAndWhole(v, r, p, v.info[r].used[p], p, sz);
    }
  }

  /** The number of pages kmalloc asks for, computed in 32-bit arithmetic. */
  function NPages(sz: nat): nat
  {
    (sz + PAGE_SIZE - 1) % 0x1_0000_0000 / PAGE_SIZE
  }

  /** They cover the request exactly when it is not within a page of the address-space size. */
  lemma NPagesCover(sz: nat)
    requires 0 < sz < 0x1_0000_0000
    ensures sz <= PAGE_SIZE * NPages(sz) <==> sz <= 0x1_0000_0000 - PAGE_SIZE
    ensures sz <= 0x1_0000_0000 - PAGE_SIZE ==> PAGE_SIZE * (NPages(sz) - 1) < sz
  {}

  /** For the largest request kmalloc asks for no page at all. */
  lemma NPagesWraps()
    ensures NPages(0xffff_ffff) == 0
  {}

  /** Which of the block sizes a request gets: the smallest that holds it. */
  method BlockType(sz: nat) returns (b: nat)
    requires sz <= 2048
    ensures b < NUM_SIZES && sz <= Size(b) && forall c: nat :: c < b ==> Size(c) < sz
  {
    b := 0;
    while b < NUM_SIZES
      invariant b <= NUM_SIZES && (b > 0 ==> Size(b - 1) < sz) && forall c: nat :: c < b ==> Size(c) < sz
    {
      if sz <= Size(b) { return; }
      b := b + 1;
    }
  }

  lemma WholeAligned(v: View, p: int, sz: nat)
    requires Ok(v) && IsWhole(v, p, sz)
    ensures p % PAGE_SIZE == 0
  {
    Unseal(v, 4);
    assert RegionOk(p, v.held[p]);
  }

  lemma ReleaseLive(v: View, v': View, a: int)
    requires Ok(v) && v' == Released(v, a) && a in v.held
    ensures v.held[a].role.Whole? ==> OnlyRemoves(v, v', a)
    ensures !v.held[a].role.Whole? ==> SameLive(v, v') && SameLive(v', v)
  {
    forall x, q, t ensures InPage(v', x, q, t) <==> InPage(v, x, q, t) {}
    forall q, t ensures IsWhole(v', q, t) <==> IsWhole(v, q, t) && q != a {}
    if v.held[a].role.Whole? {
      var sz := v.held[a].role.size;
      Unseal(v, 4);
      forall r, t ensures !InPage(v, r, a, t) {
        if InPage(v, r, a, t) { PageAndWhole(v, r, a, t, a, sz); }
      }
    }
  }

  /** Pages a call got for a large request become the client's. */
  lemma AssignKeeps(v: View, a: int, sz: nat)
    requires Valid(v) && a in v.held && v.held[a].role == InFlight && sz <= PAGE_SIZE * v.held[a].npages
    ensures var v' := Acquired(v, a, v.held[a].npages, Whole(sz)); Valid(v') && OnlyAdds(v, v', a, sz)
  {
    var v' := Acquired(v, a, v.held[a].npages, Whole(sz));
    Unseal(v, 4);
    AssignKeepsHeld(v.held, v.roots, v.info, a, sz);
    Unseal(v', 4);
    forall x, q, t ensures InPage(v', x, q, t) <==> InPage(v, x, q, t) {}
    forall r, t ensures !InPage(v, r, a, t) {
      if InPage(v, r, a, t) { PageAndFlight(v, r, a, t); }
    }
  }

  lemma PageAndFlight(v: View, r: int, p: int, sz: nat)
    requires CoreOk(v) && InPage(v, r, p, sz)
    ensures !(p in v.held && v.held[p].role == InFlight)
  {
    InPageWhere(v, r, p, sz);
    if p in v.held && p != v.info[r].page { HeldApart(v.held, v.roots, v.info, v.info[r].page, p); }
  }

  lemma HeldApart(held: map<int, Region>, roots: seq<Root>, info: map<int, Info>, a: int, b: int)
    requires HeldOk(held, roots, info) && a in held && b in held && a != b
    ensures a + PAGE_SIZE * held[a].npages <= b || b + PAGE_SIZE * held[b].npages <= a
  {
    assert Apart(held, a, b);
  }

  lemma AssignKeepsHeld(held: map<int, Region>, roots: seq<Root>, info: map<int, Info>, a: int, sz: nat)
    requires HeldOk(held, roots, info) && a in held && held[a].role == InFlight && sz <= PAGE_SIZE * held[a].npages
    ensures HeldOk(held[a := Region(held[a].npages, Whole(sz))], roots, info)
  {
    var held' := held[a := Region(held[a].npages, Whole(sz))];
    forall b, c | b in held' && c in held' && b != c ensures Apart(held', b, c) {
      assert Apart(held, b, c);
    }
    forall b | b in held' ensures RegionOk(b, held'[b]) {
      assert RegionOk(b, held[b]);
    }
    forall r | r in info ensures info[r].page in held' && held'[info[r].page] == Region(1, OfRef(r)) {
      assert held[info[r].page] == Region(1, OfRef(r));
    }
    forall w | 0 <= w < |roots| && roots[w].page != 0
        ensures roots[w].page in held' && held'[roots[w].page] == Region(1, OfRoot(w)) {
      assert held[roots[w].page] == Region(1, OfRoot(w));
    }
  }

  /** The page found for a pointer is the one it is a block of. */
  lemma FreeReads(v: View, p: int)
    requires Ok(v)
    ensures IsChain(v.nextAll, v.allbase, v.all) && forall q :: q in v.all <==> q in v.info
    ensures forall q :: q in v.info ==>
            q in v.pab && BlkType(v.pab[q]) < NUM_SIZES && PageAddr(v.pab[q]) == v.info[q].page
    ensures forall q, t :: q in v.info && v.info[q].page <= p < v.info[q].page + PAGE_SIZE ==>
            (IsLive(v, p, t) <==> InPage(v, q, p, t))
    ensures forall q :: q in v.info && p in v.info[q].used ==> v.info[q].page <= p < v.info[q].page + PAGE_SIZE
    ensures forall q, t :: q in v.info && IsWhole(v, p, t) ==> !(v.info[q].page <= p < v.info[q].page + PAGE_SIZE)
  {
    Unseal(v, 4);
    forall q, t | q in v.info && IsWhole(v, p, t) ensures !(v.info[q].page <= p < v.info[q].page + PAGE_SIZE) {
      WholeElsewhere(v, q, p, t);
    }
    forall q ensures q in v.all <==> q in v.info {
      assert multiset(v.all)[q] == multiset(v.info.Keys)[q];
    }
    forall q | q in v.info ensures q in v.pab && BlkType(v.pab[q]) < NUM_SIZES && PageAddr(v.pab[q]) == v.info[q].page {
      PageOf(v, q);
    }
    forall q, t | q in v.info && v.info[q].page <= p < v.info[q].page + PAGE_SIZE
        ensures IsLive(v, p, t) <==> InPage(v, q, p, t) {
      LiveOnPage(v, q, p, t);
    }
    forall q | q in v.info && p in v.info[q].used ensures v.info[q].page <= p < v.info[q].page + PAGE_SIZE {
      InPageWhere(v, q, p, v.info[q].used[p]);
    }
  }

  lemma PutCounts(v: View, r: int, p: int)
    requires Ok(v) && r in v.info && p in v.info[r].used
    ensures r in v.nfree && r in v.pab && v.info[r].blk < NUM_SIZES && BlkType(v.pab[r]) == v.info[r].blk
    ensures v.nfree[r] + 1 <= NumBlocks(v.info[r].blk)
    ensures (v.nfree[r] + 1 == NumBlocks(v.info[r].blk) <==> v.info[r].used.Keys == {p})
    ensures v.info[r].used.Keys == {p} <==> Returned(v.info[r], p).used == map[]
    ensures PageAddr(v.pab[r]) == v.info[r].page && v.info[r].page in v.held
    ensures v.held[v.info[r].page] == Region(1, OfRef(r))
    ensures v.info[r].root < |v.roots|
  {
    Unseal(v, 4);
    PutReads(v, r, p);
    assert RefOk(v.roots, v.info[r], r);
    var u, u' := v.info[r].used, Returned(v.info[r], p).used;
    assert u'.Keys == u.Keys - {p} && u.Keys == u'.Keys + {p};
    assert u' == map[] <==> u'.Keys == {};
  }

  lemma RemovesThenSame(v: View, v1: View, v2: View, p: int)
    requires OnlyRemoves(v, v1, p) && SameLive(v2, v1)
    ensures OnlyRemoves(v, v2, p)
  {}

  lemma AddsAfterSame(v: View, v1: View, v2: View, p: int, sz: nat)
    requires SameLive(v, v1) && OnlyAdds(v1, v2, p, sz)
    ensures OnlyAdds(v, v2, p, sz)
  {}

  lemma LivePositive(v: View, p: int, sz: nat)
    requires Ok(v) && IsLive(v, p, sz)
    ensures p > 0
  {
    Unseal(v, 4);
    if r :| InPage(v, r, p, sz) {
      PageOf(v, r);
      InPageWhere(v, r, p, sz);
    } else {
      assert RegionOk(p, v.held[p]);
    }
  }

  lemma FreshHasBlocks(w: nat, j: nat, page: int, b: nat)
    requires b < NUM_SIZES
    ensures Fresh(w, j, page, b).fl != [] && Fresh(w, j, page, b).used == map[]
  {
    LadderLength(page, Size(b), NumBlocks(b));
  }

  lemma SearchReads(v: View, b: nat)
    requires Ok(v) && b < NUM_SIZES
    ensures |v.sizebases| == |v.same| == NUM_SIZES && IsChain(v.nextSame, v.sizebases[b], v.same[b])
    ensures forall q :: q in v.same[b] <==> q in v.info && v.info[q].blk == b
    ensures forall q :: q in v.info ==>
            q in v.pab && q in v.nfree && v.nfree[q] == |v.info[q].fl| && BlkType(v.pab[q]) == v.info[q].blk
  {
    Unseal(v, 4);
    assert SizeListOk(v.nextSame, v.sizebases[b], v.same[b], v.info, b);
    forall q ensures q in v.same[b] <==> q in v.info && v.info[q].blk == b {
      SizeListHas(v.nextSame, v.sizebases[b], v.same[b], v.info, b, q);
    }
    forall q | q in v.info
        ensures q in v.pab && q in v.nfree && v.nfree[q] == |v.info[q].fl| && BlkType(v.pab[q]) == v.info[q].blk {
      PageOf(v, q);
    }
  }

  /** What the loops over pagerefs read in one. */
  ghost predicate Described(q: int, pab: map<int, int>, nfree: map<int, int>, info: map<int, Info>)
  {
    && q in info && q in pab && q in nfree && nfree[q] == |info[q].fl|
    && BlkType(pab[q]) == info[q].blk && PageAddr(pab[q]) == info[q].page
  }

  lemma Describe(pab: map<int, int>, offset: map<int, int>, nfree: map<int, int>, link: map<int, int>, info: map<int,
          Info>, q: int)
    requires PagesOk(pab, offset, nfree, link, info) && q in info
    ensures Described(q, pab, nfree, info)
  {
    Unpack(info[q].page, info[q].blk);
  }

  lemma SizeListHas(next: map<int, int>, base: int, list: seq<int>, info: map<int, Info>, b: nat, q: int)
    requires SizeListOk(next, base, list, info, b)
    ensures q in list <==> q in info && info[q].blk == b
  {
    assert q in list <==> multiset(list)[q] > 0;
  }

  /** The search loop of subpage_kmalloc. */
  method FirstWithFree(next: map<int, int>, pab: map<int, int>, nfree: map<int, int>, base: int, b: nat,
                       ghost list: seq<int>) returns (r: int, ghost k: nat)
    requires IsChain(next, base, list)
    requires forall q :: q in list ==> q in pab && q in nfree && BlkType(pab[q]) == b
    ensures r == 0 ==> forall q :: q in list ==> nfree[q] <= 0
    ensures r != 0 ==> k < |list| && r == list[k] && nfree[r] > 0 && forall q :: q in list[..k] ==> nfree[q] <= 0
  {
    k := 0;
    r := base;
    while r != 0
      invariant k <= |list| && r == Nth(list, k)
      invariant forall q :: q in list[..k] ==> nfree[q] <= 0
      decreases |list| - k
    {
      assert Linked(next, list, k);
      assert BlkType(pab[r]) == b;
      if nfree[r] > 0 { return; }
      assert list[..k + 1] == list[..k] + [list[k]];
      r, k := next[r], k + 1;
    }
    EndsInNull(next, base, list, k);
    assert list[..k] == list;
  }

  lemma {:induction false} NoneTaken(n: nat)
    ensures Taken(seq(n, _ => false)) == 0
  {
    if n > 0 {
      NoneTaken(n - 1);
      assert seq(n, _ => false)[1..] == seq(n - 1, _ => false);
    }
  }
}
