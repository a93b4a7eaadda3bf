/** The code of the kernel heap: one method of `Heap` per stretch that runs under
    kmalloc_spinlock, and kmalloc and kfree made of them.

    Each stretch is done by a thread that owns some things (pages it got from the page
    allocator, pageref slots it reserved, live blocks) and is proved to touch nothing that
    another thread owns (`Stretch`). This is what makes calls in progress at the same time
    safe (`OthersRely`, `RunSafe`), also when threads hand blocks to each other. */
module KernelHeap {
  import opened Arith
  import opened Chains
  import opened HeapPage
  import opened Kmalloc

  // ----- What a thread owns

  /** Pages in flight, reserved pageref slots, and live blocks with their sizes. */
  datatype Own = Own(pages: set<int>, slots: set<(nat, nat)>, blocks: set<(int, nat)>)

  const NOTHING := Own({}, {}, {})

  function Page(a: int): Own
  {
    Own({a}, {}, {})
  }

  function Slot(w: nat, j: nat): Own
  {
    Own({}, {(w, j)}, {})
  }

  function Block(p: int, sz: nat): Own
  {
    Own({}, {}, {(p, sz)})
  }

  function Both(o: Own, q: Own): Own
  {
    Own(o.pages + q.pages, o.slots + q.slots, o.blocks + q.blocks)
  }

  ghost predicate Flying(v: View, a: int)
  {
    a in v.held && v.held[a].role == InFlight
  }

  ghost predicate Owns(v: View, o: Own)
  {
    && (forall a :: a in o.pages ==> Flying(v, a))
    && o.slots <= v.reserved
    && (forall b :: b in o.blocks ==> IsLive(v, b.0, b.1))
  }

  ghost predicate Disjoint(o: Own, q: Own)
  {
    o.pages !! q.pages && o.slots !! q.slots && o.blocks !! q.blocks
  }

  /** Pages of pagerefs are never freed. */
  ghost predicate RootsKept(v: View, v': View)
  {
    && |v'.roots| == |v.roots|
    && forall w :: 0 <= w < |v.roots| && v.roots[w].page != 0 ==> v'.roots[w].page == v.roots[w].page
  }

  /** A thread that owns o takes the heap from v to v' and then owns q: what it did not own
      is as it was, what it owns anew no one owned, and the live blocks are exactly those
      that were live and not its own, and those it owns now. */
  ghost predicate Stretch(v: View, v': View, o: Own, q: Own)
  {
    && Valid(v') && Owns(v', q) && RootsKept(v, v')
    && (forall a :: Flying(v, a) && a !in o.pages ==> a in v'.held && v'.held[a] == v.held[a])
    && (forall a, sz: nat :: IsWhole(v, a, sz) && (a, sz) !in o.blocks ==> IsWhole(v', a, sz))
    && (forall a :: a in q.pages && a !in o.pages ==> !Flying(v, a))
    && v.reserved - o.slots <= v'.reserved && (q.slots - o.slots) !! v.reserved
    && (forall p, sz: nat :: IsLive(v', p, sz) <==> (p, sz) in q.blocks || (IsLive(v, p, sz) && (p, sz) !in o.blocks))
    && (forall b :: b in q.blocks && b !in o.blocks ==> Unowned(v, b.0))
  }

  /** No live block starts at p. */
  ghost predicate Unowned(v: View, p: int)
  {
    forall t :: !IsLive(v, p, t)
  }

  /** What a thread that owns o can rely on while it is without the lock. */
  ghost predicate Rely(v: View, v': View, o: Own)
  {
    && Valid(v') && Owns(v', o) && RootsKept(v, v')
    && (forall a :: a in o.pages && a in v.held ==> a in v'.held && v'.held[a] == v.held[a])
    && forall b :: b in o.blocks && IsWhole(v, b.0, b.1) ==> IsWhole(v', b.0, b.1)
  }

  /** A stretch of another thread is such a change, and leaves the two owning different things. */
  lemma OthersRely(v: View, v': View, o: Own, q: Own, q': Own)
    requires Owns(v, o) && Disjoint(o, q) && Stretch(v, v', q, q')
    ensures Rely(v, v', o) && Disjoint(o, q')
  {
    forall b | b in o.blocks ensures IsLive(v', b.0, b.1) && b !in q'.blocks {
      assert IsLive(v, b.0, b.1);
      assert b == (b.0, b.1);
      assert b in q'.blocks ==> Unowned(v, b.0);
    }
    forall a | a in o.pages ensures Flying(v', a) && v'.held[a] == v.held[a] {
      assert Flying(v, a);
    }
    forall a | a in o.pages ensures a !in q'.pages {
      assert Flying(v, a);
    }
  }

  lemma RelyTwice(v: View, v1: View, v2: View, o: Own)
    requires Rely(v, v1, o) && Rely(v1, v2, o)
    ensures Rely(v, v2, o)
  {
    forall a | a in o.pages && a in v.held ensures a in v2.held && v2.held[a] == v.held[a] {
      assert Flying(v1, a);
    }
  }

  lemma RelySelf(v: View, o: Own)
    requires Valid(v) && Owns(v, o)
    ensures Rely(v, v, o)
  {}

  /** What else the thread owns does not matter to a stretch. */
  lemma StretchMore(v: View, v': View, o: Own, q: Own, e: Own)
    requires Owns(v, e) && Disjoint(o, e) && Stretch(v, v', o, q)
    ensures Stretch(v, v', Both(o, e), Both(q, e)) && Rely(v, v', e) && Disjoint(q, e)
  {
    OthersRely(v, v', e, o, q);
    var o', q' := Both(o, e), Both(q, e);
    forall p, sz: nat
      ensures IsLive(v', p, sz) <==> (p, sz) in q'.blocks || (IsLive(v, p, sz) && (p, sz) !in o'.blocks)
    {
      if (p, sz) in e.blocks { assert IsLive(v, (p, sz).0, (p, sz).1); }
    }
  }

  // ----- Runs

  /** The heap and what each thread owns. */
  datatype System = System(v: View, owns: map<nat, Own>)

  /** Every thread owns what it thinks it owns, no two own the same, and no live block is
      without an owner. */
  ghost predicate Sound(y: System)
  {
    && Valid(y.v)
    && (forall t :: t in y.owns ==> Owns(y.v, y.owns[t]))
    && (forall t, u :: t in y.owns && u in y.owns && t != u ==> Disjoint(y.owns[t], y.owns[u]))
    && (forall p, sz: nat :: IsLive(y.v, p, sz) ==> HasOwner(y, p, sz))
  }

  ghost predicate HasOwner(y: System, p: int, sz: nat)
  {
    exists t :: t in y.owns && (p, sz) in y.owns[t].blocks
  }

  /** Thread t does one stretch, or tells thread u of blocks that are u's from then on. */
  datatype Action = Work(t: nat) | Give(t: nat, u: nat, blocks: set<(int, nat)>)

  ghost predicate Worked(y: System, t: nat, y': System)
  {
    && t in y.owns && t in y'.owns && y'.owns == y.owns[t := y'.owns[t]]
    && Stretch(y.v, y'.v, y.owns[t], y'.owns[t])
  }

  ghost predicate Gave(y: System, t: nat, u: nat, blocks: set<(int, nat)>, y': System)
  {
    && t in y.owns && u in y.owns && t != u && blocks <= y.owns[t].blocks && y'.v == y.v
    && var o, q := y.owns[t], y.owns[u];
       y'.owns == y.owns[t := o.(blocks := o.blocks - blocks)][u := q.(blocks := q.blocks + blocks)]
  }

  ghost predicate Next(y: System, a: Action, y': System)
  {
    match a
    case Work(t) => Worked(y, t, y')
    case Give(t, u, blocks) => Gave(y, t, u, blocks, y')
  }

  lemma NextSound(y: System, a: Action, y': System)
    requires Sound(y) && Next(y, a, y')
    ensures Sound(y')
  {
    match a
    case Work(t) => WorkSound(y, t, y');
    case Give(t, u, blocks) => GiveSound(y, t, u, blocks, y');
  }

  lemma WorkSound(y: System, t: nat, y': System)
    requires Sound(y) && Worked(y, t, y')
    ensures Sound(y')
  {
    forall u | u in y'.owns && u != t ensures Owns(y'.v, y'.owns[u]) && Disjoint(y'.owns[u], y'.owns[t]) {
      OthersRely(y.v, y'.v, y.owns[u], y.owns[t], y'.owns[t]);
    }
    forall p, sz: nat | IsLive(y'.v, p, sz) ensures HasOwner(y', p, sz) {
      if (p, sz) !in y'.owns[t].blocks {
        assert HasOwner(y, p, sz);
        OwnerStays(y, t, y', p, sz);
      }
    }
  }

  lemma OwnerStays(y: System, t: nat, y': System, p: int, sz: nat)
    requires HasOwner(y, p, sz) && t in y.owns && t in y'.owns && y'.owns == y.owns[t := y'.owns[t]]
    requires (p, sz) !in y.owns[t].blocks
    ensures HasOwner(y', p, sz)
  {
    var u :| u in y.owns && (p, sz) in y.owns[u].blocks;
    assert u in y'.owns && (p, sz) in y'.owns[u].blocks;
  }

  lemma GiveSound(y: System, t: nat, u: nat, blocks: set<(int, nat)>, y': System)
    requires Sound(y) && Gave(y, t, u, blocks, y')
    ensures Sound(y')
  {
    forall x | x in y'.owns ensures Owns(y'.v, y'.owns[x]) {
      assert Owns(y.v, y.owns[x]) && Owns(y.v, y.owns[t]);
    }
    forall x, z | x in y'.owns && z in y'.owns && x != z ensures Disjoint(y'.owns[x], y'.owns[z]) {
      GiveApart(y, t, u, blocks, y', x, z);
    }
    forall p, sz: nat | IsLive(y'.v, p, sz) ensures HasOwner(y', p, sz) {
      assert HasOwner(y, p, sz);
      OwnerAfter(y, t, u, blocks, y', p, sz);
    }
  }

  lemma GiveApart(y: System, t: nat, u: nat, blocks: set<(int, nat)>, y': System, x: nat, z: nat)
    requires Gave(y, t, u, blocks, y') && x in y'.owns && z in y'.owns && x != z
    requires forall a, b :: a in y.owns && b in y.owns && a != b ==> Disjoint(y.owns[a], y.owns[b])
    ensures Disjoint(y'.owns[x], y'.owns[z])
  {
    assert Disjoint(y.owns[x], y.owns[z]);
    if x != t { assert Disjoint(y.owns[x], y.owns[t]); }
    if z != t { assert Disjoint(y.owns[z], y.owns[t]); }
  }

  lemma OwnerAfter(y: System, t: nat, u: nat, blocks: set<(int, nat)>, y': System, p: int, sz: nat)
    requires Gave(y, t, u, blocks, y') && HasOwner(y, p, sz)
    ensures HasOwner(y', p, sz)
  {
    var x :| x in y.owns && (p, sz) in y.owns[x].blocks;
    var z := if (p, sz) in blocks then u else x;
    assert z in y'.owns && (p, sz) in y'.owns[z].blocks;
  }

  /** From a heap just started, any threads doing stretches and handing blocks on in any
      order. */
  ghost predicate IsRun(tr: seq<System>, acts: seq<Action>)
  {
    && |tr| == |acts| + 1 && Started(tr[0])
    && forall i {:trigger acts[i]} :: 0 <= i < |acts| ==> Next(tr[i], acts[i], tr[i + 1])
  }

  ghost predicate Started(y: System)
  {
    Valid(y.v) && y.v.info == map[] && y.v.held == map[] && forall t :: t in y.owns ==> y.owns[t] == NOTHING
  }

  lemma {:induction false} RunSound(tr: seq<System>, acts: seq<Action>, i: nat)
    requires IsRun(tr, acts) && i < |tr|
    ensures Sound(tr[i])
    decreases i
  {
    if i > 0 {
      RunSound(tr, acts, i - 1);
      NextSound(tr[i - 1], acts[i - 1], tr[i]);
    }
  }

  /** In every run, the live blocks are exactly those that threads own, each by one thread,
      and no two of them overlap. */
  lemma RunSafe(tr: seq<System>, acts: seq<Action>, i: nat, t: nat, u: nat, b: (int, nat), c: (int, nat))
    requires IsRun(tr, acts) && i < |tr| && t in tr[i].owns && u in tr[i].owns
    requires b in tr[i].owns[t].blocks && c in tr[i].owns[u].blocks && (t != u || b != c)
    ensures IsLive(tr[i].v, b.0, b.1) && IsLive(tr[i].v, c.0, c.1)
    ensures b.0 + b.1 <= c.0 || c.0 + c.1 <= b.0
    ensures forall p, sz: nat :: IsLive(tr[i].v, p, sz) ==> HasOwner(tr[i], p, sz)
  {
    RunSound(tr, acts, i);
    var y := tr[i];
    assert IsLive(y.v, b.0, b.1) && IsLive(y.v, c.0, c.1);
    if t != u { assert Disjoint(y.owns[t], y.owns[u]); }
    LiveApart(y.v, b.0, b.1, c.0, c.1);
  }

  /** A block stays with its thread until that thread itself frees it or hands it on, and
      then it is live in the hands of the other. */
  lemma RunKeepsBlock(tr: seq<System>, acts: seq<Action>, i: nat, t: nat, b: (int, nat))
    requires IsRun(tr, acts) && i < |acts| && t in tr[i].owns && b in tr[i].owns[t].blocks && acts[i] != Work(t)
    ensures var a := acts[i];
            var u := if a.Give? && a.t == t && b in a.blocks then a.u else t;
            u in tr[i + 1].owns && b in tr[i + 1].owns[u].blocks && IsLive(tr[i + 1].v, b.0, b.1)
  {
    RunSound(tr, acts, i + 1);
    assert Next(tr[i], acts[i], tr[i + 1]);
  }

  // ----- Each stretch touches only what its thread owns

  /** A block is handed out of a page. */
  lemma StretchTake(v: View, v': View, p: int, sz: nat)
    requires Valid(v) && Valid(v') && OnlyAdds(v, v', p, sz)
    requires v'.held == v.held && v'.reserved == v.reserved && v'.roots == v.roots
    ensures Stretch(v, v', NOTHING, Block(p, sz))
  {
    var q := Block(p, sz);
    forall x, t: nat ensures IsLive(v', x, t) <==> (x, t) in q.blocks || IsLive(v, x, t) {}
    assert Unowned(v, p);
  }

  lemma StretchReserve(v: View, v': View, w: nat, j: nat)
    requires Valid(v) && Valid(v') && v'.info == v.info && v'.held == v.held && RootsKept(v, v')
    requires (w, j) !in v.reserved && v'.reserved == v.reserved + {(w, j)}
    ensures Stretch(v, v', NOTHING, Slot(w, j))
  {
    SameBooks(v, v');
  }

  lemma SameBooks(v: View, v': View)
    requires v'.info == v.info && forall a, sz :: IsWhole(v', a, sz) <==> IsWhole(v, a, sz)
    ensures SameLive(v, v')
  {
    forall x, q, t ensures InPage(v', x, q, t) <==> InPage(v, x, q, t) {}
  }

  lemma StretchInstall(v: View, v': View, w: nat, va: int)
    requires Valid(v) && Valid(v') && v'.info == v.info && v'.reserved == v.reserved && RootsKept(v, v')
    requires Flying(v, va) && v'.held == v.held[va := Region(1, OfRoot(w))]
    ensures Stretch(v, v', Page(va), NOTHING)
  {
    SameBooks(v, v');
  }

  lemma StretchFresh(v: View, v': View, w: nat, j: nat, page: int, r: int, p: int, sz: nat)
    requires Valid(v) && Valid(v') && OnlyAdds(v, v', p, sz) && Flying(v, page) && (w, j) in v.reserved
    requires v'.held == v.held[page := Region(1, OfRef(r))]
    requires v'.reserved == v.reserved - {(w, j)} && v'.roots == v.roots
    ensures Stretch(v, v', Both(Page(page), Slot(w, j)), Block(p, sz))
  {
    var q := Block(p, sz);
    forall x, t: nat ensures IsLive(v', x, t) <==> (x, t) in q.blocks || IsLive(v, x, t) {}
    assert Unowned(v, p);
  }

  /** A block goes back to its page; a != 0 is the page, if it goes to the thread. */
  lemma StretchFree(v: View, v': View, p: int, sz: nat, a: int, q: Own)
    requires Valid(v) && Valid(v') && IsLive(v, p, sz) && OnlyRemoves(v, v', p) && RootsKept(v, v')
    requires v'.reserved == v.reserved
    requires a == 0 ==> q == NOTHING && v'.held == v.held
    requires a != 0 ==> q == Page(a) && a in v.held && v.held[a].role.OfRef?
    requires a != 0 ==> v'.held == v.held[a := Region(1, InFlight)]
    ensures Stretch(v, v', Block(p, sz), q)
  {
    var o := Block(p, sz);
    forall x, t: nat ensures IsLive(v', x, t) <==> (x, t) in q.blocks || (IsLive(v, x, t) && (x, t) !in o.blocks) {
      if x == p && IsLive(v, x, t) { LiveApart(v, p, sz, x, t); }
    }
  }

  /** The page allocator takes pages back: those in flight, or a client's whole pages. */
  lemma StretchRelease(v: View, a: int)
    requires Valid(v) && Flying(v, a)
    ensures Valid(Released(v, a)) && Stretch(v, Released(v, a), Page(a), NOTHING)
  {
    ReleaseKeeps(v, a);
    ReleaseLive(v, Released(v, a), a);
  }

  lemma StretchReleaseWhole(v: View, a: int, sz: nat)
    requires Valid(v) && IsWhole(v, a, sz)
    ensures Valid(Released(v, a)) && Stretch(v, Released(v, a), Block(a, sz), NOTHING)
  {
    var v', o := Released(v, a), Block(a, sz);
    ReleaseKeeps(v, a);
    ReleaseLive(v, v', a);
    forall x, t: nat ensures IsLive(v', x, t) <==> IsLive(v, x, t) && (x, t) !in o.blocks {
      if x == a && IsLive(v, x, t) { LiveApart(v, a, sz, x, t); }
    }
  }

  /** It gives out pages that no one holds. */
  lemma StretchAcquire(v: View, a: int, n: nat)
    requires Valid(v) && Unheld(v.held, a, n)
    ensures var v' := Acquired(v, a, n, InFlight); Valid(v') && Stretch(v, v', NOTHING, Page(a))
  {
    var v' := Acquired(v, a, n, InFlight);
    AcquireKeeps(v, a, n, InFlight);
    SameBooks(v, v');
  }

  /** Whole pages become a client's block. */
  lemma StretchAssign(v: View, a: int, sz: nat)
    requires Valid(v) && Flying(v, a) && sz <= PAGE_SIZE * v.held[a].npages
    ensures var v' := Acquired(v, a, v.held[a].npages, Whole(sz));
            Valid(v') && OnlyAdds(v, v', a, sz) && Stretch(v, v', Page(a), Block(a, sz))
  {
    var v', q := Acquired(v, a, v.held[a].npages, Whole(sz)), Block(a, sz);
    AssignKeeps(v, a, sz);
    forall x, t: nat ensures IsLive(v', x, t) <==> (x, t) in q.blocks || IsLive(v, x, t) {}
    assert Unowned(v, a);
  }

  /** Block p is the last one in use on the heap page at a. */
  ghost predicate LastOn(v: View, p: int, sz: nat, a: int)
  {
    exists r :: InPage(v, r, p, sz) && v.info[r].page == a && v.info[r].used.Keys == {p}
  }

  lemma LastIs(v: View, r: int, p: int, sz: nat, a: int)
    requires Ok(v) && InPage(v, r, p, sz)
    ensures LastOn(v, p, sz, a) <==> v.info[r].page == a && v.info[r].used.Keys == {p}
  {
    Unseal(v, 4);
    if t :| InPage(v, t, p, sz) && v.info[t].page == a && v.info[t].used.Keys == {p} {
      BothInPages(v, r, p, sz, t, p, sz);
    }
  }

  lemma PagePositive(v: View, r: int)
    requires Ok(v) && r in v.info
    ensures v.info[r].page > 0
  {
    Unseal(v, 4);
    PageOf(v, r);
  }

  datatype FreeResult = NotOurs | Freed | PageFreed(page: int) | Panic

  // ----- Where a block comes from

  /** b is the smallest block size that holds sz bytes. */
  predicate Fits(b: nat, sz: nat)
  {
    b < NUM_SIZES && sz <= Size(b) && forall c: nat :: c < b ==> Size(c) < sz
  }

  ghost predicate HasRoom(v: View, r: int, b: nat)
  {
    r in v.info && v.info[r].blk == b && v.info[r].fl != []
  }

  /** Element k of the list of pages of size b is the first with a free block. */
  ghost predicate FirstRoom(v: View, b: nat, k: nat)
  {
    && b < NUM_SIZES == |v.same| && k < |v.same[b]| && HasRoom(v, v.same[b][k], b)
    && forall q :: q in v.same[b][..k] ==> !HasRoom(v, q, b)
  }

  /** Block p has been handed out of an existing page, the first of its size with a free
      block, whose free list it headed; no page changed hands. */
  ghost predicate FromExisting(v: View, v': View, b: nat, p: int, sz: nat)
  {
    && v'.held == v.held && v'.roots == v.roots && v'.reserved == v.reserved
    && exists k: nat :: FirstRoom(v, b, k) && Handed(v, v', v.same[b][k], p, sz)
  }

  ghost predicate Handed(v: View, v': View, r: int, p: int, sz: nat)
  {
    && r in v.info && v.info[r].fl != [] && p == v.info[r].fl[0]
    && v'.info == v.info[r := Given(v.info[r], sz)]
  }

  /** Block p is the first free one of a heap page newly made of this page. */
  ghost predicate FromNew(v: View, v': View, b: nat, page: int, p: int, sz: nat)
  {
    exists r, w, j :: NewPage(v, v', b, page, p, sz, r, w, j)
  }

  ghost predicate NewPage(v: View, v': View, b: nat, page: int, p: int, sz: nat, r: int, w: nat, j: nat)
  {
    && b < NUM_SIZES && r !in v.info && Fresh(w, j, page, b).fl != [] && p == Fresh(w, j, page, b).fl[0]
    && v'.info == v.info[r := Given(Fresh(w, j, page, b), sz)]
  }

  /** No pageref is to be had: all are in use in the heap as it was looked for, or the root of
      the first free one is without a page at the end. */
  ghost predicate NoRef(v: View, v': View)
  {
    || (forall u :: 0 <= u < |v.roots| ==> AllSet(v.roots[u]))
    || (exists w: nat, j: nat :: FirstClear(v.roots, w, j) && w < |v'.roots| && v'.roots[w].page == 0)
  }

  /** With a free pageref, all depends on its root. */
  lemma RefWhen(v: View, v': View, w: nat, j: nat)
    requires FirstClear(v.roots, w, j) && w < |v'.roots|
    ensures NoRef(v, v') <==> v'.roots[w].page == 0
  {
    assert !AllSet(v.roots[w]);
    forall w': nat, j': nat | FirstClear(v.roots, w', j') ensures w' == w {
      assert !AllSet(v.roots[w']);
    }
  }

  /** An answer of the page allocator, with the heap as it was then. */
  datatype Answer = Answer(page: int, ghost heap: View)

  /** How subpage_kmalloc comes to its result, given the answers of the page allocator. With a
      free block of the right size it asks for nothing. Otherwise it asks for a page, and fails
      exactly if there is none, or no pageref for it; then it gives the page back. */
  ghost predicate SmallResult(v: View, before: View, v': View, log: seq<Answer>, log': seq<Answer>, p: int, sz: nat)
  {
    forall b {:trigger Fits(b, sz)} :: Fits(b, sz) ==>
      if exists r :: HasRoom(v, r, b) then
        p != 0 && before == v && log' == log && FromExisting(v, v', b, p, sz)
      else
        log < log' && PageResult(before, v', log, log', b, p, sz)
  }

  /** The part that follows the page allocator's answer. */
  ghost predicate PageResult(before: View, v': View, log: seq<Answer>, log': seq<Answer>, b: nat, p: int, sz: nat)
    requires log < log'
  {
    var a := log'[|log|];
    if a.page == 0 then p == 0 && v' == a.heap && log' == log + [a]
    else
      && (p == 0 <==> NoRef(a.heap, v'))
      && if p == 0 then a.page !in v'.held else FromNew(before, v', b, a.page, p, sz)
  }

  lemma FitsOnce(b: nat, sz: nat)
    requires Fits(b, sz)
    ensures forall c {:trigger Fits(c, sz)} :: Fits(c, sz) ==> c == b
  {}

  /** kmalloc of whole pages returns what the page allocator gave. */
  ghost predicate LargeResult(v': View, log: seq<Answer>, log': seq<Answer>, p: int, sz: nat)
  {
    && log < log' && |log'| == |log| + 1 && log'[|log|].page == p
    && (p != 0 ==> p in v'.held && v'.held[p] == Region(NPages(sz), Whole(sz)))
  }

  class Heap {
    var v: View
    ghost var log: seq<Answer>  // what the page allocator has answered

    /** doalloc: hand out the first free block of page r. */
    method Take(r: int, sz: nat) returns (p: int)
      requires Ok(v) && r in v.info && v.info[r].blk < NUM_SIZES && v.info[r].fl != [] && sz <= Size(v.info[r].blk)
      modifies `v
      ensures Ok(v) && p == old(v).info[r].fl[0] && p !in old(v).info[r].used
      ensures v.info == old(v).info[r := Given(old(v).info[r], sz)] && v.held == old(v).held
      ensures v.reserved == old(v).reserved && v.roots == old(v).roots
    {
      TakeKeeps(v, r, sz);
      var prpage := PageAddr(v.pab[r]);
      assert v.offset[r] < PAGE_SIZE;
      p := prpage + v.offset[r];
      var fl, nf, off := v.link[p], v.nfree[r] - 1, INVALID_OFFSET;
      if fl != 0 {
        assert nf > 0 && fl - prpage < PAGE_SIZE;
        off := fl - prpage;
      } else {
        assert nf == 0;
      }
      v := v.(nfree := v.nfree[r := nf], offset := v.offset[r := off], info := v.info[r := Given(v.info[r], sz)]);
      assert v == Took(old(v), r, sz);
    }

    /** The end of subpage_kfree: link the block at p into the free list of page r. */
    method Put(r: int, p: int)
      requires Ok(v) && r in v.info && p in v.info[r].used
      modifies `v
      ensures Ok(v)
      ensures v.info == old(v).info[r := Returned(old(v).info[r], p)] && v.held == old(v).held
      ensures v.reserved == old(v).reserved && v.roots == old(v).roots
    {
      PutKeeps(v, r, p);
      var prpage := PageAddr(v.pab[r]);
      assert Rem(p - prpage, Size(BlkType(v.pab[r]))) == 0;
      var next := 0;
      if v.offset[r] != INVALID_OFFSET {
        next := prpage + v.offset[r];
        assert p != next;
      }
      v := v.(link := v.link[p := next], offset := v.offset[r := p - prpage], nfree := v.nfree[r := v.nfree[r] + 1],
              info := v.info[r := Returned(v.info[r], p)]);
      assert v == PutBack(old(v), r, p);
    }

    /** The middle of subpage_kmalloc: make a page that this call got from the page allocator
        a heap page, described by the pageref this call reserved. */
    method AddPage(w: nat, j: nat, page: int, b: nat) returns (r: int)
      requires Ok(v) && (w, j) in v.reserved && w < |v.roots| && v.roots[w].page > 0 && b < NUM_SIZES
      requires page > 0 && page in v.held && v.held[page] == Region(1, InFlight)
      modifies `v
      ensures Ok(v) && r == old(v).roots[w].page + REF_SIZE * j && r !in old(v).info
      ensures v.info == old(v).info[r := Fresh(w, j, page, b)] && v.roots == old(v).roots
      ensures v.reserved == old(v).reserved - {(w, j)} && v.held == old(v).held[page := Region(1, OfRef(r))]
    {
      var link', top := Thread(v.link, page, b);
      AddKeeps(v, w, j, page, b, link', top);
      r := v.roots[w].page + REF_SIZE * j;
      ghost var i := Fresh(w, j, page, b);
      v := v.(nextSame := v.nextSame[r := v.sizebases[b]], sizebases := v.sizebases[b := r],
              nextAll := v.nextAll[r := v.allbase], allbase := r,
              pab := v.pab[r := page + b], offset := v.offset[r := top - page],
              nfree := v.nfree[r := NumBlocks(b)], link := link',
              info := v.info[r := i], same := v.same[b := [r] + v.same[b]], all := [r] + v.all,
              reserved := v.reserved - {(w, j)}, held := v.held[page := Region(1, OfRef(r))]);
    }

    /** remove_lists and freepageref, for a page whose blocks are all free. The page is left
        in the hands of the caller, to be given back. */
    method Drop(r: int) returns (ok: bool)
      requires Ok(v) && r in v.info
      modifies `v
      ensures ok ==> Ok(v) && v.info == old(v).info - {r} && v.reserved == old(v).reserved
      ensures ok ==> v.held == old(v).held[old(v).info[r].page := Region(1, InFlight)]
      ensures ok ==> old(v).info[r].root < |old(v).roots|
      ensures ok ==> old(v).info[r].slot < |old(v).roots[old(v).info[r].root].inuse|
      ensures ok ==> v.roots == Cleared(old(v).roots, old(v).info[r].root, old(v).info[r].slot)
      ensures old(v).info[r].root <= |old(v).roots| && (ok <==> RootsFilled(old(v).roots, old(v).info[r].root))
    {
      DropReads(v, r);
      var b := BlkType(v.pab[r]);
      ghost var list', all';
      var nextSame', base', nextAll', allbase', roots';
      nextSame', base', list' := Unlink(v.nextSame, v.sizebases[b], r, v.same[b]);
      nextAll', allbase', all' := Unlink(v.nextAll, v.allbase, r, v.all);
      roots', ok := FreeRef(v.roots, r, v.info, v.held);
      if ok {
        DropKeeps(v, r, nextSame', base', list', nextAll', allbase', all');
        v := v.(nextSame := nextSame', sizebases := v.sizebases[b := base'], same := v.same[b := list'],
                nextAll := nextAll', allbase := allbase', all := all', roots := roots',
                info := v.info - {r}, held := v.held[v.info[r].page := Region(1, InFlight)]);
        assert v == Dropped(old(v), r, nextSame', base', list', nextAll', allbase', all', roots');
      }
    }

    constructor ()
      ensures log == [] && Valid(v) && v.info == map[] && v.held == map[] && v.reserved == {}
      ensures v.roots == seq(NUM_ROOTS, _ => Root(0, seq(REFS_PER_PAGE, _ => false), 0))
    {
      v := View(map[], map[], map[], map[], map[], seq(NUM_SIZES, _ => 0), 0,
                seq(NUM_ROOTS, _ => Root(0, seq(REFS_PER_PAGE, _ => false), 0)), map[], map[], seq(NUM_SIZES, _ => []),
                [], {}, map[]);
      log := [];
      new;
      NoneTaken(REFS_PER_PAGE);
      Unseal(v, 4);
    }

    /** The first stretch of subpage_kmalloc: a free block of an existing page, or null. */
    method FromPage(b: nat, sz: nat) returns (p: int)
      requires Valid(v) && b < NUM_SIZES && sz <= Size(b)
      modifies `v
      ensures Valid(v)
      ensures p == 0 <==> !exists r :: HasRoom(old(v), r, b)
      ensures p == 0 ==> v == old(v)
      ensures p != 0 ==> FromExisting(old(v), v, b, p, sz)
      ensures p != 0 ==> OnlyAdds(old(v), v, p, sz) && Stretch(old(v), v, NOTHING, Block(p, sz))
    {
      var r;
      ghost var k;
      r, k := Search(b);
      if r == 0 { return 0; }
      p := Take(r, sz);
      assert HasRoom(old(v), r, b) && Handed(old(v), v, old(v).same[b][k], p, sz);
      TakeAdds(old(v), v, r, sz);
      LivePositive(v, p, sz);
      StretchTake(old(v), v, p, sz);
    }

    method Search(b: nat) returns (r: int, ghost k: nat)
      requires Ok(v) && b < NUM_SIZES
      ensures r == 0 ==> forall q :: !HasRoom(v, q, b)
      ensures r != 0 ==> FirstRoom(v, b, k) && r == v.same[b][k]
    {
      SearchReads(v, b);
      r, k := FirstWithFree(v.nextSame, v.pab, v.nfree, v.sizebases[b], b, v.same[b]);
      if r != 0 {
        forall q | q in v.same[b][..k] ensures !HasRoom(v, q, b) {
          assert q in v.same[b];
        }
      }
    }

    /** allocpageref up to the point where it may need a page of pagerefs. */
    method Reserve() returns (found: bool, w: nat, j: nat)
      requires Valid(v)
      modifies `v
      ensures Valid(v) && v.info == old(v).info && v.held == old(v).held
      ensures !found ==> v == old(v) && forall u :: 0 <= u < |v.roots| ==> AllSet(v.roots[u])
      ensures found ==> FirstClear(old(v).roots, w, j) && v.roots == Marking(old(v).roots, w, j)
      ensures found ==> Stretch(old(v), v, NOTHING, Slot(w, j))
    {
      RootsOf(v);
      found, w, j := FindClear(v.roots);
      if found {
        ReserveKeeps(v, w, j);
        v := v.(roots := Marking(v.roots, w, j), reserved := v.reserved + {(w, j)});
        StretchReserve(old(v), v, w, j);
      }
    }

    /** allocpagerefpage after its call of the page allocator: install the page, unless there
        is none or another call has been faster. */
    method Install(w: nat, va: int) returns (spare: bool)
      requires Valid(v) && w < |v.roots| && (va == 0 || (va > 0 && va in v.held && v.held[va] == Region(1, InFlight)))
      modifies `v
      ensures Valid(v) && v.info == old(v).info && v.reserved == old(v).reserved
      ensures spare <==> va != 0 && old(v).roots[w].page != 0
      ensures va == 0 || spare ==> v == old(v)
      ensures va != 0 && !spare ==>
                && v.held == old(v).held[va := Region(1, OfRoot(w))]
                && v.roots == old(v).roots[w := old(v).roots[w].(page := va)]
                && Stretch(old(v), v, Page(va), NOTHING)
    {
      spare := va != 0 && v.roots[w].page != 0;
      if va != 0 && !spare {
        InstallKeeps(v, w, va);
        v := v.(roots := v.roots[w := v.roots[w].(page := va)], held := v.held[va := Region(1, OfRoot(w))]);
        StretchInstall(old(v), v, w, va);
      }
    }

    /** The last stretch of subpage_kmalloc: a fresh page, and its first block. */
    method FromFreshPage(w: nat, j: nat, page: int, b: nat, sz: nat) returns (p: int)
      requires Valid(v) && (w, j) in v.reserved && w < |v.roots|
      requires v.roots[w].page > 0 && b < NUM_SIZES && sz <= Size(b)
      requires page > 0 && page in v.held && v.held[page] == Region(1, InFlight)
      modifies `v
      ensures Valid(v) && OnlyAdds(old(v), v, p, sz) && p != 0 && v.roots == old(v).roots
      ensures var r := old(v).roots[w].page + REF_SIZE * j;
              && r !in old(v).info && Fresh(w, j, page, b).fl != [] && p == Fresh(w, j, page, b).fl[0]
              && v.info == old(v).info[r := Given(Fresh(w, j, page, b), sz)]
      ensures FromNew(old(v), v, b, page, p, sz)
      ensures Stretch(old(v), v, Both(Page(page), Slot(w, j)), Block(p, sz))
    {
      var r := AddPage(w, j, page, b);
      FreshHasBlocks(w, j, page, b);
      ghost var v1 := v;
      EmptyPageSameLive(old(v), v1, r, page);
      p := Take(r, sz);
      TakeAdds(v1, v, r, sz);
      AddsAfterSame(old(v), v1, v, p, sz);
      LivePositive(v, p, sz);
      assert NewPage(old(v), v, b, page, p, sz, r, w, j);
      StretchFresh(old(v), v, w, j, page, r, p, sz);
    }

    /** subpage_kfree: a block of a heap page goes back to its page, whose page goes to the
        caller if this was the last block in use; any other live pointer is not ours. */
    method SubpageFree(p: int, ghost sz: nat) returns (res: FreeResult)
      requires Valid(v) && IsLive(v, p, sz)
      modifies `v
      ensures res == NotOurs <==> IsWhole(old(v), p, sz)
      ensures res == NotOurs ==> v == old(v)
      ensures res.Freed? ==> Stretch(old(v), v, Block(p, sz), NOTHING)
      ensures res.PageFreed? ==> LastOn(old(v), p, sz, res.page) && Stretch(old(v), v, Block(p, sz), Page(res.page))
      ensures res.Freed? || res.PageFreed? ==> OnlyRemoves(old(v), v, p)
      ensures res.Freed? ==> forall a :: !LastOn(old(v), p, sz, a)
      ensures res == Panic <==> WouldPanic(old(v), p)
    {
      FreeReads(v, p);
      var r := FindPage(v.nextAll, v.pab, v.allbase, p, v.all);
      if r == 0 {
        WholeNoPanic(v, p, sz);
        return NotOurs;
      }
      assert InPage(v, r, p, sz);
      ghost var v0 := v;
      res := FreeIn(r, p, sz);
      forall a ensures LastOn(v0, p, sz, a) <==> v0.info[r].page == a && v0.info[r].used.Keys == {p} {
        LastIs(v0, r, p, sz, a);
      }
    }

    /** The rest of subpage_kfree, once the page is found. */
    method FreeIn(r: int, p: int, ghost sz: nat) returns (res: FreeResult)
      requires Valid(v) && InPage(v, r, p, sz)
      modifies `v
      ensures res != NotOurs
      ensures res.Freed? ==> Stretch(old(v), v, Block(p, sz), NOTHING) && old(v).info[r].used.Keys != {p}
      ensures res.PageFreed? ==> Stretch(old(v), v, Block(p, sz), Page(res.page)) && old(v).info[r].used.Keys == {p}
      ensures res.PageFreed? ==> res.page == old(v).info[r].page
      ensures res.Freed? || res.PageFreed? ==> OnlyRemoves(old(v), v, p)
      ensures res == Panic <==> WouldPanic(old(v), p)
    {
      PutCounts(v, r, p);
      PanicOn(v, r, p);
      LiveIn(v, r, p, sz);
      var full := v.nfree[r] + 1 == NumBlocks(BlkType(v.pab[r]));
      var page := PageAddr(v.pab[r]);
      Put(r, p);
      PutRemoves(old(v), v, r, p);
      if !full {
        StretchFree(old(v), v, p, sz, 0, NOTHING);
        return Freed;
      }
      ghost var v1 := v;
      var ok := Drop(r);
      if !ok { return Panic; }
      EmptyPageSameLive(v, v1, r, old(v).info[r].page);
      RemovesThenSame(old(v), v1, v, p);
      PagePositive(old(v), r);
      StretchFree(old(v), v, p, sz, page, Page(page));
      res := PageFreed(page);
    }

    /** Any stretches of other threads, while this one, owning o, is without the lock. What
        they may do is the contract (`OthersRely`); doing nothing is one instance of it. */
    method Others(ghost o: Own)
      requires Valid(v) && Owns(v, o)
      modifies `v
      ensures Rely(old(v), v, o)
    {
    }

    /** alloc_kpages, called without the lock: after whatever other threads did (mid), pages
        that no one holds, or null. Having none is one instance of this contract. */
    method AllocPages(n: nat, ghost o: Own) returns (a: int, ghost mid: View)
      requires Valid(v) && Owns(v, o) && n > 0
      modifies this
      ensures Rely(old(v), mid, o) && log == old(log) + [Answer(a, v)]
      ensures a == 0 ==> v == mid
      ensures a != 0 ==> Unheld(mid.held, a, n) && v == Acquired(mid, a, n, InFlight)
    {
      a, mid := 0, v;
      log := log + [Answer(a, v)];
    }

    /** alloc_kpages when it has these pages to give and no other thread is at work. */
    method Grant(a: int, ghost n: nat)
      requires Valid(v) && Unheld(v.held, a, n)
      modifies `v
      ensures Valid(v) && v == Acquired(old(v), a, n, InFlight) && Stretch(old(v), v, NOTHING, Page(a))
    {
      StretchAcquire(v, a, n);
      v := v.(held := v.held[a := Region(n, InFlight)]);
    }

    /** free_kpages, of pages in flight. */
    method FreePages(a: int)
      requires Valid(v) && Flying(v, a)
      modifies `v
      ensures Valid(v) && v == Released(old(v), a) && Stretch(old(v), v, Page(a), NOTHING)
    {
      StretchRelease(v, a);
      v := v.(held := v.held - {a});
    }

    /** free_kpages, of a client's whole pages. */
    method FreeWhole(a: int, ghost sz: nat)
      requires Valid(v) && IsWhole(v, a, sz)
      modifies `v
      ensures Valid(v) && v == Released(old(v), a) && Stretch(old(v), v, Block(a, sz), NOTHING)
    {
      StretchReleaseWhole(v, a, sz);
      v := v.(held := v.held - {a});
    }

    /** kmalloc by a thread that owns o, with other threads at work whenever it is without the
        lock. It keeps what it owns. A pointer it returns is to sz bytes that no one owned in
        the heap as it was (before) when its last stretch began, and nothing else changed
        hands in that stretch. */
    method Kmalloc(sz: nat, ghost o: Own) returns (p: int, ghost before: View)
      requires Valid(v) && Owns(v, o) && sz <= 0x1_0000_0000 - PAGE_SIZE
      modifies this
      ensures Got(old(v), before, v, o, p, sz)
      ensures sz < 2048 ==> SmallResult(old(v), before, v, old(log), log, p, sz)
      ensures sz >= 2048 ==> LargeResult(v, old(log), log, p, sz)
    {
      if sz >= 2048 {
        p, before := WholePages(sz, o);
      } else {
        p, before := SubpageKmalloc(sz, o);
      }
    }

    method WholePages(sz: nat, ghost o: Own) returns (p: int, ghost before: View)
      requires Valid(v) && Owns(v, o) && 2048 <= sz <= 0x1_0000_0000 - PAGE_SIZE
      modifies this
      ensures Got(old(v), before, v, o, p, sz) && LargeResult(v, old(log), log, p, sz)
    {
      NPagesCover(sz);
      p, before := AllocPages(NPages(sz), o);
      if p == 0 { return; }
      AcquiredRely(old(v), before, o, p, NPages(sz));
      before := v;
      StretchAssign(v, p, sz);
      v := v.(held := v.held[p := Region(v.held[p].npages, Whole(sz))]);
      LivePositive(v, p, sz);
      GotBlock(old(v), before, v, o, Page(p), p, sz);
    }

    method SubpageKmalloc(sz: nat, ghost o: Own) returns (p: int, ghost before: View)
      requires Valid(v) && Owns(v, o) && sz < 2048
      modifies this
      ensures Got(old(v), before, v, o, p, sz) && SmallResult(old(v), before, v, old(log), log, p, sz)
    {
      var b := BlockType(sz);
      FitsOnce(b, sz);
      before := v;
      RelySelf(v, o);
      p := FromPage(b, sz);
      if p != 0 {
        GotBlock(old(v), before, v, o, NOTHING, p, sz);
        return;
      }
      var page;
      page, before := AllocPages(1, o);
      if page == 0 { return; }
      AcquiredRely(old(v), before, o, page, 1);
      ghost var v1 := v;
      p, before := OnNewPage(b, sz, page, o);
      assert PageResult(before, v, old(log), log, b, p, sz);
      GotLater(old(v), v1, before, v, o, p, sz);
    }

    /** subpage_kmalloc once it has a page. */
    method OnNewPage(b: nat, sz: nat, page: int, ghost o: Own) returns (p: int, ghost before: View)
      requires Valid(v) && Owns(v, o) && b < NUM_SIZES && sz <= Size(b)
      requires page > 0 && page !in o.pages && page in v.held && v.held[page] == Region(1, InFlight)
      modifies this
      ensures Got(old(v), before, v, o, p, sz) && old(log) <= log
      ensures p == 0 <==> NoRef(old(v), v)
      ensures if p == 0 then page !in v.held else FromNew(before, v, b, page, p, sz)
    {
      ghost var e := Both(o, Page(page));
      ghost var v0 := v;
      var found, w, j := Reserve();
      p, before := 0, v;
      if !found {
        FreePages(page);
        OthersRely(v0, v, o, Page(page), NOTHING);
        return;
      }
      ghost var vr, f := v, Both(Slot(w, j), e);
      StretchMore(v0, v, NOTHING, Slot(w, j), e);
      RelyPart(v0, vr, e, o);
      var ready := EnsureRoot(w, f);
      RelyPart(vr, v, f, o);
      RelyTwice(v0, vr, v, o);
      before := v;
      RefWhen(v0, v, w, j);
      if !ready {
        ghost var v1 := v;
        FreePages(page);
        RefWhen(v0, v, w, j);
        OthersRely(v1, v, o, Page(page), NOTHING);
        RelyTwice(v0, v1, v, o);
        return;
      }
      p := FromFreshPage(w, j, page, b, sz);
      RefWhen(v0, v, w, j);
      GotBlock(v0, before, v, o, Both(Page(page), Slot(w, j)), p, sz);
    }

    /** The rest of allocpageref: the root has a page of pagerefs now, or there is no memory. */
    method EnsureRoot(w: nat, ghost f: Own) returns (ready: bool)
      requires Valid(v) && Owns(v, f) && w < |v.roots|
      modifies this
      ensures Rely(old(v), v, f) && old(log) <= log
      ensures (ready <==> v.roots[w].page != 0) && (ready ==> v.roots[w].page > 0)
      ensures if old(v).roots[w].page != 0 then log == old(log)
              else old(log) < log && |log| == |old(log)| + 1 && (log[|old(log)|].page != 0 ==> ready)
    {
      RelySelf(v, f);
      RootsOf(v);
      if v.roots[w].page != 0 { return true; }
      ghost var v0 := v;
      var va;
      ghost var mid;
      va, mid := AllocPages(1, f);
      if va != 0 { AcquiredRely(v0, mid, f, va, 1); }
      ghost var v1 := v;
      RootsOf(v1);
      var spare := Install(w, va);
      if va != 0 && !spare { OthersRely(v1, v, f, Page(va), NOTHING); }
      if spare {
        FreePages(va);
        OthersRely(v1, v, f, Page(va), NOTHING);
        ghost var v2 := v;
        Others(f);
        RelyTwice(v1, v2, v, f);
      }
      RelySelf(v1, f);
      RelyTwice(v0, v1, v, f);
      RootsOf(v);
      ready := v.roots[w].page != 0;
    }

    /** kfree of a live block by its owner, who owns o besides: the block goes back to the
        allocator it came from, no other block changes hands with it (before and after are the
        heap around the stretch that does it), and memory it was the last use of goes back to
        the page allocator. */
    method Kfree(p: int, ghost sz: nat, ghost o: Own) returns (panicked: bool, ghost before: View, ghost after: View)
      requires Valid(v) && Owns(v, Both(o, Block(p, sz))) && Disjoint(o, Block(p, sz))
      modifies `v
      ensures panicked <==> WouldPanic(old(v), p)
      ensures !panicked ==> Rely(old(v), before, Both(o, Block(p, sz))) && OnlyRemoves(before, after, p)
      ensures !panicked ==> Rely(old(v), after, o) && Rely(old(v), v, o)
      ensures !panicked && IsWhole(old(v), p, sz) ==> p !in v.held
      ensures !panicked ==> forall a :: LastOn(old(v), p, sz, a) ==> a !in v.held
    {
      ghost var v0 := v;
      assert (p, sz) in Both(o, Block(p, sz)).blocks;
      OwnsPart(v0, Both(o, Block(p, sz)), o);
      RelySelf(v0, Both(o, Block(p, sz)));
      var res := SubpageFree(p, sz);
      panicked, before, after := res == Panic, v0, v;
      if res == NotOurs {
        assert p % PAGE_SIZE == 0 by { WholeAligned(v, p, sz); }
        ghost var e := Both(o, Block(p, sz));
        Others(e);
        before := v;
        RelyPart(v0, v, e, o);
        FreeWhole(p, sz);
        after := v;
        OthersRely(before, v, o, Block(p, sz), NOTHING);
        RelyTwice(v0, before, v, o);
        ReleaseLive(before, v, p);
        NotLast(v0, p, sz);
      } else if res.Freed? {
        OthersRely(v0, v, o, Block(p, sz), NOTHING);
      } else if res.PageFreed? {
        OthersRely(v0, v, o, Block(p, sz), Page(res.page));
        ghost var e := Both(o, Page(res.page));
        Others(e);
        RelyPart(after, v, e, o);
        assert res.page in e.pages;
        RelyTwice(v0, after, v, o);
        ghost var v2 := v;
        FreePages(res.page);
        OthersRely(v2, v, o, Page(res.page), NOTHING);
        RelyTwice(v0, v2, v, o);
        OneLast(v0, p, sz, res.page);
      }
    }
  }

  ghost predicate Within(o: Own, f: Own)
  {
    o.pages <= f.pages && o.slots <= f.slots && o.blocks <= f.blocks
  }

  lemma OwnsPart(v: View, f: Own, o: Own)
    requires Owns(v, f) && Within(o, f)
    ensures Owns(v, o)
  {
    forall b | b in o.blocks ensures IsLive(v, b.0, b.1) {
      assert b in f.blocks;
    }
    forall a | a in o.pages ensures Flying(v, a) {
      assert a in f.pages;
    }
  }

  lemma RelyPart(v: View, v': View, f: Own, o: Own)
    requires Rely(v, v', f) && Within(o, f)
    ensures Rely(v, v', o)
  {
    OwnsPart(v', f, o);
  }

  lemma NotLast(v: View, p: int, sz: nat)
    requires Ok(v) && IsWhole(v, p, sz)
    ensures forall a :: !LastOn(v, p, sz, a)
  {
    Unseal(v, 4);
    forall r ensures !InPage(v, r, p, sz) {
      if InPage(v, r, p, sz) { PageAndWhole(v, r, p, sz, p, sz); }
    }
  }

  lemma OneLast(v: View, p: int, sz: nat, a: int)
    requires Ok(v) && LastOn(v, p, sz, a)
    ensures forall b :: LastOn(v, p, sz, b) ==> b == a
  {
    var r :| InPage(v, r, p, sz) && v.info[r].page == a && v.info[r].used.Keys == {p};
    forall b | LastOn(v, p, sz, b) ensures b == a {
      LastIs(v, r, p, sz, b);
    }
  }

  /** The outcome of kmalloc: what the thread owns is safe; a block it got was unowned in the
      heap before, is the only change since, and is the thread's own now. */
  ghost predicate Got(v: View, before: View, v': View, o: Own, p: int, sz: nat)
  {
    && Rely(v, v', o)
    && (p != 0 ==>
          Rely(v, before, o) && OnlyAdds(before, v', p, sz) && Disjoint(o, Block(p, sz)) && Owns(v', Block(p, sz)))
  }

  lemma GotBlock(v: View, before: View, v': View, o: Own, q: Own, p: int, sz: nat)
    requires Rely(v, before, o) && Disjoint(o, q) && OnlyAdds(before, v', p, sz)
    requires Stretch(before, v', q, Block(p, sz))
    ensures Got(v, before, v', o, p, sz)
  {
    OthersRely(before, v', o, q, Block(p, sz));
    RelyTwice(v, before, v', o);
  }

  lemma GotLater(v: View, v1: View, before: View, v': View, o: Own, p: int, sz: nat)
    requires Rely(v, v1, o) && Got(v1, before, v', o, p, sz)
    ensures Got(v, before, v', o, p, sz)
  {
    RelyTwice(v, v1, v', o);
    if p != 0 { RelyTwice(v, v1, before, o); }
  }

  /** Pages just acquired are no one else's. */
  lemma AcquiredRely(v: View, mid: View, o: Own, a: int, n: nat)
    requires Rely(v, mid, o) && Unheld(mid.held, a, n)
    ensures var v' := Acquired(mid, a, n, InFlight);
            && Rely(v, v', o) && a > 0 && a !in o.pages && Flying(v', a) && v'.held[a] == Region(n, InFlight)
            && Disjoint(o, Page(a))
  {
    var v' := Acquired(mid, a, n, InFlight);
    StretchAcquire(mid, a, n);
    OthersRely(mid, v', o, NOTHING, Page(a));
    RelyTwice(v, mid, v', o);
  }

  // ----- Two clients

  /** Two blocks allocated one after the other are both live and do not overlap, whatever
      other threads do meanwhile. */
  method AllocTwo(h: Heap, sz: nat, tz: nat) returns (p: int, q: int)
    requires Valid(h.v) && sz <= 0x1_0000_0000 - PAGE_SIZE && tz <= 0x1_0000_0000 - PAGE_SIZE
    modifies h
    ensures Valid(h.v)
    ensures p != 0 && q != 0 ==> IsLive(h.v, p, sz) && IsLive(h.v, q, tz) && (p + sz <= q || q + tz <= p)
  {
    ghost var b1, b2;
    p, b1 := h.Kmalloc(sz, NOTHING);
    ghost var o := if p == 0 then NOTHING else Block(p, sz);
    q, b2 := h.Kmalloc(tz, o);
    if p != 0 && q != 0 {
      assert (p, sz) in o.blocks && (q, tz) in Block(q, tz).blocks;
      assert IsLive(h.v, (p, sz).0, (p, sz).1) && IsLive(h.v, (q, tz).0, (q, tz).1);
      assert IsLive(b2, p, sz);
      LiveApart(h.v, p, sz, q, tz);
    }
  }

  // ----- A run that ends in a panic

  const SOME_PAGE := 0x8010_0000

  /** Only root 0 has been tried, k times, without ever getting a page of pagerefs. */
  ghost predicate OnlyFailures(v: View, k: nat)
  {
    && Valid(v) && v.info == map[] && v.held == map[] && |v.roots| == NUM_ROOTS
    && v.roots[0].page == 0 && v.roots[0].numinuse == k
    && forall u :: 1 <= u < NUM_ROOTS ==> v.roots[u] == Root(0, seq(REFS_PER_PAGE, _ => false), 0)
  }

  lemma FirstRoot(v: View, k: nat, w: nat, j: nat)
    requires OnlyFailures(v, k) && FirstClear(v.roots, w, j)
    ensures k < REFS_PER_PAGE ==> w == 0
    ensures k == REFS_PER_PAGE ==> w == 1 && j == 0
  {
    RootsOf(v);
    assert RootOk(v.roots[0]);
    TakenFull(v.roots[0].inuse);
    assert w > 0 ==> AllSet(v.roots[0]);
    assert !v.roots[1].inuse[0];
    assert w > 1 ==> AllSet(v.roots[1]);
  }

  lemma SomeClear(v: View, k: nat)
    requires OnlyFailures(v, k)
    ensures exists u :: 0 <= u < |v.roots| && !AllSet(v.roots[u])
  {
    assert !v.roots[1].inuse[0];
    assert !AllSet(v.roots[1]);
  }

  /** 256 calls of subpage_kmalloc that get a page but no page of pagerefs, and give up. */
  method FailAll(h: Heap)
    requires OnlyFailures(h.v, 0)
    modifies h
    ensures OnlyFailures(h.v, REFS_PER_PAGE)
  {
    var k := 0;
    while k < REFS_PER_PAGE
      invariant k <= REFS_PER_PAGE && OnlyFailures(h.v, k)
    {
      ghost var v0 := h.v;
      h.Grant(SOME_PAGE, 1);
      SomeClear(v0, k);
      var found, w, j := h.Reserve();
      FirstRoot(v0, k, w, j);
      var spare := h.Install(w, 0);
      h.FreePages(SOME_PAGE);
      assert h.v.held == map[];
      k := k + 1;
    }
  }

  /** After them, the next call takes a pageref of root 1. */
  method PrepareRootOne(h: Heap) returns (j: nat)
    requires OnlyFailures(h.v, REFS_PER_PAGE)
    modifies h
    ensures Ok(h.v) && |h.v.roots| == NUM_ROOTS && h.v.roots[0] == old(h.v.roots[0]) && h.v.roots[1].page > 0
    ensures h.v.info == map[] && (1, j) in h.v.reserved
    ensures SOME_PAGE in h.v.held && h.v.held[SOME_PAGE] == Region(1, InFlight)
  {
    ghost var v0 := h.v;
    SomeClear(v0, REFS_PER_PAGE);
    h.Grant(SOME_PAGE, 1);
    var found, w;
    found, w, j := h.Reserve();
    FirstRoot(v0, REFS_PER_PAGE, w, j);
    h.Grant(SOME_PAGE + PAGE_SIZE, 1);
    var spare := h.Install(w, SOME_PAGE + PAGE_SIZE);
  }

  /** So the next heap page has its pageref in root 1. */
  method PageInRootOne(h: Heap) returns (p: int)
    requires OnlyFailures(h.v, REFS_PER_PAGE)
    modifies h
    ensures Valid(h.v) && IsLive(h.v, p, 16) && |h.v.roots| == NUM_ROOTS && h.v.roots[0] == old(h.v.roots[0])
    ensures exists r :: r in h.v.info && h.v.info[r].used.Keys == {p} && h.v.info[r].root == 1
  {
    var j := PrepareRootOne(h);
    p := h.FromFreshPage(1, j, SOME_PAGE, 0, 16);
    OnlyBlock(1, j, SOME_PAGE, 0, 16, p);
  }

  /** So the heap can come to a state in which freeing a block stops the kernel. */
  method ReachPanic() returns (h: Heap, p: int)
    ensures Valid(h.v) && IsLive(h.v, p, 16) && WouldPanic(h.v, p)
  {
    h := new Heap();
    FailAll(h);
    p := PageInRootOne(h);
    assert !RootsFilled(h.v.roots, 1);
    ghost var r :| r in h.v.info && h.v.info[r].used.Keys == {p} && h.v.info[r].root == 1;
    assert PanicsAt(h.v, p, r);
  }

  lemma OnlyBlock(w: nat, j: nat, page: int, b: nat, sz: nat, p: int)
    requires b < NUM_SIZES && Fresh(w, j, page, b).fl != [] && p == Fresh(w, j, page, b).fl[0]
    ensures Given(Fresh(w, j, page, b), sz).used.Keys == {p}
  {}
}
