/** The frame table: which physical frames are used, and the free ones in a list threaded
    through the table. Every operation runs under ft_lock. */
module FrameTable {

  const PAGE_SIZE := 4096
  const ENTRY_SIZE := 8    // sizeof(struct frame_table_entry)
  const POINTER_SIZE := 4  // sizeof(struct page_table_entry *)
  const KSEG0 := 0x8000_0000
  const WORD := 0x1_0000_0000

  datatype Frame = Frame(used: bool, next: nat)

  /** Element i of a list of frames, or n, the table size, past its end. */
  function Nth(list: seq<nat>, i: nat, n: nat): nat
  {
    if i < |list| then list[i] else n
  }

  ghost predicate Linked(t: seq<Frame>, list: seq<nat>, i: nat)
    requires i < |list|
  {
    list[i] < |t| && t[list[i]].next == Nth(list, i + 1, |t|)
  }

  /** From first, the next indices run through list and off the end of the table, and the
      list is exactly the unused frames, each once. */
  ghost predicate FreeList(t: seq<Frame>, first: nat, list: seq<nat>)
  {
    && first == Nth(list, 0, |t|)
    && (forall i :: 0 <= i < |list| ==> Linked(t, list, i))
    && (forall f: nat {:trigger multiset(list)[f]} :: multiset(list)[f] == if f < |t| && !t[f].used then 1 else 0)
  }

  lemma PopOk(t: seq<Frame>, first: nat, list: seq<nat>)
    requires FreeList(t, first, list) && first < |t|
    ensures list != [] && first == list[0] && !t[first].used
    ensures FreeList(t[first := t[first].(used := true)], t[first].next, list[1..])
  {
    assert list != [];
    assert Linked(t, list, 0) && multiset(list)[first] > 0;
    var t' := t[first := t[first].(used := true)];
    var l': seq<nat> := list[1..];
    assert list == [first] + l';
    forall i | 0 <= i < |l'| ensures Linked(t', l', i) {
      assert Linked(t, list, i + 1);
    }
    forall f: nat ensures multiset(l')[f] == if f < |t'| && !t'[f].used then 1 else 0 {
      assert multiset(list)[f] == (if f == first then 1 else 0) + multiset(l')[f];
    }
  }

  lemma EmptyWhen(t: seq<Frame>, first: nat, list: seq<nat>)
    requires FreeList(t, first, list)
    ensures list == [] <==> first >= |t|
  {
    if list != [] { assert Linked(t, list, 0); }
  }

  lemma PushOk(t: seq<Frame>, first: nat, list: seq<nat>, f: nat)
    requires FreeList(t, first, list) && f < |t| && t[f].used
    ensures FreeList(t[f := Frame(false, first)], f, [f] + list)
  {
    var t', l' := t[f := Frame(false, first)], [f] + list;
    forall i | 0 <= i < |l'| ensures Linked(t', l', i) {
      if i > 0 {
        assert Linked(t, list, i - 1);
        assert multiset(list)[list[i - 1]] > 0;
      }
    }
  }

  /** The list that init_pagetable builds: every frame from first on. */
  function From(first: nat, n: nat): (l: seq<nat>)
    requires first <= n
    ensures |l| == n - first && forall i :: 0 <= i < |l| ==> l[i] == first + i
  {
    seq(n - first, i => first + i)
  }

  lemma {:induction false} FromCounts(first: nat, n: nat, f: nat)
    requires first <= n
    ensures multiset(From(first, n))[f] == if first <= f < n then 1 else 0
    decreases n - first
  {
    if first < n {
      FromCounts(first + 1, n, f);
      assert From(first, n) == [first] + From(first + 1, n);
    }
  }

  lemma InitOk(t: seq<Frame>, first: nat)
    requires first < |t|
    requires forall f :: 0 <= f < |t| ==> (t[f].used <==> f < first) && (f >= first ==> t[f].next == f + 1)
    ensures FreeList(t, first, From(first, |t|))
  {
    var l: seq<nat> := From(first, |t|);
    forall i | 0 <= i < |l| ensures Linked(t, l, i) {}
    forall f: nat ensures multiset(l)[f] == if f < |t| && !t[f].used then 1 else 0 {
      FromCounts(first, |t|, f);
    }
  }

  function RoundUp(bytes: nat): nat
  {
    (bytes + PAGE_SIZE - 1) / PAGE_SIZE
  }

  class Frames {
    var table: array<Frame>
    var first: nat            // current_empty_frame_index
    ghost var list: seq<nat>

    ghost predicate Valid()
      reads this, table
    {
      FreeList(table[..], first, list)
    }

    /** init_pagetable. The table describes all of RAM; the frames that hold it, the page
        table behind it and everything before them start out used, all others free. There is
        no room exactly when no frame would be left. */
    constructor (ramsize: nat, base: nat)
      requires ramsize >= PAGE_SIZE
      ensures fresh(table) && table.Length == ramsize / PAGE_SIZE
      ensures var pt := RoundUp(base + ENTRY_SIZE * (ramsize / PAGE_SIZE));
              var start := pt + RoundUp(POINTER_SIZE * (2 * (ramsize / PAGE_SIZE)));
              && first == start
              && (start < table.Length ==> Valid())
              && (start < table.Length ==> forall f :: 0 <= f < table.Length ==> (table[f].used <==> f < start))
              && base + ENTRY_SIZE * table.Length <= pt * PAGE_SIZE
              && pt * PAGE_SIZE + POINTER_SIZE * (2 * table.Length) <= start * PAGE_SIZE
    {
      var n := ramsize / PAGE_SIZE;
      var start := RoundUp(base + ENTRY_SIZE * n) + RoundUp(POINTER_SIZE * (2 * n));
      var t := new Frame[n](_ => Frame(true, 0));
      if start < n {
        var i := 0;
        while i < n
          invariant i <= n
          invariant forall f :: 0 <= f < i ==> (t[f].used <==> f < start) && (f >= start ==> t[f].next == f + 1)
        {
          t[i] := if i < start then t[i].(used := true) else Frame(false, i + 1);
          i := i + 1;
        }
        InitOk(t[..], start);
      }
      table, first, list := t, start, From(if start < n then start else n, n);
    }

    /** alloc_kpages: for one page, a frame that was not used and is now; for any other number
        of pages, nothing. */
    method Alloc(npages: nat) returns (vaddr: nat)
      requires Valid()
      modifies this, table
      ensures Valid() && table == old(table)
      ensures npages != 1 || old(list) == [] ==> vaddr == 0 && table[..] == old(table[..]) && list == old(list)
      ensures npages == 1 && old(list) != [] ==>
                var f := old(list[0]);
                && f < table.Length && !old(table[f].used) && table[f].used && list == old(list)[1..]
                && (forall g :: 0 <= g < table.Length && g != f ==> table[g] == old(table[g]))
                && vaddr == if f == 0 then 0 else f * PAGE_SIZE + KSEG0
    {
      vaddr := 0;
      if npages == 1 {
        EmptyWhen(table[..], first, list);
        if first >= table.Length { return; }
        PopOk(table[..], first, list);
        var f := first;
        first, list := table[f].next, list[1..];
        table[f] := table[f].(used := true);
        assert table[..] == old(table[..])[f := old(table[f]).(used := true)];
        if f != 0 { vaddr := f * PAGE_SIZE + KSEG0; }
      }
    }

    /** free_kpages: a used frame goes to the front of the free list. Freeing a frame that is
        not used, or an address outside RAM, changes nothing. */
    method Free(vaddr: nat)
      requires Valid() && vaddr < WORD
      modifies this, table
      ensures Valid() && table == old(table)
      ensures var f := (vaddr - KSEG0) % WORD / PAGE_SIZE;
              if f < table.Length && old(table[f].used)
              then list == [f] + old(list) && !table[f].used && forall g :: 0 <= g < table.Length && g != f ==>
                  table[g] == old(table[g])
              else list == old(list) && table[..] == old(table[..])
    {
      var f := (vaddr - KSEG0) % WORD / PAGE_SIZE;
      if f >= table.Length { return; }
      if table[f].used {
        PushOk(table[..], first, list, f);
        table[f] := Frame(false, first);
        first, list := f, [f] + list;
        assert table[..] == old(table[..])[f := Frame(false, old(first))];
      }
    }
  }

  /** A frame given back is the next one given out. */
  method FreeThenAlloc(frames: Frames, f: nat) returns (vaddr: nat)
    requires frames.Valid() && 0 < f < frames.table.Length && frames.table[f].used && f * PAGE_SIZE + KSEG0 < WORD
    modifies frames, frames.table
    ensures frames.Valid() && frames.table == old(frames.table) && vaddr == f * PAGE_SIZE + KSEG0
    ensures frames.table[f].used && frames.list == old(frames.list)
  {
    frames.Free(f * PAGE_SIZE + KSEG0);
    vaddr := frames.Alloc(1);
  }
}
