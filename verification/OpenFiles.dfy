/** Open files shared by the file tables of all processes. Each process uses its own table;
    an open file's reference count is shared. A system call is a few primitive steps (Create,
    Incref, Decref, PlaceAt, NewTable), and those of different processes may come in any
    order: `flight` holds the references that calls in progress own, and a step of another
    process leaves a call alone (`Undisturbed`). The methods for whole system calls say what
    a call does that no other step comes between. */
module OpenFiles {

  type File = nat  // 0 is the null pointer

  /** One table per process, [] once destroyed; a count for every open file there is. */
  datatype State = State(tables: seq<seq<File>>, refs: map<File, int>, ghost flight: multiset<File>)

  // ----- Counting slots

  /** How many slots of all tables hold f. */
  ghost function Slots(tables: seq<seq<File>>, f: File): nat
  {
    if tables == [] then 0 else Slots(tables[1..], f) + multiset(tables[0])[f]
  }

  lemma {:induction false} SlotsUpdate(tables: seq<seq<File>>, i: nat, t: seq<File>, f: File)
    requires i < |tables|
    ensures Slots(tables[i := t], f) + multiset(tables[i])[f] == Slots(tables, f) + multiset(t)[f]
    decreases i
  {
    if i == 0 {
      assert tables[0 := t][1..] == tables[1..];
    } else {
      SlotsUpdate(tables[1..], i - 1, t, f);
      assert tables[i := t][1..] == tables[1..][i - 1 := t] && tables[1..][i - 1] == tables[i];
    }
  }

  lemma {:induction false} SlotsAppend(tables: seq<seq<File>>, t: seq<File>, f: File)
    ensures Slots(tables + [t], f) == Slots(tables, f) + multiset(t)[f]
    decreases |tables|
  {
    if tables == [] {
      assert (tables + [t])[1..] == [];
    } else {
      SlotsAppend(tables[1..], t, f);
      assert (tables + [t])[1..] == tables[1..] + [t];
    }
  }

  lemma SlotUpdate(t: seq<File>, fd: nat, f: File)
    requires fd < |t|
    ensures multiset(t[fd := f]) + multiset{t[fd]} == multiset(t) + multiset{f}
  {
    assert t == t[..fd] + [t[fd]] + t[fd + 1..] && t[fd := f] == t[..fd] + [f] + t[fd + 1..];
  }

  // ----- The invariant

  /** References to f that exist: in tables and in the hands of calls. */
  ghost function Held(s: State, f: File): nat
  {
    Slots(s.tables, f) + s.flight[f]
  }

  /** An open file exists exactly as long as it is referred to, and its count is the number
      of references. */
  ghost predicate CountOk(s: State, f: File)
  {
    && (f in s.refs ==> s.refs[f] == Held(s, f) > 0)
    && (f !in s.refs ==> Held(s, f) == 0)
  }

  ghost predicate Inv(max: nat, s: State)
  {
    && (forall i :: 0 <= i < |s.tables| ==> s.tables[i] == [] || |s.tables[i]| == max)
    && s.flight[0] == 0 && 0 !in s.refs
    && forall f: File :: f != 0 ==> CountOk(s, f)
  }

  lemma Same(s: State, s': State, f: File)
    requires CountOk(s, f) && s'.refs == s.refs && Held(s', f) == Held(s, f)
    ensures CountOk(s', f)
  {}

  /** A slot that is not null is a reference. */
  lemma SlotHeld(max: nat, s: State, i: nat, fd: nat)
    requires Inv(max, s) && i < |s.tables| && fd < |s.tables[i]| && s.tables[i][fd] != 0
    ensures s.tables[i][fd] in s.refs
  {
    var f := s.tables[i][fd];
    SlotsUpdate(s.tables, i, [], f);
    assert multiset(s.tables[i])[f] > 0;
    assert CountOk(s, f);
  }

  // ----- Primitive steps

  function WithSlot(tables: seq<seq<File>>, i: nat, fd: nat, f: File): seq<seq<File>>
    requires i < |tables| && fd < |tables[i]|
  {
    var t: seq<File> := tables[i][fd := f];
    tables[i := t]
  }

  ghost function Swapped(s: State, i: nat, fd: nat, f: File): State
    requires i < |s.tables| && fd < |s.tables[i]|
  {
    var was := s.tables[i][fd];
    s.(tables := WithSlot(s.tables, i, fd, f),
       flight := s.flight - multiset{f} + if was == 0 then multiset{} else multiset{was})
  }

  lemma SwapKeeps(max: nat, s: State, i: nat, fd: nat, f: File)
    requires Inv(max, s) && i < |s.tables| && fd < |s.tables[i]| && (f == 0 || s.flight[f] > 0)
    ensures Inv(max, Swapped(s, i, fd, f))
  {
    var s' := Swapped(s, i, fd, f);
    var t': seq<File> := s.tables[i][fd := f];
    SlotUpdate(s.tables[i], fd, f);
    forall g: File | g != 0 ensures CountOk(s', g) {
      assert CountOk(s, g);
      SlotsUpdate(s.tables, i, t', g);
      assert (multiset(t') + multiset{s.tables[i][fd]})[g] == (multiset(s.tables[i]) + multiset{f})[g];
      Same(s, s', g);
    }
  }

  // ----- Steps of other processes

  /** Process i, with these references in hand, still has them and its table, and the files
      are in order. */
  ghost predicate Undisturbed(max: nat, s: State, s': State, i: nat, hand: multiset<File>)
  {
    && Inv(max, s') && i < |s.tables| && i < |s'.tables|
    && s'.tables[i] == s.tables[i] && hand <= s'.flight
  }

  /** Whatever a process refers to is open. */
  lemma StillOpen(max: nat, s: State, i: nat, hand: multiset<File>, f: File)
    requires Inv(max, s) && i < |s.tables| && hand <= s.flight && f != 0 && (f in hand || f in s.tables[i])
    ensures f in s.refs && s.refs[f] > 0
  {
    assert CountOk(s, f);
    if f in s.tables[i] {
      var fd :| 0 <= fd < |s.tables[i]| && s.tables[i][fd] == f;
      SlotHeld(max, s, i, fd);
    }
  }

  /** Another process gets a reference, by Create or Incref, ... */
  lemma OthersGet(max: nat, s: State, s': State, i: nat, hand: multiset<File>, f: File)
    requires i < |s.tables| && hand <= s.flight && Inv(max, s')
    requires s'.tables == s.tables && s'.flight == s.flight + multiset{f}
    ensures Undisturbed(max, s, s', i, hand)
  {}

  /** ... drops one that is not this process's, by Decref, ... */
  lemma OthersDrop(max: nat, s: State, s': State, i: nat, hand: multiset<File>, f: File)
    requires i < |s.tables| && hand + multiset{f} <= s.flight && Inv(max, s')
    requires s'.tables == s.tables && s'.flight == s.flight - multiset{f}
    ensures Undisturbed(max, s, s', i, hand)
  {
    forall g ensures hand[g] <= s'.flight[g] {
      assert (hand + multiset{f})[g] <= s.flight[g];
    }
  }

  /** ... puts one into a table of its own, ... */
  lemma OthersPlace(max: nat, s: State, i: nat, hand: multiset<File>, j: nat, fd: nat, f: File)
    requires Inv(max, s) && i < |s.tables| && j < |s.tables| && i != j && fd < |s.tables[j]|
    requires hand <= s.flight && (f != 0 ==> hand + multiset{f} <= s.flight)
    ensures Undisturbed(max, s, Swapped(s, j, fd, f), i, hand)
  {
    if f != 0 { assert (hand + multiset{f})[f] <= s.flight[f]; }
    SwapKeeps(max, s, j, fd, f);
    var s' := Swapped(s, j, fd, f);
    forall g ensures hand[g] <= s'.flight[g] {
      if f != 0 { assert (hand + multiset{f})[g] <= s.flight[g]; }
    }
  }

  /** ... or gets a new table, by NewTable, or gives its own up; ... */
  lemma OthersTable(max: nat, s: State, s': State, i: nat, hand: multiset<File>, j: nat, t: seq<File>)
    requires i < |s.tables| && hand <= s.flight && Inv(max, s') && i != j <= |s.tables|
    requires s' == s.(tables := if j == |s.tables| then s.tables + [t] else s.tables[j := []])
    ensures Undisturbed(max, s, s', i, hand)
  {}

  /** ... and all of this any number of times. */
  lemma UndisturbedTwice(max: nat, s: State, s1: State, s2: State, i: nat, hand: multiset<File>)
    requires Undisturbed(max, s, s1, i, hand) && Undisturbed(max, s1, s2, i, hand)
    ensures Undisturbed(max, s, s2, i, hand)
  {}

  class Files {
    var s: State
    const max: nat  // OPEN_MAX

    constructor (max: nat)
      ensures Inv(this.max, s) && this.max == max && s == State([], map[], multiset{})
    {
      this.max := max;
      s := State([], map[], multiset{});
    }

    /** openfile_create: one reference, in the hands of the caller. */
    method Create(f: File)
      requires Inv(max, s) && f != 0 && f !in s.refs
      modifies this
      ensures Inv(max, s) && s == old(s).(refs := old(s).refs[f := 1], flight := old(s).flight + multiset{f})
    {
      forall g: File | g != 0 ensures CountOk(s, g) {}
      s := s.(refs := s.refs[f := 1], flight := s.flight + multiset{f});
      forall g: File | g != 0 ensures CountOk(s, g) {
        assert CountOk(old(s), g);
      }
    }

    /** openfile_incref */
    method Incref(f: File)
      requires Inv(max, s) && f in s.refs
      modifies this
      ensures Inv(max, s)
      ensures s == old(s).(refs := old(s).refs[f := old(s).refs[f] + 1], flight := old(s).flight + multiset{f})
    {
      s := s.(refs := s.refs[f := s.refs[f] + 1], flight := s.flight + multiset{f});
      forall g: File | g != 0 ensures CountOk(s, g) {
        assert CountOk(old(s), g);
      }
    }

    /** openfile_decref: the file is destroyed exactly when this reference was the last. */
    method Decref(f: File) returns (destroyed: bool)
      requires Inv(max, s) && s.flight[f] > 0
      modifies this
      ensures Inv(max, s) && s.tables == old(s).tables && s.flight == old(s).flight - multiset{f}
      ensures f in old(s).refs
      ensures s.refs == if destroyed then old(s).refs - {f} else old(s).refs[f := old(s).refs[f] - 1]
      ensures destroyed <==> Held(s, f) == 0
    {
      assert CountOk(s, f);
      destroyed := s.refs[f] == 1;
      if destroyed {
        s := s.(refs := s.refs - {f}, flight := s.flight - multiset{f});
      } else {
        s := s.(refs := s.refs[f := s.refs[f] - 1], flight := s.flight - multiset{f});
      }
      forall g: File | g != 0 ensures CountOk(s, g) {
        assert CountOk(old(s), g);
      }
    }

    /** filetable_placeat */
    method PlaceAt(i: nat, fd: nat, f: File) returns (was: File)
      requires Inv(max, s) && i < |s.tables| && fd < |s.tables[i]| && (f == 0 || s.flight[f] > 0)
      modifies this
      ensures Inv(max, s) && was == old(s).tables[i][fd] && s == Swapped(old(s), i, fd, f)
    {
      SwapKeeps(max, s, i, fd, f);
      was := s.tables[i][fd];
      s := s.(tables := WithSlot(s.tables, i, fd, f),
              flight := s.flight - multiset{f} + if was == 0 then multiset{} else multiset{was});
    }

    /** The part of filetable_place that finds a descriptor: the lowest free one, if any. */
    method FreeSlot(i: nat) returns (fd: int)
      requires Inv(max, s) && i < |s.tables|
      ensures fd == -1 <==> forall k :: 0 <= k < |s.tables[i]| ==> s.tables[i][k] != 0
      ensures fd != -1 ==> 0 <= fd < |s.tables[i]| && s.tables[i][fd] == 0
      ensures fd != -1 ==> forall k :: 0 <= k < fd ==> s.tables[i][k] != 0
    {
      fd := 0;
      while fd < |s.tables[i]|
        invariant 0 <= fd <= |s.tables[i]| && forall k :: 0 <= k < fd ==> s.tables[i][k] != 0
      {
        if s.tables[i][fd] == 0 { return; }
        fd := fd + 1;
      }
      fd := -1;
    }

    /** The end of sys_open: the new file goes to the lowest free descriptor, or away again. */
    method Open(i: nat, f: File) returns (fd: int)
      requires Inv(max, s) && i < |s.tables| && f != 0 && f !in s.refs
      modifies this
      ensures Inv(max, s) && s.flight == old(s).flight
      ensures fd == -1 <==> forall k :: 0 <= k < |old(s).tables[i]| ==> old(s).tables[i][k] != 0
      ensures fd == -1 ==> s.tables == old(s).tables && s.refs == old(s).refs
      ensures fd != -1 ==> s.refs == old(s).refs[f := 1]
      ensures fd != -1 ==> 0 <= fd < |old(s).tables[i]| && s.tables == WithSlot(old(s).tables, i, fd, f)
      ensures fd != -1 ==> forall k :: 0 <= k < fd ==> old(s).tables[i][k] != 0
    {
      Create(f);
      fd := FreeSlot(i);
      if fd == -1 {
        assert CountOk(old(s), f);
        var destroyed := Decref(f);
      } else {
        var was := PlaceAt(i, fd, f);
      }
    }

    /** sys_close */
    method Close(i: nat, fd: int) returns (ok: bool)
      requires Inv(max, s) && i < |s.tables|
      modifies this
      ensures Inv(max, s) && s.flight == old(s).flight
      ensures ok <==> 0 <= fd < |old(s).tables[i]| && old(s).tables[i][fd] != 0
      ensures !ok ==> s.tables == old(s).tables && s.refs == old(s).refs
      ensures ok ==> s.tables == WithSlot(old(s).tables, i, fd, 0)
      ensures ok ==> var f := old(s).tables[i][fd];
                     (f in s.refs <==> Held(s, f) > 0) && s.refs - {f} == old(s).refs - {f}
    {
      if !(0 <= fd < |s.tables[i]|) { return false; }
      var f := PlaceAt(i, fd, 0);
      if f == 0 {
        assert s.tables[i] == old(s).tables[i] && s.tables == old(s).tables;
        return false;
      }
      var destroyed := Decref(f);
      ok := true;
    }

    /** sys_dup2 */
    method Dup2(i: nat, oldfd: int, newfd: int) returns (ok: bool)
      requires Inv(max, s) && i < |s.tables|
      modifies this
      ensures Inv(max, s) && s.flight == old(s).flight
      ensures var t := old(s).tables[i];
              ok <==> 0 <= newfd < |t| && (oldfd == newfd || (0 <= oldfd < |t| && t[oldfd] != 0))
      ensures ok && oldfd != newfd ==> s.tables == WithSlot(old(s).tables, i, newfd, old(s).tables[i][oldfd])
      ensures !ok || oldfd == newfd ==> s == old(s)
    {
      if !(0 <= newfd < |s.tables[i]|) { return false; }
      if oldfd == newfd { return true; }
      if !(0 <= oldfd < |s.tables[i]|) || s.tables[i][oldfd] == 0 { return false; }
      var f := s.tables[i][oldfd];
      SlotHeld(max, s, i, oldfd);
      Incref(f);
      var was := PlaceAt(i, newfd, f);
      if was != 0 { var destroyed := Decref(was); }
      ok := true;
    }

    /** filetable_create */
    method NewTable() returns (j: nat)
      requires Inv(max, s)
      modifies this
      ensures Inv(max, s) && j == |old(s).tables| && s == old(s).(tables := old(s).tables + [seq(max, _ => 0)])
    {
      j := |s.tables|;
      ghost var s0 := s;
      s := s.(tables := s.tables + [seq(max, _ => 0)]);
      forall f: File | f != 0 ensures CountOk(s, f) {
        assert CountOk(s0, f);
        SlotsAppend(s0.tables, seq(max, _ => 0), f);
        assert f !in seq(max, _ => 0);
      }
    }

    /** One turn of the loop of filetable_copy. */
    method CopySlot(i: nat, j: nat, fd: nat)
      requires Inv(max, s) && i < |s.tables| && fd < |s.tables[i]| && s.tables[i][fd] != 0
      requires j < |s.tables| && fd < |s.tables[j]| && s.tables[j][fd] == 0
      modifies this
      ensures Inv(max, s) && s.flight == old(s).flight && s.refs.Keys == old(s).refs.Keys
      ensures s.tables == WithSlot(old(s).tables, j, fd, old(s).tables[i][fd])
    {
      var f := s.tables[i][fd];
      SlotHeld(max, s, i, fd);
      Incref(f);
      var was := PlaceAt(j, fd, f);
    }

    /** filetable_copy: the new table has what the old one has, and every file in it one more
        reference for each slot. */
    method Copy(i: nat) returns (j: nat)
      requires Inv(max, s) && i < |s.tables| && |s.tables[i]| == max
      modifies this
      ensures Inv(max, s) && s.flight == old(s).flight && j == |old(s).tables|
      ensures s.tables == old(s).tables + [old(s).tables[i]]
      ensures s.refs.Keys == old(s).refs.Keys
    {
      j := NewTable();
      ghost var src := s.tables[i];
      var fd := 0;
      while fd < max
        invariant fd <= max && Inv(max, s) && s.flight == old(s).flight && s.refs.Keys == old(s).refs.Keys
        invariant |s.tables| == j + 1 && s.tables[..j] == old(s).tables && s.tables[i] == src
        invariant |s.tables[j]| == max && s.tables[j][..fd] == src[..fd]
        invariant forall k :: fd <= k < max ==> s.tables[j][k] == 0
      {
        if s.tables[i][fd] != 0 { CopySlot(i, j, fd); }
        fd := fd + 1;
      }
      assert s.tables[j] == src;
    }

    /** The loop of filetable_destroy: every reference of the table is dropped. */
    method ClearTable(i: nat)
      requires Inv(max, s) && i < |s.tables| && |s.tables[i]| == max
      modifies this
      ensures Inv(max, s) && s.flight == old(s).flight && s.refs.Keys <= old(s).refs.Keys
      ensures |s.tables| == |old(s).tables| && SameBut(s.tables, old(s).tables, i)
      ensures |s.tables[i]| == max && forall k :: 0 <= k < max ==> s.tables[i][k] == 0
    {
      var fd := 0;
      while fd < max
        invariant fd <= max && Inv(max, s) && s.flight == old(s).flight && s.refs.Keys <= old(s).refs.Keys
        invariant |s.tables| == |old(s).tables| && |s.tables[i]| == max && SameBut(s.tables, old(s).tables, i)
        invariant forall k :: 0 <= k < fd ==> s.tables[i][k] == 0
      {
        if s.tables[i][fd] != 0 {
          var f := PlaceAt(i, fd, 0);
          var destroyed := Decref(f);
        }
        fd := fd + 1;
      }
    }

    /** filetable_destroy */
    method DestroyTable(i: nat)
      requires Inv(max, s) && i < |s.tables| && |s.tables[i]| == max
      modifies this
      ensures Inv(max, s) && s.flight == old(s).flight && s.tables == old(s).tables[i := []]
      ensures s.refs.Keys <= old(s).refs.Keys
    {
      ClearTable(i);
      ghost var s0 := s;
      assert s.tables[i := []] == old(s).tables[i := []];
      s := s.(tables := s.tables[i := []]);
      forall f: File | f != 0 ensures CountOk(s, f) {
        assert CountOk(s0, f);
        SlotsUpdate(s0.tables, i, [], f);
        assert f !in s0.tables[i];
      }
    }
  }

  /** Only table i may differ. */
  ghost predicate SameBut(a: seq<seq<File>>, b: seq<seq<File>>, i: nat)
  {
    |a| == |b| && forall j :: 0 <= j < |a| && j != i ==> a[j] == b[j]
  }

  /** With no call in progress, an open file's count is the number of slots that hold it, and
      a file that no slot holds does not exist. */
  lemma Quiescent(max: nat, s: State, f: File)
    requires Inv(max, s) && s.flight == multiset{} && f != 0
    ensures f in s.refs <==> Slots(s.tables, f) > 0
    ensures f in s.refs ==> s.refs[f] == Slots(s.tables, f)
  {
    assert CountOk(s, f);
  }
}
