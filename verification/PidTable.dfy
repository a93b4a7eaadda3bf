/** The process table: pids, parents, exit statuses and waiting for them, for single-threaded
    processes. Every operation runs under pidlock; pid_wait gives that lock up while it
    sleeps, so it is two operations here. */
module PidTable {
  import opened Arith
  import opened Finite
  import opened Options

  const INVALID_PID := 0
  const KERNEL_PID := 1

  /** A struct pidinfo. `born` and `pborn` identify the process and its parent among all
      processes that ever were, whatever pids they had. */
  datatype Entry = Entry(pid: nat, ppid: nat, exited: bool, status: int, ghost born: nat, ghost pborn: nat)

  /** A process asleep in pid_wait, and whether it has been woken. */
  datatype Waiter = Waiter(child: nat, woken: bool)

  /** Who got a status, and the status. */
  datatype Receipt = Receipt(receiver: nat, status: int)

  datatype Limits = Limits(procsMax: nat, pidMin: nat, pidMax: nat)

  /** What has happened: how many processes there ever were, the parent of each, the status
      each exited with, and who collected it. */
  datatype History = History(births: nat, parent: map<nat, nat>, exits: map<nat, int>, got: map<nat, Receipt>)

  datatype State = State(
    slots: seq<Option<Entry>>, nextpid: nat, nprocs: int,
    ghost running: set<nat>, ghost waiters: map<nat, Waiter>, ghost h: History)

  /** pi_get */
  function Get(l: Limits, slots: seq<Option<Entry>>, pid: nat): Option<Entry>
    requires l.procsMax > 0 && |slots| == l.procsMax
  {
    var e := slots[Rem(pid, l.procsMax)];
    if e.Some? && e.value.pid == pid then e else None
  }

  // ----- Counting occupied slots

  ghost function Occupied(slots: seq<Option<Entry>>): set<nat>
  {
    set i: nat | i < |slots| && slots[i].Some?
  }

  lemma OccupiedPut(slots: seq<Option<Entry>>, i: nat, e: Entry)
    requires i < |slots| && slots[i].None?
    ensures |Occupied(slots[i := Some(e)])| == |Occupied(slots)| + 1
  {
    assert Occupied(slots[i := Some(e)]) == Occupied(slots) + {i};
  }

  lemma OccupiedDrop(slots: seq<Option<Entry>>, i: nat)
    requires i < |slots| && slots[i].Some?
    ensures |Occupied(slots[i := None])| == |Occupied(slots)| - 1
  {
    assert Occupied(slots) == Occupied(slots[i := None]) + {i};
  }

  lemma OccupiedSame(slots: seq<Option<Entry>>, i: nat, e: Entry)
    requires i < |slots| && slots[i].Some?
    ensures |Occupied(slots[i := Some(e)])| == |Occupied(slots)|
  {
    assert Occupied(slots[i := Some(e)]) == Occupied(slots);
  }

  lemma OccupiedBound(slots: seq<Option<Entry>>, seen: set<nat>)
    requires forall i :: i in seen ==> i < |slots| && slots[i].Some?
    ensures |seen| <= |Occupied(slots)|
  {
    var occ := Occupied(slots);
    assert seen <= occ;
    assert occ == seen + (occ - seen);
  }

  // ----- The search for a free pid

  function Inc(l: Limits, pid: nat): nat
  {
    if pid + 1 > l.pidMax then l.pidMin else pid + 1
  }

  /** The slots of the pids from `from` up to `to`, all of them taken. */
  ghost predicate Passed(l: Limits, slots: seq<Option<Entry>>, seen: set<nat>, from: nat, to: nat)
    requires l.procsMax > 0
  {
    && from <= to && |seen| == to - from
    && (forall i :: i in seen ==> i < |slots| && slots[i].Some?)
    && (forall i :: i in seen ==> exists x: nat :: from <= x < to && Rem(x, l.procsMax) == i)
  }

  lemma PassOne(l: Limits, slots: seq<Option<Entry>>, seen: set<nat>, from: nat, to: nat)
    requires 0 < l.procsMax == |slots| && Passed(l, slots, seen, from, to) && |Occupied(slots)| < l.procsMax
    requires slots[Rem(to, l.procsMax)].Some?
    ensures Passed(l, slots, seen + {Rem(to, l.procsMax)}, from, to + 1) && to + 1 - from <= |Occupied(slots)|
  {
    var i := Rem(to, l.procsMax);
    OccupiedBound(slots, seen);
    forall x: nat | from <= x < to ensures Rem(x, l.procsMax) != i {
      RemDiffers(x, to, l.procsMax);
    }
    OccupiedBound(slots, seen + {i});
    assert i !in seen;
    forall k | k in seen + {i} ensures exists x: nat :: from <= x < to + 1 && Rem(x, l.procsMax) == k {
      if k == i {
        assert from <= to < to + 1 && Rem(to, l.procsMax) == k;
      } else {
        var x: nat :| from <= x < to && Rem(x, l.procsMax) == k;
      }
    }
  }

  /** The n-th pid after this one, when the pids from pidMin to pidMax go round in a circle. */
  function After(l: Limits, pid: nat, n: nat): nat
    requires l.pidMin <= pid <= l.pidMax
  {
    l.pidMin + Rem(pid - l.pidMin + n, l.pidMax - l.pidMin + 1)
  }

  lemma AfterNone(l: Limits, pid: nat)
    requires l.pidMin <= pid <= l.pidMax
    ensures After(l, pid, 0) == pid
  {
    RemSmall(pid - l.pidMin, l.pidMax - l.pidMin + 1);
  }

  lemma AfterNext(l: Limits, pid: nat, n: nat)
    requires l.pidMin <= pid <= l.pidMax
    ensures After(l, pid, n + 1) == Inc(l, After(l, pid, n))
  {
    var m := l.pidMax - l.pidMin + 1;
    var r := Rem(pid - l.pidMin + n, m);
    RemNext(pid - l.pidMin + n, m);
    if r + 1 < m {
      RemSmall(r + 1, m);
    } else {
      TimesOne(m);
      QuotRemUnique(m, 1, 0);
    }
  }

  ghost predicate Free(l: Limits, slots: seq<Option<Entry>>, pid: nat)
    requires 0 < l.procsMax == |slots|
  {
    slots[Rem(pid, l.procsMax)].None?
  }

  /** The first pid with an empty slot, going round from this one, is n further. */
  ghost predicate FirstFree(l: Limits, slots: seq<Option<Entry>>, pid: nat, n: nat)
    requires 0 < l.procsMax == |slots| && l.pidMin <= pid <= l.pidMax
  {
    && Free(l, slots, After(l, pid, n))
    && forall k: nat :: k < n ==> !Free(l, slots, After(l, pid, k))
  }

  /** The loop of pid_alloc. It ends, within the bound that the loop asserts, at the first pid
      from nextpid on whose slot is empty. */
  method Search(l: Limits, slots: seq<Option<Entry>>, nextpid: nat) returns (pid: nat, ghost steps: nat)
    requires 0 < l.procsMax == |slots| && l.pidMin + l.procsMax <= l.pidMax + 1 && l.pidMin <= nextpid <= l.pidMax
    requires |Occupied(slots)| < l.procsMax
    ensures l.pidMin <= pid <= l.pidMax && slots[Rem(pid, l.procsMax)].None?
    ensures FirstFree(l, slots, nextpid, steps) && pid == After(l, nextpid, steps)
  {
    AfterNone(l, nextpid);
    steps := 0;
    pid := nextpid;
    var count := 0;
    ghost var n, seen, before := |Occupied(slots)|, {}, 0;
    ghost var from: nat := nextpid;  // where the pids without a break start
    while slots[Rem(pid, l.procsMax)].Some?
      invariant l.pidMin <= pid <= l.pidMax && Passed(l, slots, seen, from, pid)
      invariant pid - from <= n && count == before + pid - from
      invariant before == 0 || (before <= n && from == l.pidMin)
      invariant pid == After(l, nextpid, steps) && forall k: nat :: k < steps ==> !Free(l, slots, After(l, nextpid, k))
      decreases 2 * l.procsMax - count
    {
      assert count < l.procsMax * 2 + 5;
      count := count + 1;
      PassOne(l, slots, seen, from, pid);
      seen := seen + {Rem(pid, l.procsMax)};
      if pid + 1 > l.pidMax {
        assert before == 0;
        before, seen, from := count, {}, l.pidMin;
      }
      AfterNext(l, nextpid, steps);
      assert !Free(l, slots, After(l, nextpid, steps));
      pid, steps := Inc(l, pid), steps + 1;
    }
  }

  // ----- The invariant

  ghost predicate Shape(l: Limits, s: State)
  {
    && 2 <= l.procsMax == |s.slots| && 2 <= l.pidMin && l.pidMin + l.procsMax <= l.pidMax + 1
    && l.pidMin <= s.nextpid <= l.pidMax && s.nprocs == |Occupied(s.slots)|
  }

  /** The parent named by e is there, has not exited, and is the process that created e. */
  ghost predicate ParentOk(l: Limits, slots: seq<Option<Entry>>, e: Entry)
    requires 0 < l.procsMax == |slots|
  {
    e.ppid != INVALID_PID ==>
      var q := Get(l, slots, e.ppid);
      q.Some? && !q.value.exited && q.value.born == e.pborn
  }

  /** Entry e of slot i is where it belongs; if it has exited, its parent can collect it. */
  ghost predicate EntryOk(l: Limits, slots: seq<Option<Entry>>, h: History, i: nat, e: Entry)
    requires 0 < l.procsMax == |slots|
  {
    && e.pid != INVALID_PID && Rem(e.pid, l.procsMax) == i
    && (e.pid == KERNEL_PID || l.pidMin <= e.pid <= l.pidMax)
    && ParentOk(l, slots, e)
    && (e.exited ==> e.ppid != INVALID_PID)
    && RecordOk(h, e)
  }

  /** The entry agrees with what has happened. */
  ghost predicate RecordOk(h: History, e: Entry)
  {
    && e.born < h.births && e.born in h.parent && h.parent[e.born] == e.pborn && e.born !in h.got
    && (e.exited <==> e.born in h.exits) && (e.exited && e.born in h.exits ==> h.exits[e.born] == e.status)
  }

  ghost predicate SlotOk(l: Limits, slots: seq<Option<Entry>>, h: History, i: nat)
    requires 0 < l.procsMax == |slots| && i < |slots|
  {
    slots[i].Some? ==> EntryOk(l, slots, h, i, slots[i].value)
  }

  ghost predicate Live(l: Limits, slots: seq<Option<Entry>>, p: nat)
    requires 0 < l.procsMax == |slots|
  {
    Get(l, slots, p).Some? && !Get(l, slots, p).value.exited
  }

  /** A sleeping waiter's child is still there, is still its child, and has exited exactly if
      the waiter has been woken. */
  ghost predicate WaiterOk(l: Limits, slots: seq<Option<Entry>>, p: nat, w: Waiter)
    requires 0 < l.procsMax == |slots|
  {
    var c := Get(l, slots, w.child);
    Live(l, slots, p) && c.Some? && c.value.ppid == p && p != INVALID_PID && (w.woken <==> c.value.exited)
  }

  ghost predicate Twins(slots: seq<Option<Entry>>, i: nat, j: nat)
    requires i < |slots| && j < |slots|
  {
    slots[i].Some? && slots[j].Some? && slots[i].value.born == slots[j].value.born
  }

  /** A status is collected once, by the parent, and is the one the process exited with. */
  ghost predicate ReceiptOk(h: History, b: nat)
    requires b in h.got
  {
    b in h.parent && b in h.exits && b < h.births && h.got[b] == Receipt(h.parent[b], h.exits[b])
  }

  ghost predicate HistoryOk(h: History)
  {
    (forall b :: b in h.got ==> ReceiptOk(h, b)) && forall b :: b in h.exits ==> b < h.births
  }

  ghost predicate Inv(l: Limits, s: State)
  {
    && Shape(l, s)
    && (forall i: nat :: i < |s.slots| ==> SlotOk(l, s.slots, s.h, i))
    && (forall i: nat, j: nat :: i < |s.slots| && j < |s.slots| && i != j ==> !Twins(s.slots, i, j))
    && (forall p :: p in s.running <==> Live(l, s.slots, p))
    && (forall p :: p in s.waiters ==> WaiterOk(l, s.slots, p, s.waiters[p]))
    && HistoryOk(s.h)
  }

  // ----- Changing one slot

  lemma GetOther(l: Limits, slots: seq<Option<Entry>>, i: nat, x: Option<Entry>, p: nat)
    requires 0 < l.procsMax == |slots| && i < |slots|
    ensures Rem(p, l.procsMax) != i ==> Get(l, slots[i := x], p) == Get(l, slots, p)
    ensures Rem(p, l.procsMax) == i ==> Get(l, slots[i := x], p) == if x.Some? && x.value.pid == p then x else None
  {}

  /** A pid present in the table has its entry in its slot. */
  lemma GetIs(l: Limits, s: State, p: nat)
    requires Inv(l, s) && Get(l, s.slots, p).Some?
    ensures var i := Rem(p, l.procsMax);
            && i < |s.slots| && s.slots[i] == Get(l, s.slots, p)
            && EntryOk(l, s.slots, s.h, i, s.slots[i].value) && s.slots[i].value.pid == p
  {
    assert SlotOk(l, s.slots, s.h, Rem(p, l.procsMax));
  }

  /** pid_alloc, once a free pid is found. */
  ghost function Allocated(l: Limits, s: State, me: nat, pid: nat): State
    requires 0 < l.procsMax == |s.slots| && Get(l, s.slots, me).Some?
  {
    var b := Get(l, s.slots, me).value.born;
    s.(slots := s.slots[Rem(pid, l.procsMax) := Some(Entry(pid, me, false, 0xbeef, s.h.births, b))],
       nextpid := Inc(l, pid), nprocs := s.nprocs + 1, running := s.running + {pid},
       h := s.h.(births := s.h.births + 1, parent := s.h.parent[s.h.births := b]))
  }

  lemma AllocSlots(l: Limits, s: State, me: nat, pid: nat, j: nat)
    requires Inv(l, s) && me in s.running && me != INVALID_PID
    requires l.pidMin <= pid <= l.pidMax && s.slots[Rem(pid, l.procsMax)].None?
    requires j < |s.slots|
    ensures var s' := Allocated(l, s, me, pid); SlotOk(l, s'.slots, s'.h, j)
  {
    var s', i := Allocated(l, s, me, pid), Rem(pid, l.procsMax);
    assert Live(l, s.slots, me) && SlotOk(l, s.slots, s.h, j);
    if s'.slots[j].Some? {
      var e := s'.slots[j].value;
      GetOther(l, s.slots, i, s'.slots[i], e.ppid);
      assert j != i ==> e.born in s.h.parent && e.born < s.h.births;
      assert j == i ==> s.h.births !in s.h.got && s.h.births !in s.h.exits by {
        assert s.h.births in s.h.got ==> ReceiptOk(s.h, s.h.births);
      }
    }
  }

  lemma AllocKeeps(l: Limits, s: State, me: nat, pid: nat)
    requires Inv(l, s) && me in s.running && me != INVALID_PID
    requires l.pidMin <= pid <= l.pidMax && s.slots[Rem(pid, l.procsMax)].None?
    ensures Live(l, s.slots, me) && Inv(l, Allocated(l, s, me, pid))
    ensures Get(l, s.slots, pid).None? && pid !in s.running
  {
    assert Live(l, s.slots, me);
    var s', i := Allocated(l, s, me, pid), Rem(pid, l.procsMax);
    OccupiedPut(s.slots, i, s'.slots[i].value);
    forall j: nat | j < |s'.slots| ensures SlotOk(l, s'.slots, s'.h, j) {
      AllocSlots(l, s, me, pid, j);
    }
    forall j: nat, k: nat | j < |s'.slots| && k < |s'.slots| && j != k ensures !Twins(s'.slots, j, k) {
      assert !Twins(s.slots, j, k) && SlotOk(l, s.slots, s.h, j) && SlotOk(l, s.slots, s.h, k);
    }
    forall p ensures p in s'.running <==> Live(l, s'.slots, p) {
      assert p in s.running <==> Live(l, s.slots, p);
      GetOther(l, s.slots, i, s'.slots[i], p);
    }
    forall p | p in s'.waiters ensures WaiterOk(l, s'.slots, p, s'.waiters[p]) {
      assert WaiterOk(l, s.slots, p, s.waiters[p]);
      GetOther(l, s.slots, i, s'.slots[i], p);
      GetOther(l, s.slots, i, s'.slots[i], s.waiters[p].child);
    }
    forall b | b in s'.h.got ensures ReceiptOk(s'.h, b) {
      assert ReceiptOk(s.h, b);
    }
  }

  ghost predicate Childless(slots: seq<Option<Entry>>, pid: nat)
  {
    forall j: nat :: j < |slots| && slots[j].Some? ==> slots[j].value.ppid != pid
  }

  /** A slot after the process me has disowned its children: an exited child is gone, a living
      one has no parent. */
  function Orphaned(e: Option<Entry>, me: nat): Option<Entry>
  {
    if e.None? || e.value.ppid != me then e
    else if e.value.exited then None else Some(e.value.(ppid := INVALID_PID))
  }

  ghost predicate NotAwaited(waiters: map<nat, Waiter>, pid: nat)
  {
    pid !in waiters && forall p :: p in waiters ==> waiters[p].child != pid
  }

  /** The history h' adds nothing about the entries other than that of slot i. */
  ghost predicate OthersRecorded(slots: seq<Option<Entry>>, h': History, i: nat)
  {
    forall j: nat :: j < |slots| && j != i && slots[j].Some? ==> RecordOk(h', slots[j].value)
  }

  /** pi_drop of an entry that no other entry or waiter refers to. */
  lemma DropKeeps(l: Limits, s: State, s': State, pid: nat)
    requires Inv(l, s) && Get(l, s.slots, pid).Some? && Childless(s.slots, pid)
    requires NotAwaited(s.waiters, pid) && pid != INVALID_PID
    requires s' == s.(slots := s.slots[Rem(pid, l.procsMax) := None], nprocs := s.nprocs - 1,
                       running := s.running - {pid}, h := s'.h)
    requires HistoryOk(s'.h) && OthersRecorded(s.slots, s'.h, Rem(pid, l.procsMax))
    ensures Inv(l, s')
  {
    var i := Rem(pid, l.procsMax);
    OccupiedDrop(s.slots, i);
    forall j: nat | j < |s'.slots| ensures SlotOk(l, s'.slots, s'.h, j) {
      assert SlotOk(l, s.slots, s.h, j);
      if s'.slots[j].Some? { GetOther(l, s.slots, i, None, s'.slots[j].value.ppid); }
    }
    forall j: nat, k: nat | j < |s'.slots| && k < |s'.slots| && j != k ensures !Twins(s'.slots, j, k) {
      assert !Twins(s.slots, j, k);
    }
    forall p ensures p in s'.running <==> Live(l, s'.slots, p) {
      assert p in s.running <==> Live(l, s.slots, p);
      GetOther(l, s.slots, i, None, p);
    }
    forall p | p in s'.waiters ensures WaiterOk(l, s'.slots, p, s'.waiters[p]) {
      assert WaiterOk(l, s.slots, p, s.waiters[p]);
      GetOther(l, s.slots, i, None, p);
      GetOther(l, s.slots, i, None, s.waiters[p].child);
    }
  }

  /** No entry names an exited process as its parent. */
  lemma ExitedChildless(l: Limits, s: State, pid: nat)
    requires Inv(l, s) && pid != INVALID_PID && !Live(l, s.slots, pid)
    ensures Childless(s.slots, pid)
  {
    forall j: nat | j < |s.slots| && s.slots[j].Some? ensures s.slots[j].value.ppid != pid {
      assert SlotOk(l, s.slots, s.h, j);
    }
  }

  /** Only its parent waits for a process. */
  lemma OnlyParentWaits(l: Limits, s: State, pid: nat, me: nat)
    requires Inv(l, s) && Get(l, s.slots, pid).Some? && Get(l, s.slots, pid).value.ppid == me && me !in s.waiters
    requires pid !in s.waiters
    ensures NotAwaited(s.waiters, pid)
  {
    forall p | p in s.waiters ensures s.waiters[p].child != pid {
      assert WaiterOk(l, s.slots, p, s.waiters[p]);
    }
  }

  /** The end of pid_wait: the parent me takes the status of pid, whose entry goes away. */
  ghost function Collected(l: Limits, s: State, me: nat, pid: nat): State
    requires 0 < l.procsMax == |s.slots| && Get(l, s.slots, me).Some? && Get(l, s.slots, pid).Some?
  {
    var e := Get(l, s.slots, pid).value;
    s.(slots := s.slots[Rem(pid, l.procsMax) := None], nprocs := s.nprocs - 1,
       h := s.h.(got := s.h.got[e.born := Receipt(Get(l, s.slots, me).value.born, e.status)]))
  }

  lemma CollectKeeps(l: Limits, s: State, me: nat, pid: nat)
    requires Inv(l, s) && me !in s.waiters && Get(l, s.slots, pid).Some? && pid != INVALID_PID
    requires var e := Get(l, s.slots, pid).value; e.exited && e.ppid == me
    ensures Live(l, s.slots, me) && Inv(l, Collected(l, s, me, pid))
    ensures var e := Get(l, s.slots, pid).value;
            && Collected(l, s, me, pid).h.got[e.born] == Receipt(s.h.parent[e.born], s.h.exits[e.born])
            && e.born !in s.h.got
  {
    GetIs(l, s, pid);
    assert pid !in s.running by { assert !Live(l, s.slots, pid); }
    assert pid in s.waiters ==> WaiterOk(l, s.slots, pid, s.waiters[pid]);
    ExitedChildless(l, s, pid);
    OnlyParentWaits(l, s, pid, me);
    var s', i := Collected(l, s, me, pid), Rem(pid, l.procsMax);
    var e := s.slots[i].value;
    forall j: nat | j < |s.slots| && j != i && s.slots[j].Some? ensures RecordOk(s'.h, s.slots[j].value) {
      assert SlotOk(l, s.slots, s.h, j) && !Twins(s.slots, j, i);
    }
    forall b | b in s'.h.got ensures ReceiptOk(s'.h, b) {
      if b != e.born { assert ReceiptOk(s.h, b); }
    }
    assert s.running - {pid} == s.running;
    DropKeeps(l, s, s', pid);
  }

  /** pid_disown */
  ghost function Disowned(l: Limits, s: State, pid: nat): State
    requires 0 < l.procsMax == |s.slots| && Get(l, s.slots, pid).Some?
  {
    var e, i := Get(l, s.slots, pid).value, Rem(pid, l.procsMax);
    if e.exited then s.(slots := s.slots[i := None], nprocs := s.nprocs - 1)
    else s.(slots := s.slots[i := Some(e.(ppid := INVALID_PID))])
  }

  lemma DisownKeeps(l: Limits, s: State, me: nat, pid: nat)
    requires Inv(l, s) && me !in s.waiters && pid != INVALID_PID
    requires Get(l, s.slots, pid).Some? && Get(l, s.slots, pid).value.ppid == me
    ensures Inv(l, Disowned(l, s, pid))
  {
    GetIs(l, s, pid);
    var s', i := Disowned(l, s, pid), Rem(pid, l.procsMax);
    var e := s.slots[i].value;
    if e.exited {
      assert pid !in s.running by { assert !Live(l, s.slots, pid); }
      assert pid in s.waiters ==> WaiterOk(l, s.slots, pid, s.waiters[pid]);
      ExitedChildless(l, s, pid);
      OnlyParentWaits(l, s, pid, me);
      forall j: nat | j < |s.slots| && j != i && s.slots[j].Some? ensures RecordOk(s.h, s.slots[j].value) {
        assert SlotOk(l, s.slots, s.h, j);
      }
      assert s.running - {pid} == s.running;
      DropKeeps(l, s, s', pid);
    } else {
      OrphanOne(l, s, s', me, pid);
    }
  }

  lemma OrphanOne(l: Limits, s: State, s': State, me: nat, pid: nat)
    requires Inv(l, s) && me !in s.waiters && pid != INVALID_PID
    requires Live(l, s.slots, pid) && Get(l, s.slots, pid).value.ppid == me
    requires s' == s.(slots := s.slots[Rem(pid, l.procsMax) := Some(Get(l, s.slots, pid).value.(ppid := INVALID_PID))])
    ensures Inv(l, s')
  {
    GetIs(l, s, pid);
    var i := Rem(pid, l.procsMax);
    OccupiedSame(s.slots, i, s'.slots[i].value);
    forall j: nat | j < |s'.slots| ensures SlotOk(l, s'.slots, s'.h, j) {
      assert SlotOk(l, s.slots, s.h, j);
      if s'.slots[j].Some? { GetOther(l, s.slots, i, s'.slots[i], s'.slots[j].value.ppid); }
    }
    forall j: nat, k: nat | j < |s'.slots| && k < |s'.slots| && j != k ensures !Twins(s'.slots, j, k) {
      assert !Twins(s.slots, j, k);
    }
    forall p ensures p in s'.running <==> Live(l, s'.slots, p) {
      assert p in s.running <==> Live(l, s.slots, p);
      GetOther(l, s.slots, i, s'.slots[i], p);
    }
    forall p | p in s'.waiters ensures WaiterOk(l, s'.slots, p, s'.waiters[p]) {
      assert WaiterOk(l, s.slots, p, s.waiters[p]);
      GetOther(l, s.slots, i, s'.slots[i], p);
      GetOther(l, s.slots, i, s'.slots[i], s.waiters[p].child);
    }
  }

  /** pid_unalloc, of a process that never ran. */
  lemma UnallocKeeps(l: Limits, s: State, s': State, me: nat, pid: nat)
    requires Inv(l, s) && me !in s.waiters && pid !in s.waiters && pid != INVALID_PID && Childless(s.slots, pid)
    requires Live(l, s.slots, pid) && Get(l, s.slots, pid).value.ppid == me
    requires s' == s.(slots := s.slots[Rem(pid, l.procsMax) := None], nprocs := s.nprocs - 1,
                       running := s.running - {pid})
    ensures Inv(l, s')
  {
    OnlyParentWaits(l, s, pid, me);
    forall j: nat | j < |s.slots| && s.slots[j].Some? ensures RecordOk(s.h, s.slots[j].value) {
      assert SlotOk(l, s.slots, s.h, j);
    }
    DropKeeps(l, s, s', pid);
  }

  /** cv_broadcast on the entry of pid. */
  ghost function WakeWaiters(waiters: map<nat, Waiter>, pid: nat): map<nat, Waiter>
  {
    map p | p in waiters :: if waiters[p].child == pid then Waiter(pid, true) else waiters[p]
  }

  /** The second half of pid_setexitstatus. */
  ghost function ExitMarked(l: Limits, s: State, me: nat, status: int): State
    requires 0 < l.procsMax == |s.slots| && Get(l, s.slots, me).Some?
  {
    var e, i := Get(l, s.slots, me).value, Rem(me, l.procsMax);
    var s1 := s.(running := s.running - {me}, h := s.h.(exits := s.h.exits[e.born := status]));
    if e.ppid == INVALID_PID then s1.(slots := s.slots[i := None], nprocs := s.nprocs - 1)
    else s1.(slots := s.slots[i := Some(e.(exited := true, status := status))], waiters := WakeWaiters(s.waiters, me))
  }

  lemma ExitRecords(l: Limits, s: State, me: nat, status: int)
    requires Inv(l, s) && Live(l, s.slots, me) && me != INVALID_PID
    ensures var s', i := ExitMarked(l, s, me, status), Rem(me, l.procsMax);
            HistoryOk(s'.h) && OthersRecorded(s.slots, s'.h, i)
  {
    GetIs(l, s, me);
    var s', i := ExitMarked(l, s, me, status), Rem(me, l.procsMax);
    var e := s.slots[i].value;
    forall j: nat | j < |s.slots| && j != i && s.slots[j].Some? ensures RecordOk(s'.h, s.slots[j].value) {
      assert SlotOk(l, s.slots, s.h, j) && !Twins(s.slots, j, i);
    }
    forall b | b in s'.h.got ensures ReceiptOk(s'.h, b) {
      assert ReceiptOk(s.h, b) && b != e.born;
    }
  }

  lemma ExitKeeps(l: Limits, s: State, me: nat, status: int)
    requires Inv(l, s) && me in s.running && me !in s.waiters && Childless(s.slots, me) && me != INVALID_PID
    ensures Live(l, s.slots, me) && Inv(l, ExitMarked(l, s, me, status))
  {
    assert Live(l, s.slots, me);
    GetIs(l, s, me);
    ExitRecords(l, s, me, status);
    var s', e := ExitMarked(l, s, me, status), Get(l, s.slots, me).value;
    if e.ppid == INVALID_PID {
      forall p | p in s.waiters ensures s.waiters[p].child != me {
        assert WaiterOk(l, s.slots, p, s.waiters[p]);
      }
      DropKeeps(l, s, s', me);
    } else {
      ExitMarks(l, s, me, status);
    }
  }

  lemma ExitMarks(l: Limits, s: State, me: nat, status: int)
    requires Inv(l, s) && Live(l, s.slots, me) && me !in s.waiters && Childless(s.slots, me) && me != INVALID_PID
    requires Get(l, s.slots, me).value.ppid != INVALID_PID
    requires var s', i := ExitMarked(l, s, me, status), Rem(me, l.procsMax);
             HistoryOk(s'.h) && OthersRecorded(s.slots, s'.h, i)
    ensures Inv(l, ExitMarked(l, s, me, status))
  {
    GetIs(l, s, me);
    var s', i := ExitMarked(l, s, me, status), Rem(me, l.procsMax);
    OccupiedSame(s.slots, i, s'.slots[i].value);
    forall j: nat | j < |s'.slots| ensures SlotOk(l, s'.slots, s'.h, j) {
      assert SlotOk(l, s.slots, s.h, j);
      if s'.slots[j].Some? { GetOther(l, s.slots, i, s'.slots[i], s'.slots[j].value.ppid); }
    }
    forall j: nat, k: nat | j < |s'.slots| && k < |s'.slots| && j != k ensures !Twins(s'.slots, j, k) {
      assert !Twins(s.slots, j, k);
    }
    forall p ensures p in s'.running <==> Live(l, s'.slots, p) {
      assert p in s.running <==> Live(l, s.slots, p);
      GetOther(l, s.slots, i, s'.slots[i], p);
    }
    forall p | p in s'.waiters ensures WaiterOk(l, s'.slots, p, s'.waiters[p]) {
      assert WaiterOk(l, s.slots, p, s.waiters[p]);
      GetOther(l, s.slots, i, s'.slots[i], p);
      GetOther(l, s.slots, i, s'.slots[i], s.waiters[p].child);
    }
  }

  /** Process me goes to sleep until pid exits, or has collected its status. */
  lemma WaitersKeep(l: Limits, s: State, s': State, me: nat, pid: nat)
    requires Inv(l, s) && me in s.running && me != INVALID_PID
    requires Live(l, s.slots, pid) && Get(l, s.slots, pid).value.ppid == me
    requires s' == s.(waiters := s.waiters[me := Waiter(pid, false)])
    ensures Inv(l, s')
  {
    forall p | p in s'.waiters ensures WaiterOk(l, s'.slots, p, s'.waiters[p]) {
      if p != me { assert WaiterOk(l, s.slots, p, s.waiters[p]); }
    }
  }

  // ----- The operations

  datatype AllocResult = Allotted(pid: nat) | EAGAIN | ENOMEM
  datatype WaitResult = EINVAL | ENOSYS | ESRCH | EPERM | NotYet | Status(status: int) | Asleep

  const WNOHANG := 1

  class Pids {
    var s: State
    const l: Limits

    /** pid_bootstrap */
    constructor (l: Limits)
      requires 2 <= l.procsMax && 2 <= l.pidMin && l.pidMin + l.procsMax <= l.pidMax + 1
      ensures Inv(this.l, s) && this.l == l && s.running == {KERNEL_PID} && s.waiters == map[] && s.nextpid == l.pidMin
    {
      this.l := l;
      var slots: seq<Option<Entry>> := seq(l.procsMax, _ => None);
      ghost var h := History(1, map[0 := 0], map[], map[]);
      var k := Entry(KERNEL_PID, INVALID_PID, false, 0xbeef, 0, 0);
      s := State(slots[KERNEL_PID := Some(k)], l.pidMin, 1, {KERNEL_PID}, map[], h);
      new;
      assert Occupied(slots) == {};
      OccupiedPut(slots, KERNEL_PID, k);
      RemSmall(KERNEL_PID, l.procsMax);
      forall p ensures p in s.running <==> Live(l, s.slots, p) {
        GetOther(l, slots, KERNEL_PID, Some(k), p);
      }
    }

    /** pid_alloc. A new pid is not in the table, and the table refuses only when every slot
        is taken. */
    method Alloc(me: nat, memory: bool) returns (r: AllocResult)
      requires Inv(l, s) && me in s.running && me !in s.waiters && me != INVALID_PID
      modifies this
      ensures Inv(l, s)
      ensures r.EAGAIN? <==> forall i :: 0 <= i < |old(s).slots| ==> old(s).slots[i].Some?
      ensures r.ENOMEM? <==> !memory && !r.EAGAIN?
      ensures !r.Allotted? ==> s == old(s).(nextpid := s.nextpid) && (r.EAGAIN? ==> s == old(s))
      ensures r.ENOMEM? ==> exists n: nat :: FirstFree(l, old(s).slots, old(s).nextpid, n) &&
                                             s.nextpid == After(l, old(s).nextpid, n)
      ensures r.Allotted? ==> exists n: nat :: FirstFree(l, old(s).slots, old(s).nextpid, n) &&
                                               r.pid == After(l, old(s).nextpid, n)
      ensures r.Allotted? ==> l.pidMin <= r.pid <= l.pidMax && s.nextpid == After(l, r.pid, 1)
      ensures r.Allotted? ==> l.pidMin <= r.pid <= l.pidMax && s == Allocated(l, old(s), me, r.pid)
      ensures r.Allotted? ==> Get(l, old(s).slots, r.pid).None? && r.pid !in old(s).running
    {
      FullWhen(s.slots);
      if s.nprocs == l.procsMax { return EAGAIN; }
      var pid;
      ghost var n;
      pid, n := Search(l, s.slots, s.nextpid);
      AfterNone(l, pid);
      AfterNext(l, pid, 0);
      if !memory {
        s := s.(nextpid := pid);
        return ENOMEM;
      }
      AllocKeeps(l, s, me, pid);
      var slot := Rem(pid, l.procsMax);
      ghost var b := Get(l, s.slots, me).value.born;
      s := s.(slots := s.slots[slot := Some(Entry(pid, me, false, 0xbeef, s.h.births, b))], nextpid := Inc(l, pid),
              nprocs := s.nprocs + 1,
              running := s.running + {pid}, h := s.h.(births := s.h.births + 1, parent := s.h.parent[s.h.births := b]));
      r := Allotted(pid);
    }

    /** pid_disown, and what pid_setexitstatus does to each child. */
    method Disown(me: nat, pid: nat)
      requires Inv(l, s) && me !in s.waiters && pid != INVALID_PID
      requires Get(l, s.slots, pid).Some? && Get(l, s.slots, pid).value.ppid == me
      modifies this
      ensures Inv(l, s) && s == Disowned(l, old(s), pid)
    {
      DisownKeeps(l, s, me, pid);
      var i := Rem(pid, l.procsMax);
      var e := s.slots[i].value;
      if e.exited {
        s := s.(slots := s.slots[i := None], nprocs := s.nprocs - 1);
      } else {
        s := s.(slots := s.slots[i := Some(e.(ppid := INVALID_PID))]);
      }
    }

    /** pid_unalloc */
    method Unalloc(me: nat, pid: nat)
      requires Inv(l, s) && me !in s.waiters && pid !in s.waiters && pid != INVALID_PID && Childless(s.slots, pid)
      requires Live(l, s.slots, pid) && Get(l, s.slots, pid).value.ppid == me
      modifies this
      ensures Inv(l, s) && Get(l, s.slots, pid).None?
      ensures var i := Rem(pid, l.procsMax);
              s == old(s).(slots := old(s).slots[i := None], nprocs := old(s).nprocs - 1,
                           running := old(s).running - {pid})
    {
      var i := Rem(pid, l.procsMax);
      UnallocKeeps(l, s, s.(slots := s.slots[i := None], nprocs := s.nprocs - 1, running := s.running - {pid}),
                   me, pid);
      s := s.(slots := s.slots[i := None], nprocs := s.nprocs - 1, running := s.running - {pid});
    }

    /** The loop of pid_setexitstatus: no entry names me as its parent any more. */
    method DisownAll(me: nat)
      requires Inv(l, s) && me in s.running && me !in s.waiters && me != INVALID_PID
      modifies this
      ensures Inv(l, s) && Childless(s.slots, me)
      ensures s.running == old(s).running && s.waiters == old(s).waiters && s.h == old(s).h
      ensures Live(l, old(s).slots, me) && Live(l, s.slots, me)
      ensures Get(l, s.slots, me).value.born == Get(l, old(s).slots, me).value.born
      ensures s == old(s).(slots := s.slots, nprocs := s.nprocs)
      ensures forall j: nat :: j < |s.slots| ==> s.slots[j] == Orphaned(old(s).slots[j], me)
    {
      assert Live(l, s.slots, me);
      var i := 0;
      while i < l.procsMax
        invariant Inv(l, s) && i <= l.procsMax
        invariant s.running == old(s).running && s.waiters == old(s).waiters && s.h == old(s).h
        invariant Live(l, s.slots, me) && Get(l, s.slots, me).value.born == Get(l, old(s).slots, me).value.born
        invariant forall j: nat :: j < i && s.slots[j].Some? ==> s.slots[j].value.ppid != me
        invariant s == old(s).(slots := s.slots, nprocs := s.nprocs)
        invariant forall j: nat :: j < i ==> s.slots[j] == Orphaned(old(s).slots[j], me)
        invariant forall j: nat :: i <= j < |s.slots| ==> s.slots[j] == old(s).slots[j]
      {
        if s.slots[i].Some? && s.slots[i].value.ppid == me {
          assert SlotOk(l, s.slots, s.h, i);
          ghost var was := s;
          Disown(me, s.slots[i].value.pid);
          GetOther(l, was.slots, i, s.slots[i], me);
        }
        i := i + 1;
      }
    }

    /** pid_setexitstatus. The status is recorded for the parent, if there is one. */
    method SetExitStatus(me: nat, status: int)
      requires Inv(l, s) && me in s.running && me !in s.waiters && me != INVALID_PID
      modifies this
      ensures Inv(l, s) && s.running == old(s).running - {me} && Childless(s.slots, me)
      ensures Live(l, old(s).slots, me)
      ensures var b := Get(l, old(s).slots, me).value.born; s.h == old(s).h.(exits := old(s).h.exits[b := status])
      ensures s.nextpid == old(s).nextpid
      ensures forall j: nat :: j < |s.slots| && j != Rem(me, l.procsMax) ==> s.slots[j] == Orphaned(old(s).slots[j], me)
      ensures var e := Orphaned(Get(l, old(s).slots, me), me);
              && e.Some?
              && if e.value.ppid == INVALID_PID then Get(l, s.slots, me).None? && s.waiters == old(s).waiters
                 else && Get(l, s.slots, me) == Some(e.value.(exited := true, status := status))
                      && s.waiters == WakeWaiters(old(s).waiters, me)
    {
      assert Live(l, s.slots, me);
      ghost var b := Get(l, s.slots, me).value.born;
      DisownAll(me);
      assert Live(l, s.slots, me);
      ExitKeeps(l, s, me, status);
      var i := Rem(me, l.procsMax);
      var e := s.slots[i].value;
      if e.ppid == INVALID_PID {
        s := s.(slots := s.slots[i := None], nprocs := s.nprocs - 1, running := s.running - {me},
                h := s.h.(exits := s.h.exits[e.born := status]));
      } else {
        s := s.(slots := s.slots[i := Some(e.(exited := true, status := status))],
                waiters := WakeWaiters(s.waiters, me),
                running := s.running - {me}, h := s.h.(exits := s.h.exits[e.born := status]));
      }
    }

    /** pid_wait, up to its return or its sleep. A status goes only to the parent, and with it
        the entry. */
    method Wait(me: nat, their: int, flags: int) returns (r: WaitResult)
      requires Inv(l, s) && me in s.running && me !in s.waiters && me != INVALID_PID
      modifies this
      ensures Inv(l, s) && s.running == old(s).running
      ensures r == (if their == me then EINVAL
                    else if their <= INVALID_PID then ENOSYS
                    else if flags != 0 && flags != WNOHANG then EINVAL
                    else var c := Get(l, old(s).slots, their);
                         if c.None? then ESRCH
                         else if c.value.ppid != me then EPERM
                         else if c.value.exited then Status(c.value.status)
                         else if flags == WNOHANG then NotYet else Asleep)
      ensures r.Status? ==>
              Get(l, old(s).slots, their).Some? && Live(l, old(s).slots, me) && s == Collected(l, old(s), me, their)
      ensures r.Asleep? ==> s == old(s).(waiters := old(s).waiters[me := Waiter(their, false)])
      ensures !r.Status? && !r.Asleep? ==> s == old(s)
    {
      if their == me { return EINVAL; }
      if their <= INVALID_PID { return ENOSYS; }
      if flags != 0 && flags != WNOHANG { return EINVAL; }
      var them := Get(l, s.slots, their);
      if them.None? { return ESRCH; }
      if them.value.ppid != me { return EPERM; }
      if !them.value.exited {
        if flags == WNOHANG { return NotYet; }
        WaitersKeep(l, s, s.(waiters := s.waiters[me := Waiter(their, false)]), me, their);
        s := s.(waiters := s.waiters[me := Waiter(their, false)]);
        return Asleep;
      }
      var status := Collect(me, their);
      r := Status(status);
    }

    /** The rest of pid_wait after its sleep: the entry it kept a pointer to is still there and
        has exited. */
    method WaitDone(me: nat, their: nat) returns (status: int)
      requires Inv(l, s) && me in s.waiters && s.waiters[me].woken && their == s.waiters[me].child
      modifies this
      ensures Inv(l, s) && s.running == old(s).running && me !in s.waiters
      ensures Get(l, old(s).slots, their).Some? && Live(l, old(s).slots, me)
      ensures s == Collected(l, old(s).(waiters := old(s).waiters - {me}), me, their)
      ensures status == Get(l, old(s).slots, their).value.status
    {
      assert WaiterOk(l, s.slots, me, s.waiters[me]);
      s := s.(waiters := s.waiters - {me});
      forall p | p in s.waiters ensures WaiterOk(l, s.slots, p, s.waiters[p]) {
        assert WaiterOk(l, old(s).slots, p, old(s).waiters[p]);
      }
      GetIs(l, s, their);
      status := Collect(me, their);
    }

    method Collect(me: nat, their: nat) returns (status: int)
      requires Inv(l, s) && me !in s.waiters && their != INVALID_PID
      requires Get(l, s.slots, their).Some? && Get(l, s.slots, their).value.exited
      requires Get(l, s.slots, their).value.ppid == me
      modifies this
      ensures Inv(l, s) && Live(l, old(s).slots, me) && s == Collected(l, old(s), me, their)
      ensures status == Get(l, old(s).slots, their).value.status
    {
      CollectKeeps(l, s, me, their);
      var i := Rem(their, l.procsMax);
      var e := s.slots[i].value;
      status := e.status;
      s := s.(slots := s.slots[i := None], nprocs := s.nprocs - 1,
              h := s.h.(got := s.h.got[e.born := Receipt(Get(l, s.slots, me).value.born, e.status)]));
    }
  }

  /** Every exited process still in the table has a parent that is there to collect it, and
      is the very process that created it. */
  lemma ParentCanCollect(l: Limits, s: State, pid: nat)
    requires Inv(l, s) && Get(l, s.slots, pid).Some? && Get(l, s.slots, pid).value.exited
    ensures var e := Get(l, s.slots, pid).value;
            && e.ppid in s.running && Live(l, s.slots, e.ppid)
            && e.born in s.h.parent && Get(l, s.slots, e.ppid).value.born == s.h.parent[e.born] && e.born !in s.h.got
  {
    GetIs(l, s, pid);
    var e := Get(l, s.slots, pid).value;
    assert Live(l, s.slots, e.ppid);
  }

  /** The count reaches the table size exactly when no slot is empty. */
  lemma FullWhen(slots: seq<Option<Entry>>)
    ensures |Occupied(slots)| <= |slots|
    ensures |Occupied(slots)| == |slots| <==> forall i :: 0 <= i < |slots| ==> slots[i].Some?
  {
    var all := Below(|slots|);
    SameSize(Occupied(slots), all);
    if |Occupied(slots)| == |slots| {
      forall i | 0 <= i < |slots| ensures slots[i].Some? {
        assert i in all;
      }
    }
    if forall i :: 0 <= i < |slots| ==> slots[i].Some? { assert Occupied(slots) == all; }
  }
}
