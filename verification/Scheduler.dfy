/** The thread system: context switch, idling, wait channels, zombies and migration, for
    any number of CPUs, threads and channels.

    Each step below is the work one CPU does between two lock operations, so every
    interleaving of the real code is a run of these steps. While a CPU is `Switching` it
    holds its own run-queue lock; in every other phase that lock is free. */
module Scheduler {

  type Cpu = nat
  type Thread = nat
  type Channel = nat

  /** Where a thread can be. `Hand` is the private list of a wakeup in progress,
      `Victims` that of a migration in progress. */
  datatype Place =
    | OnCpu(cpu: Cpu)
    | RunQueue(cpu: Cpu)
    | Sleeping(chan: Channel)
    | Zombie(cpu: Cpu)
    | Hand(cpu: Cpu)
    | Victims(cpu: Cpu)

  datatype ThreadState = Run | Ready | Sleep | Dead

  /** `Switching`: the old thread has been queued and the next one is being chosen.
      `Idle`: there was none; the CPU waits, still on the old thread's stack. */
  datatype Phase = Running | Switching | Idle

  datatype Migration = NotMigrating | Counted(toSend: nat, share: nat) | Sending(toSend: nat, share: nat)

  type Lists = map<Place, seq<Thread>>

  datatype State = State(
    ncpus: nat,
    lists: Lists,                      // every thread list in the system
    cur: map<Cpu, Thread>,             // c_curthread, whose stack the CPU is on
    phase: map<Cpu, Phase>,            // c_isidle is phase != Running
    home: map<Thread, Cpu>,            // t_cpu, for every thread not yet destroyed
    tstate: map<Thread, ThreadState>,  // t_state
    mig: map<Cpu, Migration>,
    awake: map<Cpu, bool>)             // an interrupt has reached the CPU since it went idle

  // ----- Thread lists

  function At(l: Lists, p: Place): seq<Thread>
  {
    if p in l then l[p] else []
  }

  /** remhead from p, addtail to q. */
  function HeadToTail(l: Lists, p: Place, q: Place): Lists
    requires At(l, p) != []
  {
    var l1 := l[p := At(l, p)[1..]];
    l1[q := At(l1, q) + [At(l, p)[0]]]
  }

  /** remtail from p, addhead to q. */
  function TailToHead(l: Lists, p: Place, q: Place): Lists
    requires At(l, p) != []
  {
    var n := |At(l, p)| - 1;
    var l1 := l[p := At(l, p)[..n]];
    l1[q := [At(l, p)[n]] + At(l1, q)]
  }

  /** Empty p into q, head first. */
  function AllToTail(l: Lists, p: Place, q: Place): (r: Lists)
    requires p != q
    ensures Emptied(l, r, p, q)
    decreases |At(l, p)|
  {
    if At(l, p) == [] then l else
      var l1 := HeadToTail(l, p, q);
      var r := AllToTail(l1, p, q);
      EmptiedMore(l, l1, r, p, q);
      r
  }

  /** Move the last k threads of p to q, keeping their order. */
  function LastToHead(l: Lists, p: Place, q: Place, k: nat): (r: Lists)
    requires p != q && k <= |At(l, p)|
    ensures Carried(l, r, p, q, k)
    decreases k
  {
    CarriedNone(l, p, q);
    if k == 0 then l else
      var l1 := TailToHead(l, p, q);
      CarriedOne(l, p, q);
      var r := LastToHead(l1, p, q, k - 1);
      CarriedMore(l, l1, r, p, q, k);
      r
  }

  /** No thread left p or q for elsewhere, and no other list changed. */
  ghost predicate SameElsewhere(l: Lists, l': Lists, p: Place, q: Place)
  {
    forall r :: r != p && r != q ==> At(l', r) == At(l, r)
  }

  /** All threads of p now stand behind those of q. */
  ghost predicate Emptied(l: Lists, l': Lists, p: Place, q: Place)
  {
    At(l', p) == [] && At(l', q) == At(l, q) + At(l, p) && SameElsewhere(l, l', p, q)
  }

  /** The last k threads of p now stand before those of q. */
  ghost predicate Carried(l: Lists, l': Lists, p: Place, q: Place, k: nat)
    requires k <= |At(l, p)|
  {
    && At(l', p) == At(l, p)[..|At(l, p)| - k]
    && At(l', q) == At(l, p)[|At(l, p)| - k..] + At(l, q)
    && SameElsewhere(l, l', p, q)
  }

  lemma EmptiedMore(l: Lists, l1: Lists, l2: Lists, p: Place, q: Place)
    requires p != q && At(l, p) != [] && At(l1, p) == At(l, p)[1..] && At(l1, q) == At(l, q) + [At(l, p)[0]]
    requires SameElsewhere(l, l1, p, q) && Emptied(l1, l2, p, q)
    ensures Emptied(l, l2, p, q)
  {
    assert At(l, q) + [At(l, p)[0]] + At(l, p)[1..] == At(l, q) + At(l, p);
  }

  lemma CarriedNone(l: Lists, p: Place, q: Place)
    ensures Carried(l, l, p, q, 0)
  {}

  lemma CarriedOne(l: Lists, p: Place, q: Place)
    requires p != q && At(l, p) != []
    ensures Carried(l, TailToHead(l, p, q), p, q, 1)
  {}

  lemma CarriedMore(l: Lists, l1: Lists, l2: Lists, p: Place, q: Place, k: nat)
    requires p != q && 0 < k <= |At(l, p)| && Carried(l, l1, p, q, 1) && Carried(l1, l2, p, q, k - 1)
    ensures Carried(l, l2, p, q, k)
  {
    var s, n, m := At(l, p), |At(l, p)| - k, |At(l, p)| - 1;
    assert s[..m][..n] == s[..n] && s[..m][n..] + ([s[m]] + At(l, q)) == s[n..] + At(l, q);
  }

  // ----- Steps

  datatype Step =
    | Fork(cpu: Cpu, t: Thread, target: Cpu)  // target: the forking thread's CPU when it copied t_cpu
    | Yield(cpu: Cpu)
    | SleepOn(cpu: Cpu, chan: Channel)
    | Exit(cpu: Cpu)
    | Pick(cpu: Cpu)
    | Interrupt(cpu: Cpu)
    | Unidle(cpu: Cpu)
    | Exorcise(cpu: Cpu)
    | WakeOne(cpu: Cpu, chan: Channel)
    | WakeAll(cpu: Cpu, chan: Channel)
    | MakeRunnable(cpu: Cpu)
    | MigrationCount(cpu: Cpu, total: nat)
    | MigrationTake(cpu: Cpu)
    | MigrationSend(cpu: Cpu, to: Cpu)
    | MigrationFinish(cpu: Cpu)

  /** The CPU is not in the middle of a wakeup or a migration (it holds no other lock and
      is not in an interrupt handler). */
  predicate Free(s: State, c: Cpu)
    requires c in s.mig
  {
    s.mig[c].NotMigrating? && At(s.lists, Hand(c)) == []
  }

  predicate HasCpu(s: State, c: Cpu)
  {
    c < s.ncpus && c in s.cur && c in s.phase && c in s.mig && c in s.awake
  }

  /** The run-queue lock of c is not held. */
  predicate QueueOpen(s: State, c: Cpu)
  {
    c in s.phase && !s.phase[c].Switching?
  }

  /** The CPU is executing code outside its choice of the next thread: a thread, or an
      interrupt handler that broke into cpu_idle. */
  predicate Active(s: State, c: Cpu)
    requires HasCpu(s, c)
  {
    Free(s, c) && (s.phase[c].Running? || (s.phase[c].Idle? && s.awake[c]))
  }

  /** DIVROUNDUP */
  function Share(total: nat, n: nat): nat
    requires n > 0
  {
    (total + n - 1) / n
  }

  /** Whether the code of a step can run now: the locks it needs are free and the branch
      it takes is the one the code would take. */
  predicate Enabled(s: State, step: Step)
  {
    && HasCpu(s, step.cpu)
    && var c := step.cpu;
       match step
       case Fork(_, t, d) => s.phase[c].Running? && Free(s, c) && t !in s.home && d < s.ncpus && QueueOpen(s, d)
       case Yield(_) => s.phase[c].Running? && Free(s, c) && At(s.lists, RunQueue(c)) != []
       case SleepOn(_, _) => s.phase[c].Running? && Free(s, c)
       case Exit(_) => s.phase[c].Running? && Free(s, c)
       case Pick(_) => s.phase[c].Switching?
       case Interrupt(_) => s.phase[c].Idle?
       case Unidle(_) => s.phase[c].Idle? && Free(s, c) && s.awake[c]
       case Exorcise(_) => s.phase[c].Running? && Free(s, c) && At(s.lists, Zombie(c)) != []
       case WakeOne(_, w) => Active(s, c) && At(s.lists, Sleeping(w)) != []
       case WakeAll(_, w) => Active(s, c)
       case MakeRunnable(_) => At(s.lists, Hand(c)) != [] && var t := At(s.lists, Hand(c))[0];
                               t in s.home ==> QueueOpen(s, s.home[t])
       case MigrationCount(_, total) => Active(s, c) && total >= |At(s.lists, RunQueue(c))|
       case MigrationTake(_) => s.mig[c].Counted?
       case MigrationSend(_, d) => s.mig[c].Sending? && s.mig[c].toSend > 0 && HasCpu(s, d) && d != c && QueueOpen(s, d)
                                   && |At(s.lists, RunQueue(d))| < s.mig[c].share
       case MigrationFinish(_) => s.mig[c].Sending?
  }

  /** What would stop the kernel: an assertion of the code that does not hold, a null
      pointer taken from an empty list, or the use of a destroyed thread. */
  predicate Fails(s: State, step: Step)
    requires Enabled(s, step)
  {
    var c := step.cpu;
    match step
    case Yield(_) => !OnOwnCpu(s, c)
    case SleepOn(_, _) => !OnOwnCpu(s, c)
    case Exit(_) => !OnOwnCpu(s, c)
    case Exorcise(_) => var z := At(s.lists, Zombie(c))[0]; z == s.cur[c] || z !in s.tstate || s.tstate[z] != Dead
    case MakeRunnable(_) => At(s.lists, Hand(c))[0] !in s.home
    case MigrationTake(_) => |At(s.lists, RunQueue(c))| < s.mig[c].toSend
    case MigrationSend(_, _) => At(s.lists, Victims(c)) == []
    case _ => false
  }

  /** The assertions at the head of thread_switch. */
  predicate OnOwnCpu(s: State, c: Cpu)
    requires c in s.cur
  {
    At(s.lists, OnCpu(c)) == [s.cur[c]] && s.cur[c] in s.home && s.home[s.cur[c]] == c
  }

  /** thread_switch up to the choice of the next thread: the current thread goes to the
      tail of q in state st. */
  function Leave(s: State, c: Cpu, q: Place, st: ThreadState): State
    requires c in s.cur && At(s.lists, OnCpu(c)) != []
  {
    s.(lists := HeadToTail(s.lists, OnCpu(c), q), phase := s.phase[c := Switching], tstate := s.tstate[s.cur[c] := st])
  }

  function GoIdle(s: State, c: Cpu): State
  {
    s.(phase := s.phase[c := Idle], awake := s.awake[c := false])
  }

  function RunNext(s: State, c: Cpu): State
    requires At(s.lists, RunQueue(c)) != []
  {
    var n := At(s.lists, RunQueue(c))[0];
    s.(lists := HeadToTail(s.lists, RunQueue(c), OnCpu(c)), cur := s.cur[c := n],
       phase := s.phase[c := Running], tstate := s.tstate[n := Run])
  }

  /** A CPU other than c that is idle gets an interrupt so that it looks at its run queue. */
  function Poke(s: State, c: Cpu, d: Cpu): map<Cpu, bool>
  {
    if d in s.phase && s.phase[d].Idle? && d != c then s.awake[d := true] else s.awake
  }

  function ForkTo(s: State, c: Cpu, n: Thread, d: Cpu): State
  {
    s.(awake := Poke(s, c, d), lists := s.lists[RunQueue(d) := At(s.lists, RunQueue(d)) + [n]],
       home := s.home[n := d], tstate := s.tstate[n := Ready])
  }

  function Destroy(s: State, c: Cpu): State
    requires At(s.lists, Zombie(c)) != []
  {
    var z := At(s.lists, Zombie(c))[0];
    s.(lists := s.lists[Zombie(c) := At(s.lists, Zombie(c))[1..]], home := s.home - {z}, tstate := s.tstate - {z})
  }

  function Ready1(s: State, c: Cpu): State
    requires At(s.lists, Hand(c)) != [] && At(s.lists, Hand(c))[0] in s.home
  {
    var n := At(s.lists, Hand(c))[0];
    s.(awake := Poke(s, c, s.home[n]), lists := HeadToTail(s.lists, Hand(c), RunQueue(s.home[n])),
       tstate := s.tstate[n := Ready])
  }

  function Send(s: State, c: Cpu, d: Cpu): State
    requires HasCpu(s, c) && s.mig[c].Sending? && s.mig[c].toSend > 0 && At(s.lists, Victims(c)) != []
  {
    var v := At(s.lists, Victims(c))[0];
    var mig' := s.mig[c := Sending(s.mig[c].toSend - 1, s.mig[c].share)];
    if v == s.cur[c] then s.(lists := HeadToTail(s.lists, Victims(c), Victims(c)), mig := mig')
    else s.(awake := Poke(s, c, d), lists := HeadToTail(s.lists, Victims(c), RunQueue(d)),
            home := s.home[v := d], mig := mig')
  }

  function Do(s: State, step: Step): State
    requires Enabled(s, step) && !Fails(s, step)
  {
    var c := step.cpu;
    match step
    case Fork(_, n, d) => ForkTo(s, c, n, d)
    case Yield(_) => Leave(s, c, RunQueue(s.home[s.cur[c]]), Ready)
    case SleepOn(_, w) => Leave(s, c, Sleeping(w), Sleep)
    case Exit(_) => Leave(s, c, Zombie(c), Dead)
    case Pick(_) => if At(s.lists, RunQueue(c)) == [] then GoIdle(s, c) else RunNext(s, c)
    case Interrupt(_) => s.(awake := s.awake[c := true])
    case Unidle(_) => s.(phase := s.phase[c := Switching])
    case Exorcise(_) => Destroy(s, c)
    case WakeOne(_, w) => s.(lists := HeadToTail(s.lists, Sleeping(w), Hand(c)))
    case WakeAll(_, w) => s.(lists := AllToTail(s.lists, Sleeping(w), Hand(c)))
    case MakeRunnable(_) => Ready1(s, c)
    case MigrationCount(_, total) =>
      var my, share := |At(s.lists, RunQueue(c))|, Share(total, s.ncpus);
      if my < share then s else s.(mig := s.mig[c := Counted(my - share, share)])
    case MigrationTake(_) =>
      s.(lists := LastToHead(s.lists, RunQueue(c), Victims(c), s.mig[c].toSend),
         mig := s.mig[c := Sending(s.mig[c].toSend, s.mig[c].share)])
    case MigrationSend(_, d) => Send(s, c, d)
    case MigrationFinish(_) =>
      s.(lists := AllToTail(s.lists, Victims(c), RunQueue(c)), mig := s.mig[c := NotMigrating])
  }

  // ----- The invariant

  /** How often t stands in list p. */
  ghost function Count(l: Lists, p: Place, t: Thread): nat
  {
    multiset(At(l, p))[t]
  }

  /** w gives the place of every thread: each stands in that list once and in no other. */
  ghost predicate Located(l: Lists, w: map<Thread, Place>)
  {
    forall p, t :: Count(l, p, t) == if t in w && w[t] == p then 1 else 0
  }

  function StateAt(p: Place): ThreadState
  {
    match p
    case OnCpu(_) => Run
    case RunQueue(_) => Ready
    case Sleeping(_) => Sleep
    case Zombie(_) => Dead
    case Hand(_) => Sleep
    case Victims(_) => Ready
  }

  /** Thread t exists, lists that belong to a CPU hold threads of that CPU, and t_state
      fits the list. (A CPU's boot thread runs as S_READY until it is first switched to.) */
  ghost predicate Homed(s: State, p: Place, t: Thread)
  {
    && t in s.home && s.home[t] < s.ncpus
    && (!p.Sleeping? && !p.Hand? ==> s.home[t] == p.cpu)
    && t in s.tstate && (s.tstate[t] == StateAt(p) || (p.OnCpu? && s.tstate[t] == Ready))
  }

  ghost predicate ListsOk(s: State, w: map<Thread, Place>)
  {
    && Located(s.lists, w)
    && w.Keys == s.home.Keys
    && forall t :: t in w ==> Homed(s, w[t], t)
  }

  ghost predicate CpuOk(s: State, c: Cpu)
  {
    && HasCpu(s, c)
    && s.cur[c] in s.home && s.home[s.cur[c]] == c
    && At(s.lists, OnCpu(c)) == (if s.phase[c].Running? then [s.cur[c]] else [])
    && (s.phase[c].Switching? ==> Free(s, c))
    && (!s.mig[c].NotMigrating? ==> At(s.lists, Hand(c)) == [])
    && (s.mig[c].Sending? || At(s.lists, Victims(c)) == [])
    && (s.mig[c].Counted? ==> s.mig[c].toSend <= |At(s.lists, RunQueue(c))|)
    && (s.mig[c].Sending? ==> s.mig[c].toSend <= |At(s.lists, Victims(c))|)
    && (s.phase[c].Idle? && !s.awake[c] ==> Free(s, c) && At(s.lists, RunQueue(c)) == [])
  }

  ghost predicate CpusOk(s: State)
  {
    forall c: Cpu :: c < s.ncpus ==> CpuOk(s, c)
  }

  ghost predicate Inv(s: State, w: map<Thread, Place>)
  {
    s.ncpus > 0 && ListsOk(s, w) && CpusOk(s)
  }

  // ----- Moving threads between lists

  lemma Occurs(l: Lists, w: map<Thread, Place>, p: Place, i: nat)
    requires Located(l, w) && i < |At(l, p)|
    ensures var t := At(l, p)[i]; t in w && w[t] == p
  {
    assert Count(l, p, At(l, p)[i]) > 0;
  }

  lemma HeadToTailCounts(l: Lists, p: Place, q: Place, r: Place, x: Thread)
    requires At(l, p) != []
    ensures var l', n := HeadToTail(l, p, q), if x == At(l, p)[0] then 1 else 0;
            Count(l', r, x) + (if r == p then n else 0) == Count(l, r, x) + (if r == q then n else 0)
  {
    assert At(l, p) == [At(l, p)[0]] + At(l, p)[1..];
  }

  lemma HeadToTailLocated(l: Lists, w: map<Thread, Place>, p: Place, q: Place)
    requires Located(l, w) && At(l, p) != []
    ensures var t := At(l, p)[0]; t in w && w[t] == p && Located(HeadToTail(l, p, q), w[t := q])
  {
    var l', w' := HeadToTail(l, p, q), w[At(l, p)[0] := q];
    Occurs(l, w, p, 0);
    forall r, x ensures Count(l', r, x) == if x in w' && w'[x] == r then 1 else 0 {
      HeadToTailCounts(l, p, q, r, x);
      assert Count(l, r, x) == if x in w && w[x] == r then 1 else 0;
    }
  }

  /** The places after some of p's threads went to q. */
  ghost function Relocated(l': Lists, w: map<Thread, Place>, q: Place): map<Thread, Place>
  {
    map t | t in w :: if Count(l', q, t) > 0 then q else w[t]
  }

  /** Only threads of p have a new place, and it is q. */
  ghost predicate OnlyMoved(w: map<Thread, Place>, w': map<Thread, Place>, p: Place, q: Place)
  {
    w'.Keys == w.Keys && forall x :: x in w && w'[x] != w[x] ==> w[x] == p && w'[x] == q
  }

  lemma SomeMovedLocated(l: Lists, l': Lists, w: map<Thread, Place>, p: Place, q: Place)
    requires Located(l, w) && SameElsewhere(l, l', p, q) && p != q
    requires forall x ::
               && Count(l', p, x) + Count(l', q, x) == Count(l, p, x) + Count(l, q, x)
               && Count(l', q, x) >= Count(l, q, x)
    ensures Located(l', Relocated(l', w, q)) && OnlyMoved(w, Relocated(l', w, q), p, q)
  {
    var w' := Relocated(l', w, q);
    forall r, x ensures Count(l', r, x) == if x in w' && w'[x] == r then 1 else 0 {
      assert r != p && r != q ==> At(l', r) == At(l, r);
      CountsAt(l, l', w, p, q, r, x);
    }
    forall x ensures x in w && w'[x] != w[x] ==> w[x] == p && w'[x] == q {
      CountsAt(l, l', w, p, q, p, x);
    }
  }

  lemma CountsAt(l: Lists, l': Lists, w: map<Thread, Place>, p: Place, q: Place, r: Place, x: Thread)
    requires Located(l, w) && p != q && (r != p && r != q ==> At(l', r) == At(l, r))
    requires Count(l', p, x) + Count(l', q, x) == Count(l, p, x) + Count(l, q, x) && Count(l', q, x) >= Count(l, q, x)
    ensures var w' := Relocated(l', w, q);
            && Count(l', r, x) == (if x in w' && w'[x] == r then 1 else 0)
            && (x in w && w'[x] != w[x] ==> w[x] == p && w'[x] == q)
  {
    assert Count(l, p, x) == if x in w && w[x] == p then 1 else 0;
    assert Count(l, q, x) == if x in w && w[x] == q then 1 else 0;
    assert Count(l, r, x) == if x in w && w[x] == r then 1 else 0;
  }

  lemma EmptiedLocated(l: Lists, l': Lists, w: map<Thread, Place>, p: Place, q: Place)
    requires Located(l, w) && p != q && Emptied(l, l', p, q)
    ensures Located(l', Relocated(l', w, q)) && OnlyMoved(w, Relocated(l', w, q), p, q)
  {
    SomeMovedLocated(l, l', w, p, q);
  }

  lemma CarriedLocated(l: Lists, l': Lists, w: map<Thread, Place>, p: Place, q: Place, k: nat)
    requires Located(l, w) && p != q && k <= |At(l, p)| && Carried(l, l', p, q, k)
    ensures Located(l', Relocated(l', w, q)) && OnlyMoved(w, Relocated(l', w, q), p, q)
  {
    var n := |At(l, p)| - k;
    assert At(l, p) == At(l, p)[..n] + At(l, p)[n..];
    SomeMovedLocated(l, l', w, p, q);
  }

  // ----- Every step keeps the invariant

  /** Nothing about thread x changed. */
  ghost predicate SameThread(s: State, s': State, x: Thread)
  {
    && (x in s.home <==> x in s'.home) && (x in s.home && x in s'.home ==> s.home[x] == s'.home[x])
    && (x in s.tstate <==> x in s'.tstate) && (x in s.tstate && x in s'.tstate ==> s.tstate[x] == s'.tstate[x])
  }

  lemma MoveKeepsLists(s: State, s': State, w: map<Thread, Place>, p: Place, q: Place)
    requires ListsOk(s, w) && s'.ncpus == s.ncpus && At(s.lists, p) != []
    requires s'.lists == HeadToTail(s.lists, p, q) && Homed(s', q, At(s.lists, p)[0])
    requires forall x :: x != At(s.lists, p)[0] ==> SameThread(s, s', x)
    ensures ListsOk(s', w[At(s.lists, p)[0] := q])
  {
    var t := At(s.lists, p)[0];
    HeadToTailLocated(s.lists, w, p, q);
    var w' := w[t := q];
    forall x | x in w' ensures Homed(s', w'[x], x) {
      if x != t { assert SameThread(s, s', x) && Homed(s, w[x], x); }
    }
    assert s'.home.Keys == s.home.Keys by {
      forall x ensures x in s'.home <==> x in s.home {
        if x != t { assert SameThread(s, s', x); }
      }
    }
  }

  lemma SomeMoveKeepsLists(s: State, s': State, w: map<Thread, Place>, w': map<Thread, Place>, p: Place, q: Place)
    requires ListsOk(s, w) && s'.ncpus == s.ncpus && s'.home == s.home && s'.tstate == s.tstate
    requires Located(s'.lists, w') && OnlyMoved(w, w', p, q)
    requires forall x :: Homed(s, p, x) ==> Homed(s, q, x)
    ensures ListsOk(s', w')
  {
    forall x | x in w' ensures Homed(s', w'[x], x) {
      assert Homed(s, w[x], x);
    }
  }

  /** CPU e took no part in the step, except that its run queue may have grown. */
  ghost predicate Untouched(s: State, s': State, e: Cpu)
  {
    && HasCpu(s, e)
    && HasCpu(s', e) && s'.cur[e] == s.cur[e] && s'.phase[e] == s.phase[e] && s'.mig[e] == s.mig[e]
    && s.cur[e] in s'.home && s'.home[s.cur[e]] == e
    && At(s'.lists, OnCpu(e)) == At(s.lists, OnCpu(e)) && At(s'.lists, Hand(e)) == At(s.lists, Hand(e))
    && At(s'.lists, Victims(e)) == At(s.lists, Victims(e))
    && |At(s'.lists, RunQueue(e))| >= |At(s.lists, RunQueue(e))|
    && (s.awake[e] ==> s'.awake[e])
    && (s.phase[e].Idle? ==> s'.awake[e] || At(s'.lists, RunQueue(e)) == At(s.lists, RunQueue(e)))
  }

  lemma UntouchedOk(s: State, s': State, c: Cpu)
    requires s.ncpus == s'.ncpus && CpusOk(s) && CpuOk(s', c)
    requires forall e: Cpu :: e < s.ncpus && e != c ==> Untouched(s, s', e)
    ensures CpusOk(s')
  {
    forall e: Cpu | e < s'.ncpus ensures CpuOk(s', e) {
      assert CpuOk(s, e);
      if e != c { assert Untouched(s, s', e); }
    }
  }

  lemma LeaveCpus(s: State, c: Cpu, q: Place, st: ThreadState)
    requires CpusOk(s) && CpuOk(s, c) && s.phase[c].Running?
    requires Free(s, c) && (q == RunQueue(c) || q.Sleeping? || q.Zombie?)
    ensures CpusOk(Leave(s, c, q, st))
  {
    var s' := Leave(s, c, q, st);
    forall e: Cpu | e < s.ncpus && e != c ensures Untouched(s, s', e) {
      assert CpuOk(s, e);
    }
    UntouchedOk(s, s', c);
  }

  lemma LeaveKeeps(s: State, w: map<Thread, Place>, c: Cpu, q: Place)
    requires Inv(s, w) && CpuOk(s, c) && s.phase[c].Running? && Free(s, c)
    requires q == RunQueue(c) || q.Sleeping? || q == Zombie(c)
    ensures Inv(Leave(s, c, q, StateAt(q)), w[s.cur[c] := q])
  {
    LeaveCpus(s, c, q, StateAt(q));
    Occurs(s.lists, w, OnCpu(c), 0);
    MoveKeepsLists(s, Leave(s, c, q, StateAt(q)), w, OnCpu(c), q);
  }

  lemma RunNextCpus(s: State, c: Cpu)
    requires CpusOk(s) && CpuOk(s, c) && s.phase[c].Switching? && At(s.lists, RunQueue(c)) != []
    requires var n := At(s.lists, RunQueue(c))[0]; n in s.home && s.home[n] == c
    ensures CpusOk(RunNext(s, c))
  {
    var s' := RunNext(s, c);
    forall e: Cpu | e < s.ncpus && e != c ensures Untouched(s, s', e) {
      assert CpuOk(s, e);
    }
    UntouchedOk(s, s', c);
  }

  lemma RunNextKeeps(s: State, w: map<Thread, Place>, c: Cpu)
    requires Inv(s, w) && CpuOk(s, c) && s.phase[c].Switching? && At(s.lists, RunQueue(c)) != []
    ensures Inv(RunNext(s, c), w[At(s.lists, RunQueue(c))[0] := OnCpu(c)])
  {
    Occurs(s.lists, w, RunQueue(c), 0);
    RunNextCpus(s, c);
    MoveKeepsLists(s, RunNext(s, c), w, RunQueue(c), OnCpu(c));
  }

  /** Steps that change only one CPU's phase, migration or interrupt. */
  lemma NoMoveKeeps(s: State, s': State, w: map<Thread, Place>, c: Cpu, ph: Phase, m: Migration, a: bool)
    requires Inv(s, w) && CpuOk(s', c)
    requires s' == s.(phase := s.phase[c := ph], mig := s.mig[c := m], awake := s.awake[c := a])
    ensures Inv(s', w)
  {
    forall x | x in w ensures Homed(s', w[x], x) {
      assert Homed(s, w[x], x);
    }
    forall e: Cpu | e < s.ncpus && e != c ensures Untouched(s, s', e) {
      assert CpuOk(s, e);
    }
    UntouchedOk(s, s', c);
  }

  lemma ForkLists(s: State, w: map<Thread, Place>, c: Cpu, t: Thread, d: Cpu)
    requires ListsOk(s, w) && t !in s.home && d < s.ncpus
    ensures ListsOk(ForkTo(s, c, t, d), w[t := RunQueue(d)])
  {
    var s', w' := ForkTo(s, c, t, d), w[t := RunQueue(d)];
    forall p, x ensures Count(s'.lists, p, x) == if x in w' && w'[x] == p then 1 else 0 {
      assert Count(s.lists, p, x) == if x in w && w[x] == p then 1 else 0;
    }
    forall x | x in w' ensures Homed(s', w'[x], x) {
      if x != t { assert Homed(s, w[x], x); }
    }
  }

  lemma ForkCpus(s: State, c: Cpu, t: Thread, d: Cpu)
    requires CpusOk(s) && CpuOk(s, c) && t !in s.home && d < s.ncpus && s.phase[c].Running?
    ensures CpusOk(ForkTo(s, c, t, d))
  {
    var s' := ForkTo(s, c, t, d);
    forall e: Cpu | e < s.ncpus ensures Untouched(s, s', e) {
      assert CpuOk(s, e);
    }
    UntouchedOk(s, s', c);
  }

  lemma DestroyLists(s: State, w: map<Thread, Place>, c: Cpu)
    requires ListsOk(s, w) && At(s.lists, Zombie(c)) != []
    ensures ListsOk(Destroy(s, c), w - {At(s.lists, Zombie(c))[0]})
  {
    var s', q := Destroy(s, c), At(s.lists, Zombie(c));
    var w' := w - {q[0]};
    Occurs(s.lists, w, Zombie(c), 0);
    assert q == [q[0]] + q[1..];
    forall p, x ensures Count(s'.lists, p, x) == if x in w' && w'[x] == p then 1 else 0 {
      assert Count(s.lists, p, x) == if x in w && w[x] == p then 1 else 0;
    }
    forall x | x in w' ensures Homed(s', w'[x], x) {
      assert Homed(s, w[x], x);
    }
  }

  /** The zombie is not the thread whose stack any CPU is on. */
  lemma ZombieLeft(s: State, w: map<Thread, Place>, c: Cpu, e: Cpu)
    requires Inv(s, w) && CpuOk(s, c) && s.phase[c].Running? && At(s.lists, Zombie(c)) != [] && e < s.ncpus
    ensures CpuOk(s, e) && s.cur[e] != At(s.lists, Zombie(c))[0]
  {
    Occurs(s.lists, w, Zombie(c), 0);
    Occurs(s.lists, w, OnCpu(c), 0);
    assert CpuOk(s, e);
    assert Homed(s, Zombie(c), At(s.lists, Zombie(c))[0]);
  }

  lemma DestroyCpus(s: State, c: Cpu)
    requires CpusOk(s) && CpuOk(s, c) && At(s.lists, Zombie(c)) != []
    requires forall e: Cpu :: e < s.ncpus ==> CpuOk(s, e) && s.cur[e] != At(s.lists, Zombie(c))[0]
    ensures CpusOk(Destroy(s, c))
  {
    var s' := Destroy(s, c);
    forall e: Cpu | e < s.ncpus ensures Untouched(s, s', e) {
      assert CpuOk(s, e);
    }
    UntouchedOk(s, s', c);
  }

  lemma HandCpus(s: State, l': Lists, c: Cpu)
    requires CpusOk(s) && CpuOk(s, c) && Active(s, c)
    requires forall r: Place :: !r.Sleeping? && r != Hand(c) ==> At(l', r) == At(s.lists, r)
    ensures CpusOk(s.(lists := l'))
  {
    var s' := s.(lists := l');
    forall e: Cpu | e < s.ncpus && e != c ensures Untouched(s, s', e) {
      assert CpuOk(s, e);
    }
    UntouchedOk(s, s', c);
  }

  lemma WakeOneKeeps(s: State, w: map<Thread, Place>, c: Cpu, ch: Channel)
    requires Inv(s, w) && CpuOk(s, c) && Active(s, c) && At(s.lists, Sleeping(ch)) != []
    ensures Inv(s.(lists := HeadToTail(s.lists, Sleeping(ch), Hand(c))), w[At(s.lists, Sleeping(ch))[0] := Hand(c)])
  {
    var l' := HeadToTail(s.lists, Sleeping(ch), Hand(c));
    Occurs(s.lists, w, Sleeping(ch), 0);
    HandCpus(s, l', c);
    MoveKeepsLists(s, s.(lists := l'), w, Sleeping(ch), Hand(c));
  }

  lemma WakeAllKeeps(s: State, w: map<Thread, Place>, c: Cpu, ch: Channel) returns (w': map<Thread, Place>)
    requires Inv(s, w) && CpuOk(s, c) && Active(s, c)
    ensures Inv(s.(lists := AllToTail(s.lists, Sleeping(ch), Hand(c))), w')
  {
    var l' := AllToTail(s.lists, Sleeping(ch), Hand(c));
    w' := Relocated(l', w, Hand(c));
    EmptiedLocated(s.lists, l', w, Sleeping(ch), Hand(c));
    SomeMoveKeepsLists(s, s.(lists := l'), w, w', Sleeping(ch), Hand(c));
    HandCpus(s, l', c);
  }

  lemma ReadyCpus(s: State, c: Cpu)
    requires CpusOk(s) && CpuOk(s, c) && At(s.lists, Hand(c)) != [] && At(s.lists, Hand(c))[0] in s.home
    ensures CpusOk(Ready1(s, c))
  {
    var s' := Ready1(s, c);
    forall e: Cpu | e < s.ncpus && e != c ensures Untouched(s, s', e) {
      assert CpuOk(s, e);
    }
    UntouchedOk(s, s', c);
  }

  lemma ReadyKeeps(s: State, w: map<Thread, Place>, c: Cpu) returns (w': map<Thread, Place>)
    requires Inv(s, w) && CpuOk(s, c) && At(s.lists, Hand(c)) != [] && At(s.lists, Hand(c))[0] in s.home
    ensures Inv(Ready1(s, c), w')
  {
    var t := At(s.lists, Hand(c))[0];
    Occurs(s.lists, w, Hand(c), 0);
    ReadyCpus(s, c);
    MoveKeepsLists(s, Ready1(s, c), w, Hand(c), RunQueue(s.home[t]));
    w' := w[t := RunQueue(s.home[t])];
  }

  lemma TakeCpus(s: State, c: Cpu, l': Lists, m: Migration)
    requires CpusOk(s) && CpuOk(s, c) && s.mig[c].Counted? && m == Sending(s.mig[c].toSend, s.mig[c].share)
    requires Carried(s.lists, l', RunQueue(c), Victims(c), m.toSend)
    ensures CpusOk(s.(lists := l', mig := s.mig[c := m]))
  {
    TakeCpu(s, c, l', m);
    MigratingCpus(s, c, l', m);
  }

  lemma MigratingCpus(s: State, c: Cpu, l': Lists, m: Migration)
    requires CpusOk(s) && CpuOk(s, c) && CpuOk(s.(lists := l', mig := s.mig[c := m]), c)
    requires SameElsewhere(s.lists, l', RunQueue(c), Victims(c))
    ensures CpusOk(s.(lists := l', mig := s.mig[c := m]))
  {
    var s' := s.(lists := l', mig := s.mig[c := m]);
    forall e: Cpu | e < s.ncpus && e != c ensures Untouched(s, s', e) {
      assert CpuOk(s, e);
    }
    UntouchedOk(s, s', c);
  }

  lemma TakeCpu(s: State, c: Cpu, l': Lists, m: Migration)
    requires CpuOk(s, c) && s.mig[c].Counted? && m == Sending(s.mig[c].toSend, s.mig[c].share)
    requires Carried(s.lists, l', RunQueue(c), Victims(c), m.toSend)
    ensures CpuOk(s.(lists := l', mig := s.mig[c := m]), c)
  {
    var q, n := At(s.lists, RunQueue(c)), |At(s.lists, RunQueue(c))| - m.toSend;
    assert |q[n..]| == m.toSend;
  }

  lemma TakeKeeps(s: State, w: map<Thread, Place>, c: Cpu, l': Lists, m: Migration) returns (w': map<Thread, Place>)
    requires Inv(s, w) && CpuOk(s, c) && s.mig[c].Counted? && m == Sending(s.mig[c].toSend, s.mig[c].share)
    requires Carried(s.lists, l', RunQueue(c), Victims(c), m.toSend)
    ensures Inv(s.(lists := l', mig := s.mig[c := m]), w')
  {
    w' := Relocated(l', w, Victims(c));
    CarriedLocated(s.lists, l', w, RunQueue(c), Victims(c), m.toSend);
    SomeMoveKeepsLists(s, s.(lists := l', mig := s.mig[c := m]), w, w', RunQueue(c), Victims(c));
    TakeCpus(s, c, l', m);
  }

  lemma FinishCpus(s: State, c: Cpu, l': Lists)
    requires CpusOk(s) && CpuOk(s, c) && s.mig[c].Sending? && Emptied(s.lists, l', Victims(c), RunQueue(c))
    ensures CpusOk(s.(lists := l', mig := s.mig[c := NotMigrating]))
  {
    MigratingCpus(s, c, l', NotMigrating);
  }

  lemma FinishKeeps(s: State, w: map<Thread, Place>, c: Cpu, l': Lists) returns (w': map<Thread, Place>)
    requires Inv(s, w) && CpuOk(s, c) && s.mig[c].Sending? && Emptied(s.lists, l', Victims(c), RunQueue(c))
    ensures Inv(s.(lists := l', mig := s.mig[c := NotMigrating]), w')
  {
    w' := Relocated(l', w, RunQueue(c));
    EmptiedLocated(s.lists, l', w, Victims(c), RunQueue(c));
    SomeMoveKeepsLists(s, s.(lists := l', mig := s.mig[c := NotMigrating]), w, w', Victims(c), RunQueue(c));
    FinishCpus(s, c, l');
  }

  lemma SendCpus(s: State, c: Cpu, d: Cpu)
    requires CpusOk(s) && CpuOk(s, c) && s.mig[c].Sending? && s.mig[c].toSend > 0 && d != c
    requires var v := At(s.lists, Victims(c))[0]; v in s.home && s.home[v] == c
    ensures CpusOk(Send(s, c, d))
  {
    var s' := Send(s, c, d);
    forall e: Cpu | e < s.ncpus && e != c ensures Untouched(s, s', e) {
      assert CpuOk(s, e);
    }
    UntouchedOk(s, s', c);
  }

  lemma SendKeeps(s: State, w: map<Thread, Place>, c: Cpu, d: Cpu) returns (w': map<Thread, Place>)
    requires Inv(s, w) && CpuOk(s, c) && s.mig[c].Sending? && s.mig[c].toSend > 0 && d != c && d < s.ncpus
    ensures Inv(Send(s, c, d), w')
  {
    var v, p := At(s.lists, Victims(c))[0], Victims(c);
    Occurs(s.lists, w, p, 0);
    assert Homed(s, p, v);
    SendCpus(s, c, d);
    var q := if v == s.cur[c] then p else RunQueue(d);
    MoveKeepsLists(s, Send(s, c, d), w, p, q);
    w' := w[v := q];
  }

  lemma NeverFails(s: State, w: map<Thread, Place>, step: Step)
    requires Inv(s, w) && Enabled(s, step)
    ensures CpuOk(s, step.cpu) && !Fails(s, step)
  {
    var c := step.cpu;
    assert CpuOk(s, c);
    if step.Exorcise? {
      ZombieLeft(s, w, c, c);
      Occurs(s.lists, w, Zombie(c), 0);
    } else if step.MakeRunnable? {
      Occurs(s.lists, w, Hand(c), 0);
    }
  }

  lemma CountKeeps(s: State, w: map<Thread, Place>, c: Cpu, total: nat)
    requires Inv(s, w) && Enabled(s, MigrationCount(c, total)) && CpuOk(s, c)
    ensures Inv(Do(s, MigrationCount(c, total)), w)
  {
    var s' := Do(s, MigrationCount(c, total));
    if s' != s { NoMoveKeeps(s, s', w, c, s.phase[c], s'.mig[c], s.awake[c]); }
  }

  lemma PickKeeps(s: State, w: map<Thread, Place>, c: Cpu) returns (w': map<Thread, Place>)
    requires Inv(s, w) && Enabled(s, Pick(c)) && CpuOk(s, c)
    ensures Inv(Do(s, Pick(c)), w')
  {
    if At(s.lists, RunQueue(c)) == [] {
      NoMoveKeeps(s, GoIdle(s, c), w, c, Idle, s.mig[c], false);
      w' := w;
    } else {
      RunNextKeeps(s, w, c);
      w' := w[At(s.lists, RunQueue(c))[0] := OnCpu(c)];
    }
  }

  /** Every step that can be taken from a good state is one the kernel survives, and it
      leads to a good state. */
  lemma StepKeeps(s: State, w: map<Thread, Place>, step: Step) returns (w': map<Thread, Place>)
    requires Inv(s, w) && Enabled(s, step)
    ensures !Fails(s, step) && Inv(Do(s, step), w')
  {
    NeverFails(s, w, step);
    var c := step.cpu;
    match step
    case Fork(_, t, d) => ForkLists(s, w, c, t, d); ForkCpus(s, c, t, d); w' := w[t := RunQueue(d)];
    case Pick(_) => w' := PickKeeps(s, w, c);
    case Interrupt(_) => NoMoveKeeps(s, Do(s, step), w, c, s.phase[c], s.mig[c], true); w' := w;
    case Unidle(_) => NoMoveKeeps(s, Do(s, step), w, c, Switching, s.mig[c], s.awake[c]); w' := w;
    case Exorcise(_) => w' := DestroyKeeps(s, w, c);
    case WakeOne(_, ch) => w' := WakingKeeps(s, w, step);
    case WakeAll(_, ch) => w' := WakingKeeps(s, w, step);
    case MakeRunnable(_) => w' := WakingKeeps(s, w, step);
    case Yield(_) => w' := LeavingKeeps(s, w, step);
    case SleepOn(_, _) => w' := LeavingKeeps(s, w, step);
    case Exit(_) => w' := LeavingKeeps(s, w, step);
    case _ => w' := MigrationKeeps(s, w, step);
  }

  lemma LeavingKeeps(s: State, w: map<Thread, Place>, step: Step) returns (w': map<Thread, Place>)
    requires Inv(s, w) && Enabled(s, step) && !Fails(s, step) && (step.Yield? || step.SleepOn? || step.Exit?)
    ensures Inv(Do(s, step), w')
  {
    var c := step.cpu;
    var q := if step.Yield? then RunQueue(c) else if step.SleepOn? then Sleeping(step.chan) else Zombie(c);
    LeaveKeeps(s, w, c, q);
    w' := w[s.cur[c] := q];
  }

  lemma WakingKeeps(s: State, w: map<Thread, Place>, step: Step) returns (w': map<Thread, Place>)
    requires Inv(s, w) && Enabled(s, step) && !Fails(s, step)
    requires step.WakeOne? || step.WakeAll? || step.MakeRunnable?
    ensures Inv(Do(s, step), w')
  {
    var c := step.cpu;
    match step
    case WakeOne(_, ch) => WakeOneKeeps(s, w, c, ch); w' := w[At(s.lists, Sleeping(ch))[0] := Hand(c)];
    case WakeAll(_, ch) => w' := WakeAllKeeps(s, w, c, ch);
    case MakeRunnable(_) => w' := ReadyKeeps(s, w, c);
  }

  lemma MigrationKeeps(s: State, w: map<Thread, Place>, step: Step) returns (w': map<Thread, Place>)
    requires Inv(s, w) && Enabled(s, step) && !Fails(s, step)
    requires step.MigrationCount? || step.MigrationTake? || step.MigrationSend? || step.MigrationFinish?
    ensures Inv(Do(s, step), w')
  {
    var c := step.cpu;
    match step
    case MigrationCount(_, total) => CountKeeps(s, w, c, total); w' := w;
    case MigrationTake(_) => w' := TakeKeeps(s, w, c, Do(s, step).lists, Do(s, step).mig[c]);
    case MigrationSend(_, d) => w' := SendKeeps(s, w, c, d);
    case MigrationFinish(_) => w' := FinishKeeps(s, w, c, Do(s, step).lists);
  }

  lemma DestroyKeeps(s: State, w: map<Thread, Place>, c: Cpu) returns (w': map<Thread, Place>)
    requires Inv(s, w) && CpuOk(s, c) && s.phase[c].Running? && At(s.lists, Zombie(c)) != []
    ensures Inv(Destroy(s, c), w')
  {
    w' := w - {At(s.lists, Zombie(c))[0]};
    DestroyLists(s, w, c);
    forall e: Cpu | e < s.ncpus ensures CpuOk(s, e) && s.cur[e] != At(s.lists, Zombie(c))[0] {
      ZombieLeft(s, w, c, e);
    }
    DestroyCpus(s, c);
  }

  // ----- Runs

  /** n CPUs, each running its boot thread; that of CPU c is thread c. Like cpu_create,
      this leaves the state of a boot thread at S_READY. */
  function Boot(n: nat): State
  {
    if n == 0 then State(0, map[], map[], map[], map[], map[], map[], map[]) else
      var s, c := Boot(n - 1), n - 1;
      State(n, s.lists[OnCpu(c) := [c]], s.cur[c := c], s.phase[c := Running], s.home[c := c], s.tstate[c := Ready],
            s.mig[c := NotMigrating], s.awake[c := false])
  }

  lemma {:induction false} BootCpu(n: nat, c: Cpu)
    requires c < n
    ensures var s := Boot(n);
            s.ncpus == n && HasCpu(s, c) && s.cur[c] == c && s.phase[c].Running? && s.mig[c].NotMigrating?
  {
    if c < n - 1 { BootCpu(n - 1, c); }
  }

  lemma {:induction false} BootList(n: nat, p: Place)
    ensures At(Boot(n).lists, p) == if p.OnCpu? && p.cpu < n then [p.cpu] else []
  {
    if n > 0 { BootList(n - 1, p); }
  }

  lemma {:induction false} BootThread(n: nat, t: Thread)
    ensures var s := Boot(n);
            && (t in s.home <==> t < n)
            && (t in s.home ==> s.home[t] == t && t in s.tstate && s.tstate[t] == Ready)
  {
    if n > 0 { BootThread(n - 1, t); }
  }

  lemma BootOk(n: nat) returns (w: map<Thread, Place>)
    requires n > 0
    ensures Inv(Boot(n), w)
  {
    var s := Boot(n);
    w := map t | t in s.home :: OnCpu(t);
    BootCpu(n, 0);
    forall p, t ensures Count(s.lists, p, t) == if t in w && w[t] == p then 1 else 0 {
      BootList(n, p);
      BootThread(n, t);
    }
    forall t | t in w ensures Homed(s, w[t], t) {
      BootThread(n, t);
    }
    forall c: Cpu | c < n ensures CpuOk(s, c) {
      BootCpu(n, c);
      BootThread(n, c);
      BootList(n, OnCpu(c));
      BootList(n, Hand(c));
      BootList(n, Victims(c));
    }
  }

  /** The states a kernel on n CPUs goes through, one step of any CPU at a time, until a
      step fails; what would happen after a failure is left open. */
  ghost predicate IsRun(n: nat, tr: seq<State>, steps: seq<Step>)
  {
    && |tr| == |steps| + 1 && tr[0] == Boot(n)
    && forall i :: 0 <= i < |steps| ==> Taken(tr[i], steps[i], tr[i + 1])
  }

  ghost predicate Taken(s: State, step: Step, s': State)
  {
    Enabled(s, step) && (Fails(s, step) || s' == Do(s, step))
  }

  lemma TakenKeeps(s: State, w: map<Thread, Place>, step: Step, s': State) returns (w': map<Thread, Place>)
    requires Inv(s, w) && Taken(s, step, s')
    ensures Inv(s', w')
  {
    w' := StepKeeps(s, w, step);
  }

  lemma {:induction false} RunKeeps(n: nat, tr: seq<State>, steps: seq<Step>, i: nat) returns (w: map<Thread, Place>)
    requires n > 0 && IsRun(n, tr, steps) && i < |tr|
    ensures Inv(tr[i], w)
    decreases i
  {
    if i == 0 {
      w := BootOk(n);
    } else {
      var v := RunKeeps(n, tr, steps, i - 1);
      w := TakenKeeps(tr[i - 1], v, steps[i - 1], tr[i]);
    }
  }

  // ----- What the invariant says

  /** Each existing thread stands once in one list and nowhere else; no list holds a
      thread that does not exist. */
  ghost predicate OnePlaceEach(s: State)
  {
    && (forall t :: t in s.home ==>
          exists p :: Count(s.lists, p, t) == 1 && forall q :: q != p ==> Count(s.lists, q, t) == 0)
    && (forall t, p :: t !in s.home ==> Count(s.lists, p, t) == 0)
  }

  /** No two CPUs are on one stack, that stack's thread exists, and no other CPU has the
      thread running, queued, dying or in transit: only its own CPU can resume or destroy it. */
  ghost predicate StacksExclusive(s: State)
  {
    forall c: Cpu :: c < s.ncpus ==>
      && HasCpu(s, c) && s.cur[c] in s.home
      && (forall d: Cpu :: d < s.ncpus && d != c ==> HasCpu(s, d) && s.cur[d] != s.cur[c])
      && (forall p: Place :: !p.Sleeping? && !p.Hand? && p.cpu != c ==> s.cur[c] !in At(s.lists, p))
      && (s.phase[c].Running? ==> s.cur[c] !in At(s.lists, Zombie(c)) && s.cur[c] !in At(s.lists, RunQueue(c)))
  }

  /** A CPU that sleeps with no interrupt on its way has nothing to run. */
  ghost predicate NoneStranded(s: State)
  {
    forall c: Cpu :: c < s.ncpus && HasCpu(s, c) && s.phase[c].Idle? && !s.awake[c] ==> At(s.lists, RunQueue(c)) == []
  }

  lemma InvOnePlaceEach(s: State, w: map<Thread, Place>)
    requires Inv(s, w)
    ensures OnePlaceEach(s)
  {
    forall t | t in s.home
      ensures exists p :: Count(s.lists, p, t) == 1 && forall q :: q != p ==> Count(s.lists, q, t) == 0
    {
      assert Count(s.lists, w[t], t) == 1;
    }
  }

  lemma InvNoneStranded(s: State, w: map<Thread, Place>)
    requires Inv(s, w)
    ensures NoneStranded(s)
  {
    forall c: Cpu | c < s.ncpus && HasCpu(s, c) && s.phase[c].Idle? && !s.awake[c]
        ensures At(s.lists, RunQueue(c)) == [] {
      assert CpuOk(s, c);
    }
  }

  lemma InvStacksExclusive(s: State, w: map<Thread, Place>)
    requires Inv(s, w)
    ensures StacksExclusive(s)
  {
    forall c: Cpu | c < s.ncpus
      ensures && HasCpu(s, c) && s.cur[c] in s.home
              && (forall d: Cpu :: d < s.ncpus && d != c ==> HasCpu(s, d) && s.cur[d] != s.cur[c])
              && (forall p: Place :: !p.Sleeping? && !p.Hand? && p.cpu != c ==> s.cur[c] !in At(s.lists, p))
              && (s.phase[c].Running? ==> s.cur[c] !in At(s.lists, Zombie(c)) && s.cur[c] !in At(s.lists, RunQueue(c)))
    {
      assert CpuOk(s, c);
      forall d: Cpu | d < s.ncpus && d != c ensures HasCpu(s, d) && s.cur[d] != s.cur[c] {
        assert CpuOk(s, d);
      }
      forall p: Place | s.cur[c] in At(s.lists, p)
        ensures (p.Sleeping? || p.Hand? || p.cpu == c) && (s.phase[c].Running? ==> p == OnCpu(c))
      {
        assert Count(s.lists, p, s.cur[c]) > 0;
        assert Homed(s, w[s.cur[c]], s.cur[c]);
        if s.phase[c].Running? { Occurs(s.lists, w, OnCpu(c), 0); }
      }
    }
  }

  /** In every run on any number of CPUs, no step fails, and in every state each thread is
      in exactly one place, no stack is used twice and no idle CPU is forgotten. */
  lemma RunSafe(n: nat, tr: seq<State>, steps: seq<Step>, i: nat)
    requires n > 0 && IsRun(n, tr, steps) && i < |tr|
    ensures OnePlaceEach(tr[i]) && StacksExclusive(tr[i]) && NoneStranded(tr[i])
    ensures i < |steps| ==> Enabled(tr[i], steps[i]) && !Fails(tr[i], steps[i])
  {
    var w := RunKeeps(n, tr, steps, i);
    InvOnePlaceEach(tr[i], w);
    InvStacksExclusive(tr[i], w);
    InvNoneStranded(tr[i], w);
    if i < |steps| {
      assert Taken(tr[i], steps[i], tr[i + 1]);
      NeverFails(tr[i], w, steps[i]);
    }
  }

  /** Threads appear only by fork and disappear only as zombies whose stack no CPU is on. */
  lemma ThreadsConserved(s: State, w: map<Thread, Place>, step: Step)
    requires Inv(s, w) && Enabled(s, step)
    ensures CpuOk(s, step.cpu) && !Fails(s, step)
    ensures var k := Do(s, step).home.Keys;
            match step
            case Fork(_, t, _) => k == s.home.Keys + {t}
            case Exorcise(c) => var z := At(s.lists, Zombie(c))[0];
                                k == s.home.Keys - {z} && forall e: Cpu :: e < s.ncpus ==> CpuOk(s, e) && s.cur[e] != z
            case _ => k == s.home.Keys
  {
    NeverFails(s, w, step);
    var c := step.cpu;
    match step
    case Exorcise(_) =>
      forall e: Cpu | e < s.ncpus ensures CpuOk(s, e) && s.cur[e] != At(s.lists, Zombie(c))[0] {
        ZombieLeft(s, w, c, e);
      }
    case MigrationSend(_, _) =>
      Occurs(s.lists, w, Victims(c), 0);
    case _ =>
  }

  /** One thread handed over by a migration: the current thread of no CPU is moved, the
      thread now belongs to the receiver, whose queue stays within one share, and every
      other list but the private one is as it was. */
  lemma MigrationSends(s: State, w: map<Thread, Place>, c: Cpu, d: Cpu)
    requires Inv(s, w) && Enabled(s, MigrationSend(c, d))
    ensures !Fails(s, MigrationSend(c, d))
    ensures var l, s' := s.lists, Do(s, MigrationSend(c, d));
            var v := At(l, Victims(c))[0];
            && |At(s'.lists, RunQueue(d))| <= s.mig[c].share
            && SameElsewhere(l, s'.lists, Victims(c), RunQueue(d))
            && (v == s.cur[c] ==> At(s'.lists, RunQueue(d)) == At(l, RunQueue(d)) && s'.home == s.home)
            && (v != s.cur[c] ==> At(s'.lists, RunQueue(d)) == At(l, RunQueue(d)) + [v] && s'.home == s.home[v := d])
  {
    NeverFails(s, w, MigrationSend(c, d));
  }

  lemma NeverSent(s: State, w: map<Thread, Place>, c: Cpu, d: Cpu, e: Cpu)
    requires Inv(s, w) && Enabled(s, MigrationSend(c, d)) && e < s.ncpus
    ensures !Fails(s, MigrationSend(c, d)) && CpuOk(s, e)
    ensures var h := Do(s, MigrationSend(c, d)).home; s.cur[e] in h && h[s.cur[e]] == e
  {
    NeverFails(s, w, MigrationSend(c, d));
    Occurs(s.lists, w, Victims(c), 0);
    assert CpuOk(s, e);
    assert Homed(s, Victims(c), At(s.lists, Victims(c))[0]);
  }

  // ----- What the steps do

  /** Thread t was first of p and is last of q, and no other list has changed. */
  ghost predicate FirstMoved(l: Lists, l': Lists, p: Place, q: Place, t: Thread)
  {
    At(l, p) == [t] + At(l', p) && At(l', q) == At(l, q) + [t] && SameElsewhere(l, l', p, q)
  }

  /** CPU d has an interrupt coming if it was idle and is not c; the others are as they were. */
  ghost predicate Poked(s: State, c: Cpu, d: Cpu, s': State)
  {
    && s'.awake.Keys == s.awake.Keys
    && (forall e :: e in s.awake && e != d ==> s'.awake[e] == s.awake[e])
    && (d in s.awake && d in s.phase ==> s'.awake[d] == (s.awake[d] || (s.phase[d].Idle? && d != c)))
  }

  /** The current thread of c is last of q in this state, and c is about to choose another. */
  ghost predicate Gone(s: State, c: Cpu, q: Place, st: ThreadState, s': State)
    requires c in s.cur
  {
    && FirstMoved(s.lists, s'.lists, OnCpu(c), q, s.cur[c]) && At(s'.lists, OnCpu(c)) == []
    && s' == s.(lists := s'.lists, phase := s.phase[c := Switching], tstate := s.tstate[s.cur[c] := st])
  }

  /** The first thread of c's queue runs; or there is none, and c is idle. */
  ghost predicate Picked(s: State, c: Cpu, s': State)
  {
    var q := At(s.lists, RunQueue(c));
    if q == [] then s' == s.(phase := s.phase[c := Idle], awake := s.awake[c := false])
    else
      && FirstMoved(s.lists, s'.lists, RunQueue(c), OnCpu(c), q[0]) && At(s'.lists, OnCpu(c)) == [q[0]]
      && s' == s.(lists := s'.lists, cur := s.cur[c := q[0]], phase := s.phase[c := Running],
                  tstate := s.tstate[q[0] := Run])
  }

  /** The first thread in c's hand is last on the queue of its own CPU, and ready. */
  ghost predicate MadeRunnable(s: State, c: Cpu, s': State)
  {
    && At(s.lists, Hand(c)) != []
    && var n := At(s.lists, Hand(c))[0];
       && n in s.home && FirstMoved(s.lists, s'.lists, Hand(c), RunQueue(s.home[n]), n) && Poked(s, c, s.home[n], s')
       && s' == s.(lists := s'.lists, awake := s'.awake, tstate := s.tstate[n := Ready])
  }

  ghost predicate Forked(s: State, c: Cpu, n: Thread, d: Cpu, s': State)
  {
    && At(s'.lists, RunQueue(d)) == At(s.lists, RunQueue(d)) + [n]
    && SameElsewhere(s.lists, s'.lists, RunQueue(d), RunQueue(d)) && Poked(s, c, d, s') && n !in s.home
    && s' == s.(lists := s'.lists, awake := s'.awake, home := s.home[n := d], tstate := s.tstate[n := Ready])
  }

  ghost predicate Exorcised(s: State, c: Cpu, s': State)
  {
    && At(s.lists, Zombie(c)) != []
    && var z := At(s.lists, Zombie(c))[0];
       && At(s.lists, Zombie(c)) == [z] + At(s'.lists, Zombie(c))
       && SameElsewhere(s.lists, s'.lists, Zombie(c), Zombie(c))
       && s' == s.(lists := s'.lists, home := s.home - {z}, tstate := s.tstate - {z})
  }

  /** A victim goes to d, last on its queue; the current thread goes behind the victims. */
  ghost predicate Sent(s: State, c: Cpu, d: Cpu, s': State)
    requires c in s.cur && c in s.mig && s.mig[c].Sending? && s.mig[c].toSend > 0
  {
    && At(s.lists, Victims(c)) != []
    && var v, m := At(s.lists, Victims(c))[0], s.mig[c := Sending(s.mig[c].toSend - 1, s.mig[c].share)];
       if v == s.cur[c] then
         && At(s'.lists, Victims(c)) == At(s.lists, Victims(c))[1..] + [v]
         && SameElsewhere(s.lists, s'.lists, Victims(c), Victims(c)) && s' == s.(lists := s'.lists, mig := m)
       else
         && FirstMoved(s.lists, s'.lists, Victims(c), RunQueue(d), v) && Poked(s, c, d, s')
         && s' == s.(lists := s'.lists, awake := s'.awake, home := s.home[v := d], mig := m)
  }

  /** Which threads change place in a step, where they go, and what else changes. */
  ghost predicate Effect(s: State, step: Step, s': State)
    requires Enabled(s, step)
  {
    var c, l, l' := step.cpu, s.lists, s'.lists;
    match step
    case Fork(_, n, d) => Forked(s, c, n, d, s')
    case Yield(_) => Gone(s, c, RunQueue(c), Ready, s')
    case SleepOn(_, ch) => Gone(s, c, Sleeping(ch), Sleep, s')
    case Exit(_) => Gone(s, c, Zombie(c), Dead, s')
    case Pick(_) => Picked(s, c, s')
    case Interrupt(_) => s' == s.(awake := s.awake[c := true])
    case Unidle(_) => s' == s.(phase := s.phase[c := Switching])
    case Exorcise(_) => Exorcised(s, c, s')
    case WakeOne(_, ch) => FirstMoved(l, l', Sleeping(ch), Hand(c), At(l, Sleeping(ch))[0]) && s' == s.(lists := l')
    case WakeAll(_, ch) => Emptied(l, l', Sleeping(ch), Hand(c)) && s' == s.(lists := l')
    case MakeRunnable(_) => MadeRunnable(s, c, s')
    case MigrationCount(_, total) =>
      var my, share := |At(l, RunQueue(c))|, Share(total, s.ncpus);
      s' == if my < share then s else s.(mig := s.mig[c := Counted(my - share, share)])
    case MigrationTake(_) =>
      && s.mig[c].toSend <= |At(l, RunQueue(c))| && Carried(l, l', RunQueue(c), Victims(c), s.mig[c].toSend)
      && s' == s.(lists := l', mig := s.mig[c := Sending(s.mig[c].toSend, s.mig[c].share)])
    case MigrationSend(_, d) => Sent(s, c, d, s')
    case MigrationFinish(_) =>
      Emptied(l, l', Victims(c), RunQueue(c)) && s' == s.(lists := l', mig := s.mig[c := NotMigrating])
  }

  lemma HeadMoves(l: Lists, p: Place, q: Place)
    requires p != q && At(l, p) != []
    ensures FirstMoved(l, HeadToTail(l, p, q), p, q, At(l, p)[0])
  {}

  lemma LeaveDoes(s: State, c: Cpu, q: Place, st: ThreadState)
    requires c in s.cur && At(s.lists, OnCpu(c)) == [s.cur[c]] && q != OnCpu(c)
    ensures Gone(s, c, q, st, Leave(s, c, q, st))
  {
    HeadMoves(s.lists, OnCpu(c), q);
  }

  lemma PickDoes(s: State, c: Cpu)
    requires Enabled(s, Pick(c)) && At(s.lists, OnCpu(c)) == []
    ensures Effect(s, Pick(c), Do(s, Pick(c)))
  {
    if At(s.lists, RunQueue(c)) != [] { HeadMoves(s.lists, RunQueue(c), OnCpu(c)); }
  }

  lemma SwitchDoes(s: State, w: map<Thread, Place>, step: Step)
    requires Inv(s, w) && Enabled(s, step) && !Fails(s, step)
    requires step.Yield? || step.SleepOn? || step.Exit? || step.Pick?
    ensures Effect(s, step, Do(s, step))
  {
    var c := step.cpu;
    assert CpuOk(s, c);
    match step
    case Yield(_) => LeaveDoes(s, c, RunQueue(c), Ready);
    case SleepOn(_, ch) => LeaveDoes(s, c, Sleeping(ch), Sleep);
    case Exit(_) => LeaveDoes(s, c, Zombie(c), Dead);
    case Pick(_) => PickDoes(s, c);
  }

  lemma PokeDoes(s: State, c: Cpu, d: Cpu, s': State)
    requires d in s.awake && s'.awake == Poke(s, c, d)
    ensures Poked(s, c, d, s')
  {}

  lemma WakeDoes(s: State, step: Step)
    requires Enabled(s, step) && (step.WakeOne? || step.WakeAll?)
    ensures Effect(s, step, Do(s, step))
  {
    if step.WakeOne? { HeadMoves(s.lists, Sleeping(step.chan), Hand(step.cpu)); }
  }

  lemma RunnableDoes(s: State, w: map<Thread, Place>, c: Cpu)
    requires Inv(s, w) && Enabled(s, MakeRunnable(c)) && !Fails(s, MakeRunnable(c))
    ensures Effect(s, MakeRunnable(c), Do(s, MakeRunnable(c)))
  {
    var n := At(s.lists, Hand(c))[0];
    Occurs(s.lists, w, Hand(c), 0);
    assert Homed(s, Hand(c), n) && CpuOk(s, s.home[n]);
    HeadMoves(s.lists, Hand(c), RunQueue(s.home[n]));
    PokeDoes(s, c, s.home[n], Do(s, MakeRunnable(c)));
  }

  lemma ForkDoes(s: State, w: map<Thread, Place>, c: Cpu, n: Thread, d: Cpu)
    requires Inv(s, w) && Enabled(s, Fork(c, n, d))
    ensures Effect(s, Fork(c, n, d), Do(s, Fork(c, n, d)))
  {
    assert CpuOk(s, d);
    PokeDoes(s, c, d, Do(s, Fork(c, n, d)));
  }

  lemma SendDoes(s: State, c: Cpu, d: Cpu)
    requires Enabled(s, MigrationSend(c, d)) && !Fails(s, MigrationSend(c, d))
    ensures Effect(s, MigrationSend(c, d), Do(s, MigrationSend(c, d)))
  {
    HeadMoves(s.lists, Victims(c), RunQueue(d));
    if At(s.lists, Victims(c))[0] != s.cur[c] { PokeDoes(s, c, d, Do(s, MigrationSend(c, d))); }
  }

  lemma MigrateDoes(s: State, step: Step)
    requires Enabled(s, step) && !Fails(s, step)
    requires step.MigrationCount? || step.MigrationTake? || step.MigrationFinish?
    ensures Effect(s, step, Do(s, step))
  {}

  lemma OtherDoes(s: State, step: Step)
    requires Enabled(s, step) && !Fails(s, step)
    requires step.Interrupt? || step.Unidle? || step.Exorcise?
    ensures Effect(s, step, Do(s, step))
  {}

  /** Every step that can be taken from a good state does what it is for, and nothing else. */
  lemma StepDoes(s: State, w: map<Thread, Place>, step: Step)
    requires Inv(s, w) && Enabled(s, step)
    ensures !Fails(s, step) && Effect(s, step, Do(s, step))
  {
    NeverFails(s, w, step);
    if step.Yield? || step.SleepOn? || step.Exit? || step.Pick? { SwitchDoes(s, w, step); }
    else if step.WakeOne? || step.WakeAll? { WakeDoes(s, step); }
    else if step.MakeRunnable? { RunnableDoes(s, w, step.cpu); }
    else if step.Fork? { ForkDoes(s, w, step.cpu, step.t, step.target); }
    else if step.MigrationSend? { SendDoes(s, step.cpu, step.to); }
    else if step.MigrationCount? || step.MigrationTake? || step.MigrationFinish? { MigrateDoes(s, step); }
    else { OtherDoes(s, step); }
  }

  lemma RunDoes(n: nat, tr: seq<State>, steps: seq<Step>, i: nat)
    requires n > 0 && IsRun(n, tr, steps) && i < |steps|
    ensures Enabled(tr[i], steps[i]) && Effect(tr[i], steps[i], tr[i + 1])
  {
    var w := RunKeeps(n, tr, steps, i);
    assert Taken(tr[i], steps[i], tr[i + 1]);
    StepDoes(tr[i], w, steps[i]);
  }

  /** No CPU is ever stuck: it has a step to take, or waits for the run-queue lock of one that
      has. */
  lemma Progress(s: State, w: map<Thread, Place>, c: Cpu) returns (step: Step)
    requires Inv(s, w) && c < s.ncpus
    ensures Enabled(s, step) && !Fails(s, step)
    ensures step.cpu == c || (step == Pick(step.cpu) && Waits(s, c, step.cpu))
  {
    assert CpuOk(s, c);
    if s.phase[c].Switching? { step := Pick(c); }
    else if At(s.lists, Hand(c)) != [] { step := HandProgress(s, w, c); }
    else if s.mig[c].Counted? { step := MigrationTake(c); }
    else if s.mig[c].Sending? { step := MigrationFinish(c); }
    else if s.phase[c].Running? { step := Exit(c); }
    else if s.awake[c] { step := Unidle(c); }
    else { step := Interrupt(c); }
    NeverFails(s, w, step);
  }

  /** The next thread to make runnable belongs to CPU d, which is choosing a thread. */
  ghost predicate Waits(s: State, c: Cpu, d: Cpu)
  {
    var h := At(s.lists, Hand(c));
    h != [] && h[0] in s.home && s.home[h[0]] == d && d in s.phase && s.phase[d].Switching?
  }

  lemma HandProgress(s: State, w: map<Thread, Place>, c: Cpu) returns (step: Step)
    requires Inv(s, w) && c < s.ncpus && At(s.lists, Hand(c)) != []
    ensures Enabled(s, step) && (step.cpu == c || (step == Pick(step.cpu) && Waits(s, c, step.cpu)))
  {
    var n := At(s.lists, Hand(c))[0];
    Occurs(s.lists, w, Hand(c), 0);
    assert Homed(s, Hand(c), n) && CpuOk(s, s.home[n]) && CpuOk(s, c);
    step := if s.phase[s.home[n]].Switching? then Pick(s.home[n]) else MakeRunnable(c);
  }

  // ----- Order

  lemma HeadToTailAt(l: Lists, p: Place, q: Place, r: Place)
    requires At(l, p) != []
    ensures At(HeadToTail(l, p, q), r) ==
              (if r == p then At(l, r)[1..] else At(l, r)) + (if r == q then [At(l, p)[0]] else [])
  {}

  lemma AllToTailAt(l: Lists, p: Place, q: Place, r: Place)
    requires p != q
    ensures At(AllToTail(l, p, q), r) == if r == p then [] else At(l, r) + (if r == q then At(l, p) else [])
  {}

  lemma LastToHeadAt(l: Lists, p: Place, q: Place, k: nat, r: Place)
    requires p != q && k <= |At(l, p)| && r != q
    ensures At(LastToHead(l, p, q, k), r) == if r == p then At(l, p)[..|At(l, p)| - k] else At(l, r)
  {}

  /** What a step may do to the run queue of c. */
  ghost predicate QueueStep(s: State, step: Step, c: Cpu, q': seq<Thread>)
  {
    var q := At(s.lists, RunQueue(c));
    if step == Pick(c) && q != [] then q' == q[1..]
    else if step == MigrationTake(c) then
      c in s.mig && s.mig[c].Counted? && s.mig[c].toSend <= |q| && q' == q[..|q| - s.mig[c].toSend]
    else q <= q'
  }

  /** Run queues are first in, first out: a CPU takes threads from the front only, a migration
      takes from its own CPU's rear only, and everyone else adds at the rear. */
  lemma QueueOrder(s: State, step: Step, c: Cpu)
    requires Enabled(s, step) && !Fails(s, step)
    ensures QueueStep(s, step, c, At(Do(s, step).lists, RunQueue(c)))
  {
    if step.Yield? || step.SleepOn? || step.Exit? { LeaveOrder(s, step, c); }
    else if step.Pick? { PickOrder(s, step.cpu, c); }
    else if step.MakeRunnable? || step.MigrationSend? { HandOrder(s, step, c); }
    else if step.WakeAll? || step.MigrationTake? || step.MigrationFinish? { ManyOrder(s, step, c); }
    else { OtherOrder(s, step, c); }
  }

  lemma LeaveOrder(s: State, step: Step, c: Cpu)
    requires Enabled(s, step) && !Fails(s, step) && (step.Yield? || step.SleepOn? || step.Exit?)
    ensures At(s.lists, RunQueue(c)) <= At(Do(s, step).lists, RunQueue(c))
  {
    var d := step.cpu;
    var q := if step.Yield? then RunQueue(d) else if step.SleepOn? then Sleeping(step.chan) else Zombie(d);
    HeadToTailAt(s.lists, OnCpu(d), q, RunQueue(c));
  }

  lemma PickOrder(s: State, d: Cpu, c: Cpu)
    requires Enabled(s, Pick(d))
    ensures QueueStep(s, Pick(d), c, At(Do(s, Pick(d)).lists, RunQueue(c)))
  {
    if At(s.lists, RunQueue(d)) != [] { HeadToTailAt(s.lists, RunQueue(d), OnCpu(d), RunQueue(c)); }
  }

  lemma HandOrder(s: State, step: Step, c: Cpu)
    requires Enabled(s, step) && !Fails(s, step) && (step.MakeRunnable? || step.MigrationSend?)
    ensures At(s.lists, RunQueue(c)) <= At(Do(s, step).lists, RunQueue(c))
  {
    var d := step.cpu;
    if step.MakeRunnable? {
      HeadToTailAt(s.lists, Hand(d), RunQueue(s.home[At(s.lists, Hand(d))[0]]), RunQueue(c));
    } else {
      HeadToTailAt(s.lists, Victims(d), Victims(d), RunQueue(c));
      HeadToTailAt(s.lists, Victims(d), RunQueue(step.to), RunQueue(c));
    }
  }

  lemma ManyOrder(s: State, step: Step, c: Cpu)
    requires Enabled(s, step) && !Fails(s, step)
    requires step.WakeAll? || step.MigrationTake? || step.MigrationFinish?
    ensures QueueStep(s, step, c, At(Do(s, step).lists, RunQueue(c)))
  {
    var d := step.cpu;
    if step.WakeAll? { AllToTailAt(s.lists, Sleeping(step.chan), Hand(d), RunQueue(c)); }
    else if step.MigrationFinish? { AllToTailAt(s.lists, Victims(d), RunQueue(d), RunQueue(c)); }
    else { LastToHeadAt(s.lists, RunQueue(d), Victims(d), s.mig[d].toSend, RunQueue(c)); }
  }

  lemma OtherOrder(s: State, step: Step, c: Cpu)
    requires Enabled(s, step) && !Fails(s, step)
    requires step.Fork? || step.Interrupt? || step.Unidle? || step.Exorcise? || step.WakeOne? || step.MigrationCount?
    ensures At(s.lists, RunQueue(c)) <= At(Do(s, step).lists, RunQueue(c))
  {
    if step.WakeOne? { HeadToTailAt(s.lists, Sleeping(step.chan), Hand(step.cpu), RunQueue(c)); }
  }
}
