/** Semaphores, for any number of threads. A step is what one thread does while it holds the
    semaphore's spinlock; a thread that finds the count at zero is on the wait channel
    before that lock is free again. */
module Semaphores {

  type Thread = nat

  /** `asleep` is the wait channel. `woken` are the threads taken off it that have not yet
      looked at the count again. */
  datatype State = State(count: nat, asleep: seq<Thread>, woken: set<Thread>)

  datatype Step =
    | P(t: Thread)        // a call of P, up to its return or its first sleep
    | Recheck(t: Thread)  // the rest of that call, after a wakeup
    | V

  const WORD := 0x1_0000_0000

  predicate Enabled(s: State, step: Step)
  {
    match step
    case P(t) => t !in s.asleep && t !in s.woken
    case Recheck(t) => t in s.woken
    case V => true
  }

  /** V asserts that the count did not wrap around to zero. */
  predicate Fails(s: State, step: Step)
  {
    step.V? && (s.count + 1) % WORD == 0
  }

  /** One turn of the loop in P by a thread that is awake. */
  function Try(s: State, t: Thread): State
  {
    if s.count == 0 then s.(asleep := s.asleep + [t], woken := s.woken - {t})
    else s.(count := s.count - 1, woken := s.woken - {t})
  }

  function Do(s: State, step: Step): State
    requires Enabled(s, step) && !Fails(s, step)
  {
    match step
    case P(t) => Try(s, t)
    case Recheck(t) => Try(s, t)
    case V =>
      var s1 := s.(count := (s.count + 1) % WORD);
      if s.asleep == [] then s1 else s1.(asleep := s.asleep[1..], woken := s.woken + {s.asleep[0]})
  }

  /** A sleeping thread is asleep once and not awake, and while threads sleep every unit of the
      count is meant for some thread that is awake. */
  ghost predicate Inv(s: State)
  {
    && s.count < WORD
    && Apart(s.asleep, s.woken)
    && (s.asleep != [] ==> s.count <= |s.woken|)
  }

  /** No thread is asleep twice, or asleep and awake. */
  ghost predicate Apart(asleep: seq<Thread>, woken: set<Thread>)
  {
    forall t :: multiset(asleep)[t] <= if t in woken then 0 else 1
  }

  lemma TryKeeps(s: State, t: Thread)
    requires Inv(s) && t !in s.asleep
    ensures Inv(Try(s, t))
  {
    var s' := Try(s, t);
    forall x ensures multiset(s'.asleep)[x] <= if x in s'.woken then 0 else 1 {
      assert multiset(s.asleep)[x] <= if x in s.woken then 0 else 1;
      assert t !in multiset(s.asleep);
    }
    if t in s.woken { assert |s.woken - {t}| == |s.woken| - 1; } else { assert s.woken - {t} == s.woken; }
  }

  lemma WakeKeeps(asleep: seq<Thread>, woken: set<Thread>)
    requires Apart(asleep, woken) && asleep != []
    ensures Apart(asleep[1..], woken + {asleep[0]}) && asleep[0] !in woken
  {
    var t := asleep[0];
    assert asleep == [t] + asleep[1..];
    assert multiset(asleep)[t] == 1 + multiset(asleep[1..])[t];
    forall x ensures multiset(asleep[1..])[x] <= if x in woken + {t} then 0 else 1 {
      assert multiset(asleep)[x] <= if x in woken then 0 else 1;
    }
  }

  lemma StepKeeps(s: State, step: Step)
    requires Inv(s) && Enabled(s, step) && !Fails(s, step)
    ensures Inv(Do(s, step))
  {
    match step
    case P(t) => TryKeeps(s, t);
    case Recheck(t) =>
      assert multiset(s.asleep)[t] <= 0;
      TryKeeps(s, t);
    case V =>
      if s.asleep != [] { WakeKeeps(s.asleep, s.woken); }
  }

  ghost predicate IsRun(initial: nat, tr: seq<State>, steps: seq<Step>)
  {
    && |tr| == |steps| + 1 && tr[0] == State(initial, [], {})
    && forall i {:trigger steps[i]} :: 0 <= i < |steps| ==> Taken(tr[i], steps[i], tr[i + 1])
  }

  ghost predicate Taken(s: State, step: Step, s': State)
  {
    Enabled(s, step) && !Fails(s, step) && s' == Do(s, step)
  }

  lemma {:induction false} RunKeeps(initial: nat, tr: seq<State>, steps: seq<Step>, i: nat)
    requires initial < WORD && IsRun(initial, tr, steps) && i < |tr|
    ensures Inv(tr[i])
    decreases i
  {
    if i > 0 {
      RunKeeps(initial, tr, steps, i - 1);
      assert Taken(tr[i - 1], steps[i - 1], tr[i]);
      StepKeeps(tr[i - 1], steps[i - 1]);
    }
  }

  // ----- What the steps do

  /** V adds one to the count and wakes the first thread asleep, if there is one. */
  lemma VDoes(s: State)
    requires Inv(s) && !Fails(s, V)
    ensures var s' := Do(s, V);
            && s'.count == s.count + 1
            && (s.asleep == [] ==> s'.asleep == [] && s'.woken == s.woken)
            && (s.asleep != [] ==> s.asleep == [s.asleep[0]] + s'.asleep && s'.woken == s.woken + {s.asleep[0]}
                                   && s.asleep[0] !in s.woken && s.asleep[0] !in s'.asleep)
  {
    if s.asleep != [] {
      WakeKeeps(s.asleep, s.woken);
      assert multiset(s.asleep[1..])[s.asleep[0]] <= 0;
    }
  }

  /** A thread in P takes one from the count and is done, or finds none and goes to sleep. */
  lemma PDoes(s: State, step: Step)
    requires Inv(s) && Enabled(s, step) && !step.V?
    ensures var s' := Do(s, step);
            && s'.woken == s.woken - {step.t}
            && if s.count > 0 then s'.count == s.count - 1 && s'.asleep == s.asleep && Done(step, s')
               else s'.count == 0 && s'.asleep == s.asleep + [step.t] && !Done(step, s')
  {
    assert multiset(s.asleep)[step.t] <= if step.t in s.woken then 0 else 1;
  }

  /** The step completes a call of P: its thread neither sleeps nor has to look again. */
  predicate Done(step: Step, s': State)
  {
    !step.V? && step.t !in s'.asleep && step.t !in s'.woken
  }

  // ----- Counting

  /** How many of the first i steps were calls of V. */
  function Vs(steps: seq<Step>, i: nat): nat
    requires i <= |steps|
  {
    if i == 0 then 0 else Vs(steps, i - 1) + if steps[i - 1].V? then 1 else 0
  }

  /** How many of them completed a call of P. */
  function Ps(tr: seq<State>, steps: seq<Step>, i: nat): nat
    requires i <= |steps| < |tr|
  {
    if i == 0 then 0 else Ps(tr, steps, i - 1) + if Done(steps[i - 1], tr[i]) then 1 else 0
  }

  lemma {:induction false} RunCounts(initial: nat, tr: seq<State>, steps: seq<Step>, i: nat)
    requires initial < WORD && IsRun(initial, tr, steps) && i < |tr|
    ensures tr[i].count == initial + Vs(steps, i) - Ps(tr, steps, i)
    decreases i
  {
    if i > 0 {
      RunCounts(initial, tr, steps, i - 1);
      RunStep(initial, tr, steps, i - 1);
      OneCounted(tr[i - 1], steps[i - 1], tr[i]);
    }
  }

  lemma OneCounted(s: State, step: Step, s': State)
    requires Inv(s) && Taken(s, step, s')
    ensures s'.count == s.count + (if step.V? then 1 else 0) - (if Done(step, s') then 1 else 0)
  {
    if step.V? { VDoes(s); } else { PDoes(s, step); }
  }

  /** In every run: the count is the initial value plus the Vs minus the completed Ps, V
      fails exactly when that would reach the word size, and no wakeup is lost: while
      threads sleep on a positive count some woken thread has yet to look at it. */
  lemma RunSafe(initial: nat, tr: seq<State>, steps: seq<Step>, i: nat)
    requires initial < WORD && IsRun(initial, tr, steps) && i < |tr|
    ensures tr[i].count == initial + Vs(steps, i) - Ps(tr, steps, i)
    ensures Fails(tr[i], V) <==> initial + Vs(steps, i) - Ps(tr, steps, i) == WORD - 1
    ensures tr[i].asleep != [] ==> tr[i].count <= |tr[i].woken|
    ensures tr[i].asleep != [] && tr[i].woken == {} ==> tr[i].count == 0
  {
    RunKeeps(initial, tr, steps, i);
    RunCounts(initial, tr, steps, i);
    InvMeans(tr[i]);
  }

  lemma InvMeans(s: State)
    requires Inv(s)
    ensures Fails(s, V) <==> s.count == WORD - 1
    ensures s.asleep != [] ==> s.count <= |s.woken|
  {}

  /** With something in the count and threads in P, one of them is awake and will have it as
      soon as it looks. */
  lemma SomeoneGoesOn(s: State) returns (t: Thread)
    requires Inv(s) && s.count > 0 && (s.asleep != [] || s.woken != {})
    ensures Enabled(s, Recheck(t)) && Done(Recheck(t), Do(s, Recheck(t)))
  {
    assert |s.woken| > 0;
    t :| t in s.woken;
    PDoes(s, Recheck(t));
  }

  // ----- Order

  /** t stands before u. */
  ghost predicate Ahead(l: seq<Thread>, t: Thread, u: Thread)
  {
    exists a, b :: 0 <= a < b < |l| && l[a] == t && l[b] == u
  }

  lemma JoinsBehind(s: State, step: Step, s': State, t: Thread, u: Thread)
    requires Inv(s) && Taken(s, step, s') && t in s.asleep && u !in s.asleep && u in s'.asleep
    ensures Ahead(s'.asleep, t, u)
  {
    var a :| 0 <= a < |s.asleep| && s.asleep[a] == t;
    assert s'.asleep == s.asleep + [u];
    assert s'.asleep[a] == t && s'.asleep[|s.asleep|] == u;
  }

  lemma StaysAhead(s: State, step: Step, s': State, t: Thread, u: Thread)
    requires Inv(s) && Taken(s, step, s') && Ahead(s.asleep, t, u) && t in s'.asleep
    ensures Ahead(s'.asleep, t, u)
  {
    var a, b :| 0 <= a < b < |s.asleep| && s.asleep[a] == t && s.asleep[b] == u;
    if step.V? {
      WakeKeeps(s.asleep, s.woken);
      assert multiset(s'.asleep)[t] > 0 && a > 0;
      assert s'.asleep[a - 1] == t && s'.asleep[b - 1] == u;
    } else {
      assert s'.asleep[a] == t && s'.asleep[b] == u;
    }
  }

  lemma OrderKept(s: State, step: Step, s': State, t: Thread, u: Thread)
    requires Inv(s) && Taken(s, step, s') && t in s.asleep && t in s'.asleep
    requires u !in s.asleep ==> u in s'.asleep
    requires u in s.asleep ==> Ahead(s.asleep, t, u)
    ensures Ahead(s'.asleep, t, u)
  {
    if u in s.asleep { StaysAhead(s, step, s', t, u); } else { JoinsBehind(s, step, s', t, u); }
  }

  lemma RunStep(initial: nat, tr: seq<State>, steps: seq<Step>, i: nat)
    requires initial < WORD && IsRun(initial, tr, steps) && i < |steps|
    ensures Inv(tr[i]) && Taken(tr[i], steps[i], tr[i + 1])
  {
    RunKeeps(initial, tr, steps, i);
  }

  /** Threads are woken in the order in which they fell asleep: in every run, one that falls
      asleep while t is asleep does not wake before t does. */
  lemma {:induction false} Fifo(initial: nat, tr: seq<State>, steps: seq<Step>, t: Thread, u: Thread, j: nat, k: nat)
    requires initial < WORD && IsRun(initial, tr, steps) && j < k < |tr|
    requires u !in tr[j].asleep && u in tr[j + 1].asleep
    requires forall m :: j <= m <= k ==> t in tr[m].asleep
    ensures Ahead(tr[k].asleep, t, u)
    decreases k
  {
    RunStep(initial, tr, steps, k - 1);
    if k > j + 1 { Fifo(initial, tr, steps, t, u, j, k - 1); }
    OrderKept(tr[k - 1], steps[k - 1], tr[k], t, u);
  }
}

/** A lock and a condition variable used with it, for any number of threads. Each step is
    what one thread does under one spinlock: the lock's, or the one of the variable's wait
    channel, which cv_wait keeps from before it releases the lock until it is on the channel. */
module Monitors {
  import opened Options

  type Thread = nat

  datatype Pc =
    | Out        // not in any of these functions, not holding the lock
    | LockAsleep | LockWoken
    | Holding
    | Entering   // in cv_wait, holding the lock and the channel's spinlock
    | Parking    // the same, after releasing the lock
    | OnChannel
    | Signalled  // taken off the channel
    | Returning  // about to take the lock again, at the end of cv_wait

  datatype State = State(
    holder: Option<Thread>, lockq: seq<Thread>, chanHolder: Option<Thread>, chan: seq<Thread>, pc: map<Thread, Pc>)

  datatype Step =
    | Acquire(t: Thread)
    | Recheck(t: Thread)
    | Release(t: Thread)
    | WaitBegin(t: Thread)
    | WaitRelease(t: Thread)
    | WaitSleep(t: Thread)
    | WaitResume(t: Thread)
    | Signal(t: Thread)
    | Broadcast(t: Thread)

  function PcOf(s: State, t: Thread): Pc
  {
    if t in s.pc then s.pc[t] else Out
  }

  predicate Enabled(s: State, step: Step)
  {
    var pc := PcOf(s, step.t);
    match step
    case Acquire(_) => pc.Out? || pc.Returning?
    case Recheck(_) => pc.LockWoken?
    case Release(_) => pc.Holding?
    case WaitBegin(_) => pc.Holding? && s.chanHolder.None?
    case WaitRelease(_) => pc.Entering?
    case WaitSleep(_) => pc.Parking?
    case WaitResume(_) => pc.Signalled? && s.chanHolder.None?
    case Signal(_) => (pc.Out? || pc.Holding?) && s.chanHolder.None?
    case Broadcast(_) => (pc.Out? || pc.Holding?) && s.chanHolder.None?
  }

  /** The assertions of lock_acquire and lock_release about the holder. */
  predicate Fails(s: State, step: Step)
  {
    match step
    case Acquire(t) => s.holder == Some(t)
    case Release(t) => s.holder != Some(t)
    case WaitRelease(t) => s.holder != Some(t)
    case _ => false
  }

  /** One turn of the loop of lock_acquire. */
  function Try(s: State, t: Thread): State
  {
    if s.holder.None? then s.(holder := Some(t), pc := s.pc[t := Holding])
    else s.(lockq := s.lockq + [t], pc := s.pc[t := LockAsleep])
  }

  /** lock_release, after which its caller is at pc. */
  function Unlock(s: State, t: Thread, pc: Pc): State
  {
    if s.lockq == [] then s.(holder := None, pc := s.pc[t := pc])
    else s.(holder := None, lockq := s.lockq[1..], pc := s.pc[t := pc][s.lockq[0] := LockWoken])
  }

  function Do(s: State, step: Step): State
    requires Enabled(s, step)
  {
    var t := step.t;
    match step
    case Acquire(_) => Try(s, t)
    case Recheck(_) => Try(s, t)
    case Release(_) => Unlock(s, t, Out)
    case WaitBegin(_) => s.(chanHolder := Some(t), pc := s.pc[t := Entering])
    case WaitRelease(_) => Unlock(s, t, Parking)
    case WaitSleep(_) => s.(chanHolder := None, chan := s.chan + [t], pc := s.pc[t := OnChannel])
    case WaitResume(_) => s.(pc := s.pc[t := Returning])
    case Signal(_) => if s.chan == [] then s else s.(chan := s.chan[1..], pc := s.pc[s.chan[0] := Signalled])
    case Broadcast(_) => s.(chan := [], pc := s.pc + map x | x in s.chan :: Signalled)
  }

  /** What the state says of thread t fits where it is. */
  ghost predicate Fits(s: State, t: Thread)
  {
    var pc := PcOf(s, t);
    && (s.holder == Some(t) <==> pc.Holding? || pc.Entering?)
    && (s.chanHolder == Some(t) <==> pc.Entering? || pc.Parking?)
    && multiset(s.lockq)[t] == (if pc.LockAsleep? then 1 else 0)
    && multiset(s.chan)[t] == (if pc.OnChannel? then 1 else 0)
  }

  /** A free lock that threads sleep on is about to be taken by a woken one. */
  ghost predicate NotForgotten(s: State)
  {
    s.holder.None? && s.lockq != [] ==> exists t :: PcOf(s, t) == LockWoken
  }

  ghost predicate Inv(s: State)
  {
    (forall t :: Fits(s, t)) && NotForgotten(s)
  }

  lemma TryKeeps(s: State, t: Thread)
    requires Inv(s) && (PcOf(s, t).Out? || PcOf(s, t).Returning? || PcOf(s, t).LockWoken?)
    ensures Inv(Try(s, t))
  {
    var s' := Try(s, t);
    forall x ensures Fits(s', x) {
      assert Fits(s, x) && Fits(s, t);
    }
  }

  lemma UnlockKeeps(s: State, t: Thread, pc: Pc)
    requires Inv(s) && ((PcOf(s, t).Holding? && pc == Out) || (PcOf(s, t).Entering? && pc == Parking))
    ensures Inv(Unlock(s, t, pc))
  {
    var s' := Unlock(s, t, pc);
    assert Fits(s, t);
    if s.lockq != [] {
      var h := s.lockq[0];
      assert s.lockq == [h] + s.lockq[1..];
      assert Fits(s, h) && multiset(s.lockq)[h] > 0;
      assert PcOf(s', h) == LockWoken;
    }
    forall x ensures Fits(s', x) {
      assert Fits(s, x);
    }
  }

  lemma WaitKeeps(s: State, step: Step)
    requires Inv(s) && Enabled(s, step) && (step.WaitBegin? || step.WaitSleep? || step.WaitResume?)
    ensures Inv(Do(s, step))
  {
    var s' := Do(s, step);
    assert Fits(s, step.t);
    forall x ensures Fits(s', x) {
      assert Fits(s, x);
    }
    if s.holder.None? && s.lockq != [] {
      var t :| PcOf(s, t) == LockWoken;
      assert PcOf(s', t) == LockWoken;
    }
  }

  lemma SignalKeeps(s: State, step: Step)
    requires Inv(s) && Enabled(s, step) && step.Signal?
    ensures Inv(Do(s, step))
  {
    if s.chan != [] {
      var s', h := Do(s, step), s.chan[0];
      assert s.chan == [h] + s.chan[1..];
      assert Fits(s, h) && multiset(s.chan)[h] > 0;
      forall x ensures Fits(s', x) {
        assert Fits(s, x);
      }
      StillWoken(s, s');
    }
  }

  lemma BroadcastKeeps(s: State, step: Step)
    requires Inv(s) && Enabled(s, step) && step.Broadcast?
    ensures Inv(Do(s, step))
  {
    var s' := Do(s, step);
    forall x ensures Fits(s', x) && (PcOf(s, x) == LockWoken ==> PcOf(s', x) == LockWoken) {
      assert Fits(s, x);
      assert x in s.chan <==> multiset(s.chan)[x] > 0;
    }
    StillWoken(s, s');
  }

  lemma StillWoken(s: State, s': State)
    requires NotForgotten(s) && s'.holder == s.holder && s'.lockq == s.lockq
    requires forall x :: PcOf(s, x) == LockWoken ==> PcOf(s', x) == LockWoken
    ensures NotForgotten(s')
  {
    if s.holder.None? && s.lockq != [] {
      var t :| PcOf(s, t) == LockWoken;
      assert PcOf(s', t) == LockWoken;
    }
  }

  lemma StepKeeps(s: State, step: Step)
    requires Inv(s) && Enabled(s, step)
    ensures !Fails(s, step) && Inv(Do(s, step))
  {
    assert Fits(s, step.t);
    match step
    case Acquire(t) => TryKeeps(s, t);
    case Recheck(t) => TryKeeps(s, t);
    case Release(t) => UnlockKeeps(s, t, Out);
    case WaitRelease(t) => UnlockKeeps(s, t, Parking);
    case Signal(_) => SignalKeeps(s, step);
    case Broadcast(_) => BroadcastKeeps(s, step);
    case _ => WaitKeeps(s, step);
  }

  ghost predicate IsRun(tr: seq<State>, steps: seq<Step>)
  {
    && |tr| == |steps| + 1 && tr[0] == State(None, [], None, [], map[])
    && forall i {:trigger steps[i]} :: 0 <= i < |steps| ==> Taken(tr[i], steps[i], tr[i + 1])
  }

  ghost predicate Taken(s: State, step: Step, s': State)
  {
    Enabled(s, step) && (Fails(s, step) || s' == Do(s, step))
  }

  lemma {:induction false} RunKeeps(tr: seq<State>, steps: seq<Step>, i: nat)
    requires IsRun(tr, steps) && i < |tr|
    ensures Inv(tr[i])
    decreases i
  {
    if i > 0 {
      RunKeeps(tr, steps, i - 1);
      assert Taken(tr[i - 1], steps[i - 1], tr[i]);
      StepKeeps(tr[i - 1], steps[i - 1]);
    } else {
      forall t ensures Fits(tr[0], t) {}
    }
  }

  /** Thread t has the lock. */
  predicate Owns(s: State, t: Thread)
  {
    PcOf(s, t).Holding? || PcOf(s, t).Entering?
  }

  /** Thread t has given up the lock in cv_wait and not been signalled since. */
  predicate Waits(s: State, t: Thread)
  {
    PcOf(s, t).Parking? || PcOf(s, t).OnChannel?
  }

  /** In every run no assertion fails, the lock has at most one owner, and a free lock is
      not left to sleeping threads. */
  lemma LockSafe(tr: seq<State>, steps: seq<Step>, i: nat, t: Thread, u: Thread)
    requires IsRun(tr, steps) && i < |tr|
    ensures Owns(tr[i], t) && Owns(tr[i], u) ==> t == u
    ensures Owns(tr[i], t) <==> tr[i].holder == Some(t)
    ensures NotForgotten(tr[i])
    ensures i < |steps| ==> !Fails(tr[i], steps[i])
  {
    RunKeeps(tr, steps, i);
    assert Fits(tr[i], t) && Fits(tr[i], u);
    if i < |steps| {
      assert Taken(tr[i], steps[i], tr[i + 1]);
      StepKeeps(tr[i], steps[i]);
    }
  }

  // ----- What the steps do

  /** No thread but these has gone anywhere. */
  ghost predicate OthersStay(s: State, s': State, moved: set<Thread>)
  {
    forall x :: x !in moved ==> PcOf(s', x) == PcOf(s, x)
  }

  ghost predicate SameLock(s: State, s': State)
  {
    s'.lockq == s.lockq && forall x :: Owns(s', x) <==> Owns(s, x)
  }

  ghost predicate SameChannel(s: State, s': State)
  {
    s'.chan == s.chan && s'.chanHolder == s.chanHolder
  }

  /** Thread t has the lock now if no one had it, otherwise it is the last to wait for it. */
  ghost predicate Acquired(s: State, t: Thread, s': State)
  {
    && SameChannel(s, s') && OthersStay(s, s', {t})
    && if forall u :: !Owns(s, u) then PcOf(s', t).Holding? && s'.lockq == s.lockq
       else PcOf(s', t).LockAsleep? && s'.lockq == s.lockq + [t]
  }

  /** No one has the lock, and the first thread that waited for it is awake. */
  ghost predicate Released(s: State, t: Thread, pc: Pc, s': State)
  {
    && SameChannel(s, s') && PcOf(s', t) == pc && (forall u :: !Owns(s', u))
    && if s.lockq == [] then s'.lockq == [] && OthersStay(s, s', {t})
       else var h := s.lockq[0];
            s.lockq == [h] + s'.lockq && h != t && PcOf(s', h).LockWoken? && OthersStay(s, s', {t, h})
  }

  /** Exactly these threads have left the channel, which now holds the rest. */
  ghost predicate Left(s: State, gone: seq<Thread>, s': State)
  {
    && SameLock(s, s') && s'.chanHolder == s.chanHolder && s.chan == gone + s'.chan
    && (forall x :: x in gone ==> PcOf(s', x).Signalled?) && OthersStay(s, s', set x | x in gone)
  }

  /** Thread t has gone from one place in cv_wait to the next. */
  ghost predicate Moved(s: State, t: Thread, pc: Pc, s': State)
  {
    SameLock(s, s') && PcOf(s', t) == pc && OthersStay(s, s', {t})
  }

  ghost predicate Effect(s: State, step: Step, s': State)
  {
    match step
    case Acquire(t) => Acquired(s, t, s')
    case Recheck(t) => Acquired(s, t, s')
    case Release(t) => Released(s, t, Out, s')
    case WaitRelease(t) => Released(s, t, Parking, s')
    case WaitBegin(t) => Moved(s, t, Entering, s') && s'.chan == s.chan && s'.chanHolder == Some(t)
    case WaitSleep(t) => Moved(s, t, OnChannel, s') && s'.chan == s.chan + [t] && s'.chanHolder.None?
    case WaitResume(t) => Moved(s, t, Returning, s') && SameChannel(s, s')
    case Signal(_) => Left(s, if s.chan == [] then [] else [s.chan[0]], s')
    case Broadcast(_) => Left(s, s.chan, s') && s'.chan == []
  }

  lemma Owner(s: State, t: Thread)
    requires Inv(s)
    ensures Owns(s, t) <==> s.holder == Some(t)
  {
    assert Fits(s, t);
  }

  lemma AcquireDoes(s: State, t: Thread)
    requires Inv(s) && Inv(Try(s, t)) && !Owns(s, t)
    ensures Acquired(s, t, Try(s, t))
  {
    forall u: Thread ensures Owns(s, u) <==> s.holder == Some(u) {
      Owner(s, u);
    }
    if s.holder.Some? { assert Owns(s, s.holder.value); }
  }

  lemma ReleaseDoes(s: State, t: Thread, pc: Pc)
    requires Inv(s) && Inv(Unlock(s, t, pc)) && Owns(s, t)
    ensures Released(s, t, pc, Unlock(s, t, pc))
  {
    var s' := Unlock(s, t, pc);
    forall u ensures !Owns(s', u) {
      Owner(s', u);
    }
    if s.lockq != [] {
      assert Fits(s, s.lockq[0]) && multiset(s.lockq)[s.lockq[0]] > 0;
    }
  }

  lemma LeftWhen(s: State, gone: seq<Thread>, s': State)
    requires s'.lockq == s.lockq && s'.chanHolder == s.chanHolder && s.chan == gone + s'.chan
    requires forall x :: PcOf(s', x) == if x in gone then Signalled else PcOf(s, x)
    requires forall x :: x in gone ==> PcOf(s, x).OnChannel?
    ensures Left(s, gone, s')
  {}

  lemma AllOnChannel(s: State)
    requires Inv(s)
    ensures forall x :: x in s.chan ==> PcOf(s, x).OnChannel?
  {
    forall x | x in s.chan ensures PcOf(s, x).OnChannel? {
      assert Fits(s, x) && multiset(s.chan)[x] > 0;
    }
  }

  lemma SignalDoes(s: State, t: Thread)
    requires Inv(s) && Enabled(s, Signal(t))
    ensures Effect(s, Signal(t), Do(s, Signal(t)))
  {
    AllOnChannel(s);
    var gone := if s.chan == [] then [] else [s.chan[0]];
    LeftWhen(s, gone, Do(s, Signal(t)));
  }

  lemma BroadcastDoes(s: State, t: Thread)
    requires Inv(s) && Enabled(s, Broadcast(t))
    ensures Effect(s, Broadcast(t), Do(s, Broadcast(t)))
  {
    AllOnChannel(s);
    assert s.chan == s.chan + [];
    LeftWhen(s, s.chan, Do(s, Broadcast(t)));
  }

  /** Every step does what its name says, and nothing else. */
  lemma StepDoes(s: State, step: Step)
    requires Inv(s) && Enabled(s, step)
    ensures Effect(s, step, Do(s, step))
  {
    StepKeeps(s, step);
    match step
    case Acquire(t) => AcquireDoes(s, t);
    case Recheck(t) => AcquireDoes(s, t);
    case Release(t) => ReleaseDoes(s, t, Out);
    case WaitRelease(t) => ReleaseDoes(s, t, Parking);
    case Signal(t) => SignalDoes(s, t);
    case Broadcast(t) => BroadcastDoes(s, t);
    case _ =>
  }

  lemma RunDoes(tr: seq<State>, steps: seq<Step>, i: nat)
    requires IsRun(tr, steps) && i < |steps|
    ensures Effect(tr[i], steps[i], tr[i + 1])
  {
    RunKeeps(tr, steps, i);
    assert Taken(tr[i], steps[i], tr[i + 1]);
    StepKeeps(tr[i], steps[i]);
    StepDoes(tr[i], steps[i]);
  }

  /** When threads wait for a free lock, one of them is awake and will have it as soon as it
      looks. */
  lemma SomeoneGetsIt(s: State) returns (t: Thread)
    requires Inv(s) && s.lockq != [] && forall u :: !Owns(s, u)
    ensures Enabled(s, Recheck(t)) && Owns(Do(s, Recheck(t)), t)
  {
    if s.holder.Some? { Owner(s, s.holder.value); }
    t :| PcOf(s, t) == LockWoken;
  }

  /** No signal is lost: whenever cv_signal or cv_broadcast can act, every thread that waits
      is on the channel, so a signal wakes one if there is one and a broadcast wakes all. */
  lemma NoLostSignal(tr: seq<State>, steps: seq<Step>, i: nat, u: Thread, t: Thread)
    requires IsRun(tr, steps) && i < |tr| && Enabled(tr[i], Signal(u)) && Waits(tr[i], t)
    ensures t in tr[i].chan
    ensures var h := tr[i].chan[0]; Waits(tr[i], h) && PcOf(Do(tr[i], Signal(u)), h) == Signalled
    ensures PcOf(Do(tr[i], Broadcast(u)), t) == Signalled
  {
    var s := tr[i];
    RunKeeps(tr, steps, i);
    assert Fits(s, t);
    assert t in s.chan <==> multiset(s.chan)[t] > 0;
    var h := s.chan[0];
    assert Fits(s, h) && multiset(s.chan)[h] > 0;
  }
}
