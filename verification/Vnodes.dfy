/** Vnode reference counts and the pool of an emufs file system, with any number of threads
    looking files up and dropping references at once. A step is what one thread does under
    one lock: a vnode's count lock, or e_lock, which protects the pool. */
module Vnodes {
  import opened Options

  type Vnode = nat
  type Handle = nat

  /** A vnode's count, and the references it stands for: those of its holders, that of a
      reclaim on its way, and those lost when the device could not close the file. */
  datatype Counts = Counts(handle: Handle, refcount: nat, holders: nat, pending: nat, lost: nat)

  /** `closing` is the vnode whose reclaim has found its reference to be the last and still
      holds e_lock. */
  datatype State = State(pool: seq<Vnode>, vs: map<Vnode, Counts>, closing: Option<Vnode>)

  datatype Step =
    | Load(handle: Handle, spare: Vnode)  // emufs_loadvnode; spare is where a new vnode would be
    | Incref(v: Vnode)
    | Decref(v: Vnode)
    | ReclaimCheck(v: Vnode)
    | ReclaimFinish(v: Vnode, closed: bool)

  // ----- The pool

  /** The search loop of emufs_loadvnode. */
  function Find(s: State, pool: seq<Vnode>, h: Handle): Option<Vnode>
  {
    if pool == [] then None
    else if pool[0] in s.vs && s.vs[pool[0]].handle == h then Some(pool[0])
    else Find(s, pool[1..], h)
  }

  lemma {:induction false} FindIs(s: State, pool: seq<Vnode>, h: Handle)
    ensures var r := Find(s, pool, h);
            && (r.Some? ==> r.value in pool && r.value in s.vs && s.vs[r.value].handle == h)
            && (r.None? ==> forall v :: v in pool && v in s.vs ==> s.vs[v].handle != h)
    decreases |pool|
  {
    if pool != [] {
      FindIs(s, pool[1..], h);
      assert pool == [pool[0]] + pool[1..];
    }
  }

  /** vnodearray_remove at the place where the vnode is found. */
  function Remove(pool: seq<Vnode>, v: Vnode): seq<Vnode>
  {
    if pool == [] then []
    else if pool[0] == v then pool[1..]
    else [pool[0]] + Remove(pool[1..], v)
  }

  lemma {:induction false} RemoveCounts(pool: seq<Vnode>, v: Vnode)
    requires v in pool
    ensures multiset(pool) == multiset(Remove(pool, v)) + multiset{v}
    decreases |pool|
  {
    assert pool == [pool[0]] + pool[1..];
    if pool[0] != v { RemoveCounts(pool[1..], v); }
  }

  // ----- Steps

  predicate Enabled(s: State, step: Step)
  {
    match step
    case Load(_, spare) => s.closing.None? && spare !in s.vs
    case Incref(v) => v in s.vs && s.vs[v].holders > 0
    case Decref(v) => v in s.vs && s.vs[v].holders > 0
    case ReclaimCheck(v) => s.closing.None? && v in s.vs && s.vs[v].pending > 0
    case ReclaimFinish(v, _) => s.closing == Some(v)
  }

  /** The assertions, and the panic for a vnode that is not in the pool. */
  predicate Fails(s: State, step: Step)
  {
    match step
    case Decref(v) => v !in s.vs || s.vs[v].refcount == 0
    case ReclaimCheck(v) => v !in s.vs || s.vs[v].refcount == 0
    case ReclaimFinish(v, closed) => v !in s.vs || (closed && (s.vs[v].refcount != 1 || v !in s.pool))
    case _ => false
  }

  function Do(s: State, step: Step): State
    requires Enabled(s, step) && !Fails(s, step)
  {
    match step
    case Load(h, spare) =>
      var r := Find(s, s.pool, h);
      if r.Some? && r.value in s.vs then
        var c := s.vs[r.value];
        s.(vs := s.vs[r.value := c.(refcount := c.refcount + 1, holders := c.holders + 1)])
      else
        s.(pool := s.pool + [spare], vs := s.vs[spare := Counts(h, 1, 1, 0, 0)])
    case Incref(v) =>
      var c := s.vs[v];
      s.(vs := s.vs[v := c.(refcount := c.refcount + 1, holders := c.holders + 1)])
    case Decref(v) =>
      var c := s.vs[v];
      if c.refcount > 1 then s.(vs := s.vs[v := c.(refcount := c.refcount - 1, holders := c.holders - 1)])
      else s.(vs := s.vs[v := c.(holders := c.holders - 1, pending := c.pending + 1)])
    case ReclaimCheck(v) =>
      var c := s.vs[v];
      if c.refcount > 1 then s.(vs := s.vs[v := c.(refcount := c.refcount - 1, pending := c.pending - 1)])
      else s.(closing := Some(v))
    case ReclaimFinish(v, closed) =>
      var c := s.vs[v];
      if closed then State(Remove(s.pool, v), s.vs - {v}, None)
      else s.(vs := s.vs[v := c.(pending := if c.pending > 0 then c.pending - 1 else 0, lost := c.lost + 1)],
          closing := None)
  }

  // ----- The invariant

  ghost predicate CountOk(s: State, v: Vnode)
    requires v in s.vs
  {
    var c := s.vs[v];
    && c.refcount == c.holders + c.pending + c.lost && c.refcount > 0 && c.pending <= 1
    && (s.closing == Some(v) ==> c.pending == 1 && c.refcount == 1)
  }

  ghost predicate Inv(s: State)
  {
    && (forall v :: v in s.vs ==> CountOk(s, v))
    && (forall v {:trigger multiset(s.pool)[v]} :: multiset(s.pool)[v] == if v in s.vs then 1 else 0)
    && (forall v, w :: v in s.vs && w in s.vs && v != w ==> s.vs[v].handle != s.vs[w].handle)
    && (s.closing.Some? ==> s.closing.value in s.vs)
  }

  lemma InPool(s: State, v: Vnode)
    requires Inv(s)
    ensures v in s.pool <==> v in s.vs
  {
    assert v in s.pool <==> multiset(s.pool)[v] > 0;
  }

  lemma LoadKeeps(s: State, h: Handle, spare: Vnode)
    requires Inv(s) && Enabled(s, Load(h, spare))
    ensures Inv(Do(s, Load(h, spare)))
  {
    var s' := Do(s, Load(h, spare));
    FindIs(s, s.pool, h);
    forall v ensures v in s.pool <==> v in s.vs { InPool(s, v); }
    forall v | v in s'.vs ensures CountOk(s', v) {
      if v in s.vs { assert CountOk(s, v); }
    }
  }

  lemma StepKeeps(s: State, step: Step)
    requires Inv(s) && Enabled(s, step)
    ensures !Fails(s, step) && Inv(Do(s, step))
  {
    match step
    case Load(h, spare) => LoadKeeps(s, h, spare);
    case ReclaimFinish(v, closed) =>
      assert CountOk(s, v);
      InPool(s, v);
      RemoveCounts(s.pool, v);
      CountsKeep(s, step);
    case Incref(v) => CountsKeep(s, step);
    case Decref(v) => CountsKeep(s, step);
    case ReclaimCheck(v) => CountsKeep(s, step);
  }

  lemma CountsKeep(s: State, step: Step)
    requires Inv(s) && Enabled(s, step) && !step.Load?
    requires step.ReclaimFinish? ==>
             step.v in s.pool && multiset(s.pool) == multiset(Remove(s.pool, step.v)) + multiset{step.v}
    ensures !Fails(s, step) && Inv(Do(s, step))
  {
    assert CountOk(s, step.v);
    var s' := Do(s, step);
    forall v | v in s'.vs ensures CountOk(s', v) {
      assert CountOk(s, v);
    }
    if step.ReclaimFinish? && step.closed {
      forall v ensures multiset(s'.pool)[v] == if v in s'.vs then 1 else 0 {
        assert multiset(s.pool)[v] == multiset(s'.pool)[v] + multiset{step.v}[v];
      }
    }
  }

  // ----- Runs

  ghost predicate IsRun(tr: seq<State>, steps: seq<Step>)
  {
    && |tr| == |steps| + 1 && tr[0] == State([], map[], None)
    && forall i {:trigger steps[i]} :: 0 <= i < |steps| ==> Taken(tr[i], steps[i], tr[i + 1])
  }

  ghost predicate Taken(s: State, step: Step, s': State)
  {
    Enabled(s, step) && (Fails(s, step) || s' == Do(s, step))
  }

  lemma {:induction false} RunKeeps(tr: seq<State>, steps: seq<Step>, i: nat)
    requires IsRun(tr, steps) && i < |tr|
    ensures Inv(tr[i])
    decreases i
  {
    if i > 0 {
      RunKeeps(tr, steps, i - 1);
      assert Taken(tr[i - 1], steps[i - 1], tr[i]);
      StepKeeps(tr[i - 1], steps[i - 1]);
    }
  }

  /** In every run no assertion fails; a vnode's count is its holders plus at most one
      pending reclaim plus the references lost; the pool is exactly the vnodes there are;
      and a vnode goes only when the reclaim's reference is the last one. */
  lemma RunSafe(tr: seq<State>, steps: seq<Step>, i: nat, v: Vnode)
    requires IsRun(tr, steps) && i < |tr|
    ensures multiset(tr[i].pool)[v] == if v in tr[i].vs then 1 else 0
    ensures v in tr[i].vs ==> CountOk(tr[i], v)
    ensures i < |steps| ==> Enabled(tr[i], steps[i]) && !Fails(tr[i], steps[i])
    ensures i < |steps| && v in tr[i].vs && v !in tr[i + 1].vs ==>
              && steps[i] == ReclaimFinish(v, true)
              && tr[i].vs[v].holders == 0 && tr[i].vs[v].pending == 1 && tr[i].vs[v].lost == 0
  {
    RunKeeps(tr, steps, i);
    if i < |steps| {
      assert Taken(tr[i], steps[i], tr[i + 1]);
      StepKeeps(tr[i], steps[i]);
    }
  }

  // ----- What the steps do

  /** Nothing but the counts of v has changed, and its handle has not. */
  ghost predicate OnlyCounts(s: State, v: Vnode, s': State)
  {
    && v in s.vs && v in s'.vs && s'.vs == s.vs[v := s'.vs[v]]
    && s'.vs[v].handle == s.vs[v].handle && s'.pool == s.pool
  }

  /** v is the vnode that a lookup of this handle gives: the one with that handle, or a new one. */
  ghost predicate Named(s: State, h: Handle, spare: Vnode, v: Vnode)
  {
    if v in s.vs then s.vs[v].handle == h else v == spare && forall w :: w in s.vs ==> s.vs[w].handle != h
  }

  /** The vnode of the handle has one more reference, and is new if there was none. */
  ghost predicate Loaded(s: State, h: Handle, spare: Vnode, s': State)
  {
    exists v :: Named(s, h, spare, v) && GotRef(s, h, v, s')
  }

  ghost predicate GotRef(s: State, h: Handle, v: Vnode, s': State)
  {
    && s'.closing == s.closing && v in s'.vs
    && if v in s.vs then OnlyCounts(s, v, s') && s'.vs[v].refcount == s.vs[v].refcount + 1
       else s'.pool == s.pool + [v] && s'.vs == s.vs[v := s'.vs[v]] && s'.vs[v].refcount == 1 && s'.vs[v].handle == h
  }

  /** v has left the pool, where the others stand as they did. */
  ghost predicate LeftPool(pool: seq<Vnode>, v: Vnode, pool': seq<Vnode>)
  {
    exists a, b :: pool == a + [v] + b && pool' == a + b
  }

  ghost predicate Effect(s: State, step: Step, s': State)
  {
    match step
    case Load(h, spare) => Loaded(s, h, spare, s')
    case Incref(v) =>
      OnlyCounts(s, v, s') && s'.closing == s.closing && s'.vs[v].refcount == s.vs[v].refcount + 1
    case Decref(v) =>  // the last reference goes to a reclaim
      && OnlyCounts(s, v, s') && s'.closing == s.closing
      && if s.vs[v].refcount > 1 then s'.vs[v].refcount == s.vs[v].refcount - 1 && s'.vs[v].pending == s.vs[v].pending
         else s'.vs[v].refcount == s.vs[v].refcount && s.vs[v].pending == 0 && s'.vs[v].pending == 1
    case ReclaimCheck(v) =>  // someone else has it again, or the file is about to be closed
      if v in s.vs && s.vs[v].refcount > 1 then
        && OnlyCounts(s, v, s') && s'.closing == s.closing
        && s'.vs[v].refcount == s.vs[v].refcount - 1 && s'.vs[v].pending == 0
      else s' == s.(closing := Some(v))
    case ReclaimFinish(v, closed) =>
      && s'.closing.None?
      && if closed then v in s.vs && s'.vs == s.vs - {v} && LeftPool(s.pool, v, s'.pool)
         else OnlyCounts(s, v, s') && s'.vs[v].refcount == s.vs[v].refcount && s'.vs[v].pending == 0
  }

  lemma {:induction false} RemoveSplits(pool: seq<Vnode>, v: Vnode)
    requires v in pool
    ensures LeftPool(pool, v, Remove(pool, v))
    decreases |pool|
  {
    if pool[0] == v {
      assert pool == [] + [v] + pool[1..] && pool[1..] == [] + pool[1..];
    } else {
      RemoveSplits(pool[1..], v);
      SplitMore(pool[0], pool[1..], v, Remove(pool[1..], v));
      assert pool == [pool[0]] + pool[1..];
    }
  }

  lemma SplitMore(x: Vnode, pool: seq<Vnode>, v: Vnode, pool': seq<Vnode>)
    requires LeftPool(pool, v, pool')
    ensures LeftPool([x] + pool, v, [x] + pool')
  {
    var a, b :| pool == a + [v] + b && pool' == a + b;
    assert [x] + pool == ([x] + a) + [v] + b && [x] + pool' == ([x] + a) + b;
  }

  lemma LoadDoes(s: State, h: Handle, spare: Vnode)
    requires Inv(s) && Enabled(s, Load(h, spare))
    ensures Loaded(s, h, spare, Do(s, Load(h, spare)))
  {
    FindIs(s, s.pool, h);
    var r := Find(s, s.pool, h);
    forall w | w in s.vs ensures w in s.pool {
      InPool(s, w);
    }
    var v := if r.Some? then r.value else spare;
    assert Named(s, h, spare, v) && GotRef(s, h, v, Do(s, Load(h, spare)));
  }

  /** Every step of a run does what it is for, and nothing else. */
  lemma StepDoes(s: State, step: Step)
    requires Inv(s) && Enabled(s, step)
    ensures !Fails(s, step) && Effect(s, step, Do(s, step))
  {
    StepKeeps(s, step);
    match step
    case Load(h, spare) => LoadDoes(s, h, spare);
    case ReclaimFinish(v, closed) =>
      assert CountOk(s, v);
      InPool(s, v);
      RemoveSplits(s.pool, v);
    case Incref(v) => assert CountOk(s, v);
    case Decref(v) => assert CountOk(s, v);
    case ReclaimCheck(v) => assert CountOk(s, v);
  }

  lemma RunDoes(tr: seq<State>, steps: seq<Step>, i: nat)
    requires IsRun(tr, steps) && i < |steps|
    ensures Enabled(tr[i], steps[i]) && Effect(tr[i], steps[i], tr[i + 1])
  {
    RunKeeps(tr, steps, i);
    assert Taken(tr[i], steps[i], tr[i + 1]);
    StepDoes(tr[i], steps[i]);
  }

  // ----- Counting references

  /** This step gives its thread a reference to v. */
  ghost predicate Gets(s: State, step: Step, v: Vnode)
  {
    step == Incref(v) || (step.Load? && Named(s, step.handle, step.spare, v))
  }

  /** How many references to v the first i steps gave to threads and did not take from them,
      since v was last made. */
  ghost function Net(tr: seq<State>, steps: seq<Step>, i: nat, v: Vnode): int
    requires i <= |steps| < |tr|
  {
    if i == 0 || v !in tr[i].vs then 0
    else Net(tr, steps, i - 1, v) + (if Gets(tr[i - 1], steps[i - 1], v) then 1 else 0)
         - if steps[i - 1] == Decref(v) then 1 else 0
  }

  lemma HoldersChange(s: State, step: Step, v: Vnode)
    requires Inv(s) && Enabled(s, step) && !Fails(s, step) && v in Do(s, step).vs
    ensures Do(s, step).vs[v].holders == (if v in s.vs then s.vs[v].holders else 0)
            + (if Gets(s, step, v) then 1 else 0) - if step == Decref(v) then 1 else 0
  {
    if step.Load? {
      FindIs(s, s.pool, step.handle);
      forall w | w in s.vs ensures w in s.pool {
        InPool(s, w);
      }
    }
  }

  /** In every run, the holders that a count stands for are the references that threads got
      and have not given back. */
  lemma {:induction false} RunHolders(tr: seq<State>, steps: seq<Step>, i: nat, v: Vnode)
    requires IsRun(tr, steps) && i < |tr| && v in tr[i].vs
    ensures tr[i].vs[v].holders == Net(tr, steps, i, v)
    decreases i
  {
    if i > 0 {
      RunKeeps(tr, steps, i - 1);
      assert Taken(tr[i - 1], steps[i - 1], tr[i]);
      StepKeeps(tr[i - 1], steps[i - 1]);
      HoldersChange(tr[i - 1], steps[i - 1], v);
      if v in tr[i - 1].vs { RunHolders(tr, steps, i - 1, v); }
    }
  }
}
