/** The deadlock detector: who waits for what, and who holds what. */
module Hangman {

  type Actor = nat
  type Lockable = nat

  /** The waits-for graph. An actor not in `waiting` waits for nothing, a lockable not in
      `holding` is free. */
  datatype Graph = Graph(waiting: map<Actor, Lockable>, holding: map<Lockable, Actor>)

  /** Actor a waits for something that b holds. */
  predicate Edge(g: Graph, a: Actor, b: Actor)
  {
    a in g.waiting && g.waiting[a] in g.holding && g.holding[g.waiting[a]] == b
  }

  ghost predicate IsPath(g: Graph, p: seq<Actor>)
  {
    p != [] && forall i :: 0 <= i < |p| - 1 ==> Step(g, p, i)
  }

  ghost predicate Step(g: Graph, p: seq<Actor>, i: nat)
    requires i + 1 < |p|
  {
    Edge(g, p[i], p[i + 1])
  }

  ghost predicate IsCycle(g: Graph, p: seq<Actor>)
  {
    IsPath(g, p) && |p| >= 2 && p[0] == p[|p| - 1]
  }

  ghost predicate Acyclic(g: Graph)
  {
    forall p :: !IsCycle(g, p)
  }

  lemma NotClosed(g: Graph, p: seq<Actor>)
    requires Acyclic(g) && IsPath(g, p) && |p| >= 2
    ensures p[0] != p[|p| - 1]
  {
    assert !IsCycle(g, p);
  }

  /** Path p leads from the holder of l to a. */
  ghost predicate Reaches(g: Graph, l: Lockable, p: seq<Actor>, a: Actor)
  {
    IsPath(g, p) && l in g.holding && p[0] == g.holding[l] && p[|p| - 1] == a
  }

  /** A part of a path is a path. */
  lemma SubPath(g: Graph, p: seq<Actor>, i: nat, j: nat)
    requires IsPath(g, p) && i < j <= |p|
    ensures IsPath(g, p[i..j])
  {
    var q := p[i..j];
    forall k | 0 <= k < |q| - 1 ensures Step(g, q, k) {
      assert Step(g, p, i + k);
    }
  }

  lemma Extend(g: Graph, p: seq<Actor>, b: Actor)
    requires IsPath(g, p) && Edge(g, p[|p| - 1], b)
    ensures IsPath(g, p + [b])
  {
    var q := p + [b];
    forall k | 0 <= k < |q| - 1 ensures Step(g, q, k) {
      if k < |p| - 1 { assert Step(g, p, k); }
    }
  }

  /** The same path in a graph that has its edges. */
  lemma Carry(g: Graph, g': Graph, p: seq<Actor>)
    requires IsPath(g, p)
    requires forall i :: 0 <= i < |p| - 1 && Edge(g, p[i], p[i + 1]) ==> Edge(g', p[i], p[i + 1])
    ensures IsPath(g', p)
  {
    forall k | 0 <= k < |p| - 1 ensures Step(g', p, k) {
      assert Step(g, p, k);
    }
  }

  /** Each actor has at most one way on, so two paths from one actor agree as far as both go. */
  lemma {:induction false} OnePath(g: Graph, p: seq<Actor>, q: seq<Actor>, k: nat)
    requires IsPath(g, p) && IsPath(g, q) && p[0] == q[0] && k < |p| && k < |q|
    ensures p[k] == q[k]
    decreases k
  {
    if k > 0 {
      OnePath(g, p, q, k - 1);
      assert Step(g, p, k - 1) && Step(g, q, k - 1);
    }
  }

  /** Without a cycle a path meets no actor twice, so it is no longer than there are waiters. */
  lemma PathLength(g: Graph, p: seq<Actor>)
    requires Acyclic(g) && IsPath(g, p)
    ensures |p| <= |g.waiting| + 1
  {
    Visited(g, p, |p| - 1);
  }

  lemma {:induction false} Visited(g: Graph, p: seq<Actor>, n: nat)
    requires Acyclic(g) && IsPath(g, p) && n < |p|
    ensures n <= |g.waiting|
  {
    var seen := Seen(g, p, n);
    Within(seen, g.waiting.Keys);
    assert |g.waiting.Keys| == |g.waiting|;
  }

  lemma Within(a: set<Actor>, b: set<Actor>)
    requires a <= b
    ensures |a| <= |b|
  {
    assert b == a + (b - a);
  }

  lemma NoReturn(g: Graph, p: seq<Actor>, i: nat, n: nat)
    requires Acyclic(g) && IsPath(g, p) && i < n - 1 < |p|
    ensures p[i] != p[n - 1]
  {
    SubPath(g, p, i, n);
    assert !IsCycle(g, p[i..n]);
  }

  lemma {:induction false} Seen(g: Graph, p: seq<Actor>, n: nat) returns (seen: set<Actor>)
    requires Acyclic(g) && IsPath(g, p) && n < |p|
    ensures |seen| == n && seen <= g.waiting.Keys
    ensures forall x :: x in seen <==> x in p[..n]
    decreases n
  {
    seen := {};
    if n > 0 {
      var s := Seen(g, p, n - 1);
      var x := p[n - 1];
      assert Step(g, p, n - 1);
      forall i | 0 <= i < n - 1 ensures p[i] != x {
        NoReturn(g, p, i, n);
      }
      assert p[..n] == p[..n - 1] + [x];
      seen := s + {x};
    }
  }

  // ----- The operations

  datatype Outcome = Fine | Deadlock | AlreadyWaiting | NotWaiting | StillHeld | NotHolder

  class Detector {
    var g: Graph
    const own: Lockable  // the lockable inside hangman_lock itself, which is not tracked

    constructor (own: Lockable)
      ensures Acyclic(g) && g == Graph(map[], map[]) && this.own == own
    {
      g := Graph(map[], map[]);
      this.own := own;
      new;
      forall p ensures !IsCycle(g, p) {
        if |p| >= 2 { assert !Step(g, p, 0); }
      }
    }

    /** hangman_check: walk from the holder of l along the graph. The walk ends, and it finds
        a exactly when there is a path to it. */
    method Check(l: Lockable, a: Actor) returns (found: bool)
      requires Acyclic(g)
      ensures found <==> exists p :: Reaches(g, l, p, a)
    {
      if l !in g.holding { return false; }
      var cur := g.holding[l];
      ghost var p := [cur];
      while true
        invariant IsPath(g, p) && p[0] == g.holding[l] && p[|p| - 1] == cur && a !in p[..|p| - 1]
        decreases |g.waiting| + 1 - |p|
      {
        if cur == a {
          assert Reaches(g, l, p, a);
          return true;
        }
        PathLength(g, p);
        if cur !in g.waiting || g.waiting[cur] !in g.holding {
          NoneReaches(g, p, a);
          return false;
        }
        var next := g.holding[g.waiting[cur]];
        Extend(g, p, next);
        PathLength(g, p + [next]);
        assert (p + [next])[..|p|] == p && p == p[..|p| - 1] + [cur];
        cur, p := next, p + [next];
      }
    }

    /** hangman_wait reports a deadlock exactly when the new wait would close a cycle. */
    method Wait(a: Actor, l: Lockable) returns (o: Outcome)
      requires Acyclic(g)
      modifies this
      ensures o == (if l == own then Fine
                    else if a in old(g).waiting then AlreadyWaiting
                    else if Acyclic(old(g).(waiting := old(g).waiting[a := l])) then Fine else Deadlock)
      ensures g == if l != own && o == Fine then old(g).(waiting := old(g).waiting[a := l]) else old(g)
      ensures Acyclic(g)
    {
      if l == own { return Fine; }
      if a in g.waiting { return AlreadyWaiting; }
      var found := Check(l, a);
      WaitCloses(g, a, l);
      if found { return Deadlock; }
      g := g.(waiting := g.waiting[a := l]);
      o := Fine;
    }

    method Acquire(a: Actor, l: Lockable) returns (o: Outcome)
      requires Acyclic(g)
      modifies this
      ensures o == (if l == own then Fine
                    else if a !in old(g).waiting || old(g).waiting[a] != l then NotWaiting
                    else if l in old(g).holding then StillHeld else Fine)
      ensures g == if l != own && o == Fine then Graph(old(g).waiting - {a}, old(g).holding[l := a]) else old(g)
      ensures Acyclic(g)
    {
      if l == own { return Fine; }
      if a !in g.waiting || g.waiting[a] != l { return NotWaiting; }
      if l in g.holding { return StillHeld; }
      AcquireKeeps(g, a, l);
      g := Graph(g.waiting - {a}, g.holding[l := a]);
      o := Fine;
    }

    method Release(a: Actor, l: Lockable) returns (o: Outcome)
      requires Acyclic(g)
      modifies this
      ensures o == (if l == own then Fine
                    else if a in old(g).waiting then AlreadyWaiting
                    else if l !in old(g).holding || old(g).holding[l] != a then NotHolder else Fine)
      ensures g == if l != own && o == Fine then old(g).(holding := old(g).holding - {l}) else old(g)
      ensures Acyclic(g)
    {
      if l == own { return Fine; }
      if a in g.waiting { return AlreadyWaiting; }
      if l !in g.holding || g.holding[l] != a { return NotHolder; }
      ReleaseKeeps(g, l);
      g := g.(holding := g.holding - {l});
      o := Fine;
    }
  }

  /** The new edge closes a cycle exactly when its target already reaches its source. */
  lemma WaitCloses(g: Graph, a: Actor, l: Lockable)
    requires Acyclic(g) && a !in g.waiting
    ensures Acyclic(g.(waiting := g.waiting[a := l])) <==>
            !exists p :: Reaches(g, l, p, a)
  {
    var g' := g.(waiting := g.waiting[a := l]);
    if p :| Reaches(g, l, p, a) {
      Carry(g, g', p);
      Extend(g', p, p[0]);
      assert IsCycle(g', p + [p[0]]);
    }
    if p :| IsCycle(g', p) {
      ThroughNew(g, a, l, p);
    }
  }

  /** A cycle of the new graph passes through a, and the way round from there is old. */
  lemma ThroughNew(g: Graph, a: Actor, l: Lockable, p: seq<Actor>)
    requires Acyclic(g) && a !in g.waiting && IsCycle(g.(waiting := g.waiting[a := l]), p)
    ensures exists q :: Reaches(g, l, q, a)
  {
    var g' := g.(waiting := g.waiting[a := l]);
    var n := |p| - 1;
    if k :| 0 <= k < n && p[k] == a {
      Turn(g', p, k);
      var r := WayRound(g, a, l, p[k..n] + p[..k + 1]);
    } else {
      OldEdges(g, g', p, a);
      NotClosed(g, p);
    }
  }

  lemma WayRound(g: Graph, a: Actor, l: Lockable, q: seq<Actor>) returns (r: seq<Actor>)
    requires a !in g.waiting && IsCycle(g.(waiting := g.waiting[a := l]), q) && q[0] == a
    ensures Reaches(g, l, r, a)
  {
    var g' := g.(waiting := g.waiting[a := l]);
    var j := FirstReturn(q, a);
    r := q[1..j + 1];
    SubPath(g', q, 1, j + 1);
    assert r[..|r| - 1] == q[1..j];
    OldEdges(g, g', r, a);
    assert Step(g', q, 0);
  }

  lemma OldEdges(g: Graph, g': Graph, p: seq<Actor>, a: Actor)
    requires IsPath(g', p) && g'.holding == g.holding && a !in p[..|p| - 1]
    requires forall x :: x != a ==>
               && (x in g'.waiting <==> x in g.waiting)
               && (x in g.waiting && x in g'.waiting ==> g'.waiting[x] == g.waiting[x])
    ensures IsPath(g, p)
  {
    forall i | 0 <= i < |p| - 1 ensures Step(g, p, i) {
      assert Step(g', p, i);
      assert p[..|p| - 1][i] == p[i];
    }
  }

  lemma Turn(g: Graph, p: seq<Actor>, k: nat)
    requires IsCycle(g, p) && k < |p| - 1
    ensures IsCycle(g, p[k..|p| - 1] + p[..k + 1])
  {
    var n := |p| - 1;
    var q := p[k..n] + p[..k + 1];
    forall i | 0 <= i < |q| - 1 ensures Step(g, q, i) {
      assert Step(g, p, if i < n - k then k + i else i - (n - k));
    }
  }

  lemma {:induction false} FirstReturn(q: seq<Actor>, a: Actor) returns (j: nat)
    requires |q| >= 2 && q[|q| - 1] == a
    ensures 1 <= j < |q| && q[j] == a && a !in q[1..j]
  {
    j := 1;
    while q[j] != a
      invariant 1 <= j < |q| && a !in q[1..j]
      decreases |q| - j
    {
      assert q[1..j + 1] == q[1..j] + [q[j]];
      j := j + 1;
    }
  }

  /** Whoever has just acquired a lock waits for nothing, so no cycle passes through it. */
  lemma AcquireKeeps(g: Graph, a: Actor, l: Lockable)
    requires Acyclic(g) && a in g.waiting && g.waiting[a] == l && l !in g.holding
    ensures Acyclic(Graph(g.waiting - {a}, g.holding[l := a]))
  {
    var g' := Graph(g.waiting - {a}, g.holding[l := a]);
    forall p ensures !IsCycle(g', p) {
      if IsCycle(g', p) {
        forall i | 0 <= i < |p| - 1 ensures Edge(g, p[i], p[i + 1]) {
          AvoidsEnd(g', p, a, i);
        }
        Carry(g', g, p);
        NotClosed(g, p);
      }
    }
  }

  lemma AvoidsEnd(g: Graph, p: seq<Actor>, a: Actor, i: nat)
    requires IsCycle(g, p) && a !in g.waiting && i < |p| - 1
    ensures Edge(g, p[i], p[i + 1]) && p[i] != a && p[i + 1] != a
  {
    assert Step(g, p, i);
    if i + 1 < |p| - 1 { assert Step(g, p, i + 1); } else { assert Step(g, p, 0); }
  }

  lemma ReleaseKeeps(g: Graph, l: Lockable)
    requires Acyclic(g)
    ensures Acyclic(g.(holding := g.holding - {l}))
  {
    var g' := g.(holding := g.holding - {l});
    forall p ensures !IsCycle(g', p) {
      if IsCycle(g', p) {
        Carry(g', g, p);
        NotClosed(g, p);
      }
    }
  }

  /** Actor a waits for something that is held. */
  predicate Goes(g: Graph, a: Actor)
  {
    a in g.waiting && g.waiting[a] in g.holding
  }

  lemma GoesOn(g: Graph, p: seq<Actor>, k: nat)
    requires IsPath(g, p) && k + 1 < |p|
    ensures Goes(g, p[k])
  {
    assert Step(g, p, k);
  }

  /** A path that cannot go on and does not meet a shows that a is out of reach. */
  lemma NoneReaches(g: Graph, p: seq<Actor>, a: Actor)
    requires IsPath(g, p) && a !in p && !Goes(g, p[|p| - 1])
    ensures forall q :: IsPath(g, q) && q[0] == p[0] ==> q[|q| - 1] != a
  {
    forall q | IsPath(g, q) && q[0] == p[0] ensures q[|q| - 1] != a {
      if |q| > |p| {
        OnePath(g, p, q, |p| - 1);
        GoesOn(g, q, |p| - 1);
      } else {
        OnePath(g, p, q, |q| - 1);
      }
    }
  }
}
