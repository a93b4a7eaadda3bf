/** thread_consider_migration on the linked run queues, from the point where the share is
    known, when no one else is at work. */
module Migration {
  import opened ThreadList

  /** What the list of victims and the queues of the processors hold. */
  datatype Stock = Stock(victims: seq<Node>, queues: seq<seq<Node>>)

  // ----- The lists

  /** A list in order that holds these threads and has its nodes among those. */
  ghost predicate Within(l: List, t: seq<Node>, all: set<Node>)
    reads l, all
  {
    l.repr <= all && l.Valid() && l.threads == t
  }

  ghost predicate Separate(v: List, cpus: seq<List>, s: Stock, all: set<Node>)
    reads v, cpus, all
  {
    && Within(v, s.victims, all) && |s.queues| == |cpus|
    && (forall i :: 0 <= i < |cpus| ==> Within(cpus[i], s.queues[i], all) && cpus[i] != v && cpus[i].repr !! v.repr)
    && (forall i, j :: 0 <= i < j < |cpus| ==> cpus[i] != cpus[j] && cpus[i].repr !! cpus[j].repr)
  }

  /** Separate behind a few recursive calls, so that methods pass it on without looking
      inside. */
  ghost predicate Folded(v: List, cpus: seq<List>, s: Stock, all: set<Node>, depth: nat)
    reads v, cpus, all
    decreases s, depth
  {
    if depth == 0 then Separate(v, cpus, s, all) else Folded(v, cpus, s, all, depth - 1)
  }

  lemma {:induction false} Unfold(v: List, cpus: seq<List>, s: Stock, all: set<Node>, depth: nat)
    ensures Folded(v, cpus, s, all, depth) <==> Separate(v, cpus, s, all)
    decreases depth
  {
    if depth > 0 { Unfold(v, cpus, s, all, depth - 1); }
  }

  /** All lists are in order, no two share a node, and this is what they hold. */
  ghost predicate Hold(v: List, cpus: seq<List>, s: Stock, all: set<Node>)
    reads v, cpus, all
  {
    Folded(v, cpus, s, all, 3)
  }

  lemma Held(v: List, cpus: seq<List>, s: Stock, all: set<Node>)
    requires Hold(v, cpus, s, all)
    ensures |s.queues| == |cpus| && Unlike(s.victims)
  {
    Unfold(v, cpus, s, all, 3);
    ThreadsUnlike(v);
  }

  method Length(v: List, cpus: seq<List>, i: nat, ghost s: Stock, ghost all: set<Node>) returns (n: nat)
    requires Hold(v, cpus, s, all) && i < |cpus| == |s.queues|
    ensures n == |s.queues[i]|
  {
    Unfold(v, cpus, s, all, 3);
    n := cpus[i].count;
  }

  method NoneLeft(v: List, cpus: seq<List>, ghost s: Stock, ghost all: set<Node>) returns (empty: bool)
    requires Hold(v, cpus, s, all)
    ensures empty <==> s.victims == []
  {
    Unfold(v, cpus, s, all, 3);
    empty := v.IsEmpty();
  }

  /** The last n threads of one queue become the victims. */
  method TakeFrom(v: List, cpus: seq<List>, me: nat, n: nat, ghost s: Stock, ghost all: set<Node>)
    returns (ghost s': Stock)
    requires Hold(v, cpus, s, all) && me < |cpus| == |s.queues| && n <= |s.queues[me]| && s.victims == []
    modifies v, cpus, all
    ensures var m := |s.queues[me]| - n;
            s' == Stock(s.queues[me][m..], s.queues[me := s.queues[me][..m]])
    ensures Hold(v, cpus, s', all)
  {
    Unfold(v, cpus, s, all, 3);
    var q := cpus[me];
    assert Apart(q, v);
    TakeLast(q, v, n);
    var m := |s.queues[me]| - n;
    s' := Stock(s.queues[me][m..], s.queues[me := s.queues[me][..m]]);
    assert s'.victims == v.threads;
    Unfold(v, cpus, s', all, 3);
  }

  /** The victims go to the end of one queue. */
  method PutBack(v: List, cpus: seq<List>, me: nat, ghost s: Stock, ghost all: set<Node>) returns (ghost s': Stock)
    requires Hold(v, cpus, s, all) && me < |cpus| == |s.queues|
    modifies v, cpus, all
    ensures s' == Stock([], s.queues[me := s.queues[me] + s.victims]) && Hold(v, cpus, s', all)
  {
    Unfold(v, cpus, s, all, 3);
    var q := cpus[me];
    assert Apart(v, q);
    Drain(v, q);
    s' := Stock([], s.queues[me := s.queues[me] + s.victims]);
    Unfold(v, cpus, s', all, 3);
  }

  /** k victims were looked at for queue i, and the others were left alone; folded like Hold. */
  ghost predicate GivenTo(s: Stock, s': Stock, i: nat, cur: Node, share: nat, k: nat)
  {
    GivenFolded(s, s', i, cur, share, k, 3)
  }

  ghost predicate GivenFolded(s: Stock, s': Stock, i: nat, cur: Node, share: nat, k: nat, depth: nat)
    decreases s, depth
  {
    if depth == 0 then IsGiven(s, s', i, cur, share, k) else GivenFolded(s, s', i, cur, share, k, depth - 1)
  }

  lemma {:induction false} GivenIs(s: Stock, s': Stock, i: nat, cur: Node, share: nat, k: nat, depth: nat)
    ensures GivenFolded(s, s', i, cur, share, k, depth) <==> IsGiven(s, s', i, cur, share, k)
    decreases depth
  {
    if depth > 0 { GivenIs(s, s', i, cur, share, k, depth - 1); }
  }

  ghost predicate IsGiven(s: Stock, s': Stock, i: nat, cur: Node, share: nat, k: nat)
  {
    && i < |s.queues| == |s'.queues| && k <= |s.victims|
    && s'.queues == s.queues[i := s'.queues[i]]
    && Handed(s.victims, s.queues[i], cur, k, s'.victims, s'.queues[i])
    && (|s'.queues[i]| <= share || |s'.queues[i]| == |s.queues[i]|)
  }

  method HandTo(v: List, cpus: seq<List>, i: nat, cur: Node, share: nat, toSend: nat, ghost s: Stock,
                ghost all: set<Node>) returns (left: nat, ghost k: nat, ghost s': Stock)
    requires Hold(v, cpus, s, all) && i < |cpus| == |s.queues| && toSend <= |s.victims|
    modifies v, cpus, all
    ensures Hold(v, cpus, s', all) && GivenTo(s, s', i, cur, share, k) && |s'.queues| == |s.queues|
    ensures k <= toSend && left == toSend - k && (left == 0 || |s'.queues[i]| >= share)
  {
    Unfold(v, cpus, s, all, 3);
    var q := cpus[i];
    assert Apart(v, q);
    left, k := HandOver(v, q, cur, share, toSend);
    s' := Stock(v.threads, s.queues[i := q.threads]);
    Unfold(v, cpus, s', all, 3);
    GivenIs(s, s', i, cur, share, k, 3);
  }

  // ----- Conservation

  /** How often x is on these lists. */
  ghost function Total(ts: seq<seq<Node>>, x: Node): nat
  {
    if ts == [] then 0 else Total(ts[1..], x) + multiset(ts[0])[x]
  }

  lemma {:induction false} TotalUpdate(ts: seq<seq<Node>>, i: nat, t: seq<Node>, x: Node)
    requires i < |ts|
    ensures Total(ts[i := t], x) + multiset(ts[i])[x] == Total(ts, x) + multiset(t)[x]
    decreases i
  {
    if i == 0 {
      assert ts[0 := t][1..] == ts[1..];
    } else {
      TotalUpdate(ts[1..], i - 1, t, x);
      assert ts[i := t][1..] == ts[1..][i - 1 := t] && ts[1..][i - 1] == ts[i];
    }
  }

  /** How often x is among the victims and on the queues. */
  ghost function Everywhere(s: Stock, x: Node): nat
  {
    Total(s.queues, x) + multiset(s.victims)[x]
  }

  ghost predicate Conserved(s: Stock, s': Stock, all: set<Node>)
  {
    forall x :: x in all ==> Everywhere(s', x) == Everywhere(s, x)
  }

  lemma ConservedGiven(s: Stock, s': Stock, i: nat, cur: Node, share: nat, k: nat, all: set<Node>)
    requires GivenTo(s, s', i, cur, share, k) && Unlike(s.victims)
    ensures Conserved(s, s', all)
  {
    GivenIs(s, s', i, cur, share, k, 3);
    forall x | x in all ensures Everywhere(s', x) == Everywhere(s, x) {
      HandedCounts(s.victims, s.queues[i], cur, k, s'.victims, s'.queues[i], x);
      TotalUpdate(s.queues, i, s'.queues[i], x);
    }
  }

  lemma ConservedMoved(s: Stock, s': Stock, i: nat, all: set<Node>)
    requires i < |s.queues| && |s'.queues| == |s.queues| && s'.queues == s.queues[i := s'.queues[i]]
    requires s.queues[i] + s.victims == s'.queues[i] + s'.victims
    ensures Conserved(s, s', all)
  {
    forall x | x in all ensures Everywhere(s', x) == Everywhere(s, x) {
      TotalUpdate(s.queues, i, s'.queues[i], x);
      assert multiset(s.queues[i] + s.victims)[x] == multiset(s'.queues[i] + s'.victims)[x];
    }
  }

  // ----- The loop over the processors

  /** The victims that stay behind when k of them have been looked at. */
  function Left(was: seq<Node>, k: nat, cur: Node): seq<Node>
    requires k <= |was|
  {
    was[k..] + Only(was[..k], cur)
  }

  lemma LeftMore(was: seq<Node>, m: nat, k: nat, cur: Node)
    requires Unlike(was) && m + k <= |was|
    ensures k <= |Left(was, m, cur)| && Left(Left(was, m, cur), k, cur) == Left(was, m + k, cur)
  {
    var v := Left(was, m, cur);
    assert v[..k] == was[m..m + k] && v[k..] == was[m + k..] + Only(was[..m], cur);
    assert was[..m + k] == was[..m] + was[m..m + k];
    if cur in was[..m] {
      assert cur !in was[m..m + k];
    }
  }

  lemma LeftHas(was: seq<Node>, k: nat, cur: Node)
    requires k <= |was|
    ensures (cur in Left(was, k, cur) <==> cur in was) && (k == |was| ==> |Left(was, k, cur)| <= 1)
  {
    assert was == was[..k] + was[k..];
  }

  lemma LeftUnlike(was: seq<Node>, m: nat, cur: Node)
    requires Unlike(was) && m <= |was|
    ensures Unlike(Left(was, m, cur))
  {}

  /** A queue that has been given threads: they are behind those it had, they do not take it
      beyond its share, and the current thread is not one of them. */
  ghost predicate Served(had: seq<Node>, q: seq<Node>, cur: Node, share: nat)
  {
    had <= q && (|q| <= share || q == had) && (cur in q <==> cur in had)
  }

  lemma ServedOne(was: seq<Node>, had: seq<Node>, cur: Node, k: nat, v: seq<Node>, q: seq<Node>, share: nat)
    requires k <= |was| && Unlike(was) && Handed(was, had, cur, k, v, q) && (|q| <= share || |q| == |had|)
    ensures Served(had, q, cur, share)
  {
    HandedCounts(was, had, cur, k, v, q, cur);
    assert cur in q <==> multiset(q)[cur] > 0;
    assert cur in had <==> multiset(had)[cur] > 0;
  }

  /** Where the loop starts, and for whom it runs. */
  datatype Plan = Plan(start: Stock, me: nat, cur: Node, share: nat, all: set<Node>)

  /** Queue j when the loop has been at the processors before i; `more` says whether there are
      still victims to send. */
  ghost predicate QueueAt(p: Plan, i: nat, more: bool, j: nat, q: seq<Node>)
    requires j < |p.start.queues|
  {
    if j < i && j != p.me then Served(p.start.queues[j], q, p.cur, p.share) && (more ==> |q| >= p.share)
    else q == p.start.queues[j]
  }

  ghost predicate QueuesAt(p: Plan, i: nat, more: bool, ts: seq<seq<Node>>)
  {
    |ts| == |p.start.queues| && forall j :: 0 <= j < |ts| ==> QueueAt(p, i, more, j, ts[j])
  }

  /** How far the loop has come: it has looked at k victims. Folded like Hold. */
  ghost predicate Around(p: Plan, i: nat, k: nat, s: Stock)
  {
    AroundFolded(p, i, k, s, 3)
  }

  ghost predicate AroundFolded(p: Plan, i: nat, k: nat, s: Stock, depth: nat)
    decreases s, depth
  {
    if depth == 0 then IsAround(p, i, k, s) else AroundFolded(p, i, k, s, depth - 1)
  }

  lemma {:induction false} AroundIs(p: Plan, i: nat, k: nat, s: Stock, depth: nat)
    ensures AroundFolded(p, i, k, s, depth) <==> IsAround(p, i, k, s)
    decreases depth
  {
    if depth > 0 { AroundIs(p, i, k, s, depth - 1); }
  }

  ghost predicate IsAround(p: Plan, i: nat, k: nat, s: Stock)
  {
    && k <= |p.start.victims| && s.victims == Left(p.start.victims, k, p.cur)
    && QueuesAt(p, i, k < |p.start.victims|, s.queues) && Conserved(p.start, s, p.all)
  }

  lemma QueuesGiven(p: Plan, i: nat, more: bool, s: Stock, s': Stock, k: nat)
    requires QueuesAt(p, i, true, s.queues) && i != p.me && Unlike(s.victims)
    requires GivenTo(s, s', i, p.cur, p.share, k) && i < |s'.queues| && (more ==> |s'.queues[i]| >= p.share)
    ensures QueuesAt(p, i + 1, more, s'.queues)
  {
    GivenIs(s, s', i, p.cur, p.share, k, 3);
    assert QueueAt(p, i, true, i, s.queues[i]);
    ServedOne(s.victims, s.queues[i], p.cur, k, s'.victims, s'.queues[i], p.share);
    forall j | 0 <= j < |s'.queues| ensures QueueAt(p, i + 1, more, j, s'.queues[j]) {
      if j != i { assert QueueAt(p, i, true, j, s.queues[j]); }
    }
  }

  lemma VictimsGiven(was: seq<Node>, k: nat, cur: Node, share: nat, s: Stock, s': Stock, i: nat, more: nat)
    requires Unlike(was) && k + more <= |was| && s.victims == Left(was, k, cur) && GivenTo(s, s', i, cur, share, more)
    ensures s'.victims == Left(was, k + more, cur)
  {
    GivenIs(s, s', i, cur, share, more, 3);
    LeftMore(was, k, more, cur);
  }

  lemma ConservedTwice(s0: Stock, s1: Stock, s2: Stock, all: set<Node>)
    requires Conserved(s0, s1, all) && Conserved(s1, s2, all)
    ensures Conserved(s0, s2, all)
  {}

  lemma AroundNext(p: Plan, i: nat, k: nat, s: Stock, more: nat, s': Stock)
    requires Around(p, i, k, s) && i != p.me && Unlike(p.start.victims) && k < |p.start.victims|
    requires GivenTo(s, s', i, p.cur, p.share, more) && k + more <= |p.start.victims| && i < |s'.queues|
    requires k + more == |p.start.victims| || |s'.queues[i]| >= p.share
    ensures Around(p, i + 1, k + more, s')
  {
    AroundIs(p, i, k, s, 3);
    LeftUnlike(p.start.victims, k, p.cur);
    QueuesGiven(p, i, k + more < |p.start.victims|, s, s', more);
    VictimsGiven(p.start.victims, k, p.cur, p.share, s, s', i, more);
    ConservedGiven(s, s', i, p.cur, p.share, more, p.all);
    ConservedTwice(p.start, s, s', p.all);
    AroundIs(p, i + 1, k + more, s', 3);
  }

  lemma AroundStart(p: Plan)
    ensures Around(p, 0, 0, p.start)
  {
    AroundIs(p, 0, 0, p.start, 3);
  }

  lemma AroundLeft(p: Plan, i: nat, k: nat, s: Stock)
    requires Around(p, i, k, s)
    ensures k <= |p.start.victims| && |p.start.victims| - k <= |s.victims| && |s.queues| == |p.start.queues|
  {
    AroundIs(p, i, k, s, 3);
  }

  lemma AroundMe(p: Plan, i: nat, k: nat, s: Stock)
    requires Around(p, i, k, s) && i == p.me
    ensures Around(p, i + 1, k, s)
  {
    AroundIs(p, i, k, s, 3);
    AroundIs(p, i + 1, k, s, 3);
    var more := k < |p.start.victims|;
    forall j | 0 <= j < |s.queues| ensures QueueAt(p, i + 1, more, j, s.queues[j]) {
      assert QueueAt(p, i, more, j, s.queues[j]);
    }
  }

  /** Once all victims have been looked at, the other processors stay as they are. */
  lemma AroundRest(p: Plan, i: nat, s: Stock)
    requires Around(p, i, |p.start.victims|, s) && i <= |s.queues|
    ensures Around(p, |s.queues|, |p.start.victims|, s)
  {
    AroundIs(p, i, |p.start.victims|, s, 3);
    AroundIs(p, |s.queues|, |p.start.victims|, s, 3);
    forall j | 0 <= j < |s.queues| ensures QueueAt(p, |s.queues|, false, j, s.queues[j]) {
      assert QueueAt(p, i, false, j, s.queues[j]);
    }
  }

  method HandAround(v: List, cpus: seq<List>, me: nat, cur: Node, share: nat, n: nat, ghost s: Stock,
                    ghost all: set<Node>) returns (ghost k: nat, ghost s': Stock)
    requires Hold(v, cpus, s, all) && me < |cpus| == |s.queues| && n == |s.victims|
    modifies v, cpus, all
    ensures Hold(v, cpus, s', all) && Around(Plan(s, me, cur, share, all), |cpus|, k, s')
  {
    ghost var p := Plan(s, me, cur, share, all);
    Held(v, cpus, s, all);
    AroundStart(p);
    var toSend, i := n, 0;
    k, s' := 0, s;
    while i < |cpus| && toSend > 0
      invariant i <= |cpus| == |s'.queues| && Hold(v, cpus, s', all) && Around(p, i, k, s') && toSend == n - k
    {
      if i == me {
        AroundMe(p, i, k, s');
      } else {
        ghost var s0, more := s', 0;
        AroundLeft(p, i, k, s0);
        toSend, more, s' := HandTo(v, cpus, i, cur, share, toSend, s0, all);
        AroundNext(p, i, k, s0, more, s');
        k := k + more;
      }
      i := i + 1;
    }
    if toSend == 0 { AroundRest(p, i, s'); }
  }

  // ----- The whole migration

  /** What a migration of processor me does to the queues: with more than its share, it keeps
      that many threads from the front, and looks at k of the others. */
  ghost predicate Migrated(ts0: seq<seq<Node>>, ts: seq<seq<Node>>, me: nat, cur: Node, share: nat, k: nat)
    requires me < |ts0|
  {
    var own := ts0[me];
    if |own| < share then ts == ts0
    else
      && |ts| == |ts0| && k <= |own| - share && ts[me] == own[..share] + Left(own[share..], k, cur)
      && (forall j :: 0 <= j < |ts| && j != me ==> Served(ts0[j], ts[j], cur, share))
      && (k < |own| - share ==> forall j :: 0 <= j < |ts| && j != me ==> |ts[j]| >= share)
  }

  lemma MigratedWhen(s0: Stock, s1: Stock, s2: Stock, s3: Stock, me: nat, cur: Node, share: nat, k: nat, all: set<Node>)
    requires me < |s0.queues| && share <= |s0.queues[me]| && s0.victims == []
    requires s1 == Stock(s0.queues[me][share..], s0.queues[me := s0.queues[me][..share]])
    requires Around(Plan(s1, me, cur, share, all), |s0.queues|, k, s2)
    requires |s2.queues| == |s0.queues| && s3 == Stock([], s2.queues[me := s2.queues[me] + s2.victims])
    ensures Migrated(s0.queues, s3.queues, me, cur, share, k)
  {
    var p, more := Plan(s1, me, cur, share, all), k < |s1.victims|;
    AroundIs(p, |s0.queues|, k, s2, 3);
    assert QueueAt(p, |s0.queues|, more, me, s2.queues[me]);
    forall j | 0 <= j < |s3.queues| && j != me
      ensures Served(s0.queues[j], s3.queues[j], cur, share) && (more ==> |s3.queues[j]| >= share)
    {
      assert QueueAt(p, |s0.queues|, more, j, s2.queues[j]);
    }
  }

  lemma MigrationConserves(s0: Stock, s1: Stock, s2: Stock, s3: Stock, me: nat, cur: Node, share: nat, k: nat,
                           all: set<Node>)
    requires me < |s0.queues| && share <= |s0.queues[me]| && s0.victims == []
    requires s1 == Stock(s0.queues[me][share..], s0.queues[me := s0.queues[me][..share]])
    requires |s2.queues| == |s0.queues| && Around(Plan(s1, me, cur, share, all), |s0.queues|, k, s2)
    requires s3 == Stock([], s2.queues[me := s2.queues[me] + s2.victims])
    ensures Conserved(s0, s3, all)
  {
    AroundIs(Plan(s1, me, cur, share, all), |s0.queues|, k, s2, 3);
    assert s0.queues[me] + s0.victims == s1.queues[me] + s1.victims;
    ConservedMoved(s0, s1, me, all);
    assert s2.queues[me] + s2.victims == s3.queues[me] + s3.victims;
    ConservedMoved(s2, s3, me, all);
    ConservedTwice(s0, s1, s2, all);
    ConservedTwice(s0, s2, s3, all);
  }

  /** What each queue holds after the migration, and that no thread is lost or doubled. */
  method Migrate(v: List, cpus: seq<List>, me: nat, cur: Node, share: nat, ghost s: Stock, ghost all: set<Node>)
    returns (ghost k: nat, ghost s': Stock)
    requires Hold(v, cpus, s, all) && me < |cpus| == |s.queues| && s.victims == []
    modifies v, cpus, all
    ensures Hold(v, cpus, s', all) && s'.victims == []
    ensures Migrated(s.queues, s'.queues, me, cur, share, k) && Conserved(s, s', all)
  {
    k, s' := 0, s;
    var count := Length(v, cpus, me, s, all);
    if count < share { return; }
    ghost var s1 := TakeFrom(v, cpus, me, count - share, s, all);
    ghost var s2;
    k, s2 := HandAround(v, cpus, me, cur, share, count - share, s1, all);
    AroundLeft(Plan(s1, me, cur, share, all), |cpus|, k, s2);
    var empty := NoneLeft(v, cpus, s2, all);
    if empty {
      s' := s2;
      assert s2.queues[me] + s2.victims == s2.queues[me] && s2.queues[me := s2.queues[me]] == s2.queues;
    } else {
      s' := PutBack(v, cpus, me, s2, all);
    }
    MigratedWhen(s, s1, s2, s', me, cur, share, k, all);
    MigrationConserves(s, s1, s2, s', me, cur, share, k, all);
  }

  /** The current thread stays where it was, and either the processor is left with its share,
      give or take that thread, or all others have theirs. */
  lemma Balanced(ts0: seq<seq<Node>>, ts: seq<seq<Node>>, me: nat, cur: Node, share: nat, k: nat)
    requires me < |ts0| && Migrated(ts0, ts, me, cur, share, k)
    ensures |ts| == |ts0| && (cur in ts[me] <==> cur in ts0[me])
    ensures forall j :: 0 <= j < |ts| && j != me ==> (cur in ts[j] <==> cur in ts0[j])
    ensures |ts[me]| <= share + 1 || forall j :: 0 <= j < |ts| && j != me ==> |ts[j]| >= share
  {
    var own := ts0[me];
    if |own| >= share {
      var was := own[share..];
      assert own == own[..share] + was;
      LeftHas(was, k, cur);
    }
  }
}
