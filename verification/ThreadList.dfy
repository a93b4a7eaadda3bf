/** The thread lists: doubly linked through a node inside each thread, between two bookend
    nodes that belong to the list. */
module ThreadList {

  /** A threadlistnode. A thread's node stands for the thread. */
  class Node {
    var prev: Node?
    var next: Node?

    constructor ()
      ensures prev == null && next == null
    {
      prev, next := null, null;
    }
  }

  /** The nodes are linked in this order, in both directions, and to nothing else. */
  ghost predicate Chained(nodes: seq<Node>)
    reads set i | 0 <= i < |nodes| :: nodes[i]
  {
    && |nodes| >= 2
    && nodes[0].prev == null && nodes[|nodes| - 1].next == null
    && (forall i {:trigger nodes[i].next} :: 0 <= i < |nodes| - 1 ==> nodes[i].next == nodes[i + 1])
    && (forall i {:trigger nodes[i].prev} :: 0 < i < |nodes| ==> nodes[i].prev == nodes[i - 1])
    && Unlike(nodes)
  }

  /** No node is there twice. */
  ghost predicate Unlike(nodes: seq<Node>)
  {
    forall i, j :: 0 <= i < j < |nodes| ==> nodes[i] != nodes[j]
  }

  function Inserted(nodes: seq<Node>, k: nat, n: Node): seq<Node>
    requires k <= |nodes|
  {
    nodes[..k] + [n] + nodes[k..]
  }

  function Without(nodes: seq<Node>, k: nat): seq<Node>
    requires k < |nodes|
  {
    nodes[..k] + nodes[k + 1..]
  }

  lemma Between(nodes: seq<Node>, k: nat, n: Node)
    requires 0 < k < |nodes|
    ensures var inner := nodes[1..|nodes| - 1];
            Inserted(nodes, k, n)[1..|nodes|] == inner[..k - 1] + [n] + inner[k - 1..]
  {}

  /** The inner nodes when node k is gone; it is none of them. */
  lemma Outside(nodes: seq<Node>, k: nat)
    requires 0 < k < |nodes| - 1 && Unlike(nodes)
    ensures var inner := nodes[1..|nodes| - 1];
            Without(nodes, k)[1..|nodes| - 2] == inner[..k - 1] + inner[k..]
    ensures nodes[k] !in Without(nodes, k)
  {}

  /** A node with no neighbours is not on a list. */
  lemma NotOn(nodes: seq<Node>, n: Node)
    requires Chained(nodes) && n.prev == null && n.next == null
    ensures n !in nodes
  {
    forall i | 0 <= i < |nodes| ensures nodes[i] != n {
      assert nodes[i].prev != null || nodes[i].next != null;
    }
  }

  /** The four pointer writes shared by threadlist_insertafternode and
      threadlist_insertbeforenode: put n between nodes k - 1 and k. */
  method Link(p: Node, n: Node, q: Node, ghost nodes: seq<Node>, ghost k: nat)
    requires Chained(nodes) && 0 < k < |nodes| && p == nodes[k - 1] && q == nodes[k]
    requires n.prev == null && n.next == null
    modifies p, n, q
    ensures Chained(Inserted(nodes, k, n))
  {
    NotOn(nodes, n);
    n.prev := p;
    n.next := q;
    p.next := n;
    q.prev := n;
  }

  /** threadlist_removenode */
  method Unlink(n: Node, ghost nodes: seq<Node>, ghost k: nat)
    requires Chained(nodes) && 0 < k < |nodes| - 1 && n == nodes[k]
    modifies nodes[k - 1], n, nodes[k + 1]
    ensures Chained(Without(nodes, k)) && n.prev == null && n.next == null
  {
    assert n.prev == nodes[k - 1] && n.next == nodes[k + 1];
    n.prev.next := n.next;
    n.next.prev := n.prev;
    n.prev := null;
    n.next := null;
  }

  class List {
    const head: Node
    const tail: Node
    var count: int
    ghost var threads: seq<Node>  // the threads on the list, first to last
    ghost var nodes: seq<Node>    // with the bookends
    ghost var repr: set<Node>

    ghost predicate Valid()
      reads this, repr
    {
      && (forall i :: 0 <= i < |nodes| ==> nodes[i] in repr)
      && Chained(nodes) && nodes[0] == head && nodes[|nodes| - 1] == tail
      && threads == nodes[1..|nodes| - 1] && count == |threads|
    }

    constructor ()
      ensures Valid() && threads == [] && fresh(repr)
    {
      var h := new Node();
      var t := new Node();
      h.next := t;
      t.prev := h;
      head, tail, count, threads, nodes, repr := h, t, 0, [], [h, t], {h, t};
    }

    method IsEmpty() returns (r: bool)
      requires Valid()
      ensures r <==> threads == []
    {
      r := count == 0;
    }

    method AddHead(n: Node)
      requires Valid() && n.prev == null && n.next == null
      modifies this, head, n, nodes[1]
      ensures Valid() && threads == [n] + old(threads) && repr == old(repr) + {n}
    {
      Link(head, n, head.next, nodes, 1);
      nodes, count, repr := Inserted(nodes, 1, n), count + 1, repr + {n};
      threads := nodes[1..|nodes| - 1];
    }

    method AddTail(n: Node)
      requires Valid() && n.prev == null && n.next == null
      modifies this, tail, n, nodes[|nodes| - 2]
      ensures Valid() && threads == old(threads) + [n] && repr == old(repr) + {n}
    {
      Link(tail.prev, n, tail, nodes, |nodes| - 1);
      nodes, count, repr := Inserted(nodes, |nodes| - 1, n), count + 1, repr + {n};
      threads := nodes[1..|nodes| - 1];
    }

    method Remove(n: Node, ghost k: nat)
      requires Valid() && k < |threads| && n == threads[k]
      modifies this, nodes[k], n, nodes[k + 2]
      ensures Valid() && threads == old(threads)[..k] + old(threads)[k + 1..]
      ensures n.prev == null && n.next == null && repr == old(repr) - {n}
    {
      Outside(nodes, k + 1);
      Unlink(n, nodes, k + 1);
      nodes, count, repr := Without(nodes, k + 1), count - 1, repr - {n};
      threads := nodes[1..|nodes| - 1];
    }

    /** The first thread, or null if there is none. */
    method RemHead() returns (n: Node?)
      requires Valid()
      modifies this, repr
      ensures Valid() && (n == null <==> old(threads) == [])
      ensures n == null ==> threads == [] && repr == old(repr)
      ensures n != null ==> old(threads) == [n] + threads && n.prev == null && n.next == null
      ensures n != null ==> n in old(repr) && repr == old(repr) - {n}
    {
      n := head.next;
      assert n == nodes[1] && (|nodes| > 2 ==> n.next == nodes[2]);
      if n.next == null { return null; }
      Remove(n, 0);
    }

    method RemTail() returns (n: Node?)
      requires Valid()
      modifies this, repr
      ensures Valid() && (n == null <==> old(threads) == [])
      ensures n == null ==> threads == [] && repr == old(repr)
      ensures n != null ==> old(threads) == threads + [n] && n.prev == null && n.next == null
      ensures n != null ==> n in old(repr) && repr == old(repr) - {n}
    {
      n := tail.prev;
      assert n == nodes[|nodes| - 2] && (|nodes| > 2 ==> n.prev == nodes[|nodes| - 3]);
      if n.prev == null { return null; }
      Remove(n, |threads| - 1);
    }

    /** Thread n goes right behind the thread at position k. */
    method InsertAfter(on: Node, n: Node, ghost k: nat)
      requires Valid() && k < |threads| && on == threads[k] && n.prev == null && n.next == null
      modifies this, on, n, nodes[k + 2]
      ensures Valid() && threads == old(threads)[..k + 1] + [n] + old(threads)[k + 1..]
      ensures repr == old(repr) + {n}
    {
      Between(nodes, k + 2, n);
      Link(on, n, on.next, nodes, k + 2);
      nodes, count, repr := Inserted(nodes, k + 2, n), count + 1, repr + {n};
      threads := nodes[1..|nodes| - 1];
    }

    method InsertBefore(n: Node, on: Node, ghost k: nat)
      requires Valid() && k < |threads| && on == threads[k] && n.prev == null && n.next == null
      modifies this, on, n, nodes[k]
      ensures Valid() && threads == old(threads)[..k] + [n] + old(threads)[k..]
      ensures repr == old(repr) + {n}
    {
      Between(nodes, k + 1, n);
      Link(on.prev, n, on, nodes, k + 1);
      nodes, count, repr := Inserted(nodes, k + 1, n), count + 1, repr + {n};
      threads := nodes[1..|nodes| - 1];
    }
  }

  // ----- Threads going from list to list, as in thread_consider_migration

  /** Two lists in order that share no node. */
  ghost predicate Apart(q: List, v: List)
    reads q, v, q.repr, v.repr
  {
    q != v && q.repr !! v.repr && q.Valid() && v.Valid()
  }

  /** One turn of the loop that takes victims. */
  method TailToHead(q: List, v: List)
    requires Apart(q, v) && q.threads != []
    modifies q, v, q.repr, v.repr
    ensures Apart(q, v) && q.repr + v.repr == old(q.repr + v.repr)
    ensures var n := |old(q.threads)| - 1;
            q.threads == old(q.threads)[..n] && v.threads == [old(q.threads)[n]] + old(v.threads)
  {
    var t := q.RemTail();
    v.AddHead(t);
  }

  /** The last k of these threads have gone to the front of those. */
  ghost predicate Taken(was: seq<Node>, had: seq<Node>, k: nat, q: seq<Node>, v: seq<Node>)
    requires k <= |was|
  {
    q == was[..|was| - k] && v == was[|was| - k..] + had
  }

  lemma TakenOne(was: seq<Node>, had: seq<Node>, k: nat, q: seq<Node>, v: seq<Node>)
    requires k < |was| && Taken(was, had, k, q, v)
    ensures q != [] && Taken(was, had, k + 1, q[..|q| - 1], [q[|q| - 1]] + v)
  {}

  /** The loop that takes victims: the last k threads of q go to the front of v, in the
      order they were in. */
  method TakeLast(q: List, v: List, k: nat)
    requires Apart(q, v) && k <= |q.threads|
    modifies q, v, q.repr, v.repr
    ensures Apart(q, v) && q.repr + v.repr == old(q.repr + v.repr)
    ensures Taken(old(q.threads), old(v.threads), k, q.threads, v.threads)
  {
    ghost var was, had := q.threads, v.threads;
    var i := 0;
    while i < k
      invariant i <= k <= |was| && Apart(q, v) && q.repr + v.repr == old(q.repr + v.repr)
      invariant Taken(was, had, i, q.threads, v.threads)
    {
      TakenOne(was, had, i, q.threads, v.threads);
      TailToHead(q, v);
      i := i + 1;
    }
  }

  /** The first thread of v, if there is one, goes to the end of q. */
  method HeadToTail(v: List, q: List) returns (found: bool)
    requires Apart(v, q)
    modifies v, q, v.repr, q.repr
    ensures Apart(v, q) && v.repr + q.repr == old(v.repr + q.repr) && (found <==> old(v.threads) != [])
    ensures !found ==> v.threads == old(v.threads) && q.threads == old(q.threads)
    ensures found ==> v.threads == old(v.threads)[1..] && q.threads == old(q.threads) + [old(v.threads)[0]]
  {
    var t := v.RemHead();
    if t == null { return false; }
    q.AddTail(t);
    found := true;
  }

  /** The loop that puts the rest back: all of v goes to the end of q, in the order it was
      in. */
  method Drain(v: List, q: List)
    requires Apart(v, q)
    modifies v, q, v.repr, q.repr
    ensures Apart(v, q) && v.repr + q.repr == old(v.repr + q.repr)
    ensures v.threads == [] && q.threads == old(q.threads) + old(v.threads)
  {
    ghost var was, had := v.threads, q.threads;
    ghost var k := 0;
    var found := true;
    while found
      invariant k <= |was| && Apart(v, q) && v.repr + q.repr == old(v.repr + q.repr)
      invariant v.threads == was[k..] && q.threads == had + was[..k] && (!found ==> k == |was|)
      decreases |was| - k, found
    {
      found := HeadToTail(v, q);
      if found { k := k + 1; }
    }
  }

  // ----- Handing victims over

  /** These threads, without cur. */
  function Except(l: seq<Node>, cur: Node): seq<Node>
  {
    if l == [] then [] else
      var n := |l| - 1;
      Except(l[..n], cur) + if l[n] == cur then [] else [l[n]]
  }

  /** cur, if it is one of these threads. */
  function Only(l: seq<Node>, cur: Node): seq<Node>
  {
    if cur in l then [cur] else []
  }

  /** One turn of the loop that hands victims to another processor. */
  method HandOne(v: List, q: List, cur: Node)
    requires Apart(v, q) && v.threads != []
    modifies v, q, v.repr, q.repr
    ensures Apart(v, q) && v.repr + q.repr == old(v.repr + q.repr)
    ensures var t := old(v.threads)[0];
            && v.threads == old(v.threads)[1..] + (if t == cur then [t] else [])
            && q.threads == old(q.threads) + (if t == cur then [] else [t])
  {
    var t := v.RemHead();
    if t == cur {
      v.AddTail(t);
    } else {
      q.AddTail(t);
    }
  }

  /** What k victims leave behind, and what they take to a queue that had these threads. */
  ghost predicate Handed(was: seq<Node>, had: seq<Node>, cur: Node, k: nat, v: seq<Node>, q: seq<Node>)
    requires k <= |was|
  {
    v == was[k..] + Only(was[..k], cur) && q == had + Except(was[..k], cur)
  }

  lemma HandedOne(was: seq<Node>, had: seq<Node>, cur: Node, k: nat, v: seq<Node>, q: seq<Node>)
    requires k < |was| && Unlike(was) && Handed(was, had, cur, k, v, q)
    ensures v != [] && v[0] == was[k]
    ensures Handed(was, had, cur, k + 1,
                   v[1..] + (if v[0] == cur then [v[0]] else []), q + if v[0] == cur then [] else [v[0]])
  {
    assert was[..k + 1][..k] == was[..k];
    assert was[..k + 1] == was[..k] + [was[k]];
  }

  lemma {:induction false} ExceptCounts(l: seq<Node>, cur: Node, x: Node)
    ensures multiset(Except(l, cur))[x] == if x == cur then 0 else multiset(l)[x]
    decreases |l|
  {
    if l != [] {
      var n := |l| - 1;
      ExceptCounts(l[..n], cur, x);
      assert l == l[..n] + [l[n]];
    }
  }

  lemma {:induction false} UnlikeCounts(l: seq<Node>, x: Node)
    requires Unlike(l)
    ensures multiset(l)[x] == if x in l then 1 else 0
    decreases |l|
  {
    if l != [] {
      var n := |l| - 1;
      UnlikeCounts(l[..n], x);
      assert l == l[..n] + [l[n]];
    }
  }

  /** No thread is lost or doubled, and the current one is not sent. */
  lemma HandedCounts(was: seq<Node>, had: seq<Node>, cur: Node, k: nat, v: seq<Node>, q: seq<Node>, x: Node)
    requires k <= |was| && Unlike(was) && Handed(was, had, cur, k, v, q)
    ensures multiset(v)[x] + multiset(q)[x] == multiset(was)[x] + multiset(had)[x]
    ensures multiset(q)[cur] == multiset(had)[cur]
  {
    ExceptCounts(was[..k], cur, x);
    ExceptCounts(was[..k], cur, cur);
    UnlikeCounts(was[..k], x);
    assert was == was[..k] + was[k..];
    assert multiset(v)[x] == multiset(was[k..])[x] + multiset(Only(was[..k], cur))[x];
    assert multiset(q)[x] == multiset(had)[x] + multiset(Except(was[..k], cur))[x];
  }

  lemma ThreadsUnlike(l: List)
    requires l.Valid()
    ensures Unlike(l.threads)
  {}

  /** The loop that hands victims to another processor, until that one has its share. The
      current thread stays behind, at the end of the victims: `k` victims are looked at, and
      all but that one go to the end of q in the order they were in. */
  method HandOver(v: List, q: List, cur: Node, share: nat, toSend: nat) returns (left: nat, ghost k: nat)
    requires Apart(v, q) && toSend <= |v.threads|
    modifies v, q, v.repr, q.repr
    ensures Apart(v, q) && v.repr + q.repr == old(v.repr + q.repr)
    ensures k <= toSend && left == toSend - k && (left == 0 || |q.threads| >= share)
    ensures Handed(old(v.threads), old(q.threads), cur, k, v.threads, q.threads)
    ensures |q.threads| <= share || |q.threads| == |old(q.threads)|
  {
    ghost var was, had := v.threads, q.threads;
    ThreadsUnlike(v);
    left, k := toSend, 0;
    while q.count < share && left > 0
      invariant k <= toSend <= |was| && left == toSend - k
      invariant Apart(v, q) && v.repr + q.repr == old(v.repr + q.repr)
      invariant Handed(was, had, cur, k, v.threads, q.threads) && (|q.threads| <= share || |q.threads| == |had|)
    {
      HandedOne(was, had, cur, k, v.threads, q.threads);
      HandOne(v, q, cur);
      left, k := left - 1, k + 1;
    }
  }
}
