/** The bounded buffer between producers and consumers, for any number of threads. A step is
    one semaphore operation or one use of the buffer inside the mutex. */
module BoundedBuffer {
  import opened Arith
  import opened Finite

  /** What is sent: the item a producer makes when it has k to go, or the stop token. */
  datatype Item = Data(producer: nat, k: nat) | Stop
  datatype Thread = Producer(i: nat) | Consumer(i: nat) | Driver

  /** How far a thread is in producer_send or consumer_receive. */
  datatype Pc =
    | Idle
    | HasRoom(x: Item)    // after P(empty)
    | Writing(x: Item)    // after P(mutex)
    | Written             // before V(mutex)
    | Sent                // before V(full)
    | HasItem             // after P(full)
    | Reading             // after P(mutex)
    | Taken(x: Item)      // before V(mutex)
    | Received(x: Item)   // before V(empty)

  datatype Buffer = Buffer(
    n: nat, cells: seq<Item>, front: nat, rear: nat, mutex: nat, empty: nat, full: nat, pc: map<Thread, Pc>,
    sent: seq<Item>, got: seq<Item>)  // everything ever written to the buffer, and read from it, in order

  datatype Move =
    | StartSend(t: Thread, x: Item)
    | Enter(t: Thread)
    | Write(t: Thread)
    | Leave(t: Thread)
    | EndSend(t: Thread)
    | StartReceive(t: Thread)
    | Read(t: Thread)
    | EndReceive(t: Thread)

  function PcOf(b: Buffer, t: Thread): Pc
  {
    if t in b.pc then b.pc[t] else Idle
  }

  predicate Enabled(b: Buffer, m: Move)
  {
    var pc := PcOf(b, m.t);
    match m
    case StartSend(_, _) => pc.Idle? && b.empty > 0
    case Enter(_) => (pc.HasRoom? || pc.HasItem?) && b.mutex > 0
    case Write(_) => pc.Writing?
    case Leave(_) => pc.Written? || pc.Taken?
    case EndSend(_) => pc.Sent?
    case StartReceive(_) => pc.Idle? && b.full > 0
    case Read(_) => pc.Reading?
    case EndReceive(_) => pc.Received?
  }

  /** Uses of the buffer that lose or invent an item: writing to a cell whose item has not
      been read, reading a cell that holds none. */
  predicate Bad(b: Buffer, m: Move)
  {
    || (m.Write? && |b.sent| >= |b.got| + b.n)
    || (m.Read? && |b.got| >= |b.sent|)
  }

  function Do(b: Buffer, m: Move): Buffer
    requires Enabled(b, m) && b.n > 0 && b.front < b.n == |b.cells| && b.rear < b.n
  {
    var t := m.t;
    var pc := PcOf(b, t);
    match m
    case StartSend(_, x) => b.(empty := b.empty - 1, pc := b.pc[t := HasRoom(x)])
    case Enter(_) => b.(mutex := b.mutex - 1, pc := b.pc[t := if pc.HasRoom? then Writing(pc.x) else Reading])
    case Write(_) =>
      b.(cells := b.cells[b.rear := pc.x], rear := Rem(b.rear + 1, b.n), sent := b.sent + [pc.x],
          pc := b.pc[t := Written])
    case Leave(_) => b.(mutex := b.mutex + 1, pc := b.pc[t := if pc.Written? then Sent else Received(pc.x)])
    case EndSend(_) => b.(full := b.full + 1, pc := b.pc[t := Idle])
    case StartReceive(_) => b.(full := b.full - 1, pc := b.pc[t := HasItem])
    case Read(_) =>
      var x := b.cells[b.front];
      b.(front := Rem(b.front + 1, b.n), got := b.got + [x], pc := b.pc[t := Taken(x)])
    case EndReceive(_) => b.(empty := b.empty + 1, pc := b.pc[t := Idle])
  }

  // ----- The invariant

  /** The threads inside the mutex, those in the middle of a call, and those that have put an
      item in the buffer but not counted it in full or counted it out but not taken it. */
  ghost function Inside(pc: map<Thread, Pc>): set<Thread>
  {
    set t | t in pc && IsInside(pc[t])
  }

  ghost function Busy(pc: map<Thread, Pc>): set<Thread>
  {
    set t | t in pc && !pc[t].Idle?
  }

  ghost function Stored(pc: map<Thread, Pc>): set<Thread>
  {
    set t | t in pc && IsStored(pc[t])
  }

  predicate IsInside(p: Pc)
  {
    p.Writing? || p.Written? || p.Reading? || p.Taken?
  }

  predicate IsStored(p: Pc)
  {
    p.Written? || p.Sent? || p.HasItem? || p.Reading?
  }

  /** The part of what was sent that has not been read is in the cells, in order. */
  ghost predicate CellsOk(b: Buffer)
    requires b.n > 0 && |b.cells| == b.n
  {
    && |b.got| <= |b.sent| <= |b.got| + b.n && b.got == b.sent[..|b.got|]
    && b.front == Rem(|b.got|, b.n) && b.rear == Rem(|b.sent|, b.n)
    && forall k :: |b.got| <= k < |b.sent| ==> Holds(b, k)
  }

  ghost predicate Holds(b: Buffer, k: nat)
    requires b.n > 0 && |b.cells| == b.n && k < |b.sent|
  {
    b.cells[Rem(k, b.n)] == b.sent[k]
  }

  ghost predicate Inv(b: Buffer)
  {
    && b.n > 0 && |b.cells| == b.n && CellsOk(b)
    && b.mutex + |Inside(b.pc)| == 1
    && b.empty + b.full + |Busy(b.pc)| == b.n
    && |b.sent| - |b.got| == b.full + |Stored(b.pc)|
  }

  function One(b: bool): nat
  {
    if b then 1 else 0
  }

  lemma InsideCount(pc: map<Thread, Pc>, t: Thread, p: Pc)
    ensures |Inside(pc[t := p])| == |Inside(pc)| + One(IsInside(p)) - One(t in pc && IsInside(pc[t]))
  {
    OneChanged(Inside(pc), Inside(pc[t := p]), t);
  }

  lemma BusyCount(pc: map<Thread, Pc>, t: Thread, p: Pc)
    ensures |Busy(pc[t := p])| == |Busy(pc)| + One(!p.Idle?) - One(t in pc && !pc[t].Idle?)
  {
    OneChanged(Busy(pc), Busy(pc[t := p]), t);
  }

  lemma StoredCount(pc: map<Thread, Pc>, t: Thread, p: Pc)
    ensures |Stored(pc[t := p])| == |Stored(pc)| + One(IsStored(p)) - One(t in pc && IsStored(pc[t]))
  {
    OneChanged(Stored(pc), Stored(pc[t := p]), t);
  }

  lemma StoredBusy(pc: map<Thread, Pc>)
    ensures Stored(pc) <= Busy(pc) && |Stored(pc)| <= |Busy(pc)|
    ensures forall t :: t in Busy(pc) - Stored(pc) ==> |Stored(pc)| < |Busy(pc)|
  {
    var a, b := Stored(pc), Busy(pc);
    assert b == a + (b - a);
    forall t | t in b - a ensures |a| < |b| {
      assert |b - a| > 0;
    }
  }

  /** A thread about to write has room, one about to read has an item. */
  lemma NeverBad(b: Buffer, m: Move)
    requires Inv(b) && Enabled(b, m)
    ensures !Bad(b, m)
  {
    var t := m.t;
    StoredBusy(b.pc);
    if m.Write? { assert t in Busy(b.pc) - Stored(b.pc); }
    if m.Read? { assert t in Stored(b.pc); }
  }

  lemma WriteKeeps(b: Buffer, t: Thread)
    requires Inv(b) && Enabled(b, Write(t))
    ensures CellsOk(Do(b, Write(t)))
  {
    NeverBad(b, Write(t));
    var b' := Do(b, Write(t));
    RemNext(|b.sent|, b.n);
    forall k | |b'.got| <= k < |b'.sent| ensures Holds(b', k) {
      if k < |b.sent| {
        assert Holds(b, k);
        RemDiffers(k, |b.sent|, b.n);
      }
    }
  }

  lemma ReadKeeps(b: Buffer, t: Thread)
    requires Inv(b) && Enabled(b, Read(t))
    ensures CellsOk(Do(b, Read(t)))
    ensures |b.got| < |b.sent| && Do(b, Read(t)).got == b.got + [b.sent[|b.got|]]
  {
    NeverBad(b, Read(t));
    assert Holds(b, |b.got|);
    var b' := Do(b, Read(t));
    RemNext(|b.got|, b.n);
    forall k | |b'.got| <= k < |b'.sent| ensures Holds(b', k) {
      assert Holds(b, k);
    }
    assert b.sent[..|b.got| + 1] == b.sent[..|b.got|] + [b.sent[|b.got|]];
  }

  /** The semaphores account for every thread in the middle of a call. */
  lemma CountsKeep(b: Buffer, m: Move)
    requires Inv(b) && Enabled(b, m)
    ensures var b' := Do(b, m);
            && b'.n == b.n == |b'.cells|
            && b'.mutex + |Inside(b'.pc)| == 1
            && b'.empty + b'.full + |Busy(b'.pc)| == b'.n
            && |b'.sent| - |b'.got| == b'.full + |Stored(b'.pc)|
  {
    var b' := Do(b, m);
    var p := PcOf(b', m.t);
    assert b'.pc == b.pc[m.t := p];
    InsideCount(b.pc, m.t, p);
    BusyCount(b.pc, m.t, p);
    StoredCount(b.pc, m.t, p);
  }

  /** Every move keeps the buffer in order. */
  lemma MoveKeeps(b: Buffer, m: Move)
    requires Inv(b) && Enabled(b, m)
    ensures Inv(Do(b, m))
  {
    CountsKeep(b, m);
    if m.Write? {
      WriteKeeps(b, m.t);
    } else if m.Read? {
      ReadKeeps(b, m.t);
    } else {
      var b' := Do(b, m);
      forall k | |b'.got| <= k < |b'.sent| ensures Holds(b', k) {
        assert Holds(b, k);
      }
    }
  }

  // ----- The threads of the simulation

  datatype Config = Config(producers: nat, consumers: nat, items: nat)

  /** Where the driver is: it waits for the producers, sends the stop tokens, and waits for
      the consumers; each phase counts what it has done. */
  datatype Phase = AwaitProducers(i: nat) | Stopping(i: nat) | AwaitConsumers(i: nat) | Finished

  /** `left` is what each producer has to go. `pdone`, `pfin`: producers that have signalled
      producer_finished, and its count; `cdone`, `cfin` likewise. `took` are the consumers
      whose last call returned a stop token, `stopped` those that have read one. */
  datatype State = State(
    b: Buffer, left: map<nat, nat>, pdone: set<nat>, pfin: nat,
    took: set<nat>, stopped: set<nat>, cdone: set<nat>, cfin: nat, main: Phase)

  datatype Step =
    | Act(m: Move)
    | ProducerDone(p: nat)
    | ConsumerDone(c: nat)
    | Advance  // the driver's next step outside producer_send

  predicate CanAct(c: Config, s: State, m: Move)
  {
    && Enabled(s.b, m)
    && match m
       case StartSend(t, x) =>
         (match t
          case Producer(p) => p < c.producers && p in s.left && s.left[p] > 0 && x == Data(p, s.left[p])
          case Driver => s.main.Stopping? && s.main.i < c.consumers && x == Stop
          case Consumer(_) => false)
       case StartReceive(t) => t.Consumer? && t.i < c.consumers && t.i !in s.took
       case _ => true
  }

  predicate CanStep(c: Config, s: State, step: Step)
  {
    match step
    case Act(m) => CanAct(c, s, m)
    case ProducerDone(p) =>
      p < c.producers && p in s.left && s.left[p] == 0 && PcOf(s.b, Producer(p)).Idle? && p !in s.pdone
    case ConsumerDone(i) => i in s.took && i !in s.cdone
    case Advance =>
      match s.main
      case AwaitProducers(i) => i == c.producers || s.pfin > 0
      case Stopping(i) => i == c.consumers && PcOf(s.b, Driver).Idle?
      case AwaitConsumers(i) => i == c.consumers || s.cfin > 0
      case Finished => false
  }

  /** What a move of the buffer means to the thread that makes it. */
  function Acted(s: State, m: Move, b': Buffer): State
  {
    var s1 := s.(b := b');
    var pc := PcOf(s.b, m.t);
    if m.EndSend? && m.t.Producer? && m.t.i in s.left && s.left[m.t.i] > 0 then
      s1.(left := s.left[m.t.i := s.left[m.t.i] - 1])
    else if m.EndSend? && m.t.Driver? && s.main.Stopping? then s1.(main := Stopping(s.main.i + 1))
    else if m.Read? && m.t.Consumer? && PcOf(b', m.t) == Taken(Stop) then s1.(stopped := s.stopped + {m.t.i})
    else if m.EndReceive? && m.t.Consumer? && pc == Received(Stop) then s1.(took := s.took + {m.t.i})
    else s1
  }

  function Next(c: Config, s: State, step: Step): State
    requires CanStep(c, s, step) && s.b.n > 0 && s.b.front < s.b.n == |s.b.cells| && s.b.rear < s.b.n
  {
    match step
    case Act(m) => Acted(s, m, Do(s.b, m))
    case ProducerDone(p) => s.(pdone := s.pdone + {p}, pfin := s.pfin + 1)
    case ConsumerDone(i) => s.(cdone := s.cdone + {i}, cfin := s.cfin + 1)
    case Advance =>
      match s.main
      case AwaitProducers(i) =>
        if i == c.producers then s.(main := Stopping(0)) else s.(main := AwaitProducers(i + 1), pfin := s.pfin - 1)
      case Stopping(i) => s.(main := AwaitConsumers(0))
      case AwaitConsumers(i) =>
        if i == c.consumers then s.(main := Finished) else s.(main := AwaitConsumers(i + 1), cfin := s.cfin - 1)
      case Finished => s
  }

  // ----- The invariant of the simulation

  /** The last item of producer p is in the buffer, though its call has not returned. */
  predicate Late(s: State, t: Thread)
  {
    PcOf(s.b, t).Written? || PcOf(s.b, t).Sent?
  }

  ghost predicate ProducerOk(c: Config, s: State, p: nat)
  {
    var pc := PcOf(s.b, Producer(p));
    if p < c.producers then
      && p in s.left && s.left[p] <= c.items
      && (p in s.pdone ==> s.left[p] == 0)
      && (|| pc.Idle?
          || ((pc.HasRoom? || pc.Writing?) && pc.x == Data(p, s.left[p]) && s.left[p] > 0)
          || (Late(s, Producer(p)) && s.left[p] > 0))
    else pc.Idle? && p !in s.pdone
  }

  /** An item is in what was sent once if its producer has got that far, otherwise not. */
  ghost predicate DataOk(c: Config, s: State, p: nat, k: nat)
  {
    multiset(s.b.sent)[Data(p, k)] ==
      One(p < c.producers && p in s.left && s.left[p] - One(Late(s, Producer(p))) < k <= c.items)
  }

  ghost predicate ConsumerOk(c: Config, s: State, i: nat)
  {
    var pc := PcOf(s.b, Consumer(i));
    && (pc.Idle? || pc.HasItem? || pc.Reading? || pc.Taken? || pc.Received?)
    && (i in s.took ==> pc.Idle?)
    && (i in s.stopped <==> i in s.took || pc == Taken(Stop) || pc == Received(Stop))
    && (i in s.cdone ==> i in s.took)
    && (i >= c.consumers ==> pc.Idle? && i !in s.took)
  }

  ghost predicate DriverOk(c: Config, s: State)
  {
    var pc := PcOf(s.b, Driver);
    || pc.Idle?
    || (&& s.main.Stopping? && s.main.i < c.consumers
        && (pc == HasRoom(Stop) || pc == Writing(Stop) || Late(s, Driver)))
  }

  /** How many tokens have been put in the buffer. */
  function Tokens(c: Config, s: State): nat
  {
    match s.main
    case AwaitProducers(_) => 0
    case Stopping(i) => i + One(Late(s, Driver))
    case AwaitConsumers(_) => c.consumers
    case Finished => c.consumers
  }

  ghost predicate TokensLast(sent: seq<Item>)
  {
    forall j, k :: 0 <= j < k < |sent| && sent[j] == Stop ==> sent[k] == Stop
  }

  ghost predicate MainOk(c: Config, s: State)
  {
    match s.main
    case AwaitProducers(i) => i <= c.producers && s.pfin + i == |s.pdone| && s.cfin == |s.cdone|
    case Stopping(i) => i <= c.consumers && s.pfin + c.producers == |s.pdone| && s.cfin == |s.cdone|
    case AwaitConsumers(i) => i <= c.consumers && s.pfin + c.producers == |s.pdone| && s.cfin + i == |s.cdone|
    case Finished => s.pfin + c.producers == |s.pdone| && s.cfin + c.consumers == |s.cdone|
  }

  ghost predicate Good(c: Config, s: State)
  {
    && Inv(s.b)
    && (forall p :: ProducerOk(c, s, p)) && (forall p, k :: DataOk(c, s, p, k))
    && (forall i :: ConsumerOk(c, s, i)) && DriverOk(c, s) && MainOk(c, s)
    && multiset(s.b.sent)[Stop] == Tokens(c, s) && TokensLast(s.b.sent)
    && multiset(s.b.got)[Stop] == |s.stopped|
  }

  /** A move changes the place of one thread only. */
  lemma OthersStay(b: Buffer, m: Move, t: Thread)
    requires Inv(b) && Enabled(b, m) && t != m.t
    ensures PcOf(Do(b, m), t) == PcOf(b, t)
  {}

  lemma ActProducer(c: Config, s: State, m: Move, p: nat)
    requires Inv(s.b) && CanAct(c, s, m) && ProducerOk(c, s, p)
    ensures ProducerOk(c, Acted(s, m, Do(s.b, m)), p)
  {
    if m.t != Producer(p) { OthersStay(s.b, m, Producer(p)); }
  }

  lemma ActConsumer(c: Config, s: State, m: Move, i: nat)
    requires Inv(s.b) && CanAct(c, s, m) && ConsumerOk(c, s, i)
    ensures ConsumerOk(c, Acted(s, m, Do(s.b, m)), i)
  {
    if m.t != Consumer(i) { OthersStay(s.b, m, Consumer(i)); }
  }

  /** Whoever writes has the right item: a producer its next one, the driver a token. */
  lemma Writes(c: Config, s: State, t: Thread)
    requires Good(c, s) && CanAct(c, s, Write(t))
    ensures var x := PcOf(s.b, t).x;
            && Do(s.b, Write(t)).sent == s.b.sent + [x]
            && (t.Producer? ==>
                  t.i < c.producers && t.i in s.left && x == Data(t.i, s.left[t.i]) && 0 < s.left[t.i] <= c.items)
            && (t.Driver? ==> x == Stop && s.main.Stopping?) && !t.Consumer?
  {
    match t
    case Producer(p) => assert ProducerOk(c, s, p);
    case Consumer(i) => ConsumerReads(c, s, i);
    case Driver =>
  }

  lemma ConsumerReads(c: Config, s: State, i: nat)
    requires Good(c, s)
    ensures !PcOf(s.b, Consumer(i)).Writing?
  {
    assert ConsumerOk(c, s, i);
  }

  lemma ActData(c: Config, s: State, m: Move, p: nat, k: nat)
    requires Inv(s.b) && CanAct(c, s, m) && ProducerOk(c, s, p) && DataOk(c, s, p, k) && !m.Write?
    ensures DataOk(c, Acted(s, m, Do(s.b, m)), p, k)
  {
    if m.t != Producer(p) { OthersStay(s.b, m, Producer(p)); }
  }

  lemma WriteData(c: Config, s: State, t: Thread, p: nat, k: nat)
    requires Good(c, s) && CanAct(c, s, Write(t))
    ensures DataOk(c, Acted(s, Write(t), Do(s.b, Write(t))), p, k)
  {
    var s' := Acted(s, Write(t), Do(s.b, Write(t)));
    Writes(c, s, t);
    assert DataOk(c, s, p, k) && ProducerOk(c, s, p);
    if t != Producer(p) { OthersStay(s.b, Write(t), Producer(p)); }
    assert s'.left == s.left;
  }

  lemma ActDriver(c: Config, s: State, m: Move)
    requires Inv(s.b) && CanAct(c, s, m) && DriverOk(c, s) && MainOk(c, s)
    ensures var s' := Acted(s, m, Do(s.b, m)); DriverOk(c, s') && MainOk(c, s')
  {
    if m.t != Driver { OthersStay(s.b, m, Driver); }
  }

  /** No producer writes once a token may have been sent. */
  lemma NoDataLate(c: Config, s: State, p: nat)
    requires Good(c, s) && PcOf(s.b, Producer(p)).Writing?
    ensures s.main.AwaitProducers?
  {
    assert ProducerOk(c, s, p);
    if !s.main.AwaitProducers? { AllDone(c, s, p); }
  }

  lemma AllDone(c: Config, s: State, p: nat)
    requires Good(c, s) && !s.main.AwaitProducers? && p < c.producers
    ensures p in s.pdone && p in s.left && s.left[p] == 0
  {
    var all := Below(c.producers);
    forall q | q in s.pdone ensures q in all {
      assert ProducerOk(c, s, q);
    }
    SameSize(s.pdone, all);
    assert p in all && ProducerOk(c, s, p);
  }

  lemma WriteTokens(c: Config, s: State, t: Thread)
    requires Good(c, s) && CanAct(c, s, Write(t))
    ensures var s' := Acted(s, Write(t), Do(s.b, Write(t)));
            multiset(s'.b.sent)[Stop] == Tokens(c, s') && TokensLast(s'.b.sent)
  {
    var s' := Acted(s, Write(t), Do(s.b, Write(t)));
    Writes(c, s, t);
    if t.Producer? {
      NoDataLate(c, s, t.i);
      forall j | 0 <= j < |s.b.sent| ensures s.b.sent[j] != Stop {
        assert s.b.sent[j] in multiset(s.b.sent);
      }
      OthersStay(s.b, Write(t), Driver);
    }
  }

  lemma ActTokens(c: Config, s: State, m: Move)
    requires Inv(s.b) && CanAct(c, s, m) && !m.Write? && DriverOk(c, s)
    ensures var s' := Acted(s, m, Do(s.b, m)); s'.b.sent == s.b.sent && Tokens(c, s') == Tokens(c, s)
  {
    if m.t != Driver { OthersStay(s.b, m, Driver); }
  }

  lemma ActStops(c: Config, s: State, m: Move)
    requires Inv(s.b) && CanAct(c, s, m) && !m.Read? && multiset(s.b.got)[Stop] == |s.stopped|
    ensures var s' := Acted(s, m, Do(s.b, m)); multiset(s'.b.got)[Stop] == |s'.stopped|
  {}

  lemma ReadStops(c: Config, s: State, t: Thread)
    requires Good(c, s) && CanAct(c, s, Read(t))
    ensures var s' := Acted(s, Read(t), Do(s.b, Read(t))); multiset(s'.b.got)[Stop] == |s'.stopped|
  {
    ReadKeeps(s.b, t);
    match t
    case Consumer(i) => OneMore(c, s, i);
    case Producer(p) => ProducerWrites(c, s, p);
    case Driver =>
  }

  lemma OneMore(c: Config, s: State, i: nat)
    requires Inv(s.b) && ConsumerOk(c, s, i) && Enabled(s.b, Read(Consumer(i)))
    requires multiset(s.b.got)[Stop] == |s.stopped|
    requires |s.b.got| < |s.b.sent| && Do(s.b, Read(Consumer(i))).got == s.b.got + [s.b.sent[|s.b.got|]]
    ensures var s' := Acted(s, Read(Consumer(i)), Do(s.b, Read(Consumer(i)))); multiset(s'.b.got)[Stop] == |s'.stopped|
  {
    var x := s.b.sent[|s.b.got|];
    assert Holds(s.b, |s.b.got|);
    StopCounted(s.b.got, x, s.stopped, i);
  }

  lemma StopCounted(got: seq<Item>, x: Item, stopped: set<nat>, i: nat)
    requires multiset(got)[Stop] == |stopped| && i !in stopped
    ensures multiset(got + [x])[Stop] == |if x == Stop then stopped + {i} else stopped|
  {}

  lemma ProducerWrites(c: Config, s: State, p: nat)
    requires Good(c, s)
    ensures !PcOf(s.b, Producer(p)).Reading?
  {
    assert ProducerOk(c, s, p);
  }

  lemma ActKeeps(c: Config, s: State, m: Move)
    requires Good(c, s) && CanAct(c, s, m)
    ensures Good(c, Acted(s, m, Do(s.b, m)))
  {
    var s' := Acted(s, m, Do(s.b, m));
    MoveKeeps(s.b, m);
    forall p ensures ProducerOk(c, s', p) {
      assert ProducerOk(c, s, p);
      ActProducer(c, s, m, p);
    }
    forall i ensures ConsumerOk(c, s', i) {
      assert ConsumerOk(c, s, i);
      ActConsumer(c, s, m, i);
    }
    forall p, k ensures DataOk(c, s', p, k) {
      if m.Write? {
        WriteData(c, s, m.t, p, k);
      } else {
        assert ProducerOk(c, s, p) && DataOk(c, s, p, k);
        ActData(c, s, m, p, k);
      }
    }
    ActDriver(c, s, m);
    if m.Write? { WriteTokens(c, s, m.t); } else { ActTokens(c, s, m); }
    if m.Read? { ReadStops(c, s, m.t); } else { ActStops(c, s, m); }
  }

  lemma SameThreads(c: Config, s: State, s': State)
    requires Good(c, s) && s'.b == s.b && s'.left == s.left && s'.took == s.took && s'.stopped == s.stopped
    requires forall p :: p in s'.pdone && p !in s.pdone ==> p < c.producers && p in s.left && s.left[p] == 0
    requires forall i :: i in s'.cdone && i !in s.cdone ==> i in s.took
    ensures (forall p :: ProducerOk(c, s', p))
    ensures (forall p, k :: DataOk(c, s', p, k)) && forall i :: ConsumerOk(c, s', i)
  {
    forall p ensures ProducerOk(c, s', p) {
      assert ProducerOk(c, s, p);
    }
    forall p, k ensures DataOk(c, s', p, k) {
      assert DataOk(c, s, p, k);
    }
    forall i ensures ConsumerOk(c, s', i) {
      assert ConsumerOk(c, s, i);
    }
  }

  lemma DoneKeeps(c: Config, s: State, step: Step)
    requires Good(c, s) && CanStep(c, s, step) && !step.Act?
    ensures Good(c, Next(c, s, step))
  {
    SameThreads(c, s, Next(c, s, step));
    DoneMain(c, s, step);
  }

  /** What a step outside the buffer keeps of the driver's part. */
  ghost predicate DriverKept(c: Config, s: State, s': State)
  {
    && s'.b == s.b && s'.left == s.left && s'.took == s.took && s'.stopped == s.stopped
    && DriverOk(c, s') && MainOk(c, s') && Tokens(c, s') == Tokens(c, s)
  }

  lemma DoneMain(c: Config, s: State, step: Step)
    requires CanStep(c, s, step) && !step.Act? && DriverOk(c, s) && MainOk(c, s)
    requires s.b.n > 0 && s.b.front < s.b.n == |s.b.cells| && s.b.rear < s.b.n
    ensures DriverKept(c, s, Next(c, s, step))
  {
    match step
    case ProducerDone(p) => ProducerCounted(c, s, p);
    case ConsumerDone(i) => ConsumerCounted(c, s, i);
    case Advance => DriverAdvances(c, s);
  }

  lemma ProducerCounted(c: Config, s: State, p: nat)
    requires p !in s.pdone && DriverOk(c, s) && MainOk(c, s)
    ensures DriverKept(c, s, s.(pdone := s.pdone + {p}, pfin := s.pfin + 1))
  {}

  lemma ConsumerCounted(c: Config, s: State, i: nat)
    requires i !in s.cdone && DriverOk(c, s) && MainOk(c, s)
    ensures DriverKept(c, s, s.(cdone := s.cdone + {i}, cfin := s.cfin + 1))
  {}

  lemma DriverAdvances(c: Config, s: State)
    requires CanStep(c, s, Advance) && DriverOk(c, s) && MainOk(c, s)
    requires s.b.n > 0 && s.b.front < s.b.n == |s.b.cells| && s.b.rear < s.b.n
    ensures DriverKept(c, s, Next(c, s, Advance))
  {}

  lemma StepKeeps(c: Config, s: State, step: Step)
    requires Good(c, s) && CanStep(c, s, step)
    ensures Good(c, Next(c, s, step))
  {
    match step
    case Act(m) => ActKeeps(c, s, m);
    case _ => DoneKeeps(c, s, step);
  }

  // ----- Runs

  /** producerconsumer_startup, and the threads before their first step. */
  ghost predicate Started(c: Config, n: nat, s: State)
  {
    && s.b.n == n > 0 && |s.b.cells| == n && s.b.front == s.b.rear == 0
    && s.b.mutex == 1 && s.b.empty == n && s.b.full == 0
    && s.b.pc == map[] && s.b.sent == [] && s.b.got == []
    && s.left.Keys == Below(c.producers) && (forall p :: p in s.left ==> s.left[p] == c.items)
    && s.pdone == {} && s.pfin == 0 && s.took == {} && s.stopped == {}
    && s.cdone == {} && s.cfin == 0 && s.main == AwaitProducers(0)
  }

  lemma StartGood(c: Config, n: nat, s: State)
    requires Started(c, n, s)
    ensures Good(c, s)
  {
    RemSmall(0, n);
    assert Inside(s.b.pc) == {} && Busy(s.b.pc) == {} && Stored(s.b.pc) == {};
    forall p, k ensures DataOk(c, s, p, k) {}
    forall p ensures ProducerOk(c, s, p) {}
  }

  ghost predicate IsRun(c: Config, n: nat, tr: seq<State>, steps: seq<Step>)
  {
    && |tr| == |steps| + 1 && Started(c, n, tr[0])
    && forall i {:trigger steps[i]} :: 0 <= i < |steps| ==> StepTaken(c, tr[i], steps[i], tr[i + 1])
  }

  ghost predicate StepTaken(c: Config, s: State, step: Step, s': State)
  {
    && CanStep(c, s, step) && s.b.n > 0 && s.b.front < s.b.n == |s.b.cells| && s.b.rear < s.b.n
    && s' == Next(c, s, step)
  }

  lemma TakenKeeps(c: Config, s: State, step: Step, s': State)
    requires Good(c, s) && StepTaken(c, s, step, s')
    ensures Good(c, s') && s'.b.n == s.b.n
  {
    StepKeeps(c, s, step);
  }

  lemma {:induction false} RunKeeps(c: Config, n: nat, tr: seq<State>, steps: seq<Step>, i: nat)
    requires IsRun(c, n, tr, steps) && i < |tr|
    ensures Good(c, tr[i]) && tr[i].b.n == n
    decreases i
  {
    if i == 0 {
      StartGood(c, n, tr[0]);
    } else {
      RunKeeps(c, n, tr, steps, i - 1);
      TakenKeeps(c, tr[i - 1], steps[i - 1], tr[i]);
    }
  }

  /** In every run, for any number of producers and consumers and any buffer size: what has
      been received is, in order, the first part of what has been sent; no cell is
      overwritten before or read after its time; every item of every producer has been sent
      at most once; and the stop tokens come last. */
  lemma RunSafe(c: Config, n: nat, tr: seq<State>, steps: seq<Step>, i: nat)
    requires IsRun(c, n, tr, steps) && i < |tr|
    ensures var b := tr[i].b;
            && |b.got| <= |b.sent| <= |b.got| + n && b.got == b.sent[..|b.got|]
            && TokensLast(b.sent)
            && forall p, k :: multiset(b.sent)[Data(p, k)] <= 1
    ensures i < |steps| && steps[i].Act? ==> !Bad(tr[i].b, steps[i].m)
  {
    RunKeeps(c, n, tr, steps, i);
    var s := tr[i];
    forall p, k ensures multiset(s.b.sent)[Data(p, k)] <= 1 {
      assert DataOk(c, s, p, k);
    }
    if i < |steps| && steps[i].Act? {
      assert StepTaken(c, tr[i], steps[i], tr[i + 1]);
      NeverBad(s.b, steps[i].m);
    }
  }

  /** When the driver has finished, every item of every producer has been received once, each
      consumer has taken one token, and the buffer is empty. */
  lemma FinishedEmpty(c: Config, s: State)
    requires Good(c, s) && s.main.Finished? && c.consumers > 0
    ensures s.b.got == s.b.sent && s.took == Below(c.consumers)
    ensures multiset(s.b.got)[Stop] == c.consumers
    ensures forall p: nat, k: nat :: multiset(s.b.got)[Data(p, k)] == One(p < c.producers && 1 <= k <= c.items)
  {
    AllTook(c, s);
    NothingLeft(c, s);
    forall p: nat, k: nat ensures multiset(s.b.sent)[Data(p, k)] == One(p < c.producers && 1 <= k <= c.items) {
      assert DataOk(c, s, p, k) && ProducerOk(c, s, p);
      if p < c.producers { AllDone(c, s, p); }
    }
  }

  lemma AllTook(c: Config, s: State)
    requires Good(c, s) && s.main.Finished?
    ensures s.took == Below(c.consumers) && s.stopped == s.took && |s.stopped| == c.consumers
  {
    var all := Below(c.consumers);
    forall i ensures (i in s.cdone ==> i in s.took) && (i in s.took ==> i in all && i in s.stopped) {
      assert ConsumerOk(c, s, i);
    }
    SameSize(s.cdone, all);
    assert s.took == all;
    forall i ensures i in s.stopped ==> i in s.took {
      assert ConsumerOk(c, s, i);
    }
  }

  lemma NothingLeft(c: Config, s: State)
    requires Good(c, s) && s.main.Finished? && c.consumers > 0 && |s.stopped| == c.consumers
    ensures s.b.got == s.b.sent
  {
    var sent, got := s.b.sent, s.b.got;
    var rest := sent[|got|..];
    assert sent == got + rest;
    assert multiset(sent)[Stop] == multiset(got)[Stop] + multiset(rest)[Stop];
    assert Stop in multiset(got);
    var j :| 0 <= j < |got| && got[j] == Stop;
    if |got| < |sent| { StopFollows(sent, j, |got|); }
  }

  lemma StopFollows(sent: seq<Item>, j: nat, m: nat)
    requires TokensLast(sent) && j < m < |sent| && sent[j] == Stop
    ensures multiset(sent[m..])[Stop] > 0
  {
    assert sent[m..][0] == Stop;
    assert sent[m..][0] in multiset(sent[m..]);
  }

  // ----- No deadlock

  /** A thread in the middle of a call can go on, or the one inside the mutex can. */
  lemma BusyMoves(c: Config, s: State, t: Thread) returns (step: Step)
    requires Inv(s.b) && !PcOf(s.b, t).Idle?
    ensures CanStep(c, s, step)
  {
    if u :| u in Inside(s.b.pc) {
      var pc := s.b.pc[u];
      step := Act(if pc.Writing? then Write(u) else if pc.Reading? then Read(u) else Leave(u));
    } else {
      assert Inside(s.b.pc) == {};
      var pc := PcOf(s.b, t);
      assert !IsInside(pc) by { assert t !in Inside(s.b.pc); }
      step := Act(if pc.Sent? then EndSend(t) else if pc.Received? then EndReceive(t) else Enter(t));
    }
  }

  /** All threads are between calls. */
  ghost predicate Resting(s: State)
  {
    forall t :: PcOf(s.b, t).Idle?
  }

  lemma RestingCounts(c: Config, s: State)
    requires Good(c, s) && Resting(s)
    ensures s.b.empty + s.b.full == s.b.n && |s.b.sent| - |s.b.got| == s.b.full
    ensures s.stopped == s.took && |s.took| <= Tokens(c, s)
    ensures s.b.full == 0 ==> |s.took| == Tokens(c, s)
  {
    forall t ensures t !in Busy(s.b.pc) && t !in Stored(s.b.pc) {
      assert PcOf(s.b, t).Idle?;
    }
    assert Busy(s.b.pc) == {} && Stored(s.b.pc) == {};
    forall i ensures i in s.stopped <==> i in s.took {
      assert ConsumerOk(c, s, i) && PcOf(s.b, Consumer(i)).Idle?;
    }
    var rest := s.b.sent[|s.b.got|..];
    assert s.b.sent == s.b.got + rest;
    assert multiset(s.b.sent)[Stop] == multiset(s.b.got)[Stop] + multiset(rest)[Stop];
  }

  lemma SomeMissing(a: set<nat>, n: nat) returns (i: nat)
    requires |a| < n
    ensures i < n && i !in a
  {
    if forall j: nat :: j < n ==> j in a {
      assert Below(n) <= a;
      SameSize(Below(n), a);
      assert false;
    }
    i :| i < n && i !in a;
  }

  /** A consumer that has not taken a token can receive when there is something. */
  lemma Receives(c: Config, s: State) returns (step: Step)
    requires Good(c, s) && Resting(s) && s.b.empty == 0 && Tokens(c, s) < c.consumers
    ensures CanStep(c, s, step)
  {
    RestingCounts(c, s);
    var i := SomeMissing(s.took, c.consumers);
    assert PcOf(s.b, Consumer(i)).Idle?;
    step := Act(StartReceive(Consumer(i)));
  }

  lemma AwaitsProducers(c: Config, s: State) returns (step: Step)
    requires Good(c, s) && Resting(s) && s.main.AwaitProducers? && c.consumers > 0
    ensures CanStep(c, s, step)
  {
    if s.main.i == c.producers || s.pfin > 0 { return Advance; }
    var p := SomeMissing(s.pdone, c.producers);
    assert ProducerOk(c, s, p) && PcOf(s.b, Producer(p)).Idle?;
    if s.left[p] == 0 { return ProducerDone(p); }
    if s.b.empty > 0 { return Act(StartSend(Producer(p), Data(p, s.left[p]))); }
    step := Receives(c, s);
  }

  lemma AwaitsConsumers(c: Config, s: State) returns (step: Step)
    requires Good(c, s) && Resting(s) && s.main.AwaitConsumers?
    ensures CanStep(c, s, step)
  {
    if s.main.i == c.consumers || s.cfin > 0 { return Advance; }
    var i := SomeMissing(s.cdone, c.consumers);
    assert ConsumerOk(c, s, i) && PcOf(s.b, Consumer(i)).Idle?;
    if i in s.took { return ConsumerDone(i); }
    RestingCounts(c, s);
    if s.b.full == 0 { TookAll(c, s, i); }
    step := Act(StartReceive(Consumer(i)));
  }

  lemma TookAll(c: Config, s: State, i: nat)
    requires Good(c, s) && |s.took| == c.consumers && i < c.consumers
    ensures i in s.took
  {
    forall j ensures j in s.took ==> j in Below(c.consumers) {
      assert ConsumerOk(c, s, j);
    }
    SameSize(s.took, Below(c.consumers));
  }

  /** There is no deadlock: while the driver has not finished, some thread can take a step. */
  lemma Progress(c: Config, s: State) returns (step: Step)
    requires Good(c, s) && !s.main.Finished? && c.consumers > 0
    ensures CanStep(c, s, step)
  {
    if t :| !PcOf(s.b, t).Idle? {
      step := BusyMoves(c, s, t);
    } else {
      match s.main
      case AwaitProducers(_) => step := AwaitsProducers(c, s);
      case AwaitConsumers(_) => step := AwaitsConsumers(c, s);
      case Stopping(i) =>
        assert PcOf(s.b, Driver).Idle?;
        if i == c.consumers { return Advance; }
        if s.b.empty > 0 { return Act(StartSend(Driver, Stop)); }
        step := Receives(c, s);
    }
  }

  // ----- Every run ends

  /** What each place in a call is worth. */
  function Rank(p: Pc): int
  {
    match p
    case Idle => 0
    case HasRoom(_) => -1
    case HasItem => -1
    case Writing(_) => -2
    case Reading => -2
    case Written => 2
    case Taken(_) => 2
    case Sent => 1
    case Received(_) => 1
  }

  ghost function Ranked(pc: map<Thread, Pc>, r: int): set<Thread>
  {
    set t | t in pc && Rank(pc[t]) == r
  }

  ghost function Ranks(pc: map<Thread, Pc>): int
  {
    2 * |Ranked(pc, 2)| + |Ranked(pc, 1)| - |Ranked(pc, -1)| - 2 * |Ranked(pc, -2)|
  }

  lemma RankedChange(pc: map<Thread, Pc>, t: Thread, p: Pc, r: int)
    ensures |Ranked(pc[t := p], r)| == |Ranked(pc, r)| + One(Rank(p) == r) - One(t in pc && Rank(pc[t]) == r)
  {
    OneChanged(Ranked(pc, r), Ranked(pc[t := p], r), t);
  }

  lemma RanksChange(pc: map<Thread, Pc>, t: Thread, p: Pc)
    ensures Ranks(pc[t := p]) == Ranks(pc) + Rank(p) - if t in pc then Rank(pc[t]) else 0
  {
    RankedChange(pc, t, p, 2);
    RankedChange(pc, t, p, 1);
    RankedChange(pc, t, p, -1);
    RankedChange(pc, t, p, -2);
  }

  lemma RanksBound(b: Buffer)
    requires Inv(b)
    ensures Ranks(b.pc) + 2 * b.n >= 0
  {
    var x, y := Ranked(b.pc, -1), Ranked(b.pc, -2);
    assert x !! y && x + y <= Busy(b.pc) && |x + y| == |x| + |y|;
    assert Busy(b.pc) == (x + y) + (Busy(b.pc) - (x + y));
  }

  /** How many items producer p has not yet put in the buffer. */
  function Rest(s: State, p: nat): int
  {
    (if p in s.left then s.left[p] else 0) - One(Late(s, Producer(p)))
  }

  /** The same for the first n producers together. */
  function Unsent(s: State, n: nat): int
  {
    if n == 0 then 0 else Unsent(s, n - 1) + Rest(s, n - 1)
  }

  lemma {:induction false} UnsentSame(s: State, s': State, n: nat)
    requires forall p: nat :: p < n ==> Rest(s', p) == Rest(s, p)
    ensures Unsent(s', n) == Unsent(s, n)
  {
    if n > 0 { UnsentSame(s, s', n - 1); }
  }

  lemma {:induction false} UnsentLess(s: State, s': State, n: nat, p: nat)
    requires p < n && Rest(s', p) == Rest(s, p) - 1
    requires forall q: nat :: q < n && q != p ==> Rest(s', q) == Rest(s, q)
    ensures Unsent(s', n) == Unsent(s, n) - 1
  {
    if p < n - 1 { UnsentLess(s, s', n - 1, p); } else { UnsentSame(s, s', n - 1); }
  }

  lemma {:induction false} UnsentPositive(c: Config, s: State, n: nat)
    requires Good(c, s) && n <= c.producers
    ensures Unsent(s, n) >= 0
  {
    if n > 0 {
      UnsentPositive(c, s, n - 1);
      assert ProducerOk(c, s, n - 1);
    }
  }

  /** How many steps of its own the driver has to go. */
  function DriverLeft(c: Config, m: Phase): int
  {
    match m
    case AwaitProducers(i) => c.producers - i + c.consumers + 3
    case Stopping(_) => c.consumers + 2
    case AwaitConsumers(i) => c.consumers - i + 1
    case Finished => 0
  }

  /** How much is left to do: an item not yet sent counts 20, one in the buffer 10. */
  ghost function ToDo(c: Config, s: State): int
  {
    20 * (Unsent(s, c.producers) + c.consumers - Tokens(c, s)) + 10 * (|s.b.sent| - |s.b.got|)
    + Ranks(s.b.pc) + 2 * s.b.n + (c.producers - |s.pdone|) + (c.consumers - |s.cdone|) + DriverLeft(c, s.main)
  }

  lemma ToDoPositive(c: Config, s: State)
    requires Good(c, s)
    ensures ToDo(c, s) >= 0
  {
    UnsentPositive(c, s, c.producers);
    RanksBound(s.b);
    forall p ensures p in s.pdone ==> p in Below(c.producers) {
      assert ProducerOk(c, s, p);
    }
    SameSize(s.pdone, Below(c.producers));
    forall i ensures i in s.cdone ==> i in Below(c.consumers) {
      assert ConsumerOk(c, s, i);
    }
    SameSize(s.cdone, Below(c.consumers));
  }

  lemma RestAct(c: Config, s: State, m: Move, p: nat)
    requires Good(c, s) && CanAct(c, s, m) && p < c.producers
    ensures Rest(Acted(s, m, Do(s.b, m)), p) == Rest(s, p) - One(m == Write(Producer(p)))
  {
    assert ProducerOk(c, s, p);
    if m.t != Producer(p) { OthersStay(s.b, m, Producer(p)); }
  }

  lemma TokensAct(c: Config, s: State, m: Move)
    requires Good(c, s) && CanAct(c, s, m)
    ensures Tokens(c, Acted(s, m, Do(s.b, m))) == Tokens(c, s) + One(m == Write(Driver))
  {
    if m.Write? {
      Writes(c, s, m.t);
      if m.t != Driver { OthersStay(s.b, m, Driver); }
    } else {
      ActTokens(c, s, m);
    }
  }

  /** What is unsent after a move: one less exactly when it wrote. */
  lemma UnsentAct(c: Config, s: State, m: Move, s': State)
    requires Good(c, s) && CanAct(c, s, m) && s' == Acted(s, m, Do(s.b, m))
    ensures Unsent(s', c.producers) - Tokens(c, s') == Unsent(s, c.producers) - Tokens(c, s) - One(m.Write?)
  {
    TokensAct(c, s, m);
    forall p: nat | p < c.producers ensures Rest(s', p) == Rest(s, p) - One(m == Write(Producer(p))) {
      RestAct(c, s, m, p);
    }
    if m.Write? { Writes(c, s, m.t); }
    if m.Write? && m.t.Producer? {
      UnsentLess(s, s', c.producers, m.t.i);
    } else {
      UnsentSame(s, s', c.producers);
    }
  }

  lemma ActLess(c: Config, s: State, m: Move)
    requires Good(c, s) && CanAct(c, s, m)
    ensures ToDo(c, Acted(s, m, Do(s.b, m))) < ToDo(c, s)
  {
    var b', s' := Do(s.b, m), Acted(s, m, Do(s.b, m));
    UnsentAct(c, s, m, s');
    RanksChange(s.b.pc, m.t, PcOf(b', m.t));
    assert b'.pc == s.b.pc[m.t := PcOf(b', m.t)];
    assert DriverLeft(c, s'.main) == DriverLeft(c, s.main) && s'.pdone == s.pdone && s'.cdone == s.cdone;
    MoveLess(s.b, m);
  }

  /** What a move does to the rest of the account. */
  lemma MoveLess(b: Buffer, m: Move)
    requires Inv(b) && Enabled(b, m)
    ensures var b' := Do(b, m);
            && b'.n == b.n
            && 10 * (|b'.sent| - |b'.got|) + Rank(PcOf(b', m.t)) - 20 * One(m.Write?)
               < 10 * (|b.sent| - |b.got|) + Rank(PcOf(b, m.t))
  {}

  lemma DoneLess(c: Config, s: State, step: Step)
    requires Good(c, s) && CanStep(c, s, step) && !step.Act?
    ensures ToDo(c, Next(c, s, step)) < ToDo(c, s)
  {
    var s' := Next(c, s, step);
    DoneMain(c, s, step);
    UnsentSame(s, s', c.producers);
  }

  /** Every step leaves less to do. */
  lemma StepLess(c: Config, s: State, step: Step)
    requires Good(c, s) && CanStep(c, s, step)
    ensures ToDo(c, Next(c, s, step)) < ToDo(c, s)
  {
    match step
    case Act(m) => ActLess(c, s, m);
    case _ => DoneLess(c, s, step);
  }

  lemma {:induction false} RunLess(c: Config, n: nat, tr: seq<State>, steps: seq<Step>, i: nat)
    requires IsRun(c, n, tr, steps) && i < |tr|
    ensures ToDo(c, tr[i]) <= ToDo(c, tr[0]) - i
    decreases i
  {
    if i > 0 {
      RunLess(c, n, tr, steps, i - 1);
      RunStepLess(c, n, tr, steps, i - 1);
    }
  }

  lemma RunStepLess(c: Config, n: nat, tr: seq<State>, steps: seq<Step>, i: nat)
    requires IsRun(c, n, tr, steps) && i < |steps|
    ensures ToDo(c, tr[i + 1]) < ToDo(c, tr[i])
  {
    RunKeeps(c, n, tr, steps, i);
    TakenLess(c, tr[i], steps[i], tr[i + 1]);
  }

  lemma TakenLess(c: Config, s: State, step: Step, s': State)
    requires Good(c, s) && StepTaken(c, s, step, s')
    ensures ToDo(c, s') < ToDo(c, s)
  {
    StepLess(c, s, step);
  }

  lemma {:induction false} StartUnsent(c: Config, n: nat, s: State, k: nat)
    requires Started(c, n, s) && k <= c.producers
    ensures Unsent(s, k) == k * c.items
  {
    if k > 0 {
      StartUnsent(c, n, s, k - 1);
      assert k - 1 in s.left && k * c.items == (k - 1) * c.items + c.items;
    }
  }

  /** The simulation ends: no run has more steps than this, whatever the threads do. */
  lemma RunEnds(c: Config, n: nat, tr: seq<State>, steps: seq<Step>)
    requires IsRun(c, n, tr, steps)
    ensures |steps| <= 20 * (c.producers * c.items + c.consumers) + 2 * n + 2 * c.producers + 2 * c.consumers + 3
  {
    RunLess(c, n, tr, steps, |steps|);
    RunKeeps(c, n, tr, steps, |steps|);
    ToDoPositive(c, tr[|steps|]);
    StartUnsent(c, n, tr[0], c.producers);
    assert forall r :: Ranked(tr[0].b.pc, r) == {};
  }

  /** A run that cannot go on has finished, and everything sent has been received. */
  lemma RunCompletes(c: Config, n: nat, tr: seq<State>, steps: seq<Step>)
    requires IsRun(c, n, tr, steps) && c.consumers > 0
    requires forall step :: !CanStep(c, tr[|steps|], step)
    ensures var s := tr[|steps|];
            && s.main.Finished? && s.b.got == s.b.sent
            && forall p: nat, k: nat ::
                 multiset(s.b.got)[Data(p, k)] == One(p < c.producers && 1 <= k <= c.items)
  {
    var s := tr[|steps|];
    RunKeeps(c, n, tr, steps, |steps|);
    if !s.main.Finished? {
      var step := Progress(c, s);
    }
    FinishedEmpty(c, s);
  }
}
