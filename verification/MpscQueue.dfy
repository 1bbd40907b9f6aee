/** The lock-free multi-producer, single-consumer queue of logger/MPSCQueue.h.

    `enqueue` is three steps (allocate, exchange the tail, link the predecessor)
    and `dequeue` four (load the link, move the value out, delete the old head,
    advance). Any number of producers interleave with the consumer under
    sequential consistency. The heap is explicit: `delete` removes an address,
    the allocator may hand a deleted address out again, and a step that touches
    an address that is not allocated raises `fault`. */
module MpscQueue {
  import opened Runs

  type Ptr = nat

  /** Whom a node belongs to: the producer that allocated it, or, once it has
      been the tail, its position in exchange order and the producer that put
      it there. Bookkeeping only: no step reads it. */
  datatype Place = Private(t: nat) | Position(k: nat, who: nat)

  /** `v` is None in the stub and in a node whose value was moved out. */
  datatype Node<+T> = Node(v: Option<T>, next: Option<Ptr>, at: Place)

  /** `Linking` carries, besides the two addresses the code holds, the position
      of `n` in exchange order. */
  datatype Producer = Idle | HasNode(n: Ptr) | Linking(p: Ptr, n: Ptr, k: nat)

  datatype Consumer<+T> = Ready | Loaded(next: Ptr) | Moved(next: Ptr, out: T) | Freed(next: Ptr, out: T)

  /** `order` lists every node that was ever the tail, in exchange order and
      starting with the stub; `enqueued` the values of all but the stub;
      `freed` counts the deleted nodes; `dequeued` the values handed out. */
  datatype State<+T> = State(
    heap: map<Ptr, Node<T>>, head: Ptr, tail: Ptr,
    producers: map<nat, Producer>, consumer: Consumer<T>,
    order: seq<Ptr>, enqueued: seq<T>, freed: nat, dequeued: seq<T>, fault: bool)

  datatype Action<+T> =
    | New(t: nat, n: Ptr, x: T) | Exchange(t: nat) | Link(t: nat)
    | Load | Move | Free | Advance

  function Pc<T>(s: State<T>, t: nat): Producer
  {
    if t in s.producers then s.producers[t] else Idle
  }

  function Initial<T>(stub: Ptr): (s: State<T>)
  {
    State(map[stub := Node(None, None, Position(0, 0))], stub, stub, map[], Ready, [stub], [], 0, [], false)
  }

  function Step<T>(s: State<T>, a: Action<T>): State<T>
  {
    match a
    case New(t, n, x) =>
      if Pc(s, t) == Idle && n !in s.heap then
        s.(heap := s.heap[n := Node(Some(x), None, Private(t))], producers := s.producers[t := HasNode(n)])
      else s
    case Exchange(t) =>
      if Pc(s, t).HasNode? then ExchangeStep(s, t) else s
    case Link(t) =>
      if Pc(s, t).Linking? then LinkStep(s, t) else s
    case Load =>
      if !s.consumer.Ready? then s
      else if s.head !in s.heap then s.(fault := true)
      else if s.heap[s.head].next.None? then s
      else s.(consumer := Loaded(s.heap[s.head].next.value))
    case Move =>
      if s.consumer.Loaded? then MoveStep(s) else s
    case Free =>
      if !s.consumer.Moved? then s
      else if s.head !in s.heap then s.(fault := true)
      else s.(heap := s.heap - {s.head}, freed := s.freed + 1,
              consumer := Freed(s.consumer.next, s.consumer.out))
    case Advance =>
      if s.consumer.Freed? then
        s.(head := s.consumer.next, dequeued := s.dequeued + [s.consumer.out], consumer := Ready)
      else s
  }

  function ExchangeStep<T>(s: State<T>, t: nat): State<T>
    requires Pc(s, t).HasNode?
  {
    var n := Pc(s, t).n;
    if n !in s.heap || s.heap[n].v.None? then s.(fault := true)
    else s.(heap := s.heap[n := s.heap[n].(at := Position(|s.order|, t))],
            tail := n, producers := s.producers[t := Linking(s.tail, n, |s.order|)],
            order := s.order + [n], enqueued := s.enqueued + [s.heap[n].v.value])
  }

  function LinkStep<T>(s: State<T>, t: nat): State<T>
    requires Pc(s, t).Linking?
  {
    var pc := Pc(s, t);
    if pc.p !in s.heap then s.(fault := true)
    else s.(heap := s.heap[pc.p := s.heap[pc.p].(next := Some(pc.n))],
            producers := s.producers - {t})
  }

  function MoveStep<T>(s: State<T>): State<T>
    requires s.consumer.Loaded?
  {
    var next := s.consumer.next;
    if next !in s.heap || s.heap[next].v.None? then s.(fault := true)
    else s.(heap := s.heap[next := s.heap[next].(v := None)],
            consumer := Moved(next, s.heap[next].v.value))
  }

  // ---------- The invariant ----------

  /** Position `i` of the exchange order is a node that is not deleted. */
  predicate Live<T>(s: State<T>, i: int)
  {
    s.freed <= i < |s.order|
  }

  /** The nodes from the head to the tail are allocated, each at its position. */
  ghost predicate Chain<T>(s: State<T>)
  {
    && s.freed < |s.order| == |s.enqueued| + 1
    && s.tail == s.order[|s.order| - 1]
    && (forall i :: Live(s, i) ==>
          s.order[i] in s.heap && s.heap[s.order[i]].at.Position? && s.heap[s.order[i]].at.k == i)
  }

  /** Every allocated node is in the chain or still private: nothing leaks. */
  ghost predicate NoLeak<T>(s: State<T>)
    requires Chain(s)
  {
    forall q :: q in s.heap ==>
      match s.heap[q].at
      case Position(k, who) => Live(s, k) && s.order[k] == q
      case Private(t) => Pc(s, t) == HasNode(q) && s.heap[q].v.Some? && s.heap[q].next == None
  }

  ghost predicate ProducerOk<T>(s: State<T>, t: nat)
    requires Chain(s)
  {
    match Pc(s, t)
    case Idle => true
    case HasNode(n) => n in s.heap && s.heap[n].at == Private(t)
    case Linking(p, n, k) =>
      s.freed < k < |s.order| && p == s.order[k - 1] && n == s.order[k] && s.heap[n].at.who == t
  }

  /** The producer of position `i` has not yet linked it to its predecessor. */
  ghost predicate Owed<T>(s: State<T>, i: int)
    requires Chain(s) && s.freed < i < |s.order|
  {
    assert Live(s, i);
    Pc(s, s.heap[s.order[i]].at.who) == Linking(s.order[i - 1], s.order[i], i)
  }

  ghost predicate LinkOk<T>(s: State<T>, i: int)
    requires Chain(s) && s.freed < i < |s.order|
  {
    assert Live(s, i - 1);
    s.heap[s.order[i - 1]].next == if Owed(s, i) then None else Some(s.order[i])
  }

  /** Position of the last node whose value has been moved out. */
  function LastMoved<T>(s: State<T>): nat
  {
    if s.consumer.Moved? then s.freed + 1 else s.freed
  }

  ghost predicate ValueOk<T>(s: State<T>, i: int)
    requires Chain(s) && LastMoved(s) < i < |s.order|
  {
    assert Live(s, i);
    s.heap[s.order[i]].v == Some(s.enqueued[i - 1])
  }

  ghost predicate ConsumerOk<T>(s: State<T>)
    requires Chain(s)
  {
    match s.consumer
    case Ready => s.head == s.order[s.freed] && s.dequeued == s.enqueued[..s.freed]
    case Loaded(next) =>
      && s.head == s.order[s.freed] && s.dequeued == s.enqueued[..s.freed]
      && s.freed + 1 < |s.order| && next == s.order[s.freed + 1] && !Owed(s, s.freed + 1)
    case Moved(next, out) =>
      && s.head == s.order[s.freed] && s.dequeued == s.enqueued[..s.freed]
      && s.freed + 1 < |s.order| && next == s.order[s.freed + 1] && !Owed(s, s.freed + 1)
      && out == s.enqueued[s.freed]
    case Freed(next, out) =>
      && 0 < s.freed && next == s.order[s.freed]
      && s.dequeued == s.enqueued[..s.freed - 1] && out == s.enqueued[s.freed - 1]
  }

  /** What the heap looks like: the chain, the private nodes, nothing else. */
  ghost predicate Shape<T>(s: State<T>)
  {
    && Chain(s)
    && NoLeak(s)
    && s.heap[s.tail].next == None
    && forall t :: ProducerOk(s, t)
  }

  /** What the links and values say, and where the consumer is. */
  ghost predicate Data<T>(s: State<T>)
    requires Chain(s)
  {
    && (forall i :: s.freed < i < |s.order| ==> LinkOk(s, i))
    && (forall i :: LastMoved(s) < i < |s.order| ==> ValueOk(s, i))
    && ConsumerOk(s)
  }

  ghost predicate Inv<T>(s: State<T>)
  {
    !s.fault && Shape(s) && Data(s)
  }

  lemma NewShape<T>(s: State<T>, t: nat, n: Ptr, x: T)
    requires Inv(s) && Pc(s, t) == Idle && n !in s.heap
    ensures Shape(Step(s, New(t, n, x))) && !Step(s, New(t, n, x)).fault
  {
    var r := Step(s, New(t, n, x));
    assert Chain(r) by { assert forall i :: Live(r, i) ==> Live(s, i) || i == |s.order|; }
    forall u ensures ProducerOk(r, u) { assert ProducerOk(s, u); }
  }

  lemma NewKeeps<T>(s: State<T>, t: nat, n: Ptr, x: T)
    requires Inv(s) && Pc(s, t) == Idle && n !in s.heap
    ensures Inv(Step(s, New(t, n, x)))
  {
    NewShape(s, t, n, x);
    var r := Step(s, New(t, n, x));
    forall i | r.freed < i < |r.order| ensures LinkOk(r, i) { assert LinkOk(s, i); }
    forall i | LastMoved(r) < i < |r.order| ensures ValueOk(r, i) { assert i < |s.order| ==> ValueOk(s, i); }
  }

  lemma ExchangeChain<T>(s: State<T>, t: nat)
    requires Inv(s) && Pc(s, t).HasNode?
    ensures Chain(Step(s, Exchange(t))) && !Step(s, Exchange(t)).fault
  {
    assert ProducerOk(s, t) && Live(s, |s.order| - 1);
    var r := Step(s, Exchange(t));
    assert forall i :: Live(r, i) ==> Live(s, i) || i == |s.order|;
  }

  lemma ExchangeShape<T>(s: State<T>, t: nat)
    requires Inv(s) && Pc(s, t).HasNode?
    ensures Shape(Step(s, Exchange(t)))
  {
    hide Data;
    ExchangeChain(s, t);
    assert ProducerOk(s, t) && Live(s, |s.order| - 1);
    var r := Step(s, Exchange(t));
    forall u ensures ProducerOk(r, u) { assert ProducerOk(s, u); }
  }

  lemma ExchangeLinkOk<T>(s: State<T>, t: nat, i: int)
    requires Chain(s) && Pc(s, t).HasNode? && ProducerOk(s, t) && s.tail in s.heap && s.heap[s.tail].next == None
    requires s.freed < i <= |s.order| && (i < |s.order| ==> LinkOk(s, i))
    requires Chain(Step(s, Exchange(t))) && !Step(s, Exchange(t)).fault
    ensures LinkOk(Step(s, Exchange(t)), i)
  {
    assert Live(s, i - 1) && (i < |s.order| ==> Live(s, i));
  }

  lemma ExchangeValueOk<T>(s: State<T>, t: nat, i: int)
    requires Inv(s) && Pc(s, t).HasNode? && ProducerOk(s, t)
    requires LastMoved(s) < i <= |s.order| && Chain(Step(s, Exchange(t))) && !Step(s, Exchange(t)).fault
    ensures ValueOk(Step(s, Exchange(t)), i)
  {
    assert i < |s.order| ==> Live(s, i) && ValueOk(s, i);
  }

  lemma ExchangeKeeps<T>(s: State<T>, t: nat)
    requires Inv(s) && Pc(s, t).HasNode?
    ensures Inv(Step(s, Exchange(t)))
  {
    hide LinkOk, ValueOk, NoLeak;
    ExchangeChain(s, t);
    ExchangeShape(s, t);
    assert ProducerOk(s, t) && Live(s, |s.order| - 1);
    var r := Step(s, Exchange(t));
    forall i | r.freed < i < |r.order| ensures LinkOk(r, i) { ExchangeLinkOk(s, t, i); }
    forall i | LastMoved(r) < i < |r.order| ensures ValueOk(r, i) { ExchangeValueOk(s, t, i); }
    assert s.freed + 1 < |s.order| ==> Live(s, s.freed + 1);
  }

  lemma LinkChain<T>(s: State<T>, t: nat)
    requires Inv(s) && Pc(s, t).Linking?
    ensures Chain(Step(s, Link(t))) && !Step(s, Link(t)).fault
  {
    hide Data, NoLeak;
    assert ProducerOk(s, t) && Live(s, Pc(s, t).k - 1);
    var r := Step(s, Link(t));
    assert forall i :: Live(r, i) ==> Live(s, i);
  }

  lemma LinkShape<T>(s: State<T>, t: nat)
    requires Inv(s) && Pc(s, t).Linking?
    ensures Shape(Step(s, Link(t)))
  {
    hide Data;
    LinkChain(s, t);
    assert ProducerOk(s, t) && Live(s, Pc(s, t).k - 1) && Live(s, |s.order| - 1);
    var r := Step(s, Link(t));
    forall u ensures ProducerOk(r, u) { LinkProducerOk(s, t, u); }
  }

  lemma LinkProducerOk<T>(s: State<T>, t: nat, u: nat)
    requires Chain(s) && Pc(s, t).Linking? && ProducerOk(s, t) && ProducerOk(s, u) && Chain(Step(s, Link(t)))
    ensures ProducerOk(Step(s, Link(t)), u)
  {
    assert Live(s, Pc(s, t).k - 1);
    if Pc(s, u).Linking? {
      assert Live(s, Pc(s, u).k);
    }
  }

  lemma LinkLinkOk<T>(s: State<T>, t: nat, i: int)
    requires Chain(s) && Pc(s, t).Linking? && ProducerOk(s, t)
    requires s.freed < i < |s.order| && LinkOk(s, i) && Chain(Step(s, Link(t)))
    ensures LinkOk(Step(s, Link(t)), i)
  {
    assert Live(s, Pc(s, t).k - 1) && Live(s, Pc(s, t).k) && Live(s, i - 1) && Live(s, i);
  }

  lemma LinkConsumerOk<T>(s: State<T>, t: nat)
    requires Chain(s) && Pc(s, t).Linking? && ProducerOk(s, t) && ConsumerOk(s) && Chain(Step(s, Link(t)))
    ensures ConsumerOk(Step(s, Link(t)))
  {
    assert Live(s, Pc(s, t).k - 1) && Live(s, s.freed);
    assert s.freed + 1 < |s.order| ==> Live(s, s.freed + 1);
  }

  lemma LinkKeeps<T>(s: State<T>, t: nat)
    requires Inv(s) && Pc(s, t).Linking?
    ensures Inv(Step(s, Link(t)))
  {
    hide LinkOk, NoLeak, ConsumerOk;
    LinkChain(s, t);
    LinkShape(s, t);
    assert ProducerOk(s, t) && Live(s, Pc(s, t).k - 1);
    LinkConsumerOk(s, t);
    var r := Step(s, Link(t));
    forall i | r.freed < i < |r.order| ensures LinkOk(r, i) { LinkLinkOk(s, t, i); }
    forall i | LastMoved(r) < i < |r.order| ensures ValueOk(r, i) { assert ValueOk(s, i) && Live(s, i); }
  }

  lemma LoadKeeps<T>(s: State<T>)
    requires Inv(s)
    ensures Inv(Step(s, Load))
  {
    assert Live(s, s.freed);
    if s.consumer.Ready? && s.heap[s.head].next.Some? {
      var r := Step(s, Load);
      assert LinkOk(s, s.freed + 1);
      assert forall i :: Live(r, i) ==> Live(s, i);
      assert Chain(r);
      forall i | r.freed < i < |r.order| ensures LinkOk(r, i) { assert LinkOk(s, i); }
      forall u ensures ProducerOk(r, u) { assert ProducerOk(s, u); }
      forall i | LastMoved(r) < i < |r.order| ensures ValueOk(r, i) { assert ValueOk(s, i); }
    }
  }

  lemma MoveShape<T>(s: State<T>)
    requires Inv(s) && s.consumer.Loaded?
    ensures Shape(Step(s, Move)) && !Step(s, Move).fault
  {
    assert Live(s, s.freed) && Live(s, s.freed + 1) && ValueOk(s, s.freed + 1);
    var r := Step(s, Move);
    assert Chain(r) by { assert forall i :: Live(r, i) ==> Live(s, i) || i == |s.order|; }
    forall u ensures ProducerOk(r, u) { assert ProducerOk(s, u); }
  }

  lemma MoveKeeps<T>(s: State<T>)
    requires Inv(s) && s.consumer.Loaded?
    ensures Inv(Step(s, Move))
  {
    MoveShape(s);
    assert Live(s, s.freed) && Live(s, s.freed + 1) && ValueOk(s, s.freed + 1);
    var r := Step(s, Move);
    forall i | r.freed < i < |r.order| ensures LinkOk(r, i) { assert LinkOk(s, i); }
    forall i | LastMoved(r) < i < |r.order| ensures ValueOk(r, i) { assert i < |s.order| ==> ValueOk(s, i); }
  }

  lemma AdvanceKeeps<T>(s: State<T>)
    requires Inv(s) && s.consumer.Freed?
    ensures Inv(Step(s, Advance))
  {
    var r := Step(s, Advance);
    assert forall i :: Live(r, i) ==> Live(s, i);
    assert Chain(r);
    forall i | r.freed < i < |r.order| ensures LinkOk(r, i) { assert LinkOk(s, i); }
    forall u ensures ProducerOk(r, u) { assert ProducerOk(s, u); }
    forall i | LastMoved(r) < i < |r.order| ensures ValueOk(r, i) { assert ValueOk(s, i); }
  }

  lemma FreeShape<T>(s: State<T>)
    requires Inv(s) && s.consumer.Moved?
    ensures Shape(Step(s, Free)) && !Step(s, Free).fault
  {
    assert Live(s, s.freed) && Live(s, s.freed + 1);
    var r := Step(s, Free);
    assert Chain(r) by { assert forall i :: Live(r, i) ==> Live(s, i) || i == |s.order|; }
    forall u ensures ProducerOk(r, u) { assert ProducerOk(s, u); }
  }

  lemma FreeKeeps<T>(s: State<T>)
    requires Inv(s) && s.consumer.Moved?
    ensures Inv(Step(s, Free))
  {
    FreeShape(s);
    assert Live(s, s.freed) && Live(s, s.freed + 1);
    var r := Step(s, Free);
    forall i | r.freed < i < |r.order| ensures LinkOk(r, i) { assert LinkOk(s, i); }
    forall i | LastMoved(r) < i < |r.order| ensures ValueOk(r, i) { assert i < |s.order| ==> ValueOk(s, i); }
  }

  lemma StepKeeps<T>(s: State<T>, a: Action<T>)
    requires Inv(s)
    ensures Inv(Step(s, a))
  {
    match a
    case New(t, n, x) => if Pc(s, t) == Idle && n !in s.heap { NewKeeps(s, t, n, x); }
    case Exchange(t) => if Pc(s, t).HasNode? { ExchangeKeeps(s, t); }
    case Link(t) => if Pc(s, t).Linking? { LinkKeeps(s, t); }
    case Free => if s.consumer.Moved? { FreeKeeps(s); }
    case Load => LoadKeeps(s);
    case Move => if s.consumer.Loaded? { MoveKeeps(s); }
    case Advance => if s.consumer.Freed? { AdvanceKeeps(s); }
  }

  lemma InitialOk<T>(stub: Ptr)
    ensures Inv(Initial<T>(stub))
  {
  }

  // ---------- Every run ----------

  ghost function After<T>(stub: Ptr, acts: seq<Action<T>>): State<T>
  {
    Exec(Step, Initial(stub), acts)
  }

  lemma RunKeeps<T(!new)>(stub: Ptr, acts: seq<Action<T>>)
    ensures Inv(After(stub, acts))
  {
    InitialOk<T>(stub);
    forall s: State<T>, a: Action<T> | Inv(s) ensures Inv(Step(s, a)) { StepKeeps(s, a); }
    Always(Step, Inv, Initial(stub), acts);
  }

  /** A call of enqueue in progress, as its caller sees it: with the value in
      hand, or past the exchange. */
  datatype Call<+T> = Holds(x: T) | Links

  type Callers<+T> = map<nat, Call<T>>

  function CallsNext<T>(s: State<T>, a: Action<T>, calls: Callers<T>): Callers<T>
  {
    match a
    case New(t, n, x) => if t !in calls && n !in s.heap then calls[t := Holds(x)] else calls
    case Exchange(t) => if t in calls && calls[t].Holds? then calls[t := Links] else calls
    case Link(t) => if t in calls && calls[t].Links? then calls - {t} else calls
    case _ => calls
  }

  /** The value that this step puts into the queue. */
  function Puts<T>(a: Action<T>, calls: Callers<T>): seq<T>
  {
    if a.Exchange? && a.t in calls && calls[a.t].Holds? then [calls[a.t].x] else []
  }

  /** The arguments of the calls of enqueue in `acts`, in the order of their
      exchanges. */
  ghost function Sent<T>(s: State<T>, acts: seq<Action<T>>, calls: Callers<T>): seq<T>
    decreases acts
  {
    if acts == [] then []
    else Puts(acts[0], calls) + Sent(Step(s, acts[0]), acts[1..], CallsNext(s, acts[0], calls))
  }

  ghost predicate CallOk<T>(s: State<T>, calls: Callers<T>, t: nat)
  {
    match Pc(s, t)
    case Idle => t !in calls
    case HasNode(n) => t in calls && calls[t].Holds? && n in s.heap && s.heap[n].v == Some(calls[t].x)
    case Linking(_, _, _) => t in calls && calls[t].Links?
  }

  ghost predicate CallsOk<T>(s: State<T>, calls: Callers<T>)
  {
    forall t :: CallOk(s, calls, t)
  }

  lemma CallStep<T>(s: State<T>, a: Action<T>, calls: Callers<T>, t: nat)
    requires Inv(s) && CallsOk(s, calls)
    ensures CallOk(Step(s, a), CallsNext(s, a, calls), t)
  {
    assert CallOk(s, calls, t) && ProducerOk(s, t);
    if a.New? || a.Exchange? || a.Link? {
      assert CallOk(s, calls, a.t) && ProducerOk(s, a.t);
      hide Inv, ProducerOk, Live;
    } else {
      ConsumerSparesHeld(s, a, t);
    }
  }

  /** The consumer does not touch a node that a producer still has to itself. */
  lemma ConsumerSparesHeld<T>(s: State<T>, a: Action<T>, t: nat)
    requires Inv(s) && !a.New? && !a.Exchange? && !a.Link?
    ensures Pc(Step(s, a), t) == Pc(s, t)
    ensures Pc(s, t).HasNode? ==>
      var n := Pc(s, t).n; n in s.heap && n in Step(s, a).heap && Step(s, a).heap[n] == s.heap[n]
  {
    assert ProducerOk(s, t);
    if a.Move? && s.consumer.Loaded? { assert Live(s, s.freed + 1); }
    if a.Free? { assert Live(s, s.freed); }
  }

  lemma PutStep<T>(s: State<T>, a: Action<T>, calls: Callers<T>)
    requires Inv(s) && CallsOk(s, calls)
    ensures Step(s, a).enqueued == s.enqueued + Puts(a, calls)
  {
    if a.Exchange? { assert CallOk(s, calls, a.t) && ProducerOk(s, a.t); }
  }

  lemma {:induction false} SentRun<T>(s: State<T>, acts: seq<Action<T>>, calls: Callers<T>)
    requires Inv(s) && CallsOk(s, calls)
    ensures Exec(Step, s, acts).enqueued == s.enqueued + Sent(s, acts, calls)
    decreases acts
  {
    hide Inv, Step, CallOk, CallsNext, Puts;
    if acts != [] {
      StepKeeps(s, acts[0]);
      PutStep(s, acts[0], calls);
      forall t ensures CallOk(Step(s, acts[0]), CallsNext(s, acts[0], calls), t) { CallStep(s, acts[0], calls, t); }
      SentRun(Step(s, acts[0]), acts[1..], CallsNext(s, acts[0], calls));
    }
  }

  lemma EnqueuedIsSent<T>(stub: Ptr, acts: seq<Action<T>>)
    ensures After(stub, acts).enqueued == Sent(Initial(stub), acts, map[])
  {
    hide Inv, Step, Sent;
    InitialOk<T>(stub);
    SentRun<T>(Initial(stub), acts, map[]);
  }

  /** In every interleaving the values handed out are a prefix of the arguments of
      enqueue in tail-exchange order, and those not handed out yet sit, in that
      order, in the nodes behind the head: nothing is lost, duplicated or
      reordered. */
  lemma Fifo<T(!new)>(stub: Ptr, acts: seq<Action<T>>)
    ensures var s := After(stub, acts);
      && s.enqueued == Sent(Initial(stub), acts, map[])
      && s.dequeued <= s.enqueued
      && (s.consumer.Ready? ==> s.freed == |s.dequeued|)
      && |s.order| == |s.enqueued| + 1
      && forall i :: LastMoved(s) < i < |s.order| ==>
           s.order[i] in s.heap && s.heap[s.order[i]].v == Some(s.enqueued[i - 1])
  {
    hide Step, Sent;
    RunKeeps(stub, acts);
    EnqueuedIsSent(stub, acts);
    var s := After(stub, acts);
    forall i | LastMoved(s) < i < |s.order|
      ensures s.order[i] in s.heap && s.heap[s.order[i]].v == Some(s.enqueued[i - 1])
    {
      assert Live(s, i) && ValueOk(s, i);
    }
  }

  /** `dequeue` answers false exactly when every value has been taken or the
      producer of the next value is stopped between its exchange and its link. */
  lemma EmptyExactly<T(!new)>(stub: Ptr, acts: seq<Action<T>>)
    ensures var s := After(stub, acts);
      s.consumer.Ready? ==>
        && s.head in s.heap
        && (Step(s, Load).consumer.Ready? <==> s.heap[s.head].next == None)
        && (s.heap[s.head].next == None <==>
              s.dequeued == s.enqueued || exists t :: Pc(s, t).Linking? && Pc(s, t).p == s.head)
  {
    RunKeeps(stub, acts);
    var s := After(stub, acts);
    if s.consumer.Ready? {
      assert Live(s, s.freed);
      if s.freed + 1 < |s.order| {
        assert LinkOk(s, s.freed + 1) && Live(s, s.freed + 1);
        if t :| Pc(s, t).Linking? && Pc(s, t).p == s.head {
          assert ProducerOk(s, t) && Live(s, Pc(s, t).k - 1);
        }
        if Owed(s, s.freed + 1) {
          var t := s.heap[s.order[s.freed + 1]].at.who;
          assert Pc(s, t).Linking? && Pc(s, t).p == s.head;
        }
      }
    }
  }

  /** A dequeue that found a node goes on to hand out the next value in order,
      whatever the producers do in between. */
  lemma DequeueProgress<T(!new)>(stub: Ptr, acts: seq<Action<T>>)
    ensures var s := After(stub, acts);
      && (s.consumer.Loaded? ==> Step(s, Move).consumer.Moved?)
      && (s.consumer.Moved? ==> Step(s, Free).consumer.Freed?)
      && (s.consumer.Freed? ==>
            var r := Step(s, Advance);
            r.consumer.Ready? && |s.dequeued| < |s.enqueued| && r.dequeued == s.dequeued + [s.enqueued[|s.dequeued|]])
  {
    RunKeeps(stub, acts);
    var s := After(stub, acts);
    StepKeeps(s, Advance);
    if s.consumer.Loaded? || s.consumer.Moved? {
      assert Live(s, s.freed) && Live(s, s.freed + 1);
      assert s.consumer.Loaded? ==> ValueOk(s, s.freed + 1);
    }
  }

  /** What counts as touching: a step that reads or writes an address that is not
      allocated raises `fault`, for good. */
  lemma TouchingFreedFaults<T>(s: State<T>, t: nat, a: Action<T>)
    ensures s.head !in s.heap && s.consumer.Ready? ==> Step(s, Load).fault
    ensures s.consumer.Loaded? && s.consumer.next !in s.heap ==> Step(s, Move).fault
    ensures s.head !in s.heap && s.consumer.Moved? ==> Step(s, Free).fault
    ensures Pc(s, t).HasNode? && Pc(s, t).n !in s.heap ==> Step(s, Exchange(t)).fault
    ensures Pc(s, t).Linking? && Pc(s, t).p !in s.heap ==> Step(s, Link(t)).fault
    ensures s.fault ==> Step(s, a).fault
  {
  }

  /** No step of any run touches a deleted node, and the node about to be
      deleted is neither the tail nor a predecessor some producer will link. */
  lemma NoUseAfterFree<T(!new)>(stub: Ptr, acts: seq<Action<T>>)
    ensures var s := After(stub, acts);
      && !s.fault
      && s.tail in s.heap
      && (forall t :: Pc(s, t).Linking? ==> Pc(s, t).p in s.heap)
      && (s.consumer.Moved? ==>
            && s.head in s.heap && s.head != s.tail
            && forall t :: Pc(s, t).Linking? ==> Pc(s, t).p != s.head)
  {
    RunKeeps(stub, acts);
    var s := After(stub, acts);
    assert Live(s, |s.order| - 1) && Live(s, s.freed);
    forall t | Pc(s, t).Linking?
      ensures Pc(s, t).p in s.heap && (s.consumer.Moved? ==> Pc(s, t).p != s.head)
    {
      assert ProducerOk(s, t) && Live(s, Pc(s, t).k - 1) && LinkOk(s, Pc(s, t).k);
    }
  }

  /** With no call in progress the heap holds exactly the stub and one node for
      each value not yet taken: every other node was deleted, and none leaked. */
  lemma NoLeakAtRest<T(!new)>(stub: Ptr, acts: seq<Action<T>>)
    ensures var s := After(stub, acts);
      s.consumer.Ready? && (forall t :: Pc(s, t) == Idle) ==>
        && s.heap.Keys == (set i | s.freed <= i < |s.order| :: s.order[i])
        && |s.order| - s.freed == |s.enqueued| - |s.dequeued| + 1
  {
    RunKeeps(stub, acts);
    var s := After(stub, acts);
    if s.consumer.Ready? && (forall t :: Pc(s, t) == Idle) {
      assert forall i :: s.freed <= i < |s.order| ==> Live(s, i) && s.order[i] in s.heap;
    }
  }
}

/** The queue as an object, used by one thread at a time. The allocator's answer
    is the parameter `n` of `Enqueue`. */
module MpscQueueObject {
  import opened Runs
  import opened MpscQueue

  /** The effect of the three steps of `enqueue` with nothing in between. */
  lemma EnqueueWhole<T>(s: State<T>, n: Ptr, x: T)
    requires Inv(s) && s.producers == map[] && n !in s.heap
    ensures s.tail in s.heap
    ensures Inv(s.(heap := s.heap[n := Node(Some(x), None, Position(|s.order|, 0))]
                                 [s.tail := s.heap[s.tail].(next := Some(n))],
                   tail := n, order := s.order + [n], enqueued := s.enqueued + [x]))
  {
    assert Live(s, |s.order| - 1);
    hide Inv, Step;
    var s1 := s.(heap := s.heap[n := Node(Some(x), None, Private(0))], producers := map[0 := HasNode(n)]);
    var s2 := s.(heap := s.heap[n := Node(Some(x), None, Position(|s.order|, 0))], tail := n,
                 producers := map[0 := Linking(s.tail, n, |s.order|)],
                 order := s.order + [n], enqueued := s.enqueued + [x]);
    StepKeeps(s, New(0, n, x));
    AfterNew(s, n, x);
    StepKeeps(s1, Exchange(0));
    AfterExchange(s1, n, x);
    assert s1.heap[n := Node(Some(x), None, Position(|s.order|, 0))] == s2.heap;
    assert s1.producers[0 := Linking(s.tail, n, |s.order|)] == s2.producers;
    StepKeeps(s2, Link(0));
    AfterLink(s2, s.tail, n);
    assert s2.producers - {0} == map[];
  }

  lemma AfterNew<T>(s: State<T>, n: Ptr, x: T)
    requires s.producers == map[] && n !in s.heap
    ensures Step(s, New(0, n, x)) ==
      s.(heap := s.heap[n := Node(Some(x), None, Private(0))], producers := map[0 := HasNode(n)])
  {
  }

  lemma AfterExchange<T>(s: State<T>, n: Ptr, x: T)
    requires Pc(s, 0) == HasNode(n) && n in s.heap && s.heap[n] == Node(Some(x), None, Private(0))
    ensures Step(s, Exchange(0)) ==
      s.(heap := s.heap[n := Node(Some(x), None, Position(|s.order|, 0))], tail := n,
         producers := s.producers[0 := Linking(s.tail, n, |s.order|)],
         order := s.order + [n], enqueued := s.enqueued + [x])
  {
  }

  lemma AfterLink<T>(s: State<T>, p: Ptr, n: Ptr)
    requires Pc(s, 0).Linking? && Pc(s, 0).p == p && Pc(s, 0).n == n && p in s.heap
    ensures Step(s, Link(0)) ==
      s.(heap := s.heap[p := s.heap[p].(next := Some(n))], producers := s.producers - {0})
  {
  }

  /** With no producer at work, the head has a successor exactly when a value waits. */
  lemma HeadFacts<T>(s: State<T>)
    requires Inv(s) && s.consumer.Ready? && s.producers == map[]
    ensures s.head in s.heap && s.freed <= |s.enqueued|
    ensures s.heap[s.head].next == None <==> s.freed == |s.enqueued|
    ensures s.heap[s.head].next.Some? ==>
      var next := s.heap[s.head].next.value;
      next in s.heap && s.heap[next].v == Some(s.enqueued[s.freed])
  {
    assert Live(s, s.freed);
    if s.freed + 1 < |s.order| {
      assert LinkOk(s, s.freed + 1) && Live(s, s.freed + 1) && ValueOk(s, s.freed + 1);
    }
  }

  /** The effect of the four steps of `dequeue` with nothing in between. */
  lemma DequeueWhole<T>(s: State<T>, next: Ptr, x: T)
    requires Inv(s) && s.consumer.Ready?
    requires s.head in s.heap && s.heap[s.head].next == Some(next)
    requires next in s.heap && s.heap[next].v == Some(x)
    ensures Inv(s.(heap := s.heap[next := s.heap[next].(v := None)] - {s.head}, head := next,
                   freed := s.freed + 1, dequeued := s.dequeued + [x]))
  {
    hide Inv;
    StepKeeps(s, Load);
    var s1 := s.(consumer := Loaded(next));
    assert s1 == Step(s, Load);
    StepKeeps(s1, Move);
    var s2 := s.(heap := s.heap[next := s.heap[next].(v := None)], consumer := Moved(next, x));
    assert s2 == Step(s1, Move);
    StepKeeps(s2, Free);
    var s3 := s2.(heap := s2.heap - {s.head}, freed := s.freed + 1, consumer := Freed(next, x));
    assert s3 == Step(s2, Free);
    StepKeeps(s3, Advance);
  }

  class MpscAtomicQueue<T(!new)> {
    var heap: map<Ptr, Node<T>>
    var head: Ptr
    var tail: Ptr
    // History, as in `State`; no branch depends on it.
    var order: seq<Ptr>
    var enqueued: seq<T>
    var freed: nat
    var dequeued: seq<T>

    ghost function View(): State<T>
      reads this
    {
      State(heap, head, tail, map[], Ready, order, enqueued, freed, dequeued, false)
    }

    ghost predicate Valid()
      reads this
    {
      Inv(View())
    }

    /** The values enqueued and not yet dequeued. */
    ghost function Contents(): seq<T>
      requires Valid()
      reads this
    {
      enqueued[freed..]
    }

    constructor (stub: Ptr)
      ensures Valid() && Contents() == []
    {
      heap, head, tail := map[stub := Node(None, None, Position(0, 0))], stub, stub;
      order, enqueued, freed, dequeued := [stub], [], 0, [];
      new;
      InitialOk<T>(stub);
    }

    method Enqueue(x: T, n: Ptr)
      requires Valid() && n !in heap
      modifies this
      ensures Valid() && Contents() == old(Contents()) + [x]
    {
      EnqueueWhole(View(), n, x);
      heap := heap[n := Node(Some(x), None, Position(|order|, 0))];
      order, enqueued := order + [n], enqueued + [x];
      var p := tail;
      tail := n;
      heap := heap[p := heap[p].(next := Some(n))];
    }

    method Dequeue() returns (out: Option<T>)
      requires Valid()
      modifies this
      ensures Valid()
      ensures old(Contents()) == [] ==> out == None && Contents() == []
      ensures old(Contents()) != [] ==> out == Some(old(Contents())[0]) && Contents() == old(Contents())[1..]
    {
      HeadFacts(View());
      var next := heap[head].next;
      if next == None {
        return None;
      }
      out := heap[next.value].v;
      DequeueWhole(View(), next.value, out.value);
      heap := heap[next.value := heap[next.value].(v := None)];
      heap := heap - {head};
      head := next.value;
      freed, dequeued := freed + 1, dequeued + [out.value];
    }

    /** Hands at most `max` values, oldest first, to the caller's function. */
    method Drain(max: nat) returns (items: seq<T>)
      requires Valid()
      modifies this
      ensures Valid() && old(Contents()) == items + Contents()
      ensures |items| == if max < |old(Contents())| then max else |old(Contents())|
    {
      hide Inv;
      items := [];
      var more := true;
      while |items| < max && more
        invariant Valid() && |items| <= max && old(Contents()) == items + Contents()
        invariant !more ==> Contents() == []
        decreases max - |items|, more
      {
        var item := Dequeue();
        if item == None {
          more := false;
        } else {
          items := items + [item.value];
        }
      }
    }

    /** The destructor: drain, then delete the last node. Nothing stays allocated. */
    method Destroy()
      requires Valid()
      modifies this
      ensures heap == map[]
    {
      var more := true;
      while more
        invariant Valid() && (!more ==> Contents() == [])
        decreases |Contents()|, more
      {
        var item := Dequeue();
        more := item != None;
      }
      ghost var s := View();
      assert Live(s, freed);
      forall q | q in heap ensures q == head {
        assert s.heap[q].at.Position?;
      }
      heap := heap - {head};
    }
  }
}
