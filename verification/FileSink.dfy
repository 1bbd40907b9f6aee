/** The asynchronous log sink of logger/AsyncFileSink.cpp: any number of threads
    submit lines through the lock-free queue, one worker takes them out, buffers
    them and writes the file. write(2) is taken to write all it is given. */
module FileSink {
  import opened Runs
  import Q = MpscQueue

  const FLUSH_BYTES: nat := 64 * 1024

  /** Where the worker is: at the head of its loop, in a call of dequeue of the
      loop or of the final drain, before the flush test, or finished. */
  datatype WorkerPc = Head | Try(final: bool) | InDequeue(final: bool) | Check | Done

  datatype Sink = Sink(
    queue: Q.State<string>, running: bool, pc: WorkerPc, buf: string, since: nat, nextSync: int, file: string)

  datatype Options = Options(syncBytes: nat, interval: int)

  /** `Submit` is a step of a producer in enqueue; `Work` the next step of the
      worker, which reads the clock as `now`. */
  datatype Action = Submit(a: Q.Action<string>) | Stop | Work(now: int)

  function Concat(lines: seq<string>): string
  {
    if lines == [] then "" else Concat(lines[..|lines| - 1]) + lines[|lines| - 1]
  }

  function Initial(stub: Q.Ptr, start: int): Sink
  {
    Sink(Q.Initial(stub), true, Head, "", 0, start, "")
  }

  /** One step of dequeue after its load; the last one delivers the line. */
  function Dequeue(s: Sink, final: bool): Sink
  {
    match s.queue.consumer
    case Loaded(_) => s.(queue := Q.Step(s.queue, Q.Move))
    case Moved(_, _) => s.(queue := Q.Step(s.queue, Q.Free))
    case Freed(_, line) =>
      s.(queue := Q.Step(s.queue, Q.Advance), buf := s.buf + line,
         since := if final then s.since else s.since + |line|, pc := if final then Try(true) else Check)
    case Ready => s
  }

  /** The load of dequeue: it finds a node, or dequeue answers false. */
  function Load(s: Sink, final: bool): Sink
  {
    var q := Q.Step(s.queue, Q.Load);
    if q.consumer.Loaded? then s.(queue := q, pc := InDequeue(final))
    else if final then s.(queue := q, file := s.file + s.buf, pc := Done)
    else s.(queue := q, pc := Check)
  }

  function FlushTest(s: Sink, o: Options, now: int): Sink
  {
    if |s.buf| >= FLUSH_BYTES || s.since >= o.syncBytes || now >= s.nextSync then
      s.(file := s.file + s.buf, buf := "", since := 0, nextSync := now + o.interval, pc := Head)
    else s.(pc := Head)
  }

  function Step(o: Options, s: Sink, a: Action): Sink
  {
    match a
    case Submit(p) =>
      if p.New? || p.Exchange? || p.Link? then s.(queue := Q.Step(s.queue, p)) else s
    case Stop => s.(running := false)
    case Work(now) =>
      match s.pc
      case Head => s.(pc := Try(!s.running))
      case Try(final) => Load(s, final)
      case InDequeue(final) => Dequeue(s, final)
      case Check => FlushTest(s, o, now)
      case Done => s
  }

  // ---------- The invariant ----------

  ghost predicate Inv(s: Sink)
  {
    && Q.Inv(s.queue)
    && (s.queue.consumer.Ready? <==> !s.pc.InDequeue?)
    && (if s.pc.Done? then s.file else s.file + s.buf) == Concat(s.queue.dequeued)
    && (s.pc.Head? ==> s.since == |s.buf| < FLUSH_BYTES)
    && (s.pc == Try(false) || s.pc == InDequeue(false) || s.pc.Check? ==> s.since == |s.buf|)
    && (s.pc == Try(true) || s.pc == InDequeue(true) || s.pc.Done? ==> !s.running)
  }

  lemma SubmitKeeps(s: Sink, p: Q.Action<string>)
    requires Inv(s) && (p.New? || p.Exchange? || p.Link?)
    ensures Inv(s.(queue := Q.Step(s.queue, p)))
  {
    hide Q.Inv, Q.Step;
    Q.StepKeeps(s.queue, p);
    SubmitSparesConsumer(s.queue, p);
  }

  lemma SubmitSparesConsumer(q: Q.State<string>, p: Q.Action<string>)
    requires p.New? || p.Exchange? || p.Link?
    ensures Q.Step(q, p).consumer == q.consumer && Q.Step(q, p).dequeued == q.dequeued
  {
  }

  lemma LoadKeeps(s: Sink, final: bool)
    requires Inv(s) && s.pc == Try(final)
    ensures Inv(Load(s, final))
  {
    hide Q.Inv, Q.Step;
    Q.StepKeeps(s.queue, Q.Load);
    LoadEffect(s.queue);
  }

  lemma LoadEffect(q: Q.State<string>)
    requires Q.Inv(q) && q.consumer.Ready?
    ensures var r := Q.Step(q, Q.Load); r.dequeued == q.dequeued && (r.consumer.Ready? || r.consumer.Loaded?)
  {
  }

  lemma DequeueKeeps(s: Sink, final: bool)
    requires Inv(s) && s.pc == InDequeue(final)
    ensures Inv(Dequeue(s, final))
  {
    hide Q.Inv, Q.Step, Concat;
    DequeueEffect(s.queue);
    match s.queue.consumer
    case Loaded(_) => Q.StepKeeps(s.queue, Q.Move);
    case Moved(_, _) => Q.StepKeeps(s.queue, Q.Free);
    case Freed(_, line) =>
      Q.StepKeeps(s.queue, Q.Advance);
      ConcatSnoc(s.queue.dequeued, line);
      assert s.file + (s.buf + line) == s.file + s.buf + line;
  }

  lemma ConcatSnoc(lines: seq<string>, line: string)
    ensures Concat(lines + [line]) == Concat(lines) + line
  {
    assert (lines + [line])[..|lines|] == lines;
  }

  lemma DequeueEffect(q: Q.State<string>)
    requires Q.Inv(q)
    ensures q.consumer.Loaded? ==> Q.Step(q, Q.Move).consumer.Moved? && Q.Step(q, Q.Move).dequeued == q.dequeued
    ensures q.consumer.Moved? ==> Q.Step(q, Q.Free).consumer.Freed? && Q.Step(q, Q.Free).dequeued == q.dequeued
    ensures q.consumer.Freed? ==>
      Q.Step(q, Q.Advance).consumer.Ready? && Q.Step(q, Q.Advance).dequeued == q.dequeued + [q.consumer.out]
  {
    Q.StepKeeps(q, Q.Move);
    Q.StepKeeps(q, Q.Free);
  }

  lemma StepKeeps(o: Options, s: Sink, a: Action)
    requires Inv(s)
    ensures Inv(Step(o, s, a))
  {
    hide Q.Inv, Q.Step, Load, Dequeue;
    match a
    case Submit(p) => if p.New? || p.Exchange? || p.Link? { SubmitKeeps(s, p); }
    case Stop =>
    case Work(now) =>
      match s.pc {
        case Try(final) => LoadKeeps(s, final);
        case InDequeue(final) => DequeueKeeps(s, final);
        case Check => assert s.file + s.buf + "" == s.file + s.buf;
        case _ =>
      }
  }

  ghost function After(o: Options, stub: Q.Ptr, start: int, acts: seq<Action>): Sink
  {
    Exec((s: Sink, a: Action) => Step(o, s, a), Initial(stub, start), acts)
  }

  lemma RunKeeps(o: Options, stub: Q.Ptr, start: int, acts: seq<Action>)
    ensures Inv(After(o, stub, start, acts))
  {
    hide Q.Inv;
    Q.InitialOk<string>(stub);
    forall s: Sink, a: Action | Inv(s) ensures Inv(Step(o, s, a)) { StepKeeps(o, s, a); }
    Always((s: Sink, a: Action) => Step(o, s, a), Inv, Initial(stub, start), acts);
  }

  // ---------- The submits of a run ----------

  predicate Produces(a: Action)
  {
    a.Submit? && (a.a.New? || a.a.Exchange? || a.a.Link?)
  }

  /** The arguments of submit in `acts`, in the order of their exchanges. */
  ghost function Lines(o: Options, s: Sink, acts: seq<Action>, calls: Q.Callers<string>): seq<string>
    decreases acts
  {
    if acts == [] then []
    else
      var r := Step(o, s, acts[0]);
      if Produces(acts[0]) then
        Q.Puts(acts[0].a, calls) + Lines(o, r, acts[1..], Q.CallsNext(s.queue, acts[0].a, calls))
      else Lines(o, r, acts[1..], calls)
  }

  /** The worker's step on the queue, if it makes one. */
  function Consumes(s: Sink): Option<Q.Action<string>>
  {
    match s.pc
    case Try(_) => Some(Q.Load)
    case InDequeue(_) =>
      if s.queue.consumer.Loaded? then Some(Q.Move)
      else if s.queue.consumer.Moved? then Some(Q.Free)
      else Some(Q.Advance)
    case _ => None
  }

  lemma QueueStep(o: Options, s: Sink, a: Action)
    requires Inv(s)
    ensures Step(o, s, a).queue ==
      if Produces(a) then Q.Step(s.queue, a.a)
      else if a.Work? && Consumes(s).Some? then Q.Step(s.queue, Consumes(s).value)
      else s.queue
  {
    hide Q.Step, Q.Inv;
  }

  lemma LineStep(o: Options, s: Sink, a: Action, calls: Q.Callers<string>)
    requires Inv(s) && Q.CallsOk(s.queue, calls)
    ensures var next := if Produces(a) then Q.CallsNext(s.queue, a.a, calls) else calls;
      Q.CallsOk(Step(o, s, a).queue, next)
    ensures Step(o, s, a).queue.enqueued == s.queue.enqueued + if Produces(a) then Q.Puts(a.a, calls) else []
  {
    hide Step, Q.Step, Q.Inv, Q.CallOk;
    QueueStep(o, s, a);
    if Produces(a) {
      QueueCallsStep(s.queue, a.a, calls);
    } else if a.Work? && Consumes(s).Some? {
      QueueCallsStep(s.queue, Consumes(s).value, calls);
    }
  }

  lemma QueueCallsStep(q: Q.State<string>, p: Q.Action<string>, calls: Q.Callers<string>)
    requires Q.Inv(q) && Q.CallsOk(q, calls)
    ensures Q.CallsOk(Q.Step(q, p), Q.CallsNext(q, p, calls))
    ensures Q.Step(q, p).enqueued == q.enqueued + Q.Puts(p, calls)
  {
    hide Q.Step, Q.Inv, Q.CallOk;
    Q.PutStep(q, p, calls);
    forall t ensures Q.CallOk(Q.Step(q, p), Q.CallsNext(q, p, calls), t) { Q.CallStep(q, p, calls, t); }
  }

  lemma {:induction false} LinesRun(o: Options, s: Sink, acts: seq<Action>, calls: Q.Callers<string>)
    requires Inv(s) && Q.CallsOk(s.queue, calls)
    ensures Exec((s: Sink, a: Action) => Step(o, s, a), s, acts).queue.enqueued == s.queue.enqueued + Lines(o, s, acts, calls)
    decreases acts
  {
    hide Step, Inv, Q.CallsOk, Q.CallsNext, Q.Puts;
    if acts != [] {
      LineStep(o, s, acts[0], calls);
      StepKeeps(o, s, acts[0]);
      LinesRun(o, Step(o, s, acts[0]), acts[1..],
               if Produces(acts[0]) then Q.CallsNext(s.queue, acts[0].a, calls) else calls);
    }
  }

  ghost function Submitted(o: Options, stub: Q.Ptr, start: int, acts: seq<Action>): seq<string>
  {
    Lines(o, Initial(stub, start), acts, map[])
  }

  lemma EnqueuedIsSubmitted(o: Options, stub: Q.Ptr, start: int, acts: seq<Action>)
    ensures After(o, stub, start, acts).queue.enqueued == Submitted(o, stub, start, acts)
  {
    hide Q.Inv, Step;
    Q.InitialOk<string>(stub);
    LinesRun(o, Initial(stub, start), acts, map[]);
  }

  // ---------- What the worker gets done ----------

  /** The flush test writes the buffer, empties it and sets the next deadline if it
      is large, or due by size or time, and otherwise leaves all of them alone. */
  lemma FlushesWhenDue(o: Options, s: Sink, now: int)
    requires Inv(s) && s.pc.Check?
    ensures var r := Step(o, s, Work(now));
      var due := |s.buf| >= 65536 || |s.buf| >= o.syncBytes || now >= s.nextSync;
      && r.pc.Head? && r.queue == s.queue && r.running == s.running
      && (due ==> r.file == s.file + s.buf && r.buf == "" && r.nextSync == now + o.interval)
      && (!due ==> r.file == s.file && r.buf == s.buf && r.nextSync == s.nextSync)
  {
    hide Q.Inv;
  }

  /** A line that dequeue delivers ends the buffer; the loop goes on to the flush
      test, the final drain to the next line. */
  lemma DeliversLine(o: Options, s: Sink, now: int)
    requires Inv(s) && s.pc.InDequeue? && s.queue.consumer.Freed?
    ensures var r := Step(o, s, Work(now));
      && r.buf == s.buf + s.queue.consumer.out && r.file == s.file
      && r.since == s.since + (if s.pc.final then 0 else |s.queue.consumer.out|)
      && r.pc == if s.pc.final then Try(true) else Check
  {
    hide Q.Inv, Q.Step;
  }

  lemma {:induction false} RunningRun(o: Options, s: Sink, acts: seq<Action>)
    ensures Exec((s: Sink, a: Action) => Step(o, s, a), s, acts).running <==> s.running && Stop !in acts
    decreases acts
  {
    hide Q.Step;
    if acts != [] {
      RunningRun(o, Step(o, s, acts[0]), acts[1..]);
      assert acts == [acts[0]] + acts[1..];
    }
  }

  /** The worker keeps to its loop until stop() is called, and only then drains. */
  lemma RunsUntilStop(o: Options, stub: Q.Ptr, start: int, acts: seq<Action>)
    ensures var s := After(o, stub, start, acts);
      && (s.running <==> Stop !in acts)
      && (s.pc == Try(true) || s.pc == InDequeue(true) || s.pc.Done? ==> Stop in acts)
  {
    hide Q.Inv, Step;
    RunKeeps(o, stub, start, acts);
    RunningRun(o, Initial(stub, start), acts);
  }

  /** The worker makes `n` steps on its own. */
  function Works(o: Options, s: Sink, now: int, n: nat): Sink
    decreases n
  {
    if n == 0 then s else Works(o, Step(o, s, Work(now)), now, n - 1)
  }

  ghost predicate NoLinkOwed(s: Sink)
  {
    forall t :: !Q.Pc(s.queue, t).Linking?
  }

  /** How far a worker that was told to stop is from its last flush. */
  function Rank(s: Sink): nat
  {
    match s.pc
    case Done => 0
    case InDequeue(_) =>
      if s.queue.consumer.Loaded? then 2 else if s.queue.consumer.Moved? then 1 else 0
    case Try(final) => if final then 3 else 6
    case Head => 4
    case Check => 5
  }

  ghost function Left(s: Sink): int
  {
    |s.queue.enqueued| - |s.queue.dequeued|
  }

  /** One step of a worker told to stop brings it nearer to its end. */
  ghost predicate Advanced(s: Sink, r: Sink)
  {
    && (r.pc.Done? <==> s.pc == Try(true) && Left(s) == 0)
    && Left(r) <= Left(s) && (Left(r) < Left(s) || r.pc.Done? || Rank(r) < Rank(s))
  }

  lemma TryAdvances(o: Options, s: Sink, now: int)
    requires Inv(s) && s.pc.Try? && NoLinkOwed(s)
    ensures Advanced(s, Step(o, s, Work(now)))
  {
    hide Q.Inv, Q.Step;
    DequeuedPrefix(s.queue);
    LoadFinds(s.queue);
    ConsumerSparesProducers(s.queue, Q.Load);
  }

  lemma DequeueAdvances(o: Options, s: Sink, now: int)
    requires Inv(s) && s.pc.InDequeue?
    ensures Advanced(s, Step(o, s, Work(now)))
  {
    hide Q.Inv, Q.Step;
    DequeueEffect(s.queue);
    ConsumerSparesProducers(s.queue, Q.Move);
    ConsumerSparesProducers(s.queue, Q.Free);
    ConsumerSparesProducers(s.queue, Q.Advance);
  }

  lemma WorkAdvances(o: Options, s: Sink, now: int)
    requires Inv(s) && !s.running && !s.pc.Done? && NoLinkOwed(s)
    ensures var r := Step(o, s, Work(now));
      && Inv(r) && !r.running && NoLinkOwed(r) && r.queue.enqueued == s.queue.enqueued
      && Advanced(s, r) && 0 <= Left(r)
  {
    hide Q.Inv, Q.Step, Load, Dequeue;
    StepKeeps(o, s, Work(now));
    var r := Step(o, s, Work(now));
    DequeuedPrefix(r.queue);
    WorkSparesProducers(o, s, now);
    assert forall t :: Q.Pc(r.queue, t) == Q.Pc(s.queue, t);
    if s.pc.Try? {
      TryAdvances(o, s, now);
    } else if s.pc.InDequeue? {
      DequeueAdvances(o, s, now);
    }
  }

  lemma WorkSparesProducers(o: Options, s: Sink, now: int)
    requires Inv(s)
    ensures var r := Step(o, s, Work(now));
      r.running == s.running && r.queue.producers == s.queue.producers && r.queue.enqueued == s.queue.enqueued
  {
    hide Q.Inv, Q.Step;
    QueueStep(o, s, Work(now));
    if Consumes(s).Some? { ConsumerSparesProducers(s.queue, Consumes(s).value); }
  }

  lemma ConsumerSparesProducers(q: Q.State<string>, a: Q.Action<string>)
    requires !a.New? && !a.Exchange? && !a.Link?
    ensures Q.Step(q, a).producers == q.producers && Q.Step(q, a).enqueued == q.enqueued
  {
  }

  /** With no link owed, dequeue finds a node exactly when a line is left. */
  lemma LoadFinds(q: Q.State<string>)
    requires Q.Inv(q) && q.consumer.Ready? && forall t :: !Q.Pc(q, t).Linking?
    ensures var r := Q.Step(q, Q.Load);
      && (r.consumer.Loaded? <==> |q.dequeued| < |q.enqueued|)
      && (r.consumer.Loaded? || r == q) && r.dequeued == q.dequeued
  {
    assert Q.Live(q, q.freed);
    if q.freed + 1 < |q.order| {
      assert Q.LinkOk(q, q.freed + 1) && Q.Live(q, q.freed + 1);
    }
  }

  lemma {:induction false} WorkEnds(o: Options, s: Sink, now: int) returns (n: nat)
    requires Inv(s) && !s.running && !s.pc.Done? && NoLinkOwed(s)
    ensures var r := Works(o, s, now, n);
      r.pc.Done? && r.queue.enqueued == s.queue.enqueued == r.queue.dequeued && Inv(r)
    decreases if Left(s) >= 0 then Left(s) else 0, Rank(s)
  {
    hide Step, Inv, NoLinkOwed;
    WorkAdvances(o, s, now);
    var r := Step(o, s, Work(now));
    if r.pc.Done? {
      n := 1;
      assert Works(o, s, now, 1) == Works(o, r, now, 0) == r;
      AllWritten(o, s, now);
    } else {
      n := WorkEnds(o, r, now);
      n := n + 1;
    }
  }

  lemma AllWritten(o: Options, s: Sink, now: int)
    requires Inv(s) && s.pc == Try(true) && Left(s) == 0 && NoLinkOwed(s)
    ensures var r := Step(o, s, Work(now)); r.queue.dequeued == r.queue.enqueued
  {
    hide Q.Inv, Q.Step;
    LoadFinds(s.queue);
    DequeuedPrefix(s.queue);
  }

  /** Told to stop, with no submit between its exchange and its link, the worker
      finishes on its own, and the file is then every line submitted, in order. */
  lemma StopCompletes(o: Options, stub: Q.Ptr, start: int, acts: seq<Action>, now: int) returns (n: nat)
    ensures var s := After(o, stub, start, acts);
      !s.pc.Done? && NoLinkOwed(s) ==>
        var r := Works(o, Step(o, s, Stop), now, n);
        r.pc.Done? && r.file == Concat(Submitted(o, stub, start, acts))
  {
    hide Q.Inv, Works;
    n := 0;
    var s := After(o, stub, start, acts);
    RunKeeps(o, stub, start, acts);
    EnqueuedIsSubmitted(o, stub, start, acts);
    if !s.pc.Done? && NoLinkOwed(s) {
      StepKeeps(o, s, Stop);
      n := WorkEnds(o, Step(o, s, Stop), now);
    }
  }

  /** In every run the file followed by the buffer is the lines dequeued so far,
      themselves a prefix of the lines submitted in queue order; at the head of
      the loop the byte count since the last sync is the size of the buffer, and
      below 64 KiB. */
  lemma NothingLost(o: Options, stub: Q.Ptr, start: int, acts: seq<Action>)
    ensures var s := After(o, stub, start, acts);
      && (!s.pc.Done? ==> s.file + s.buf == Concat(s.queue.dequeued))
      && (s.pc.Done? ==> s.file == Concat(s.queue.dequeued))
      && s.queue.dequeued <= s.queue.enqueued == Submitted(o, stub, start, acts)
      && (s.pc.Head? ==> s.since == |s.buf| < FLUSH_BYTES)
  {
    hide Q.Inv, Submitted;
    RunKeeps(o, stub, start, acts);
    EnqueuedIsSubmitted(o, stub, start, acts);
    DequeuedPrefix(After(o, stub, start, acts).queue);
  }

  lemma DequeuedPrefix(q: Q.State<string>)
    requires Q.Inv(q)
    ensures q.dequeued <= q.enqueued
  {
  }

  /** When the final drain ends with no submit between its exchange and its link,
      the file is every line submitted, in queue order. */
  lemma CompleteAtStop(o: Options, stub: Q.Ptr, start: int, acts: seq<Action>, now: int)
    ensures var s := After(o, stub, start, acts); var r := Step(o, s, Work(now));
      s.pc == Try(true) && r.pc.Done? && (forall t :: !Q.Pc(s.queue, t).Linking?) ==>
        r.file == Concat(r.queue.enqueued)
  {
    hide Q.Inv, Q.Step;
    var s := After(o, stub, start, acts);
    RunKeeps(o, stub, start, acts);
    StepKeeps(o, s, Work(now));
    if s.pc == Try(true) && (forall t :: !Q.Pc(s.queue, t).Linking?) {
      AllTaken(s.queue);
    }
  }

  /** With no link owed, dequeue answers false only on a queue that was emptied. */
  lemma AllTaken(q: Q.State<string>)
    requires Q.Inv(q) && q.consumer.Ready? && forall t :: !Q.Pc(q, t).Linking?
    ensures var r := Q.Step(q, Q.Load);
      !r.consumer.Loaded? ==> r.dequeued == r.enqueued
  {
    assert Q.Live(q, q.freed);
    if q.freed + 1 < |q.order| {
      assert Q.LinkOk(q, q.freed + 1) && Q.Live(q, q.freed + 1);
    }
  }
}

/** The worker as an object, alone with a queue whose answers are given: what
    each turn of its loop dequeued, if anything, and read from the clock. */
module FileSinkObject {
  import opened Runs
  import B = Buffer
  import M = FileSink

  datatype Turn = Turn(line: Option<string>, now: int)

  /** The lines that a sequence of turns took. */
  function Taken(turns: seq<Turn>): seq<string>
  {
    if turns == [] then []
    else
      var last := turns[|turns| - 1];
      Taken(turns[..|turns| - 1]) + (if last.line.Some? then [last.line.value] else [])
  }

  class AsyncFileSink {
    var file: string
    const syncBytes: nat
    const interval: int

    constructor (syncBytes: nat, interval: int)
      ensures file == "" && this.syncBytes == syncBytes && this.interval == interval
    {
      file := "";
      this.syncBytes, this.interval := syncBytes, interval;
    }

    /** One line joins the buffer. */
    method Take(buf: B.Buffer, line: string, ghost before: string, ghost lines: seq<string>)
      requires buf.Valid() && file + buf.Readable() == before + M.Concat(lines)
      modifies buf, buf.store
      ensures buf.Valid() && (buf.store == old(buf.store) || fresh(buf.store))
      ensures buf.Readable() == old(buf.Readable()) + line
      ensures file + buf.Readable() == before + M.Concat(lines + [line])
    {
      hide M.Concat;
      M.ConcatSnoc(lines, line);
      LineJoins(file, buf.Readable(), before, M.Concat(lines), line);
      buf.Append(line);
    }

    /** run(): the loop while running_ is set, then the final drain. At the head
        of the loop the count since the last sync is the buffered size. */
    method Run(start: int, turns: seq<Turn>, rest: seq<string>)
      modifies this`file
      ensures file == old(file) + M.Concat(Taken(turns) + rest)
    {
      hide M.Concat;
      var nextSync := start + interval;
      var buf := new B.Buffer(M.FLUSH_BYTES);
      var since := 0;
      NoLines(file);
      for i := 0 to |turns|
        invariant buf.Valid() && fresh(buf) && fresh(buf.store)
        invariant since == |buf.Readable()| < M.FLUSH_BYTES
        invariant file + buf.Readable() == old(file) + M.Concat(Taken(turns[..i]))
      {
        assert turns[..i + 1][..i] == turns[..i];
        var line := turns[i].line;
        if line.Some? {
          Take(buf, line.value, old(file), Taken(turns[..i]));
          since := since + |line.value|;
        }
        assert Taken(turns[..i]) + [] == Taken(turns[..i]);
        if buf.writer - buf.reader >= M.FLUSH_BYTES || since >= syncBytes || turns[i].now >= nextSync {
          file := file + buf.Readable();
          buf.RetrieveAll();
          assert file + buf.Readable() == file;
          since := 0;
          nextSync := turns[i].now + interval;
        }
      }
      assert turns[..|turns|] == turns && Taken(turns) + rest[..0] == Taken(turns);
      for j := 0 to |rest|
        invariant buf.Valid() && fresh(buf) && fresh(buf.store)
        invariant file + buf.Readable() == old(file) + M.Concat(Taken(turns) + rest[..j])
      {
        Take(buf, rest[j], old(file), Taken(turns) + rest[..j]);
        assert Taken(turns) + rest[..j + 1] == Taken(turns) + rest[..j] + [rest[j]];
      }
      assert rest[..|rest|] == rest;
      if buf.writer - buf.reader > 0 {
        file := file + buf.Readable();
      } else {
        assert file + buf.Readable() == file;
      }
    }
  }

  lemma LineJoins(file: string, readable: string, before: string, lines: string, line: string)
    requires file + readable == before + lines
    ensures file + (readable + line) == before + (lines + line)
  {
    assert file + (readable + line) == file + readable + line;
    assert before + (lines + line) == before + lines + line;
  }

  lemma NoLines(file: string)
    ensures file + "" == file + M.Concat([])
  {
  }
}
