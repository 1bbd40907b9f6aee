/** The output side of a connection in core/src/TcpConnection.cpp, without
    sendFile: direct writes, backlog, partial and failed writes, write interest,
    half-close and close.

    Handlers run on the loop thread. Other threads queue functors and may call
    `shutdown`, which tests the state, sets it and queues a functor in three
    separate moments. */
module TcpConnection {
  import opened Runs
  import opened ConnectionState

  /** What send(2) or write(2) answered. */
  datatype WriteOutcome = Wrote(n: nat) | WouldBlock | Broken | OtherError

  datatype Functor = SendF(data: string) | ShutdownF | WriteCompleteF | HighWaterF(total: nat)

  /** `sending` is data whose sender on the loop thread has passed the test for
      kConnected; `checked` are other threads in `shutdown` after their test,
      `pushing` those that have set the state and not yet queued the functor.
      `wire` is what the socket took, `accepted` all data given to sendInLoop
      while not disconnected, `closed` that the connection was disconnected
      once, `shut` the bytes on the wire when SHUT_WR was first issued. */
  datatype State = State(
    state: ConnState, reading: bool, writing: bool, backlog: string, mark: nat,
    sending: Option<string>, checked: set<nat>, pushing: set<nat>, queue: seq<Functor>,
    wire: string, accepted: string, closed: bool, shut: Option<nat>)

  datatype Action =
    | Establish | Send(data: string) | SendInLoop(w: WriteOutcome) | Shutdown
    | Readable(eof: bool) | Writable(w: WriteOutcome) | HangUp | Destroy | RunNext
    | OtherSend(data: string) | OtherCheck(t: nat) | OtherSet(t: nat) | OtherPush(t: nat)

  function Initial(mark: nat): State
  {
    State(Connecting, false, false, "", mark, None, {}, {}, [], "", "", false, None)
  }

  // ---------- Handlers ----------

  function Taken(w: WriteOutcome, len: nat): nat
  {
    match w
    case Wrote(n) => if n < len then n else len
    case _ => 0
  }

  function Close(s: State): State
  {
    s.(state := Disconnected, reading := false, writing := false, closed := true)
  }

  /** A direct write finds the connection broken. */
  predicate Breaks(s: State, w: WriteOutcome)
  {
    !s.state.Disconnected? && !s.writing && s.backlog == "" && w.Broken?
  }

  /** sendInLoop. */
  function Deliver(s: State, data: string, w: WriteOutcome): State
  {
    if s.state.Disconnected? then s
    else
      var s1 := s.(accepted := s.accepted + data);
      if s.writing || s.backlog != "" then Queue(s1, data)
      else if w.Broken? then Close(s1)
      else
        var n := Taken(w, |data|);
        var s2 := s1.(wire := s.wire + data[..n]);
        if n < |data| then Queue(s2, data[n..])
        else if w.Wrote? then s2.(queue := s.queue + [WriteCompleteF])
        else s2
  }

  /** The second half of sendInLoop: what was not written joins the backlog. */
  function Queue(s: State, data: string): State
  {
    if data == "" then s
    else
      var total := |s.backlog| + |data|;
      s.(backlog := s.backlog + data, writing := true,
         queue := if total >= s.mark && |s.backlog| < s.mark then s.queue + [HighWaterF(total)] else s.queue)
  }

  lemma QueueNothing(s: State)
    ensures Queue(s, "") == s
  {
  }

  function ShutdownInLoop(s: State): State
  {
    if s.writing || s.shut.Some? then s else s.(shut := Some(|s.wire|))
  }

  /** handleWrite. */
  function Flush(s: State, w: WriteOutcome): State
  {
    var n := Taken(w, |s.backlog|);
    if !s.writing || n == 0 then s
    else
      var s1 := s.(wire := s.wire + s.backlog[..n], backlog := s.backlog[n..]);
      if s1.backlog != "" then s1
      else
        var s2 := s1.(writing := false, queue := s.queue + [WriteCompleteF]);
        if s.state.Disconnecting? then ShutdownInLoop(s2) else s2
  }

  function Destroyed(s: State): State
  {
    if s.state.Connected? then Close(s) else s
  }

  function RunFunctor(s: State, f: Functor): State
  {
    match f
    case SendF(data) => if s.state.Connected? then s.(sending := Some(data)) else s
    case ShutdownF => ShutdownInLoop(s)
    case _ => s
  }

  function Step(s: State, a: Action): State
  {
    match a
    case OtherSend(data) => if s.state.Connecting? then s else s.(queue := s.queue + [SendF(data)])
    case OtherCheck(t) => if s.state.Connected? then s.(checked := s.checked + {t}) else s
    case OtherSet(t) =>
      if t in s.checked then s.(state := Disconnecting, checked := s.checked - {t}, pushing := s.pushing + {t}) else s
    case OtherPush(t) =>
      if t in s.pushing then s.(queue := s.queue + [ShutdownF], pushing := s.pushing - {t}) else s
    case SendInLoop(w) =>
      if s.sending.Some? then Deliver(s, s.sending.value, w).(sending := None) else s
    case _ => if s.sending.Some? then s else LoopStep(s, a)
  }

  /** The loop thread between two sends. */
  function LoopStep(s: State, a: Action): State
  {
    match a
    case Establish => if s.state.Connecting? then s.(state := Connected, reading := true) else s
    case Send(data) => if s.state.Connected? then s.(sending := Some(data)) else s
    case Shutdown => if s.state.Connected? then ShutdownInLoop(s.(state := Disconnecting)) else s
    case Readable(eof) => if eof && !s.state.Connecting? then Close(s) else s
    case Writable(w) => Flush(s, w)
    case HangUp => if s.state.Connecting? then s else Close(s)
    case Destroy => Destroyed(s)
    case RunNext => if s.queue == [] then s else RunFunctor(s.(queue := s.queue[1..]), s.queue[0])
    case _ => s
  }

  // ---------- The invariant ----------

  /** Nothing accepted is lost, duplicated or reordered. */
  ghost predicate StreamOk(s: State)
  {
    && (!s.closed ==> s.wire + s.backlog == s.accepted && (s.writing <==> s.backlog != ""))
    && (s.closed ==> s.wire + s.backlog <= s.accepted && !s.writing && s.state != Connected)
    && (s.sending.Some? ==> !s.closed && s.shut.None?)
    && (s.state.Connecting? ==> !s.closed && s.accepted == "" && s.sending.None? && s.shut.None?)
    && (s.state.Connecting? ==> s.checked == {} && s.queue == [])
    && (s.state.Connecting? || s.state.Connected? ==> s.pushing == {} && ShutdownF !in s.queue)
    && (s.state.Disconnected? ==> s.closed)
    && (s.reading <==> !s.closed && !s.state.Connecting?)
  }

  /** Nothing follows a half-close, and a requested one is not forgotten. */
  ghost predicate ShutOk(s: State)
  {
    && (s.shut.Some? ==> !s.writing && !s.state.Connected? && s.shut.value == |s.wire|)
    && (s.shut.Some? && !s.closed ==> s.wire == s.accepted)
    && (s.state.Disconnecting? && !s.closed && s.shut.None? ==>
          s.writing || s.pushing != {} || ShutdownF in s.queue)
  }

  ghost predicate Inv(s: State)
  {
    StreamOk(s) && ShutOk(s)
  }

  lemma DeliverKeeps(s: State, data: string, w: WriteOutcome)
    requires Inv(s) && !s.closed && s.shut.None? && !s.state.Connecting? && s.sending == Some(data)
    ensures Inv(Deliver(s, data, w).(sending := None))
  {
    hide Deliver;
    DeliverTakes(s, data, w);
  }

  function Least(a: nat, b: nat): nat
  {
    if a < b then a else b
  }

  /** Where the data of a send goes, bytes and interest. */
  lemma DeliverTakes(s: State, data: string, w: WriteOutcome)
    requires !s.state.Disconnected? && (s.writing <==> s.backlog != "")
    ensures var r := Deliver(s, data, w);
      && r == s.(state := r.state, reading := r.reading, writing := r.writing, backlog := r.backlog, queue := r.queue,
                 wire := r.wire, accepted := s.accepted + data, closed := r.closed)
      && (ShutdownF in r.queue <==> ShutdownF in s.queue)
      && (if s.backlog == "" && w.Broken? then
            r.wire == s.wire && r.backlog == "" && r.state.Disconnected? && r.closed && !r.reading && !r.writing
          else
            && r.state == s.state && r.closed == s.closed && r.reading == s.reading
            && r.wire + r.backlog == s.wire + s.backlog + data && (r.writing <==> r.backlog != "")
            && |r.wire| == |s.wire| + if s.backlog == "" && w.Wrote? then Least(w.n, |data|) else 0)
  {
    if s.writing {
      assert s.wire + (s.backlog + data) == s.wire + s.backlog + data;
    } else if !w.Broken? {
      var n := Taken(w, |data|);
      var sent, left := data[..n], data[n..];
      assert data == sent + left && s.backlog + left == left;
      assert s.wire + sent + left == s.wire + s.backlog + data;
    }
  }

  lemma FlushKeeps(s: State, w: WriteOutcome)
    requires Inv(s) && s.sending.None?
    ensures Inv(Flush(s, w))
  {
    var n := Taken(w, |s.backlog|);
    if s.writing && n > 0 {
      var wire, rest := s.wire + s.backlog[..n], s.backlog[n..];
      assert wire + rest == s.wire + s.backlog;
      assert rest == "" ==> wire == s.wire + s.backlog;
    }
  }

  lemma RunNextKeeps(s: State)
    requires Inv(s) && s.queue != [] && s.sending.None?
    ensures Inv(RunFunctor(s.(queue := s.queue[1..]), s.queue[0]))
  {
    assert s.queue == [s.queue[0]] + s.queue[1..];
  }

  lemma LoopStepKeeps(s: State, a: Action)
    requires Inv(s) && s.sending.None?
    ensures Inv(LoopStep(s, a))
  {
    hide Flush, RunFunctor;
    match a
    case Writable(w) => FlushKeeps(s, w);
    case RunNext => if s.queue != [] { RunNextKeeps(s); }
    case _ =>
  }

  lemma StepKeeps(s: State, a: Action)
    requires Inv(s)
    ensures Inv(Step(s, a))
  {
    hide Deliver, LoopStep;
    match a
    case SendInLoop(w) => if s.sending.Some? { DeliverKeeps(s, s.sending.value, w); }
    case _ => if s.sending.None? { LoopStepKeeps(s, a); }
  }

  ghost function After(mark: nat, acts: seq<Action>): State
  {
    Exec(Step, Initial(mark), acts)
  }

  lemma RunKeeps(mark: nat, acts: seq<Action>)
    ensures Inv(After(mark, acts))
  {
    forall s, a | Inv(s) ensures Inv(Step(s, a)) { StepKeeps(s, a); }
    Always(Step, Inv, Initial(mark), acts);
  }

  // ---------- The sends of a run ----------

  /** What became of the data that callers gave to `send`: what sendInLoop has
      received, what a sender on the loop thread has in hand, and what other
      threads have queued. */
  datatype Sends = Sends(given: string, inHand: Option<string>, waiting: seq<string>)

  /** One action, from the state before it: a send on the loop thread, or a queued
      one that comes up, is taken in hand in state kConnected only. */
  function SendsNext(s: State, a: Action, n: Sends): Sends
  {
    match a
    case OtherSend(data) => if s.state.Connecting? then n else n.(waiting := n.waiting + [data])
    case Send(data) => if n.inHand.None? && s.state.Connected? then n.(inHand := Some(data)) else n
    case RunNext =>
      if n.inHand.Some? || s.queue == [] || !s.queue[0].SendF? || n.waiting == [] then n
      else n.(waiting := n.waiting[1..], inHand := if s.state.Connected? then Some(n.waiting[0]) else None)
    case SendInLoop(_) =>
      if n.inHand.Some? then n.(given := n.given + n.inHand.value, inHand := None) else n
    case _ => n
  }

  ghost function SendsAfter(s: State, acts: seq<Action>, n: Sends): Sends
    decreases acts
  {
    if acts == [] then n else SendsAfter(Step(s, acts[0]), acts[1..], SendsNext(s, acts[0], n))
  }

  /** The data of the queued sends. */
  function Queued(queue: seq<Functor>): seq<string>
  {
    if queue == [] then []
    else (if queue[0].SendF? then [queue[0].data] else []) + Queued(queue[1..])
  }

  ghost function SendsOf(s: State): Sends
  {
    Sends(s.accepted, s.sending, Queued(s.queue))
  }

  lemma {:induction false} QueuedLast(queue: seq<Functor>, f: Functor)
    ensures Queued(queue + [f]) == Queued(queue) + if f.SendF? then [f.data] else []
  {
    var all := queue + [f];
    if queue == [] {
      assert all[0] == f && all[1..] == [];
    } else {
      var rest := queue[1..];
      assert all[0] == queue[0] && all[1..] == rest + [f];
      QueuedLast(rest, f);
      var first := if queue[0].SendF? then [queue[0].data] else [];
      var last := if f.SendF? then [f.data] else [];
      assert Queued(queue) == first + Queued(rest);
      assert first + (Queued(rest) + last) == first + Queued(rest) + last;
    }
  }

  lemma SendsStep(s: State, a: Action)
    requires Inv(s)
    ensures SendsOf(Step(s, a)) == SendsNext(s, a, SendsOf(s))
  {
    hide Queued;
    match a
    case OtherSend(data) => QueuedLast(s.queue, SendF(data));
    case OtherPush(_) => QueuedLast(s.queue, ShutdownF);
    case SendInLoop(w) => if s.sending.Some? { DeliverSends(s, s.sending.value, w); }
    case Writable(w) => QueuedLast(s.queue, WriteCompleteF);
    case RunNext => RunNextSends(s);
    case _ =>
  }

  lemma DeliverSends(s: State, data: string, w: WriteOutcome)
    requires Inv(s) && s.sending == Some(data)
    ensures var r := Deliver(s, data, w); r.accepted == s.accepted + data && Queued(r.queue) == Queued(s.queue)
  {
    hide Queued;
    QueuedLast(s.queue, WriteCompleteF);
    QueuedLast(s.queue, HighWaterF(|s.backlog| + |data|));
    QueuedLast(s.queue, HighWaterF(|s.backlog| + |data[Taken(w, |data|)..]|));
  }

  lemma RunNextSends(s: State)
    requires Inv(s)
    ensures SendsOf(Step(s, RunNext)) == SendsNext(s, RunNext, SendsOf(s))
  {
    if s.queue != [] { assert Queued(s.queue) == (if s.queue[0].SendF? then [s.queue[0].data] else []) + Queued(s.queue[1..]); }
  }

  lemma {:induction false} SendsRun(s: State, acts: seq<Action>)
    requires Inv(s)
    ensures SendsOf(Exec(Step, s, acts)) == SendsAfter(s, acts, SendsOf(s))
    decreases acts
  {
    hide Step, SendsOf, SendsNext, Inv;
    if acts != [] {
      SendsStep(s, acts[0]);
      StepKeeps(s, acts[0]);
      SendsRun(Step(s, acts[0]), acts[1..]);
    }
  }

  /** In every run the accepted bytes are the data of the sends that callers made
      in state kConnected, in order: on the loop thread, and on other threads when
      the loop ran their functors; those still queued wait in order. */
  lemma AcceptedIsSent(mark: nat, acts: seq<Action>)
    ensures var s := After(mark, acts); var n := SendsAfter(Initial(mark), acts, Sends("", None, []));
      s.accepted == n.given && s.sending == n.inHand && Queued(s.queue) == n.waiting
  {
    SendsRun(Initial(mark), acts);
    assert SendsOf(Initial(mark)) == Sends("", None, []);
  }

  /** A send from another thread that comes up while the connection is connected
      reaches the wire or the backlog, unless the write finds the connection
      broken; the wire gains exactly what the socket took. */
  lemma OtherSendDelivered(s: State, data: string, w: WriteOutcome)
    requires Inv(s) && s.state.Connected? && s.sending.None? && s.queue == [] && !w.Broken?
    ensures var r := Exec(Step, s, [OtherSend(data), RunNext, SendInLoop(w)]);
      && r.wire + r.backlog == s.wire + s.backlog + data
      && |r.wire| == |s.wire| + if s.backlog == "" && w.Wrote? then Least(w.n, |data|) else 0
  {
    ExecThree(Step, s, OtherSend(data), RunNext, SendInLoop(w));
    assert Step(s, OtherSend(data)) == s.(queue := [SendF(data)]);
    assert Step(s.(queue := [SendF(data)]), RunNext) == s.(sending := Some(data));
    SendTakes(s.(sending := Some(data)), data, w);
  }

  /** A direct write puts exactly what the socket took on the wire and the rest
      into the backlog; behind a backlog everything joins it. */
  lemma SendTakes(s: State, data: string, w: WriteOutcome)
    requires Inv(s) && s.sending == Some(data) && !w.Broken?
    ensures var r := Step(s, SendInLoop(w));
      && r.wire + r.backlog == s.wire + s.backlog + data
      && |r.wire| == |s.wire| + if s.backlog == "" && w.Wrote? then Least(w.n, |data|) else 0
  {
    hide Deliver;
    DeliverTakes(s, data, w);
  }

  /** A write event puts exactly what the socket took of the backlog on the wire. */
  lemma WriteTakes(s: State, w: WriteOutcome)
    requires s.sending.None?
    ensures var r := Step(s, Writable(w));
      && r.wire + r.backlog == s.wire + s.backlog
      && |r.wire| == |s.wire| + if s.writing && w.Wrote? then Least(w.n, |s.backlog|) else 0
  {
    var n := Taken(w, |s.backlog|);
    var sent, left := s.backlog[..n], s.backlog[n..];
    assert s.backlog == sent + left;
    assert s.wire + sent + left == s.wire + s.backlog;
  }

  /** End of file, a hang-up and a broken write disconnect, whatever was left in
      the backlog; reading data and destroying what is closed do not. */
  lemma ClosesOn(s: State, data: string)
    requires Inv(s) && s.sending.None? && !s.state.Connecting?
    ensures forall a :: a == HangUp || a == Readable(true) || (a == Destroy && s.state.Connected?) ==>
      var r := Step(s, a);
      && r.state.Disconnected? && !r.reading && !r.writing && r.closed
      && r.wire == s.wire && r.backlog == s.backlog && r.queue == s.queue && r.shut == s.shut
    ensures Step(s, Readable(false)) == s && (!s.state.Connected? ==> Step(s, Destroy) == s)
    ensures s.state.Connected? && s.backlog == "" ==>
      var r := Exec(Step, s, [Send(data), SendInLoop(Broken)]);
      r.state.Disconnected? && !r.reading && !r.writing && r.wire == s.wire && r.backlog == ""
  {
    ExecTwo(Step, s, Send(data), SendInLoop(Broken));
  }

  /** A send disconnects exactly when its direct write finds the connection broken. */
  lemma BreaksExactly(s: State, data: string, w: WriteOutcome)
    requires Inv(s) && s.sending == Some(data)
    ensures Step(s, SendInLoop(w)).closed <==> Breaks(s, w)
    ensures Breaks(s, w) <==> s.backlog == "" && w.Broken?
  {
  }

  /** A call of `shutdown` on another thread: it goes on only from kConnected, queues
      its functor once, and is then over; before the connection is established
      nothing that comes from the socket has an effect. */
  lemma OtherShutdownOnce(s: State, t: nat)
    ensures Step(s, OtherCheck(t)) == if s.state.Connected? then s.(checked := s.checked + {t}) else s
    ensures t in s.checked ==>
      var r := Step(s, OtherSet(t)); t !in r.checked && t in r.pushing && r.state.Disconnecting? && r.queue == s.queue
    ensures t in s.pushing ==>
      var r := Step(s, OtherPush(t)); t !in r.pushing && r.queue == s.queue + [ShutdownF] && r.state == s.state
    ensures t !in s.checked ==> Step(s, OtherSet(t)) == s
    ensures t !in s.pushing ==> Step(s, OtherPush(t)) == s
    ensures s.state.Connecting? ==> Step(s, HangUp) == s && Step(s, Readable(true)) == s && Step(s, Readable(false)) == s
  {
  }

  /** Once disconnected, sendInLoop takes nothing; and it writes nothing past a
      backlog or while a write event is awaited. */
  lemma NothingWrittenPast(s: State, data: string, w: WriteOutcome)
    ensures var r := Deliver(s, data, w);
      && (s.state.Disconnected? ==> r == s)
      && (s.writing || s.backlog != "" ==> r.wire == s.wire && s.backlog <= r.backlog)
  {
  }

  /** `shutdown` on the loop thread half-closes at once when nothing waits, and
      otherwise when the write event comes that takes the last byte. */
  lemma LoopShutdown(s: State, n: nat)
    requires Inv(s) && s.state.Connected? && s.sending.None?
    ensures var r := Step(s, Shutdown);
      && r.state.Disconnecting? && r.wire == s.wire && r.backlog == s.backlog && r.queue == s.queue
      && (s.backlog == "" ==> r.shut == Some(|s.accepted|))
      && (s.backlog != "" && n >= |s.backlog| ==>
            r.shut.None? && Step(r, Writable(Wrote(n))).shut == Some(|s.accepted|))
  {
  }

  /** Stream integrity: until the connection is disconnected, the bytes on the
      wire followed by the backlog are exactly the data accepted, and write
      interest is on exactly while there is a backlog; afterwards they are a
      prefix of it. */
  lemma StreamIntegrity(mark: nat, acts: seq<Action>)
    ensures var s := After(mark, acts); var sent := SendsAfter(Initial(mark), acts, Sends("", None, [])).given;
      && s.accepted == sent
      && (!s.closed ==> s.wire + s.backlog == s.accepted && (s.writing <==> s.backlog != ""))
      && (s.closed ==> s.wire + s.backlog <= s.accepted && !s.writing)
  {
    RunKeeps(mark, acts);
    AcceptedIsSent(mark, acts);
  }

  /** Once SHUT_WR was issued no byte is written any more; before a disconnect
      it is issued only with every accepted byte on the wire; and a requested
      half-close has happened, waits for the backlog, or is in a functor or
      thread still on its way. */
  lemma HalfClose(mark: nat, acts: seq<Action>)
    ensures var s := After(mark, acts);
      && (s.shut.Some? ==> s.shut.value == |s.wire| && !s.writing && s.sending.None? && !s.state.Connected?)
      && (s.shut.Some? && !s.closed ==> s.wire == s.accepted && s.backlog == "")
      && (s.state.Disconnecting? && !s.closed && s.shut.None? ==>
            s.backlog != "" || s.pushing != {} || ShutdownF in s.queue)
  {
    RunKeeps(mark, acts);
  }

  lemma WireGrowsStep(s: State, a: Action)
    ensures s.wire <= Step(s, a).wire
    ensures s.shut.Some? ==> Step(s, a).shut == s.shut
  {
  }

  /** Bytes once on the wire stay there, in every continuation of a run. */
  lemma {:induction false} WireGrows(s: State, acts: seq<Action>)
    ensures s.wire <= Exec(Step, s, acts).wire
    ensures s.shut.Some? ==> Exec(Step, s, acts).shut == s.shut
    decreases acts
  {
    if acts != [] {
      WireGrowsStep(s, acts[0]);
      WireGrows(Step(s, acts[0]), acts[1..]);
    }
  }

  /** No byte follows SHUT_WR: the wire never changes again. */
  lemma NothingAfterShut(mark: nat, acts: seq<Action>, more: seq<Action>)
    ensures var s := After(mark, acts); s.shut.Some? ==> After(mark, acts + more).wire == s.wire
  {
    var s := After(mark, acts);
    HalfClose(mark, acts);
    HalfClose(mark, acts + more);
    ExecAppend(Step, Initial(mark), acts, more);
    WireGrows(s, more);
  }

  predicate FromOtherThread(a: Action)
  {
    a.OtherCheck? || a.OtherSet? || a.OtherPush?
  }

  ghost predicate OnlyLoopShutdown(s: State)
  {
    s.checked == {} && s.pushing == {} && ShutdownF !in s.queue
  }

  ghost predicate Graceful(s: State)
  {
    && Inv(s) && OnlyLoopShutdown(s)
    && (s.shut.Some? ==> s.wire == s.accepted && s.backlog == "")
  }

  lemma GracefulKeeps(s: State, a: Action)
    requires Graceful(s) && !FromOtherThread(a)
    ensures Graceful(Step(s, a))
  {
    hide Inv;
    StepKeeps(s, a);
    GracefulStep(s, a);
  }

  lemma GracefulStep(s: State, a: Action)
    requires Graceful(s) && !FromOtherThread(a)
    ensures var r := Step(s, a);
      OnlyLoopShutdown(r) && (r.shut.Some? ==> r.wire == r.accepted && r.backlog == "")
  {
    match a
    case SendInLoop(w) =>
    case Writable(w) => FlushKeeps(s.(sending := None), w);
    case RunNext => if s.queue != [] { assert s.queue == [s.queue[0]] + s.queue[1..]; }
    case _ =>
  }

  lemma {:induction false} GracefulRun(s: State, acts: seq<Action>)
    requires Graceful(s) && forall a :: a in acts ==> !FromOtherThread(a)
    ensures Graceful(Exec(Step, s, acts))
    decreases acts
  {
    if acts != [] {
      GracefulKeeps(s, acts[0]);
      GracefulRun(Step(s, acts[0]), acts[1..]);
    }
  }

  /** With shutdown called on the loop thread only, SHUT_WR always comes after
      the last accepted byte, closed or not; and a half-close that waits does so
      for a backlog whose last byte triggers it. */
  lemma GracefulHalfClose(mark: nat, acts: seq<Action>)
    requires forall a :: a in acts ==> !FromOtherThread(a)
    ensures var s := After(mark, acts);
      && (s.shut.Some? ==> s.wire == s.accepted && s.backlog == "")
      && (s.state.Disconnecting? && !s.closed && s.shut.None? ==>
            s.writing && forall n :: n >= |s.backlog| && s.sending.None? ==>
              Step(s, Writable(Wrote(n))).shut == Some(|s.accepted|))
  {
    GracefulRun(Initial(mark), acts);
  }

  // ---------- When SHUT_WR comes too early ----------

  /** SHUT_WR was issued with accepted bytes never written. */
  predicate ShutEarly(s: State)
  {
    s.shut.Some? && s.wire != s.accepted
  }

  /** The loop runs the functor of a `shutdown` on a connection that was closed
      with accepted bytes unwritten, and SHUT_WR was not issued before. */
  predicate LateFunctor(s: State, a: Action)
  {
    && s.shut.None? && s.closed && s.wire != s.accepted
    && a.RunNext? && s.queue != [] && s.queue[0].ShutdownF?
  }

  lemma EarlyStep(s: State, a: Action)
    requires Inv(s)
    ensures ShutEarly(Step(s, a)) <==> ShutEarly(s) || LateFunctor(s, a)
  {
    StepKeeps(s, a);
  }

  ghost predicate LateFunctorIn(s: State, acts: seq<Action>)
    decreases acts
  {
    acts != [] && (LateFunctor(s, acts[0]) || LateFunctorIn(Step(s, acts[0]), acts[1..]))
  }

  lemma {:induction false} EarlyRun(s: State, acts: seq<Action>)
    requires Inv(s)
    ensures ShutEarly(Exec(Step, s, acts)) <==> ShutEarly(s) || LateFunctorIn(s, acts)
    decreases acts
  {
    hide Step, ShutEarly, LateFunctor;
    if acts != [] {
      EarlyStep(s, acts[0]);
      StepKeeps(s, acts[0]);
      EarlyRun(Step(s, acts[0]), acts[1..]);
    }
  }

  /** SHUT_WR is issued before the last accepted byte if and only if the loop
      runs a queued shutdownInLoop after a close that left bytes unwritten: the
      functor tests the write interest, which the close has taken away. */
  lemma ShutEarlyExactly(mark: nat, acts: seq<Action>)
    ensures ShutEarly(After(mark, acts)) <==> LateFunctorIn(Initial(mark), acts)
  {
    EarlyRun(Initial(mark), acts);
  }

  lemma {:induction false} QueueReachesShutdown(s: State, n: nat)
    requires Inv(s) && s.closed && s.shut.None? && ShutdownF in s.queue && n == |s.queue|
    ensures var r := Exec(Step, s, seq(n, _ => RunNext));
      r.shut == Some(|s.wire|) && r.wire == s.wire && r.accepted == s.accepted
    decreases n
  {
    var runs: seq<Action> := seq(n, _ => RunNext);
    assert runs[1..] == seq(n - 1, _ => RunNext);
    var r := Step(s, RunNext);
    StepKeeps(s, RunNext);
    if s.queue[0].ShutdownF? {
      ShutStays(r, runs[1..]);
    } else {
      assert s.queue == [s.queue[0]] + s.queue[1..];
      QueueReachesShutdown(r, n - 1);
    }
  }

  lemma {:induction false} ShutStays(s: State, acts: seq<Action>)
    requires Inv(s) && s.shut.Some?
    ensures var r := Exec(Step, s, acts); r.shut == s.shut && r.wire == s.wire && r.accepted == s.accepted
    decreases acts
  {
    hide Inv;
    if acts != [] {
      StepKeeps(s, acts[0]);
      ShutStaysStep(s, acts[0]);
      hide Step;
      ShutStays(Step(s, acts[0]), acts[1..]);
    }
  }

  lemma ShutStaysStep(s: State, a: Action)
    requires Inv(s) && s.shut.Some?
    ensures var r := Step(s, a); r.shut == s.shut && r.wire == s.wire && r.accepted == s.accepted
  {
  }

  /** What is left of a `shutdown` by thread `t`, until the loop has run it. */
  function Finish(s: State, t: nat): seq<Action>
  {
    (if t in s.checked then [OtherSet(t), OtherPush(t)] else [OtherPush(t)]) + seq(|s.queue| + 1, _ => RunNext)
  }

  /** Every `shutdown` that another thread began before such a close comes too
      early, whether the close fell between its test and its store or between
      its store and its functor. */
  lemma ShutdownAcrossCloseIsEarly(s: State, t: nat)
    requires Inv(s) && s.closed && s.wire != s.accepted && s.shut.None?
    requires t in s.checked || t in s.pushing
    ensures var r := Exec(Step, s, Finish(s, t)); ShutEarly(r) && r.shut == Some(|s.wire|)
  {
    hide Step;
    var runs: seq<Action> := seq(|s.queue| + 1, _ => RunNext);
    var calls: seq<Action> := if t in s.checked then [OtherSet(t), OtherPush(t)] else [OtherPush(t)];
    ExecAppend(Step, s, calls, runs);
    CallsQueueFunctor(s, t, calls);
    QueueReachesShutdown(Exec(Step, s, calls), |s.queue| + 1);
  }

  lemma CallsQueueFunctor(s: State, t: nat, calls: seq<Action>)
    requires Inv(s) && s.closed && (t in s.checked || t in s.pushing)
    requires calls == if t in s.checked then [OtherSet(t), OtherPush(t)] else [OtherPush(t)]
    ensures var r := Exec(Step, s, calls);
      Inv(r) && r == s.(state := r.state, checked := r.checked, pushing := r.pushing, queue := s.queue + [ShutdownF])
  {
    hide Exec, Inv;
    if t in s.checked {
      ExecTwo(Step, s, OtherSet(t), OtherPush(t));
      StepKeeps(s, OtherSet(t));
      StepKeeps(Step(s, OtherSet(t)), OtherPush(t));
    } else {
      ExecOne(Step, s, OtherPush(t));
      StepKeeps(s, OtherPush(t));
    }
  }

  /** A send is accepted and blocks; the connection is closed while another
      thread is in `shutdown`, after its test or after its store. */
  const RACE_BEFORE_CLOSE := [Establish, Send("x"), SendInLoop(WouldBlock)]
  const RACE_CLOSE := [OtherCheck(1), HangUp, OtherSet(1)]
  const RACE_STORE := [OtherCheck(1), OtherSet(1), HangUp]
  const RACE_AFTER_CLOSE := [OtherPush(1), RunNext, RunNext]

  /** Both races exist. In the first the late store also revives the state. */
  lemma ShutdownRacesWithClose()
    ensures var s := After(1, RACE_BEFORE_CLOSE + RACE_CLOSE + RACE_AFTER_CLOSE);
      s.shut == Some(0) && s.accepted == "x" && s.state.Disconnecting?
    ensures var s := After(1, RACE_BEFORE_CLOSE + RACE_STORE + RACE_AFTER_CLOSE);
      s.shut == Some(0) && s.accepted == "x" && s.state.Disconnected?
  {
    hide Step;
    ExecAppend(Step, Initial(1), RACE_BEFORE_CLOSE + RACE_CLOSE, RACE_AFTER_CLOSE);
    ExecAppend(Step, Initial(1), RACE_BEFORE_CLOSE, RACE_CLOSE);
    ExecAppend(Step, Initial(1), RACE_BEFORE_CLOSE + RACE_STORE, RACE_AFTER_CLOSE);
    ExecAppend(Step, Initial(1), RACE_BEFORE_CLOSE, RACE_STORE);
    RaceBeforeClose();
    RaceClose();
    RaceAfterClose(Disconnecting);
    RaceAfterClose(Disconnected);
  }

  const RACE_BLOCKED := State(Connected, true, true, "x", 1, None, {}, {}, [HighWaterF(1)], "", "x", false, None)
  const RACE_REVIVED := State(Disconnecting, false, false, "x", 1, None, {}, {1}, [HighWaterF(1)], "", "x", true, None)

  lemma RaceBeforeClose()
    ensures Exec(Step, Initial(1), RACE_BEFORE_CLOSE) == RACE_BLOCKED
  {
    ExecThree(Step, Initial(1), Establish, Send("x"), SendInLoop(WouldBlock));
    assert Step(Initial(1), Establish) == Initial(1).(state := Connected, reading := true);
    assert "x"[0..] == "x" && "" + "x" == "x" && "" + "x"[..0] == "";
  }

  lemma RaceClose()
    ensures Exec(Step, RACE_BLOCKED, RACE_CLOSE) == RACE_REVIVED
    ensures Exec(Step, RACE_BLOCKED, RACE_STORE) == RACE_REVIVED.(state := Disconnected)
  {
    ExecThree(Step, RACE_BLOCKED, OtherCheck(1), HangUp, OtherSet(1));
    ExecThree(Step, RACE_BLOCKED, OtherCheck(1), OtherSet(1), HangUp);
  }

  lemma RaceAfterClose(state: ConnState)
    requires state.Disconnecting? || state.Disconnected?
    ensures var s := Exec(Step, RACE_REVIVED.(state := state), RACE_AFTER_CLOSE);
      s.shut == Some(0) && s.accepted == "x" && s.state == state
  {
    ExecThree(Step, RACE_REVIVED.(state := state), OtherPush(1), RunNext, RunNext);
    assert [HighWaterF(1), ShutdownF][1..] == [ShutdownF];
  }

  /** A write-complete callback is queued by exactly those steps that put the
      last accepted byte on the wire by a successful write. */
  lemma WriteCompleteWhenDrained(s: State, a: Action)
    requires Inv(s) && !s.closed && ((a.SendInLoop? && s.sending.Some?) || (a.Writable? && s.sending.None?))
    ensures var r := Step(s, a);
      && s.queue <= r.queue
      && (WriteCompleteF in r.queue[|s.queue|..] <==>
            a.w.Wrote? && r.wire == r.accepted && (a.Writable? ==> s.writing && |s.wire| < |r.wire|))
  {
    if a.SendInLoop? {
      SendCompletes(s, s.sending.value, a.w);
    } else {
      FlushCompletes(s, a.w);
    }
  }

  lemma SendCompletes(s: State, data: string, w: WriteOutcome)
    requires Inv(s) && !s.closed && s.sending == Some(data)
    ensures var r := Deliver(s, data, w);
      && s.queue <= r.queue
      && (WriteCompleteF in r.queue[|s.queue|..] <==> w.Wrote? && r.wire == r.accepted)
  {
    var r := Deliver(s, data, w);
    if s.writing || s.backlog != "" {
      assert |r.wire| < |r.accepted|;
    }
  }

  lemma FlushCompletes(s: State, w: WriteOutcome)
    requires Inv(s) && !s.closed && s.sending.None?
    ensures var r := Flush(s, w);
      && s.queue <= r.queue
      && (WriteCompleteF in r.queue[|s.queue|..] <==>
            w.Wrote? && r.wire == r.accepted && s.writing && |s.wire| < |r.wire|)
  {
    var r := Flush(s, w);
    FlushKeeps(s, w);
    assert r.wire == r.accepted ==> r.backlog == "";
  }

  /** The high-water callback is queued exactly when a send lifts the backlog
      from below the mark to the mark or above. */
  lemma HighWaterOnCrossing(s: State, data: string, w: WriteOutcome)
    requires Inv(s) && !s.closed && s.sending == Some(data)
    ensures var r := Step(s, SendInLoop(w));
      HighWaterF(|r.backlog|) in r.queue[|s.queue|..] <==> |s.backlog| < s.mark <= |r.backlog| && !r.closed
  {
  }
}

/** The connection as an object with its output buffer. Each handler computes
    the function of the same meaning in module TcpConnection. */
module TcpConnectionObject {
  import opened Runs
  import opened ConnectionState
  import B = Buffer
  import M = TcpConnection

  class TcpConnection {
    var state: ConnState
    var reading: bool
    var writing: bool
    const out: B.Buffer
    const mark: nat
    var queue: seq<M.Functor>
    var wire: string
    /** SHUT_WR was issued on the socket. */
    var shutWrite: bool
    ghost var accepted: string
    ghost var closed: bool
    ghost var shut: Option<nat>
    /** How often the close callback was called. */
    var closeCalls: nat

    ghost predicate Valid()
      reads this, out
    {
      out.Valid() && (shutWrite <==> shut.Some?)
    }

    ghost function View(): M.State
      requires Valid()
      reads this, out, out.store
    {
      M.State(state, reading, writing, out.Readable(), mark, None, {}, {}, queue, wire, accepted, closed, shut)
    }

    constructor (mark: nat)
      ensures Valid() && View() == M.Initial(mark) && closeCalls == 0 && fresh(out) && fresh(out.store)
    {
      state, reading, writing := Connecting, false, false;
      out := new B.Buffer(B.INITIAL_SIZE);
      this.mark := mark;
      queue, wire, shutWrite := [], "", false;
      accepted, closed, shut := "", false, None;
      closeCalls := 0;
    }

    /** handleClose, up to the call of the close callback, which removes the
        connection from the server: TcpServerObject.TcpServer.HandleClose. */
    method HandleClose()
      requires Valid()
      modifies this
      ensures Valid() && View() == M.Close(old(View())) && closeCalls == old(closeCalls) + 1
    {
      state := Disconnected;
      reading, writing := false, false;
      closed := true;
      closeCalls := closeCalls + 1;
    }

    method ShutdownInLoop()
      requires Valid()
      modifies this`shutWrite, this`shut
      ensures Valid() && View() == M.ShutdownInLoop(old(View()))
    {
      if !writing {
        shutWrite := true;
        shut := if shut.None? then Some(|wire|) else shut;
      }
    }

    method Shutdown()
      requires Valid()
      modifies this`state, this`shutWrite, this`shut
      ensures Valid() && View() == M.Step(old(View()), M.Shutdown)
    {
      if state == Connected {
        state := Disconnecting;
        ShutdownInLoop();
      }
    }

    method ConnectEstablished()
      requires Valid()
      modifies this`state, this`reading
      ensures Valid() && View() == old(View()).(state := Connected, reading := true)
      ensures old(state).Connecting? ==> View() == M.Step(old(View()), M.Establish)
    {
      state := Connected;
      reading := true;
    }

    method ConnectDestroyed()
      requires Valid()
      modifies this`state, this`reading, this`writing, this`closed
      ensures Valid() && View() == M.Step(old(View()), M.Destroy)
    {
      if state == Connected {
        state := Disconnected;
        reading, writing := false, false;
        closed := true;
      }
    }

    /** The second half of sendInLoop. */
    method Append(data: string)
      requires Valid() && data != ""
      modifies this`queue, this`writing, out, out.store
      ensures Valid() && View() == M.Queue(old(View()), data)
      ensures out.store == old(out.store) || fresh(out.store)
    {
      var oldLen := out.writer - out.reader;
      if oldLen + |data| >= mark && oldLen < mark {
        queue := queue + [M.HighWaterF(oldLen + |data|)];
      }
      out.Append(data);
      if !writing {
        writing := true;
      }
    }

    method SendInLoop(data: string, w: M.WriteOutcome)
      requires Valid()
      modifies this, out, out.store
      ensures Valid() && View() == M.Deliver(old(View()), data, w)
      ensures closeCalls == old(closeCalls) + if M.Breaks(old(View()), w) then 1 else 0
      ensures out.store == old(out.store) || fresh(out.store)
    {
      hide M.Queue;
      if state == Disconnected {
        return;
      }
      accepted := accepted + data;
      var nwrote := 0;
      var faultError := false;
      if !writing && out.writer == out.reader {
        nwrote := M.Taken(w, |data|);
        wire := wire + data[..nwrote];
        if w.Wrote? && nwrote == |data| {
          queue := queue + [M.WriteCompleteF];
        }
        faultError := w.Broken?;
      }
      assert nwrote == 0 ==> wire == old(wire) && data[nwrote..] == data;
      M.QueueNothing(View());
      if !faultError && nwrote < |data| {
        Append(data[nwrote..]);
      }
      if faultError {
        HandleClose();
      }
    }

    method HandleWrite(w: M.WriteOutcome)
      requires Valid()
      modifies this`wire, this`writing, this`queue, this`shutWrite, this`shut, out`reader, out`writer
      ensures Valid() && View() == M.Flush(old(View()), w)
    {
      if !writing {
        return;
      }
      ghost var before := out.Readable();
      var n := M.Taken(w, out.writer - out.reader);
      if n > 0 {
        assert out.store[out.reader..out.reader + n] == before[..n];
        wire := wire + out.store[out.reader..out.reader + n];
        out.Retrieve(n);
        assert out.Readable() == before[n..];
        if out.writer == out.reader {
          writing := false;
          queue := queue + [M.WriteCompleteF];
          if state == Disconnecting {
            ShutdownInLoop();
          }
        }
      }
    }

    /** handleRead: `n` is what readFd returned; on data the user's message
        callback runs, whose effects are further calls of these methods. */
    method HandleRead(n: int)
      requires Valid()
      modifies this
      ensures Valid() && View() == if n == 0 then M.Close(old(View())) else old(View())
      ensures !old(state).Connecting? ==> View() == M.Step(old(View()), M.Readable(n == 0))
      ensures closeCalls == old(closeCalls) + if n == 0 then 1 else 0
    {
      if n == 0 {
        HandleClose();
      }
    }
  }
}
