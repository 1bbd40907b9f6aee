/** The life of a connection across the accepting loop and its own loop, in
    core/src/TcpServer.cpp and the lifecycle part of core/src/TcpConnection.cpp:
    insert into the map, established, close, erase, destroyed.

    Loop 0 is the accepting loop; a connection belongs to any loop, loop 0 too
    when there are no others. A connection is named by its number. Any thread may
    call `shutdown`, which tests the state and stores the new one in two steps. */
module TcpServer {
  import opened Runs
  import opened ConnectionState

  datatype Task = EstablishT(c: nat) | RemoveT(c: nat) | DestroyT(c: nat)

  /** `interest`: the channel is registered for events, set by enableReading and
      cleared by disableAll. The counts are what has happened so far. */
  datatype Conn = Conn(
    loop: nat, state: ConnState, interest: bool, established: nat, closes: nat, erases: nat, destroys: nat)

  /** Loop 0 inside newConnection after the insertion, or inside
      removeConnectionInLoop after the erasure. */
  datatype Running = Idle | Accepted(c: nat) | Erased(c: nat)

  type Queues = map<nat, seq<Task>>

  /** A thread in `shutdown` of connection `c` that has seen kConnected. */
  datatype Caller = Caller(c: nat, thread: nat)

  datatype State = State(
    next: nat, connections: set<nat>, conns: map<nat, Conn>, queues: Queues, running: Running, checked: set<Caller>)

  /** `Close` is a call of handleClose, from an end of file, a hang-up or a
      failing send; the event loops deliver it for any established connection
      that something still refers to. */
  datatype Action =
    | Accept(loop: nat) | FinishAccept | Close(c: nat) | FinishErase | RunTask(loop: nat)
    | ShutdownTest(who: Caller) | ShutdownStore(who: Caller)

  const INITIAL := State(1, {}, map[], map[], Idle, {})

  function Queue(qs: Queues, l: nat): seq<Task>
  {
    if l in qs then qs[l] else []
  }

  function Pushed(qs: Queues, l: nat, t: Task): Queues
  {
    qs[l := Queue(qs, l) + [t]]
  }

  function Popped(qs: Queues, l: nat): Queues
    requires Queue(qs, l) != []
  {
    qs[l := Queue(qs, l)[1..]]
  }

  function Update(s: State, c: nat, conn: Conn): State
  {
    s.(conns := s.conns[c := conn])
  }

  function Establish(s: State, c: nat): State
    requires c in s.conns
  {
    Update(s, c, s.conns[c].(state := Connected, interest := true, established := s.conns[c].established + 1))
  }

  /** removeConnectionInLoop up to its queueInLoop. */
  function Erase(s: State, c: nat): State
    requires c in s.conns
  {
    Update(s, c, s.conns[c].(erases := s.conns[c].erases + 1))
      .(connections := s.connections - {c}, running := Erased(c))
  }

  predicate CanClose(s: State, c: nat)
  {
    c in s.conns && s.conns[c].established > 0 && (s.conns[c].loop == 0 ==> s.running.Idle?)
  }

  /** handleClose and removeConnection. */
  function CloseConn(s: State, c: nat): State
    requires c in s.conns
  {
    var s1 := Update(s, c, s.conns[c].(state := Disconnected, interest := false, closes := s.conns[c].closes + 1));
    if s.conns[c].loop == 0 then Erase(s1, c) else s1.(queues := Pushed(s.queues, 0, RemoveT(c)))
  }

  /** connectDestroyed. */
  function Destroy(s: State, c: nat): State
    requires c in s.conns
  {
    var conn := s.conns[c];
    Update(s, c, conn.(destroys := conn.destroys + 1,
                       state := if conn.state.Connected? then Disconnected else conn.state,
                       interest := conn.interest && !conn.state.Connected?))
  }

  function Step(s: State, a: Action): State
  {
    match a
    case Accept(l) =>
      if s.running.Idle? then
        Update(s, s.next, Conn(l, Connecting, false, 0, 0, 0, 0))
          .(next := s.next + 1, connections := s.connections + {s.next}, running := Accepted(s.next))
      else s
    case FinishAccept =>
      if !s.running.Accepted? || s.running.c !in s.conns then s
      else if s.conns[s.running.c].loop == 0 then Establish(s, s.running.c).(running := Idle)
      else s.(queues := Pushed(s.queues, s.conns[s.running.c].loop, EstablishT(s.running.c)), running := Idle)
    case Close(c) => if CanClose(s, c) then CloseConn(s, c) else s
    case ShutdownTest(who) =>
      if who.c in s.conns && s.conns[who.c].state.Connected? then s.(checked := s.checked + {who}) else s
    case ShutdownStore(who) =>
      if who in s.checked && who.c in s.conns then
        Update(s, who.c, s.conns[who.c].(state := Disconnecting)).(checked := s.checked - {who})
      else s
    case FinishErase =>
      if !s.running.Erased? || s.running.c !in s.conns then s
      else s.(queues := Pushed(s.queues, s.conns[s.running.c].loop, DestroyT(s.running.c)), running := Idle)
    case RunTask(l) =>
      var q := Queue(s.queues, l);
      if q == [] || (l == 0 && !s.running.Idle?) || q[0].c !in s.conns then s
      else Perform(s.(queues := Popped(s.queues, l)), q[0])
  }

  function Perform(s: State, t: Task): State
    requires t.c in s.conns
  {
    match t
    case EstablishT(c) => Establish(s, c)
    case RemoveT(c) => Erase(s, c)
    case DestroyT(c) => Destroy(s, c)
  }

  // ---------- The invariant ----------

  function One(b: bool): nat
  {
    if b then 1 else 0
  }

  function Pending(qs: Queues, l: nat, t: Task): nat
  {
    multiset(Queue(qs, l))[t]
  }

  /** Every stage is entered once for each time the stage before it was left. */
  ghost predicate ConnOk(s: State, c: nat)
    requires c in s.conns
  {
    var k := s.conns[c];
    && k.established + One(s.running == Accepted(c)) + Pending(s.queues, k.loop, EstablishT(c)) == 1
    && k.closes == k.erases + Pending(s.queues, 0, RemoveT(c))
    && k.erases == k.destroys + One(s.running == Erased(c)) + Pending(s.queues, k.loop, DestroyT(c))
    && (k.established == 0 <==> k.state.Connecting?)
    && (k.closes > 0 ==> k.state.Disconnected? || k.state.Disconnecting?)
    && (k.state.Disconnected? ==> k.closes > 0)
    && (k.interest <==> k.established > 0 && k.closes == 0)
    && (c in s.connections <==> k.erases == 0)
  }

  /** Tasks sit on the right loop. */
  ghost predicate TaskOk(s: State, l: nat, t: Task)
  {
    t.c in s.conns && l == if t.RemoveT? then 0 else s.conns[t.c].loop
  }

  ghost predicate Inv(s: State)
  {
    && (forall c :: c in s.conns ==> c < s.next && ConnOk(s, c))
    && s.connections <= s.conns.Keys
    && (forall l, t :: Pending(s.queues, l, t) > 0 ==> TaskOk(s, l, t))
    && (!s.running.Idle? ==> s.running.c in s.conns)
    && (forall who :: who in s.checked ==> who.c in s.conns && s.conns[who.c].established > 0)
  }

  lemma PushCounts(qs: Queues, l: nat, t: Task)
    ensures forall m, u :: Pending(Pushed(qs, l, t), m, u) == Pending(qs, m, u) + One(m == l && u == t)
  {
  }

  lemma PopCounts(qs: Queues, l: nat)
    requires Queue(qs, l) != []
    ensures Pending(qs, l, Queue(qs, l)[0]) > 0
    ensures forall m, u :: Pending(qs, m, u) == Pending(Popped(qs, l), m, u) + One(m == l && u == Queue(qs, l)[0])
  {
    var q := Queue(qs, l);
    assert q == [q[0]] + q[1..];
  }

  lemma AcceptKeeps(s: State, l: nat)
    requires Inv(s) && s.running.Idle?
    ensures Inv(Step(s, Accept(l)))
  {
    hide Pending, ConnOk;
    var r := Step(s, Accept(l));
    forall m, t | Pending(s.queues, m, t) > 0 ensures TaskOk(r, m, t) && t.c != s.next { assert TaskOk(s, m, t); }
    forall c | c in r.conns ensures ConnOk(r, c) { AcceptConnKeeps(s, l, c); }
  }

  lemma AcceptConnKeeps(s: State, l: nat, c: nat)
    requires s.running.Idle? && (c in s.conns ==> ConnOk(s, c) && c < s.next) && s.connections <= s.conns.Keys
    requires forall m, t :: Pending(s.queues, m, t) > 0 ==> t.c != s.next
    ensures c in Step(s, Accept(l)).conns ==> ConnOk(Step(s, Accept(l)), c)
  {
    hide Pending;
  }

  lemma FinishAcceptConnKeeps(s: State, d: nat)
    requires s.running.Accepted? && s.running.c in s.conns && d in s.conns && ConnOk(s, d)
    ensures d in Step(s, FinishAccept).conns && ConnOk(Step(s, FinishAccept), d)
  {
    hide Pending, Pushed;
    PushCounts(s.queues, s.conns[s.running.c].loop, EstablishT(s.running.c));
  }

  lemma FinishAcceptKeeps(s: State)
    requires Inv(s) && s.running.Accepted? && s.running.c in s.conns
    ensures Inv(Step(s, FinishAccept))
  {
    hide Pending, Pushed, ConnOk;
    PushCounts(s.queues, s.conns[s.running.c].loop, EstablishT(s.running.c));
    var r := Step(s, FinishAccept);
    forall d | d in r.conns ensures ConnOk(r, d) { FinishAcceptConnKeeps(s, d); }
    forall m, t | Pending(r.queues, m, t) > 0 ensures TaskOk(r, m, t) { assert Pending(s.queues, m, t) > 0 ==> TaskOk(s, m, t); }
  }

  lemma FinishEraseConnKeeps(s: State, d: nat)
    requires s.running.Erased? && s.running.c in s.conns && d in s.conns && ConnOk(s, d)
    ensures d in Step(s, FinishErase).conns && ConnOk(Step(s, FinishErase), d)
  {
    hide Pending, Pushed;
    PushCounts(s.queues, s.conns[s.running.c].loop, DestroyT(s.running.c));
  }

  lemma FinishEraseKeeps(s: State)
    requires Inv(s) && s.running.Erased? && s.running.c in s.conns
    ensures Inv(Step(s, FinishErase))
  {
    hide Pending, Pushed, ConnOk;
    PushCounts(s.queues, s.conns[s.running.c].loop, DestroyT(s.running.c));
    var r := Step(s, FinishErase);
    forall d | d in r.conns ensures ConnOk(r, d) { FinishEraseConnKeeps(s, d); }
    forall m, t | Pending(r.queues, m, t) > 0 ensures TaskOk(r, m, t) { assert Pending(s.queues, m, t) > 0 ==> TaskOk(s, m, t); }
  }

  lemma StoreConnKeeps(s: State, who: Caller, d: nat)
    requires who in s.checked && who.c in s.conns && s.conns[who.c].established > 0 && d in s.conns && ConnOk(s, d)
    ensures d in Step(s, ShutdownStore(who)).conns && ConnOk(Step(s, ShutdownStore(who)), d)
  {
    hide Pending, Pushed;
  }

  lemma StoreKeeps(s: State, who: Caller)
    requires Inv(s) && who in s.checked
    ensures Inv(Step(s, ShutdownStore(who)))
  {
    hide Pending, Pushed, ConnOk;
    var r := Step(s, ShutdownStore(who));
    forall d | d in r.conns ensures ConnOk(r, d) { StoreConnKeeps(s, who, d); }
    forall m, t | Pending(r.queues, m, t) > 0 ensures TaskOk(r, m, t) { assert Pending(s.queues, m, t) > 0 ==> TaskOk(s, m, t); }
  }

  lemma TestKeeps(s: State, who: Caller)
    requires Inv(s) && who.c in s.conns && s.conns[who.c].state.Connected?
    ensures Inv(Step(s, ShutdownTest(who)))
  {
    hide Pending;
    var r := Step(s, ShutdownTest(who));
    assert ConnOk(s, who.c);
    forall d | d in r.conns ensures ConnOk(r, d) { assert ConnOk(s, d); }
    forall m, t | Pending(r.queues, m, t) > 0 ensures TaskOk(r, m, t) { assert TaskOk(s, m, t); }
  }

  lemma CloseConnKeeps(s: State, c: nat, d: nat)
    requires CanClose(s, c) && d in s.conns && ConnOk(s, d)
    ensures d in CloseConn(s, c).conns && ConnOk(CloseConn(s, c), d)
  {
    hide Pending, Pushed;
    PushCounts(s.queues, 0, RemoveT(c));
  }

  lemma CloseKeeps(s: State, c: nat)
    requires Inv(s) && CanClose(s, c)
    ensures Inv(CloseConn(s, c))
  {
    hide Pending, Pushed, ConnOk;
    PushCounts(s.queues, 0, RemoveT(c));
    var r := CloseConn(s, c);
    forall d | d in r.conns ensures ConnOk(r, d) { CloseConnKeeps(s, c, d); }
    forall m, t | Pending(r.queues, m, t) > 0 ensures TaskOk(r, m, t) { assert Pending(s.queues, m, t) > 0 ==> TaskOk(s, m, t); }
  }

  lemma RunTaskConnKeeps(s: State, l: nat, d: nat)
    requires Queue(s.queues, l) != [] && (l == 0 ==> s.running.Idle?)
    requires TaskOk(s, l, Queue(s.queues, l)[0]) && d in s.conns && ConnOk(s, d)
    ensures d in Step(s, RunTask(l)).conns && ConnOk(Step(s, RunTask(l)), d)
  {
    hide Pending, Queue, Popped;
    PopCounts(s.queues, l);
  }

  lemma RunTaskKeeps(s: State, l: nat)
    requires Inv(s) && Queue(s.queues, l) != [] && (l == 0 ==> s.running.Idle?)
    ensures Inv(Step(s, RunTask(l)))
  {
    hide Pending, Queue, Popped, ConnOk;
    PopCounts(s.queues, l);
    assert TaskOk(s, l, Queue(s.queues, l)[0]);
    var r := Step(s, RunTask(l));
    forall d | d in r.conns ensures ConnOk(r, d) { RunTaskConnKeeps(s, l, d); }
    forall m, u | Pending(r.queues, m, u) > 0 ensures TaskOk(r, m, u) { assert TaskOk(s, m, u); }
  }

  lemma StepKeeps(s: State, a: Action)
    requires Inv(s)
    ensures Inv(Step(s, a))
  {
    match a
    case Accept(l) => if s.running.Idle? { AcceptKeeps(s, l); }
    case Close(c) => if CanClose(s, c) { CloseKeeps(s, c); }
    case RunTask(l) => if Queue(s.queues, l) != [] && (l == 0 ==> s.running.Idle?) { RunTaskKeeps(s, l); }
    case FinishAccept => if s.running.Accepted? { FinishAcceptKeeps(s); }
    case FinishErase => if s.running.Erased? { FinishEraseKeeps(s); }
    case ShutdownTest(who) => if who.c in s.conns && s.conns[who.c].state.Connected? { TestKeeps(s, who); }
    case ShutdownStore(who) => if who in s.checked { StoreKeeps(s, who); }
  }

  ghost function After(acts: seq<Action>): State
  {
    Exec(Step, INITIAL, acts)
  }

  lemma RunKeeps(acts: seq<Action>)
    ensures Inv(After(acts))
  {
    forall s, a | Inv(s) ensures Inv(Step(s, a)) { StepKeeps(s, a); }
    Always(Step, Inv, INITIAL, acts);
  }

  /** The stages come in order: established once and before any close, an erase
      only for a close, a destroy only for an erase. The map holds exactly the
      connections inserted and not yet erased. A closed connection is in state
      kDisconnected or, after a late store by `shutdown`, kDisconnecting; its
      channel has lost all interest for good. */
  lemma StagesInOrder(acts: seq<Action>)
    ensures var s := After(acts);
      && (forall c :: c in s.conns ==>
            var k := s.conns[c];
            && k.destroys <= k.erases <= k.closes
            && k.established <= 1 && (k.closes > 0 ==> k.established == 1)
            && (k.closes > 0 ==> k.state.Disconnected? || k.state.Disconnecting?)
            && (k.state.Disconnected? ==> k.closes > 0)
            && (k.interest <==> k.established == 1 && k.closes == 0)
            && (c in s.connections <==> k.erases == 0))
      && s.connections <= s.conns.Keys
  {
    RunKeeps(acts);
    var s := After(acts);
    forall c | c in s.conns
      ensures var k := s.conns[c];
        && k.destroys <= k.erases <= k.closes
        && k.established <= 1 && (k.closes > 0 ==> k.established == 1)
        && (k.closes > 0 ==> k.state.Disconnected? || k.state.Disconnecting?)
        && (k.state.Disconnected? ==> k.closes > 0)
        && (k.interest <==> k.established == 1 && k.closes == 0)
        && (c in s.connections <==> k.erases == 0)
    {
      assert ConnOk(s, c);
    }
  }

  /** Something holds a strong reference: the map, a functor that is queued, or
      one that is running. */
  ghost predicate Referred(s: State, c: nat)
  {
    || c in s.connections
    || s.running == Accepted(c) || s.running == Erased(c)
    || exists l, t :: t in Queue(s.queues, l) && t.c == c
  }

  /** Until connectDestroyed has run the connection is referred to; with no
      functor queued or running, the stages are complete: it is still in the map
      and open, or it was erased and destroyed once for each close. */
  lemma AliveUntilDestroyed(acts: seq<Action>)
    ensures var s := After(acts);
      forall c :: c in s.conns ==>
        && (s.conns[c].destroys == 0 ==> Referred(s, c))
        && ((s.running.Idle? && forall l :: Queue(s.queues, l) == []) ==>
              var k := s.conns[c]; k.established == 1 && k.destroys == k.erases == k.closes)
  {
    RunKeeps(acts);
    var s := After(acts);
    forall c | c in s.conns
      ensures s.conns[c].destroys == 0 ==> Referred(s, c)
      ensures (s.running.Idle? && forall l :: Queue(s.queues, l) == []) ==>
        var k := s.conns[c]; k.established == 1 && k.destroys == k.erases == k.closes
    {
      var k := s.conns[c];
      assert ConnOk(s, c);
      if Pending(s.queues, k.loop, DestroyT(c)) > 0 {
        assert DestroyT(c) in Queue(s.queues, k.loop) && DestroyT(c).c == c;
      }
      if forall l :: Queue(s.queues, l) == [] {
        assert Queue(s.queues, k.loop) == [] && Queue(s.queues, 0) == [];
      }
    }
  }

  // ---------- Which loop, and what each step gets done ----------

  /** The loops that newConnection was given, in order. */
  ghost function Chosen(s: State, acts: seq<Action>): seq<nat>
    decreases acts
  {
    if acts == [] then []
    else
      (if acts[0].Accept? && s.running.Idle? then [acts[0].loop] else []) + Chosen(Step(s, acts[0]), acts[1..])
  }

  /** Connections are numbered from 1 in the order of the accepts `loops`, and each
      belongs to the loop chosen for it. */
  ghost predicate Numbered(s: State, loops: seq<nat>)
  {
    && s.next == |loops| + 1
    && (forall c :: c in s.conns <==> 1 <= c <= |loops|)
    && (forall c :: c in s.conns ==> s.conns[c].loop == loops[c - 1])
  }

  lemma NumberedStep(s: State, a: Action, loops: seq<nat>)
    requires Inv(s) && Numbered(s, loops)
    ensures Numbered(Step(s, a), loops + if a.Accept? && s.running.Idle? then [a.loop] else [])
  {
    hide Pending, ConnOk, Queue, Pushed, Popped;
  }

  lemma {:induction false} NumberedRun(s: State, acts: seq<Action>, loops: seq<nat>)
    requires Inv(s) && Numbered(s, loops)
    ensures Numbered(Exec(Step, s, acts), loops + Chosen(s, acts))
    decreases acts
  {
    hide Step, Inv, Numbered;
    if acts == [] {
      assert loops + [] == loops;
    } else {
      var now := if acts[0].Accept? && s.running.Idle? then [acts[0].loop] else [];
      NumberedStep(s, acts[0], loops);
      StepKeeps(s, acts[0]);
      NumberedRun(Step(s, acts[0]), acts[1..], loops + now);
      assert loops + now + Chosen(Step(s, acts[0]), acts[1..]) == loops + Chosen(s, acts);
    }
  }

  /** In every run there is one connection for each accept, under a number of its
      own and on the loop chosen for it, for good. */
  lemma OneForEachAccept(acts: seq<Action>)
    ensures Numbered(After(acts), Chosen(INITIAL, acts))
  {
    NumberedRun(INITIAL, acts, []);
    assert [] + Chosen(INITIAL, acts) == Chosen(INITIAL, acts);
  }

  /** The stage that a task brings about, as a count of one connection. */
  function Reached(k: Conn, t: Task): nat
  {
    match t
    case EstablishT(_) => k.established
    case RemoveT(_) => k.erases
    case DestroyT(_) => k.destroys
  }

  /** A loop that runs its queue performs the stage of the first task. */
  lemma TaskAdvances(s: State, l: nat)
    requires Inv(s) && Queue(s.queues, l) != [] && (l == 0 ==> s.running.Idle?)
    ensures var t := Queue(s.queues, l)[0]; var r := Step(s, RunTask(l));
      && Queue(r.queues, l) == Queue(s.queues, l)[1..]
      && t.c in s.conns && t.c in r.conns && Reached(r.conns[t.c], t) == Reached(s.conns[t.c], t) + 1
  {
    hide ConnOk;
    PopCounts(s.queues, l);
    assert TaskOk(s, l, Queue(s.queues, l)[0]);
  }

  /** newConnection goes on to establish the connection or to queue that on its
      loop, and an erasure to queue the destruction. */
  lemma RunningAdvances(s: State)
    requires Inv(s) && !s.running.Idle?
    ensures s.running.c in s.conns
    ensures var c := s.running.c; var l := s.conns[c].loop; var a := if s.running.Accepted? then FinishAccept else FinishErase;
      var r := Step(s, a);
      && r.running.Idle? && c in r.conns
      && (s.running.Accepted? && l == 0 ==> r.conns[c].established == s.conns[c].established + 1)
      && (s.running.Accepted? && l != 0 ==> EstablishT(c) in Queue(r.queues, l))
      && (s.running.Erased? ==> DestroyT(c) in Queue(r.queues, l))
  {
    hide ConnOk, Pending;
  }

  /** A close is recorded and its removal performed or queued. */
  lemma CloseAdvances(s: State, c: nat)
    requires Inv(s) && CanClose(s, c)
    ensures var r := Step(s, Close(c));
      && c in r.conns && r.conns[c].closes == s.conns[c].closes + 1
      && (if s.conns[c].loop == 0 then c !in r.connections && r.running == Erased(c)
          else RemoveT(c) in Queue(r.queues, 0))
  {
    hide ConnOk, Pending;
  }

  /** A call of `shutdown` goes on to its store only from kConnected, and stores
      once. */
  lemma ShutdownOnce(s: State, who: Caller)
    requires who.c in s.conns
    ensures s.conns[who.c].state.Connected? ==> Step(s, ShutdownTest(who)) == s.(checked := s.checked + {who})
    ensures !s.conns[who.c].state.Connected? ==> Step(s, ShutdownTest(who)) == s
    ensures who in s.checked ==>
      var r := Step(s, ShutdownStore(who));
      who !in r.checked && who.c in r.conns && r.conns[who.c] == s.conns[who.c].(state := Disconnecting)
    ensures who !in s.checked ==> Step(s, ShutdownStore(who)) == s
  {
    assert s.conns[who.c := s.conns[who.c]] == s.conns;
  }

  /** connectDestroyed disconnects a connection that is still connected and leaves
      any other as it is. */
  lemma DestroyExactly(s: State, c: nat)
    requires c in s.conns
    ensures var r := Destroy(s, c); var k := s.conns[c];
      && c in r.conns && r.conns[c].destroys == k.destroys + 1
      && (k.state.Connected? ==> r.conns[c].state.Disconnected? && !r.conns[c].interest)
      && (!k.state.Connected? ==> r.conns[c] == k.(destroys := k.destroys + 1))
  {
  }

  /** It never finds one connected: its functor is queued by a close only. */
  lemma DestroyedIsClosed(acts: seq<Action>, l: nat)
    ensures var s := After(acts); var q := Queue(s.queues, l);
      q != [] && q[0].DestroyT? ==> q[0].c in s.conns && s.conns[q[0].c].closes > 0 && !s.conns[q[0].c].state.Connected?
  {
    RunKeeps(acts);
    var s := After(acts);
    var q := Queue(s.queues, l);
    if q != [] && q[0].DestroyT? {
      PopCounts(s.queues, l);
      assert TaskOk(s, l, q[0]) && ConnOk(s, q[0].c);
    }
  }

  /** Nothing that was begun is dropped: in every run each pending stage of every
      connection is performed by the step of the loop that it waits for. */
  lemma StagesAdvance(acts: seq<Action>, l: nat, c: nat)
    ensures var s := After(acts); var q := Queue(s.queues, l);
      && (q != [] && (l == 0 ==> s.running.Idle?) ==>
            var r := Step(s, RunTask(l));
            && Queue(r.queues, l) == q[1..] && q[0].c in s.conns && q[0].c in r.conns
            && Reached(r.conns[q[0].c], q[0]) == Reached(s.conns[q[0].c], q[0]) + 1)
      && (s.running.Accepted? ==> Step(s, FinishAccept).running.Idle?)
      && (s.running.Erased? ==> Step(s, FinishErase).running.Idle?)
      && (CanClose(s, c) ==>
            c in Step(s, Close(c)).conns && Step(s, Close(c)).conns[c].closes == s.conns[c].closes + 1)
  {
    hide Step, Inv, Queue;
    RunKeeps(acts);
    var s := After(acts);
    if Queue(s.queues, l) != [] && (l == 0 ==> s.running.Idle?) { TaskAdvances(s, l); }
    if !s.running.Idle? { RunningAdvances(s); }
    if CanClose(s, c) { CloseAdvances(s, c); }
  }

  // ---------- At most once ----------

  /** In the run `acts` from `s`, handleClose is never called on `c` when the
      channel of `c` has no interest left. */
  ghost predicate CloseGuarded(s: State, acts: seq<Action>, c: nat)
    decreases acts
  {
    acts != [] ==>
      && (acts[0] == Close(c) && CanClose(s, c) ==> s.conns[c].interest)
      && CloseGuarded(Step(s, acts[0]), acts[1..], c)
  }

  function Closes(s: State, c: nat): nat
  {
    if c in s.conns then s.conns[c].closes else 0
  }

  lemma ClosesStep(s: State, a: Action, c: nat)
    requires c in s.conns ==> c < s.next
    ensures Closes(Step(s, a), c) == Closes(s, c) + One(a == Close(c) && CanClose(s, c))
  {
    hide Pushed, Popped;
  }

  lemma {:induction false} ClosesGrow(s: State, acts: seq<Action>, c: nat)
    requires Inv(s)
    ensures Closes(s, c) <= Closes(Exec(Step, s, acts), c)
    decreases acts
  {
    hide Step, ConnOk;
    if acts != [] {
      ClosesStep(s, acts[0], c);
      StepKeeps(s, acts[0]);
      ClosesGrow(Step(s, acts[0]), acts[1..], c);
    }
  }

  lemma {:induction false} GuardExactly(s: State, acts: seq<Action>, c: nat)
    requires Inv(s) && Closes(s, c) <= 1
    ensures Closes(Exec(Step, s, acts), c) <= 1 <==> CloseGuarded(s, acts, c)
    decreases acts
  {
    if acts != [] {
      var r := Step(s, acts[0]);
      assert c in s.conns ==> ConnOk(s, c);
      ClosesStep(s, acts[0], c);
      StepKeeps(s, acts[0]);
      ClosesGrow(r, acts[1..], c);
      if Closes(r, c) <= 1 {
        GuardExactly(r, acts[1..], c);
      }
    }
  }

  /** Each stage of a connection happens at most once if and only if handleClose
      is never called on it after its channel lost all interest. The code has no
      such guard. */
  lemma AtMostOnceExactly(acts: seq<Action>, c: nat)
    requires c in After(acts).conns
    ensures var k := After(acts).conns[c];
      (k.established <= 1 && k.closes <= 1 && k.erases <= 1 && k.destroys <= 1) <==> CloseGuarded(INITIAL, acts, c)
  {
    GuardExactly(INITIAL, acts, c);
    StagesInOrder(acts);
  }

  /** The weaker guard: handleClose is never called in state kDisconnected. */
  ghost predicate StateGuarded(s: State, acts: seq<Action>, c: nat)
    decreases acts
  {
    acts != [] ==>
      && (acts[0] == Close(c) && CanClose(s, c) ==> !s.conns[c].state.Disconnected?)
      && StateGuarded(Step(s, acts[0]), acts[1..], c)
  }

  /** No thread stores kDisconnecting in `c` once `c` was closed. */
  ghost predicate NoLateStore(s: State, acts: seq<Action>, c: nat)
    decreases acts
  {
    acts != [] ==>
      && (acts[0].ShutdownStore? && acts[0].who.c == c && acts[0].who in s.checked ==> Closes(s, c) == 0)
      && NoLateStore(Step(s, acts[0]), acts[1..], c)
  }

  ghost predicate NotRevived(s: State, c: nat)
  {
    Closes(s, c) > 0 ==> s.conns[c].state.Disconnected?
  }

  lemma NotRevivedStep(s: State, a: Action, c: nat)
    requires Inv(s) && NotRevived(s, c)
    requires a.ShutdownStore? && a.who.c == c && a.who in s.checked ==> Closes(s, c) == 0
    ensures NotRevived(Step(s, a), c)
  {
    hide Pushed, Popped, Pending, Queue;
    assert c in s.conns ==> ConnOk(s, c);
    if a.RunTask? {
      EstablishComesFirst(s, a.loop, c);
    }
  }

  /** A queued connectEstablished is for a connection that is not closed. */
  lemma EstablishComesFirst(s: State, l: nat, c: nat)
    requires Inv(s)
    ensures var q := Queue(s.queues, l); q != [] && q[0] == EstablishT(c) ==> Closes(s, c) == 0
  {
    hide Pending, Queue;
    var q := Queue(s.queues, l);
    if q != [] && q[0] == EstablishT(c) {
      PopCounts(s.queues, l);
      assert TaskOk(s, l, q[0]) && ConnOk(s, c);
    }
  }

  lemma {:induction false} GuardsAgree(s: State, acts: seq<Action>, c: nat)
    requires Inv(s) && NotRevived(s, c) && NoLateStore(s, acts, c)
    ensures StateGuarded(s, acts, c) <==> CloseGuarded(s, acts, c)
    decreases acts
  {
    if acts != [] {
      hide Step;
      assert c in s.conns ==> ConnOk(s, c);
      StepKeeps(s, acts[0]);
      NotRevivedStep(s, acts[0], c);
      GuardsAgree(Step(s, acts[0]), acts[1..], c);
    }
  }

  /** Where no thread stores late, a test of the state alone is the exact guard. */
  lemma StateGuardSuffices(acts: seq<Action>, c: nat)
    requires c in After(acts).conns && NoLateStore(INITIAL, acts, c)
    ensures var k := After(acts).conns[c];
      (k.established <= 1 && k.closes <= 1 && k.erases <= 1 && k.destroys <= 1) <==> StateGuarded(INITIAL, acts, c)
  {
    GuardsAgree(INITIAL, acts, c);
    AtMostOnceExactly(acts, c);
  }

  const LATE := Caller(1, 9)
  const REVIVE := [ShutdownStore(LATE), Close(1)]

  /** With a late store it is not: a thread passes the test of `shutdown`, the
      connection is closed, the thread stores kDisconnecting, and a second
      handleClose again finds a state other than kDisconnected. */
  lemma StateGuardIsNotEnough()
    ensures var acts := [Accept(0), FinishAccept, ShutdownTest(LATE)] + [Close(1), FinishErase] + REVIVE;
      var s := After(acts);
      StateGuarded(INITIAL, acts, 1) && 1 in s.conns && s.conns[1].closes == 2 && s.conns[1].erases == 2
  {
    hide Step, StateGuarded;
    var open, close: seq<Action> := [Accept(0), FinishAccept, ShutdownTest(LATE)], [Close(1), FinishErase];
    ExecAppend(Step, INITIAL, open + close, REVIVE);
    ExecAppend(Step, INITIAL, open, close);
    StateGuardedAppend(INITIAL, open + close, REVIVE, 1);
    StateGuardedAppend(INITIAL, open, close, 1);
    LateFirst();
    LateSecond();
    LateThird();
  }

  lemma {:induction false} StateGuardedAppend(s: State, first: seq<Action>, second: seq<Action>, c: nat)
    ensures StateGuarded(s, first + second, c) <==>
      StateGuarded(s, first, c) && StateGuarded(Exec(Step, s, first), second, c)
    decreases first
  {
    hide Step;
    if first == [] {
      assert first + second == second;
    } else {
      assert (first + second)[1..] == first[1..] + second;
      StateGuardedAppend(Step(s, first[0]), first[1..], second, c);
    }
  }

  lemma {:induction false} NeverClosed(s: State, acts: seq<Action>, c: nat)
    requires Close(c) !in acts
    ensures StateGuarded(s, acts, c)
    decreases acts
  {
    hide Step;
    if acts != [] {
      NeverClosed(Step(s, acts[0]), acts[1..], c);
    }
  }

  const LATE_FIRST := State(2, {1}, map[1 := Conn(0, Connected, true, 1, 0, 0, 0)], map[], Idle, {LATE})
  const LATE_SECOND := State(2, {}, map[1 := Conn(0, Disconnected, false, 1, 1, 1, 0)], map[0 := [DestroyT(1)]], Idle, {LATE})

  lemma LateFirst()
    ensures Exec(Step, INITIAL, [Accept(0), FinishAccept, ShutdownTest(LATE)]) == LATE_FIRST
    ensures StateGuarded(INITIAL, [Accept(0), FinishAccept, ShutdownTest(LATE)], 1)
  {
    NeverClosed(INITIAL, [Accept(0), FinishAccept, ShutdownTest(LATE)], 1);
    ExecThree(Step, INITIAL, Accept(0), FinishAccept, ShutdownTest(LATE));
    assert {} + {1} == {1} && {} + {LATE} == {LATE};
  }

  lemma LateSecond()
    ensures Exec(Step, LATE_FIRST, [Close(1), FinishErase]) == LATE_SECOND
    ensures StateGuarded(LATE_FIRST, [Close(1), FinishErase], 1)
  {
    var acts := [Close(1), FinishErase];
    assert acts[1..] == [FinishErase];
    ExecTwo(Step, LATE_FIRST, Close(1), FinishErase);
    assert {1} - {1} == {} && [] + [DestroyT(1)] == [DestroyT(1)];
    assert Step(LATE_FIRST, Close(1)) == LATE_SECOND.(queues := map[], running := Erased(1));
  }

  lemma LateThird()
    ensures var s := Exec(Step, LATE_SECOND, REVIVE);
      1 in s.conns && s.conns[1].closes == 2 && s.conns[1].erases == 2
    ensures StateGuarded(LATE_SECOND, REVIVE, 1)
  {
    assert REVIVE[1..] == [Close(1)];
    ExecTwo(Step, LATE_SECOND, ShutdownStore(LATE), Close(1));
  }

  /** Two closes, as when the end of file of connection 1 is already reported in
      the current round while another handler's send to it fails: it is erased
      and destroyed twice. */
  lemma ClosedTwice()
    ensures var s := After([Accept(0), FinishAccept, Close(1)] + [FinishErase, Close(1), FinishErase] + [RunTask(0), RunTask(0)]);
      1 in s.conns && s.conns[1].closes == 2 && s.conns[1].destroys == 2
  {
    hide Step;
    ExecAppend(Step, INITIAL, [Accept(0), FinishAccept, Close(1)] + [FinishErase, Close(1), FinishErase], [RunTask(0), RunTask(0)]);
    ExecAppend(Step, INITIAL, [Accept(0), FinishAccept, Close(1)], [FinishErase, Close(1), FinishErase]);
    TwiceFirst();
    TwiceSecond();
    TwiceThird();
  }

  const TWICE_FIRST := State(2, {}, map[1 := Conn(0, Disconnected, false, 1, 1, 1, 0)], map[], Erased(1), {})
  const TWICE_SECOND := State(2, {}, map[1 := Conn(0, Disconnected, false, 1, 2, 2, 0)], map[0 := [DestroyT(1), DestroyT(1)]], Idle, {})

  lemma TwiceFirst()
    ensures Exec(Step, INITIAL, [Accept(0), FinishAccept, Close(1)]) == TWICE_FIRST
  {
    ExecThree(Step, INITIAL, Accept(0), FinishAccept, Close(1));
    assert {} + {1} - {1} == {};
  }

  lemma TwiceSecond()
    ensures Exec(Step, TWICE_FIRST, [FinishErase, Close(1), FinishErase]) == TWICE_SECOND
  {
    ExecThree(Step, TWICE_FIRST, FinishErase, Close(1), FinishErase);
    var s1 := Step(TWICE_FIRST, FinishErase);
    assert [] + [DestroyT(1)] == [DestroyT(1)];
    assert s1 == TWICE_FIRST.(queues := map[0 := [DestroyT(1)]], running := Idle);
    assert Step(s1, Close(1)) == State(2, {}, map[1 := Conn(0, Disconnected, false, 1, 2, 2, 0)], map[0 := [DestroyT(1)]], Erased(1), {});
    assert [DestroyT(1)] + [DestroyT(1)] == [DestroyT(1), DestroyT(1)];
    var qs: Queues := map[0 := [DestroyT(1)]];
    assert qs[0 := [DestroyT(1), DestroyT(1)]] == map[0 := [DestroyT(1), DestroyT(1)]];
  }

  lemma TwiceThird()
    ensures var s := Exec(Step, TWICE_SECOND, [RunTask(0), RunTask(0)]);
      1 in s.conns && s.conns[1].closes == 2 && s.conns[1].destroys == 2
  {
    var acts := [RunTask(0), RunTask(0)];
    assert acts[1..] == [RunTask(0)];
    var s1 := Step(TWICE_SECOND, RunTask(0));
    assert [DestroyT(1), DestroyT(1)][1..] == [DestroyT(1)];
    assert s1 == State(2, {}, map[1 := Conn(0, Disconnected, false, 1, 2, 2, 1)], map[0 := [DestroyT(1)]], Idle, {});
    assert Exec(Step, s1, [RunTask(0)]) == Step(s1, RunTask(0));
  }
}

/** The server as an object on its accepting loop. */
module TcpServerObject {
  import opened ConnectionState
  import M = TcpServer

  class TcpServer {
    var nextConnId: nat
    var connections: set<nat>
    var conns: map<nat, M.Conn>
    var queues: M.Queues
    ghost var checked: set<M.Caller>

    ghost function View(): M.State
      reads this
    {
      M.State(nextConnId, connections, conns, queues, M.Idle, checked)
    }

    constructor ()
      ensures View() == M.INITIAL
    {
      nextConnId, connections, conns, queues := 1, {}, map[], map[];
      checked := {};
    }

    /** newConnection with `loop` as the round-robin choice. */
    method NewConnection(loop: nat)
      modifies this
      ensures View() == M.Step(M.Step(old(View()), M.Accept(loop)), M.FinishAccept)
    {
      var connId := nextConnId;
      nextConnId := nextConnId + 1;
      conns := conns[connId := M.Conn(loop, Connecting, false, 0, 0, 0, 0)];
      connections := connections + {connId};
      if loop == 0 {
        conns := conns[connId := conns[connId].(state := Connected, interest := true, established := 1)];
      } else {
        queues := M.Pushed(queues, loop, M.EstablishT(connId));
      }
    }

    /** removeConnectionInLoop: it erases, and it queues the destruction even on
        the connection's own loop. */
    method RemoveConnectionInLoop(c: nat)
      requires c in conns
      modifies this
      ensures View() == M.Step(M.Erase(old(View()), c), M.FinishErase)
    {
      conns := conns[c := conns[c].(erases := conns[c].erases + 1)];
      connections := connections - {c};
      queues := M.Pushed(queues, conns[c].loop, M.DestroyT(c));
    }

    /** handleClose on the connection's loop, through removeConnection. */
    method HandleClose(c: nat)
      requires c in conns
      modifies this
      ensures View() == if old(conns[c].loop) == 0 then M.Step(M.CloseConn(old(View()), c), M.FinishErase)
                        else M.CloseConn(old(View()), c)
    {
      conns := conns[c := conns[c].(state := Disconnected, interest := false, closes := conns[c].closes + 1)];
      if conns[c].loop == 0 {
        RemoveConnectionInLoop(c);
      } else {
        queues := M.Pushed(queues, 0, M.RemoveT(c));
      }
    }
  }
}
