/** The client pool of cache/RedisPool.cpp. */
module RedisPool {
  import opened Runs

  /** `idle` is clients_; `lent` the clients in the hands of callers or of a
      deleter that has not returned them; `freed` the deleted ones. */
  datatype State = State(
    idle: seq<nat>, lent: multiset<nat>, freed: multiset<nat>, alive: bool,
    sleeping: set<nat>, woken: set<nat>, notifies: nat)

  /** `Drop` is the deleter of a lent client. The pool is destroyed only when no
      thread is inside it. */
  datatype Action = GetClient(t: nat) | Drop(c: nat) | NotifyOne(w: nat) | WakeUp(w: nat) | Destroy

  function Initial(clients: seq<nat>): State
  {
    State(clients, multiset{}, multiset{}, true, {}, {}, 0)
  }

  function Step(s: State, a: Action): State
  {
    match a
    case GetClient(t) =>
      if !s.alive || t in s.sleeping then s
      else if s.idle == [] then s.(sleeping := s.sleeping + {t}, woken := s.woken - {t})
      else s.(idle := s.idle[1..], lent := s.lent + multiset{s.idle[0]}, woken := s.woken - {t})
    case Drop(c) =>
      if c !in s.lent then s
      else if s.alive then
        s.(idle := s.idle + [c], lent := s.lent - multiset{c}, notifies := s.notifies + 1)
      else s.(lent := s.lent - multiset{c}, freed := s.freed + multiset{c})
    case NotifyOne(w) =>
      if s.notifies == 0 then s
      else if s.sleeping == {} then s.(notifies := s.notifies - 1)
      else if w in s.sleeping then
        s.(notifies := s.notifies - 1, sleeping := s.sleeping - {w}, woken := s.woken + {w})
      else s
    case WakeUp(w) =>
      if w in s.sleeping then s.(sleeping := s.sleeping - {w}, woken := s.woken + {w}) else s
    case Destroy =>
      if s.alive && s.sleeping == {} && s.woken == {} && s.notifies == 0 then
        s.(alive := false, idle := [], freed := s.freed + multiset(s.idle))
      else s
  }

  /** All clients, wherever they are. */
  function Everywhere(s: State): multiset<nat>
  {
    multiset(s.idle) + s.lent + s.freed
  }

  ghost predicate WaitOk(s: State)
  {
    && s.sleeping !! s.woken
    && (s.sleeping != {} ==> |s.idle| <= s.notifies + |s.woken|)
    && (if s.alive then s.freed == multiset{} else s.idle == [])
  }

  ghost predicate Inv(s: State, clients: multiset<nat>)
  {
    Everywhere(s) == clients && WaitOk(s)
  }

  lemma TakeConserves(q: seq<nat>, lent: multiset<nat>)
    requires q != []
    ensures multiset(q) + lent == multiset(q[1..]) + (lent + multiset{q[0]})
  {
    assert q == [q[0]] + q[1..];
  }

  lemma ReturnConserves(q: seq<nat>, lent: multiset<nat>, c: nat)
    requires c in lent
    ensures multiset(q) + lent == multiset(q + [c]) + (lent - multiset{c})
  {
  }

  lemma StepConserves(s: State, a: Action)
    ensures Everywhere(Step(s, a)) == Everywhere(s)
  {
    match a
    case GetClient(t) => if s.idle != [] { TakeConserves(s.idle, s.lent); }
    case Drop(c) =>
      if c in s.lent {
        ReturnConserves(s.idle, s.lent, c);
        assert s.lent + s.freed == (s.lent - multiset{c}) + (s.freed + multiset{c});
      }
    case _ =>
  }

  lemma StepWaits(s: State, a: Action)
    requires WaitOk(s)
    ensures WaitOk(Step(s, a))
  {
    match a
    case GetClient(t) =>
      assert t in s.woken ==> |s.woken - {t}| == |s.woken| - 1;
      assert t !in s.woken ==> s.woken - {t} == s.woken;
    case NotifyOne(w) => assert w in s.sleeping ==> |s.woken + {w}| == |s.woken| + 1;
    case WakeUp(w) => assert w in s.sleeping ==> |s.woken + {w}| == |s.woken| + 1;
    case _ =>
  }

  lemma StepKeeps(s: State, a: Action, clients: multiset<nat>)
    requires Inv(s, clients)
    ensures Inv(Step(s, a), clients)
  {
    hide Step, WaitOk;
    StepConserves(s, a);
    StepWaits(s, a);
  }

  lemma {:induction false} RunKeeps(s: State, acts: seq<Action>, clients: multiset<nat>)
    requires Inv(s, clients)
    ensures Inv(Exec(Step, s, acts), clients)
    decreases acts
  {
    if acts != [] {
      StepKeeps(s, acts[0], clients);
      RunKeeps(Step(s, acts[0]), acts[1..], clients);
    }
  }

  /** Each of distinct clients is at all times in exactly one place: idle, lent
      once or freed once; none is freed while the pool lives; and while a thread
      sleeps, the idle clients are at most the notifies still owed plus the woken
      threads that have yet to look. */
  lemma EveryClientInOnePlace(clients: seq<nat>, acts: seq<Action>, c: nat)
    requires multiset(clients)[c] == 1
    ensures var s := Exec(Step, Initial(clients), acts);
      && multiset(s.idle)[c] + s.lent[c] + s.freed[c] == 1
      && (s.alive ==> s.freed[c] == 0)
      && (s.sleeping != {} ==> |s.idle| <= s.notifies + |s.woken|)
  {
    RunKeeps(Initial(clients), acts, multiset(clients));
    var s := Exec(Step, Initial(clients), acts);
    assert Everywhere(s)[c] == 1;
  }

  /** What each call does with clients: GetClient lends the first idle one or
      sleeps, a client that is dropped goes to the end of a living pool and is
      freed after its end, and the end frees the idle ones. */
  lemma ClientsMove(s: State, t: nat, c: nat)
    ensures s.alive && t !in s.sleeping && s.idle != [] ==>
      var r := Step(s, GetClient(t)); r.idle == s.idle[1..] && r.lent == s.lent + multiset{s.idle[0]}
    ensures s.alive && t !in s.sleeping && s.idle == [] ==>
      var r := Step(s, GetClient(t)); t in r.sleeping && r.lent == s.lent
    ensures s.alive && c in s.lent ==>
      var r := Step(s, Drop(c)); r.idle == s.idle + [c] && r.lent == s.lent - multiset{c} && r.notifies == s.notifies + 1
    ensures !s.alive && c in s.lent ==>
      var r := Step(s, Drop(c)); r.freed == s.freed + multiset{c} && r.lent == s.lent - multiset{c}
    ensures s.alive && s.sleeping == {} && s.woken == {} && s.notifies == 0 ==>
      var r := Step(s, Destroy); !r.alive && r.idle == [] && r.freed == s.freed + multiset(s.idle)
  {
  }

  /** How a step moves a thread between sleeping, woken and neither: a test puts it
      to sleep or lets it go, a notification or a spurious wakeup wakes it. */
  lemma WaitMoves(s: State, t: nat)
    ensures !s.alive || t in s.sleeping ==> Step(s, GetClient(t)) == s
    ensures s.alive && t !in s.sleeping ==>
      var r := Step(s, GetClient(t));
      && r.sleeping == s.sleeping + (if s.idle == [] then {t} else {})
      && r.woken == s.woken - {t} && r.notifies == s.notifies
    ensures t in s.sleeping && s.notifies > 0 ==>
      Step(s, NotifyOne(t)) ==
        s.(sleeping := s.sleeping - {t}, woken := s.woken + {t}, notifies := s.notifies - 1)
    ensures s.sleeping == {} && s.notifies > 0 ==> Step(s, NotifyOne(t)) == s.(notifies := s.notifies - 1)
    ensures t !in s.sleeping && s.sleeping != {} ==> Step(s, NotifyOne(t)) == s
    ensures Step(s, WakeUp(t)) ==
      if t in s.sleeping then s.(sleeping := s.sleeping - {t}, woken := s.woken + {t}) else s
    ensures !s.alive || s.sleeping != {} || s.woken != {} || s.notifies > 0 ==> Step(s, Destroy) == s
  {
  }

  /** The pool as an object: each call runs while no other thread is between its
      critical section and its notification. `connected` are the clients whose
      connection is up. */
  class RedisPool {
    var clients: seq<nat>
    var connected: set<nat>
    var freed: seq<nat>
    ghost var lent: multiset<nat>
    ghost var alive: bool
    ghost var sleeping: set<nat>
    ghost var woken: set<nat>

    ghost function View(): State
      reads this
    {
      State(clients, lent, multiset(freed), alive, sleeping, woken, 0)
    }

    ghost predicate Valid()
      reads this
    {
      WaitOk(View())
    }

    /** The clients that could connect. */
    constructor (clients: seq<nat>)
      ensures Valid() && View() == Initial(clients) && forall c :: c in connected <==> c in clients
    {
      this.clients, freed := clients, [];
      connected := set c | c in clients;
      lent, alive, sleeping, woken := multiset{}, true, {}, {};
    }

    /** GetClient once its wait is over: one client moves from idle to lent. */
    method GetClient(ghost t: nat) returns (c: nat)
      requires Valid() && alive && t !in sleeping && clients != []
      modifies this`clients, this`lent, this`woken
      ensures Valid() && View() == Step(old(View()), Action.GetClient(t))
      ensures old(clients) == [c] + clients && lent == old(lent) + multiset{c}
    {
      hide WaitOk;
      StepWaits(View(), Action.GetClient(t));
      c := clients[0];
      clients := clients[1..];
      lent, woken := lent + multiset{c}, woken - {t};
    }

    /** Release of a lent client and its notify_one, which wakes `w` if anyone
        sleeps: the client is lent once less, is reconnected first when its
        connection is down and `reconnects` says that this succeeds, and takes
        one thread out of its sleep. */
    method Release(c: nat, reconnects: bool, ghost w: nat)
      requires Valid() && alive && c in lent && (w in sleeping || sleeping == {})
      modifies this`clients, this`connected, this`lent, this`sleeping, this`woken
      ensures Valid() && View() == Exec(Step, old(View()), [Drop(c), NotifyOne(w)])
      ensures clients == old(clients) + [c] && lent == old(lent) - multiset{c}
      ensures Everywhere(View()) == old(Everywhere(View())) && sleeping == old(sleeping) - {w}
      ensures forall d :: d in connected <==> d in old(connected) || (d == c && reconnects)
    {
      hide Step, Exec, WaitOk, Everywhere;
      DropThenNotify(View(), c, w);
      if c !in connected && reconnects {
        connected := connected + {c};
      }
      clients := clients + [c];
      lent := lent - multiset{c};
      sleeping, woken := sleeping - {w}, if w in sleeping then woken + {w} else woken;
    }

    /** The destructor, with no thread inside, deletes every idle client, once and
        in order; those still lent are left to their deleters. */
    method Destroy()
      requires Valid() && alive && sleeping == {} && woken == {}
      modifies this`clients, this`freed, this`alive
      ensures Valid() && View() == Step(old(View()), Action.Destroy)
      ensures clients == [] && freed == old(freed) + old(clients)
    {
      ghost var s := View();
      StepWaits(s, Action.Destroy);
      while clients != []
        invariant freed + clients == old(freed) + old(clients)
        decreases |clients|
      {
        assert clients == [clients[0]] + clients[1..];
        freed := freed + [clients[0]];
        clients := clients[1..];
      }
      alive := false;
      assert freed == old(freed) + old(clients);
      assert multiset(freed) == s.freed + multiset(s.idle);
    }
  }

  lemma DropThenNotify(s: State, c: nat, w: nat)
    requires WaitOk(s) && s.alive && c in s.lent && s.notifies == 0 && (w in s.sleeping || s.sleeping == {})
    ensures var r := Exec(Step, s, [Drop(c), NotifyOne(w)]);
      && WaitOk(r) && Everywhere(r) == Everywhere(s)
      && r == s.(idle := s.idle + [c], lent := s.lent - multiset{c}, sleeping := s.sleeping - {w},
                 woken := if w in s.sleeping then s.woken + {w} else s.woken)
  {
    hide Exec, WaitOk, Everywhere;
    ExecTwo(Step, s, Drop(c), NotifyOne(w));
    StepWaits(s, Drop(c));
    StepConserves(s, Drop(c));
    StepWaits(Step(s, Drop(c)), NotifyOne(w));
    StepConserves(Step(s, Drop(c)), NotifyOne(w));
  }
}
