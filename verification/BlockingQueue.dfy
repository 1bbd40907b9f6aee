/** The condition-variable queue of db/include/BlockingQueue.h: items pushed and
    popped under a mutex, notifications sent after the mutex is released. */
module BlockingQueue {
  import opened Runs

  /** `sleeping` threads are in wait; `woken` ones have been notified (or woke by
      themselves) and have not tested the condition again. `notifies` and
      `broadcasts` count threads that have left the mutex and still owe a
      notify_one or a notify_all. `accepted` and `popped` are history. */
  datatype State<+T> = State(
    queue: seq<T>, stopped: bool, sleeping: set<nat>, woken: set<nat>, notifies: nat, broadcasts: nat,
    accepted: seq<T>, popped: seq<T>)

  datatype Action<+T> =
    | Push(x: T) | NotifyOne(w: nat) | Pop(t: nat) | Cancel | NotifyAll | WakeUp(w: nat)

  datatype Answer<+T> = Sleeps | Value(x: T) | Stops

  function Initial<T>(): State<T>
  {
    State([], false, {}, {}, 0, 0, [], [])
  }

  /** What Pop does when it holds the mutex. */
  function Test<T>(s: State<T>): Answer<T>
  {
    if s.queue == [] && !s.stopped then Sleeps
    else if s.stopped && s.queue == [] then Stops
    else Value(s.queue[0])
  }

  function Step<T>(s: State<T>, a: Action<T>): State<T>
  {
    match a
    case Push(x) =>
      if s.stopped then s
      else s.(queue := s.queue + [x], accepted := s.accepted + [x], notifies := s.notifies + 1)
    case NotifyOne(w) =>
      if s.notifies == 0 then s
      else if s.sleeping == {} then s.(notifies := s.notifies - 1)
      else if w in s.sleeping then
        s.(notifies := s.notifies - 1, sleeping := s.sleeping - {w}, woken := s.woken + {w})
      else s
    case Pop(t) =>
      if t in s.sleeping then s
      else if Test(s).Sleeps? then s.(sleeping := s.sleeping + {t}, woken := s.woken - {t})
      else if Test(s).Stops? then s.(woken := s.woken - {t})
      else s.(queue := s.queue[1..], popped := s.popped + [Test(s).x], woken := s.woken - {t})
    case Cancel => s.(stopped := true, broadcasts := s.broadcasts + 1)
    case NotifyAll =>
      if s.broadcasts == 0 then s
      else s.(broadcasts := s.broadcasts - 1, sleeping := {}, woken := s.woken + s.sleeping)
    case WakeUp(w) =>
      if w in s.sleeping then s.(sleeping := s.sleeping - {w}, woken := s.woken + {w}) else s
  }

  ghost predicate Inv<T>(s: State<T>)
  {
    && s.popped + s.queue == s.accepted
    && s.sleeping !! s.woken
    && (s.sleeping != {} ==> |s.queue| <= s.notifies + |s.woken|)
    && (s.sleeping != {} && s.stopped ==> s.broadcasts > 0)
  }

  lemma PopKeeps<T>(s: State<T>, t: nat)
    requires Inv(s) && t !in s.sleeping
    ensures Inv(Step(s, Pop(t)))
  {
    if Test(s).Value? {
      assert s.popped + [s.queue[0]] + s.queue[1..] == s.popped + s.queue;
    }
    assert t in s.woken ==> |s.woken - {t}| == |s.woken| - 1;
    assert t !in s.woken ==> s.woken - {t} == s.woken;
  }

  lemma StepKeeps<T>(s: State<T>, a: Action<T>)
    requires Inv(s)
    ensures Inv(Step(s, a))
  {
    match a
    case Push(x) => assert s.popped + (s.queue + [x]) == s.accepted + [x];
    case NotifyOne(w) => assert w in s.sleeping ==> |s.woken + {w}| == |s.woken| + 1;
    case Pop(t) => if t !in s.sleeping { PopKeeps(s, t); }
    case WakeUp(w) => assert w in s.sleeping ==> |s.woken + {w}| == |s.woken| + 1;
    case _ =>
  }

  ghost function After<T>(acts: seq<Action<T>>): State<T>
  {
    Exec(Step, Initial(), acts)
  }

  lemma RunKeeps<T(!new)>(acts: seq<Action<T>>)
    ensures Inv(After(acts))
  {
    forall s: State<T>, a: Action<T> | Inv(s) ensures Inv(Step(s, a)) { StepKeeps(s, a); }
    Always(Step, Inv, Initial(), acts);
  }

  /** No wakeup is lost although notify happens outside the mutex: while a thread
      sleeps, the items are at most the notifies still owed plus the woken
      threads that have yet to look; and after Cancel no one sleeps unless a
      notify_all is still owed. */
  lemma NoLostWakeup<T(!new)>(acts: seq<Action<T>>)
    ensures var s := After(acts);
      && (s.sleeping != {} ==> |s.queue| <= s.notifies + |s.woken|)
      && (s.stopped && s.broadcasts == 0 ==> s.sleeping == {})
  {
    RunKeeps(acts);
  }

  /** The values of the pushes that come before any Cancel. */
  function PushedBeforeCancel<T>(acts: seq<Action<T>>): seq<T>
  {
    if acts == [] || acts[0].Cancel? then []
    else (if acts[0].Push? then [acts[0].x] else []) + PushedBeforeCancel(acts[1..])
  }

  lemma {:induction false} AcceptedRun<T>(s: State<T>, acts: seq<Action<T>>)
    ensures Exec(Step, s, acts).accepted == s.accepted + if s.stopped then [] else PushedBeforeCancel(acts)
    decreases acts
  {
    hide Step;
    if acts == [] {
      assert s.accepted + [] == s.accepted;
    } else {
      var r := Step(s, acts[0]);
      AcceptedStep(s, acts[0]);
      AcceptedRun(r, acts[1..]);
      var first := if acts[0].Push? && !s.stopped then [acts[0].x] else [];
      var later := if r.stopped then [] else PushedBeforeCancel(acts[1..]);
      assert s.accepted + first + later == s.accepted + (first + later);
      assert first + later == if s.stopped then [] else PushedBeforeCancel(acts);
    }
  }

  lemma AcceptedStep<T>(s: State<T>, a: Action<T>)
    ensures Step(s, a).accepted == s.accepted + if a.Push? && !s.stopped then [a.x] else []
    ensures Step(s, a).stopped <==> s.stopped || a.Cancel?
  {
  }

  /** What was popped, followed by what is queued, is what was pushed before
      Cancel, in order. */
  lemma ExactFifo<T(!new)>(acts: seq<Action<T>>)
    ensures var s := After(acts); s.popped + s.queue == s.accepted == PushedBeforeCancel(acts)
  {
    RunKeeps(acts);
    AcceptedRun(Initial<T>(), acts);
  }

  /** A thread that tests gets the oldest value there is, which is then popped;
      with none it sleeps, or after Cancel leaves. */
  lemma PopExactly<T(!new)>(acts: seq<Action<T>>, t: nat)
    ensures var s := After(acts); var r := Step(s, Pop(t));
      t !in s.sleeping ==>
        && (s.popped != s.accepted ==>
              |s.popped| < |s.accepted| && r.popped == s.popped + [s.accepted[|s.popped|]] && t !in r.sleeping)
        && (s.popped == s.accepted ==> r.popped == s.popped && (t in r.sleeping <==> !s.stopped))
  {
    RunKeeps(acts);
    var s := After(acts);
    StepKeeps(s, Pop(t));
    assert |s.popped + s.queue| == |s.popped| + |s.queue|;
    assert s.queue == [] ==> s.popped + s.queue == s.popped;
  }

  /** How a step moves a thread between sleeping, woken and neither: a test puts it
      to sleep or lets it go, a notification or a spurious wakeup wakes it. */
  lemma WaitMoves<T>(s: State<T>, t: nat)
    ensures t in s.sleeping ==> Step(s, Pop(t)) == s
    ensures t !in s.sleeping ==>
      var r := Step(s, Pop(t));
      && r.sleeping == s.sleeping + (if Test(s).Sleeps? then {t} else {})
      && r.woken == s.woken - {t} && r.notifies == s.notifies && r.broadcasts == s.broadcasts
    ensures t in s.sleeping && s.notifies > 0 ==>
      Step(s, NotifyOne(t)) ==
        s.(sleeping := s.sleeping - {t}, woken := s.woken + {t}, notifies := s.notifies - 1)
    ensures s.sleeping == {} && s.notifies > 0 ==> Step(s, NotifyOne(t)) == s.(notifies := s.notifies - 1)
    ensures t !in s.sleeping && s.sleeping != {} ==> Step(s, NotifyOne(t)) == s
    ensures s.broadcasts > 0 ==>
      Step(s, NotifyAll) == s.(sleeping := {}, woken := s.woken + s.sleeping, broadcasts := s.broadcasts - 1)
    ensures Step(s, WakeUp(t)) ==
      if t in s.sleeping then s.(sleeping := s.sleeping - {t}, woken := s.woken + {t}) else s
  {
  }

  /** After Cancel the accepted items are fixed, and Pop still hands them all
      out before it answers false. */
  lemma {:induction false} DrainsAfterCancel<T>(s: State<T>, acts: seq<Action<T>>)
    requires Inv(s) && s.stopped
    ensures var r := Exec(Step, s, acts);
      && r.stopped && r.accepted == s.accepted
      && (Test(r).Stops? <==> r.popped == r.accepted)
    decreases acts
  {
    if acts == [] {
      EmptyWhenAllPopped(s);
    } else {
      hide Inv, Test;
      StepKeeps(s, acts[0]);
      StaysStopped(s, acts[0]);
      hide Step;
      DrainsAfterCancel(Step(s, acts[0]), acts[1..]);
    }
  }

  lemma EmptyWhenAllPopped<T>(s: State<T>)
    requires Inv(s) && s.stopped
    ensures Test(s).Stops? <==> s.popped == s.accepted
  {
    assert |s.popped + s.queue| == |s.popped| + |s.queue|;
    assert s.queue == [] ==> s.popped + s.queue == s.popped;
  }

  lemma StaysStopped<T>(s: State<T>, a: Action<T>)
    requires s.stopped
    ensures Step(s, a).stopped && Step(s, a).accepted == s.accepted
  {
  }

  /** The queue as an object: each call runs while no other thread is between
      its critical section and its notification. */
  class BlockingQueue<T> {
    var queue: seq<T>
    var stopped: bool
    ghost var sleeping: set<nat>
    ghost var woken: set<nat>
    ghost var accepted: seq<T>
    ghost var popped: seq<T>

    ghost function View(): State<T>
      reads this
    {
      State(queue, stopped, sleeping, woken, 0, 0, accepted, popped)
    }

    ghost predicate Valid()
      reads this
    {
      Inv(View())
    }

    constructor ()
      ensures Valid() && View() == Initial()
    {
      queue, stopped := [], false;
      sleeping, woken, accepted, popped := {}, {}, [], [];
    }

    /** Push and its notify_one, which wakes `w` if anyone sleeps: a value that is
        accepted takes one thread out of its sleep. */
    method Push(value: T, ghost w: nat)
      requires Valid() && (w in sleeping || sleeping == {})
      modifies this
      ensures Valid()
      ensures View() == Exec(Step, old(View()), if old(stopped) then [Action.Push(value)] else [Action.Push(value), NotifyOne(w)])
      ensures !old(stopped) ==> sleeping == old(sleeping) - {w} && popped + queue == old(accepted) + [value]
    {
      ghost var s := View();
      ExecOne(Step, s, Action.Push(value));
      if stopped {
        return;
      }
      PushThenNotify(s, value, w);
      queue := queue + [value];
      accepted := accepted + [value];
      sleeping, woken := sleeping - {w}, if w in sleeping then woken + {w} else woken;
    }

    /** Pop once its wait is over: the oldest accepted value that no Pop has
        returned, or false exactly when there is none. */
    method Pop(ghost t: nat) returns (value: Option<T>)
      requires Valid() && t !in sleeping && (queue != [] || stopped)
      modifies this
      ensures Valid() && View() == Step(old(View()), Action.Pop(t))
      ensures value.None? <==> old(popped) == accepted
      ensures value.Some? ==>
        |old(popped)| < |accepted| && value.value == accepted[|old(popped)|] && popped == old(popped) + [value.value]
    {
      ghost var s := View();
      StepKeeps(s, Action.Pop(t));
      woken := woken - {t};
      assert accepted == popped + queue;
      if stopped && queue == [] {
        return None;
      }
      value := Some(queue[0]);
      popped := popped + [queue[0]];
      queue := queue[1..];
    }

    /** Cancel and its notify_all: nobody is left asleep, no thread will sleep
        again, and what was accepted is still to be had. */
    method Cancel()
      requires Valid()
      modifies this
      ensures Valid() && View() == Exec(Step, old(View()), [Action.Cancel, NotifyAll])
      ensures sleeping == {} && !Test(View()).Sleeps? && queue == old(queue)
    {
      ghost var s := View();
      ExecTwo(Step, s, Action.Cancel, NotifyAll);
      StepKeeps(s, Action.Cancel);
      StepKeeps(Step(s, Action.Cancel), NotifyAll);
      stopped := true;
      sleeping, woken := {}, woken + sleeping;
    }
  }

  lemma PushThenNotify<T>(s: State<T>, x: T, w: nat)
    requires Inv(s) && !s.stopped && s.notifies == 0 && (w in s.sleeping || s.sleeping == {})
    ensures Inv(Exec(Step, s, [Push(x), NotifyOne(w)]))
    ensures Exec(Step, s, [Push(x), NotifyOne(w)])
         == s.(queue := s.queue + [x], accepted := s.accepted + [x], sleeping := s.sleeping - {w},
               woken := if w in s.sleeping then s.woken + {w} else s.woken)
  {
    hide Exec, Inv;
    ExecTwo(Step, s, Push(x), NotifyOne(w));
    StepKeeps(s, Push(x));
    StepKeeps(Step(s, Push(x)), NotifyOne(w));
  }
}
