/** The two-queue MPSCLockQueue of logger/MPSCQueue.h: producers fill one queue
    under the mutex, the single consumer empties the other, swapping the two
    under the mutex and removing its head outside of it. */
module LockQueue {
  import opened Runs

  /** `taking`: the consumer has left the mutex and is about to remove a value. */
  datatype State<+T> = State(
    prod: seq<T>, cons: seq<T>, stopped: bool, taking: bool,
    pushed: seq<T>, popped: seq<T>, refusals: nat)

  datatype Action<+T> = Push(x: T) | PopLocked | PopTake | Stop

  function Initial<T>(): State<T>
  {
    State([], [], false, false, [], [], 0)
  }

  /** PopLocked with neither values nor stop is the wait going on. */
  function Step<T>(s: State<T>, a: Action<T>): State<T>
  {
    match a
    case Push(x) => s.(prod := s.prod + [x], pushed := s.pushed + [x])
    case PopLocked =>
      if s.taking then s
      else if s.prod == [] && s.cons == [] then (if s.stopped then s.(refusals := s.refusals + 1) else s)
      else if s.cons == [] then s.(prod := [], cons := s.prod, taking := true)
      else s.(taking := true)
    case PopTake =>
      if s.taking && s.cons != [] then
        s.(cons := s.cons[1..], popped := s.popped + [s.cons[0]], taking := false)
      else s
    case Stop => s.(stopped := true)
  }

  /** The one queue the two of them stand for. */
  function Contents<T>(s: State<T>): seq<T>
  {
    s.cons + s.prod
  }

  ghost predicate Inv<T>(s: State<T>)
  {
    && s.popped + Contents(s) == s.pushed
    && (s.taking ==> s.cons != [])
    && (s.refusals > 0 ==> s.stopped)
  }

  lemma StepKeeps<T>(s: State<T>, a: Action<T>)
    requires Inv(s)
    ensures Inv(Step(s, a))
  {
    match a
    case Push(x) => assert s.popped + (s.cons + (s.prod + [x])) == s.popped + (s.cons + s.prod) + [x];
    case PopLocked => assert s.prod + [] == [] + s.prod;
    case PopTake =>
      if s.taking {
        assert s.popped + [s.cons[0]] + (s.cons[1..] + s.prod) == s.popped + (s.cons + s.prod);
      }
    case Stop =>
  }

  ghost function After<T>(acts: seq<Action<T>>): State<T>
  {
    Exec(Step, Initial(), acts)
  }

  lemma RunKeeps<T(!new)>(acts: seq<Action<T>>)
    ensures Inv(After(acts))
  {
    forall s: State<T>, a: Action<T> | Inv(s) ensures Inv(Step(s, a)) { StepKeeps(s, a); }
    Always(Step, Inv, Initial(), acts);
  }

  /** The abstract effect of a step on one FIFO. */
  function Abstract<T>(contents: seq<T>, a: Action<T>, taking: bool): seq<T>
  {
    match a
    case Push(x) => contents + [x]
    case PopTake => if taking && contents != [] then contents[1..] else contents
    case _ => contents
  }

  /** With pushes anywhere between the locked phase and the removal, the consumer
      queue followed by the producer queue is one FIFO: a push appends, the swap
      changes nothing, Pop removes and returns the head. */
  lemma RefinesOneFifo<T(!new)>(acts: seq<Action<T>>, a: Action<T>)
    ensures var s := After(acts); var r := Step(s, a);
      && s.popped + Contents(s) == s.pushed
      && Contents(r) == Abstract(Contents(s), a, s.taking)
      && (a.PopTake? && s.taking ==> Contents(s) != [] && r.popped == s.popped + [Contents(s)[0]])
      && (r.refusals > s.refusals ==> s.stopped && Contents(s) == [])
  {
    RunKeeps(acts);
    var s := After(acts);
    match a
    case Push(x) => assert s.cons + (s.prod + [x]) == s.cons + s.prod + [x];
    case PopLocked => assert s.prod + [] == [] + s.prod;
    case PopTake => if s.taking { assert (s.cons + s.prod)[1..] == s.cons[1..] + s.prod; }
    case Stop =>
  }

  lemma {:induction false} StaysStopped<T>(s: State<T>, acts: seq<Action<T>>)
    requires s.stopped
    ensures Exec(Step, s, acts).stopped
    decreases acts
  {
    if acts != [] {
      StaysStopped(Step(s, acts[0]), acts[1..]);
    }
  }

  /** Once Stop was called, no Pop that starts testing waits: it goes on to take
      the head of what is left, and answers false exactly when nothing is. */
  lemma PopReturnsAfterStop<T(!new)>(acts: seq<Action<T>>, more: seq<Action<T>>)
    ensures var s := After(acts + [Stop] + more); var r := Step(s, PopLocked);
      && s.stopped
      && (!s.taking ==> (r.taking <==> s.popped != s.pushed) && (r.refusals == s.refusals + 1 <==> s.popped == s.pushed))
  {
    hide Step;
    ExecAppend(Step, Initial(), acts + [Stop], more);
    ExecAppend(Step, Initial(), acts, [Stop]);
    StopStops(After(acts));
    StaysStopped(After(acts + [Stop]), more);
    RunKeeps(acts + [Stop] + more);
    var s := After(acts + [Stop] + more);
    if !s.taking { RefusesWhenEmpty(s); }
  }

  lemma StopStops<T>(s: State<T>)
    ensures Exec(Step, s, [Stop]).stopped
  {
    ExecOne(Step, s, Stop);
  }

  lemma RefusesWhenEmpty<T>(s: State<T>)
    requires Inv(s) && s.stopped && !s.taking
    ensures var r := Step(s, PopLocked);
      (r.taking <==> s.popped != s.pushed) && (r.refusals == s.refusals + 1 <==> s.popped == s.pushed)
  {
    assert |s.popped + Contents(s)| == |s.popped| + |s.cons| + |s.prod|;
    assert Contents(s) == [] ==> s.popped + Contents(s) == s.popped;
  }

  lemma {:induction false} StoppedRun<T>(s: State<T>, acts: seq<Action<T>>)
    ensures Exec(Step, s, acts).stopped <==> s.stopped || Stop in acts
    decreases acts
  {
    if acts != [] {
      StoppedRun(Step(s, acts[0]), acts[1..]);
      assert acts == [acts[0]] + acts[1..];
    }
  }

  /** Before Stop is called, a Pop that finds nothing waits; one that has taken the
      mutex is the only one. */
  lemma PopWaits<T>(acts: seq<Action<T>>)
    ensures var s := After(acts);
      && (s.stopped <==> Stop in acts)
      && (s.taking || (Stop !in acts && Contents(s) == []) ==> Step(s, PopLocked) == s)
      && (!s.taking && Contents(s) != [] ==> Step(s, PopLocked).taking)
  {
    StoppedRun(Initial<T>(), acts);
  }

  /** The queue as an object: each call runs without another in between. */
  class MpscLockQueue<T> {
    var prod: seq<T>
    var cons: seq<T>
    var stopped: bool
    ghost var pushed: seq<T>
    ghost var popped: seq<T>
    ghost var refusals: nat

    ghost function View(): State<T>
      reads this
    {
      State(prod, cons, stopped, false, pushed, popped, refusals)
    }

    ghost predicate Valid()
      reads this
    {
      Inv(View())
    }

    ghost function Values(): seq<T>
      reads this
    {
      Contents(View())
    }

    constructor ()
      ensures Valid() && View() == Initial()
    {
      prod, cons, stopped := [], [], false;
      pushed, popped, refusals := [], [], 0;
    }

    method Push(value: T)
      requires Valid()
      modifies this`prod, this`pushed
      ensures Valid() && View() == Step(old(View()), Action.Push(value))
      ensures Values() == old(Values()) + [value]
    {
      StepKeeps(View(), Action.Push(value));
      prod := prod + [value];
      pushed := pushed + [value];
    }

    /** Pop once its wait is over. */
    method Pop() returns (value: Option<T>)
      requires Valid() && (Values() != [] || stopped)
      modifies this`prod, this`cons, this`popped, this`refusals
      ensures Valid() && View() == Exec(Step, old(View()), [PopLocked, PopTake])
      ensures old(Values()) == [] ==> value == None && Values() == []
      ensures old(Values()) != [] ==> value == Some(old(Values())[0]) && Values() == old(Values())[1..]
    {
      ghost var s := View();
      PopIsTwoSteps(s);
      if prod == [] && cons == [] {
        refusals := refusals + 1;
        return None;
      }
      ghost var all := Values();
      if cons == [] {
        prod, cons := cons, prod;
      }
      assert Values() == all;
      value := Some(cons[0]);
      popped := popped + [cons[0]];
      cons := cons[1..];
      assert Values() == all[1..];
    }

    /** Stop leaves the values in place, and from now on Pop need not wait. */
    method Stop()
      requires Valid()
      modifies this`stopped
      ensures Valid() && View() == Step(old(View()), Action.Stop)
      ensures Values() == old(Values()) && (Values() != [] || stopped)
    {
      StepKeeps(View(), Action.Stop);
      stopped := true;
    }
  }

  lemma PopIsTwoSteps<T>(s: State<T>)
    requires Inv(s) && !s.taking && (Contents(s) != [] || s.stopped)
    ensures var r := Exec(Step, s, [PopLocked, PopTake]);
      Inv(r) && r ==
        if Contents(s) == [] then s.(refusals := s.refusals + 1)
        else if s.cons == [] then s.(prod := [], cons := s.prod[1..], popped := s.popped + [s.prod[0]])
        else s.(cons := s.cons[1..], popped := s.popped + [s.cons[0]])
  {
    hide Exec, Inv;
    ExecTwo(Step, s, PopLocked, PopTake);
    StepKeeps(s, PopLocked);
    StepKeeps(Step(s, PopLocked), PopTake);
  }
}
