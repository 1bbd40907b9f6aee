/** Task hand-off between threads in core/src/EventLoop.cpp: the functor queue,
    the eventfd counter, and the places where `queueInLoop` skips the wakeup.

    The loop thread has a program counter; any number of other threads push a
    functor (or set `quit_`) in one step and write the eventfd in a later one. */
module EventLoop {
  import opened Runs

  /** The largest value an eventfd counter takes; a write that would exceed it
      fails and is only logged. */
  const EVENTFD_MAX: nat := 0xffff_ffff_ffff_fffe

  /** A queued functor and the number of queue swaps made before it was queued. */
  datatype Task<+F> = Task(f: F, round: nat)

  /** An executed functor and the number of the batch it ran in, counted from 1. */
  datatype Ran<+F> = Ran(f: F, batch: nat)

  datatype LoopPc =
    | Outside               // not in loop(): before the first call or after a return
    | Starting              // loop() has reset quit_, the initial wakeup() is next
    | Head                  // testing quit_
    | Poll                  // in poll()
    | Handle(wake: bool)    // dispatching; `wake`: the wakeup channel is still to come
    | Reading               // in handleRead()
    | Swapping              // callingPendingFunctors_ is set, the swap is next
    | Batch                 // running the swapped functors

  /** `owing` are the other threads between a push (or quit) and their wakeup,
      `selfPush` says the loop thread itself is in queueInLoop after its push.
      `pushed`, `ran` and `swaps` are history. */
  datatype State<+F> = State(
    quit: bool, calling: bool, pending: seq<Task<F>>, wakeups: nat,
    pc: LoopPc, selfPush: bool, owing: set<nat>, batch: seq<Task<F>>,
    pushed: seq<Task<F>>, ran: seq<Ran<F>>, swaps: nat)

  datatype Action<+F> =
    | OtherPush(t: nat, f: F) | OtherQuit(t: nat) | OtherWake(t: nat) | StrayWake
    | SelfPush(f: F) | SelfWake | SelfQuit
    | Enter | StartWake | TestQuit | PollReturn(ready: bool)
    | DispatchWake | ReadWake | EndHandle | Swap | RunNext | EndBatch

  function Initial<F>(): State<F>
  {
    State(false, false, [], 0, Outside, false, {}, [], [], [], 0)
  }

  function Signalled(n: nat): nat
  {
    if n < EVENTFD_MAX then n + 1 else n
  }

  /** The points at which user code runs on the loop thread. */
  predicate UserCode<F>(s: State<F>)
  {
    !s.selfPush && (s.pc.Outside? || s.pc.Handle? || s.pc.Batch?)
  }

  function Pushed<F>(s: State<F>, f: F): State<F>
  {
    s.(pending := s.pending + [Task(f, s.swaps)], pushed := s.pushed + [Task(f, s.swaps)])
  }

  function Step<F>(s: State<F>, a: Action<F>): State<F>
  {
    match a
    case OtherPush(t, f) => if t in s.owing then s else Pushed(s, f).(owing := s.owing + {t})
    case OtherQuit(t) => if t in s.owing then s else s.(quit := true, owing := s.owing + {t})
    case OtherWake(t) =>
      if t in s.owing then s.(wakeups := Signalled(s.wakeups), owing := s.owing - {t}) else s
    case StrayWake => s.(wakeups := Signalled(s.wakeups))
    case SelfPush(f) => if UserCode(s) then Pushed(s, f).(selfPush := true) else s
    case SelfWake =>
      if !s.selfPush then s
      else if s.calling then s.(wakeups := Signalled(s.wakeups), selfPush := false)
      else s.(selfPush := false)
    case SelfQuit => if UserCode(s) then s.(quit := true) else s
    case Enter => if s.pc.Outside? && !s.selfPush then s.(quit := false, pc := Starting) else s
    case StartWake => if s.pc.Starting? then s.(wakeups := Signalled(s.wakeups), pc := Head) else s
    case TestQuit => if s.pc.Head? then s.(pc := if s.quit then Outside else Poll) else s
    case PollReturn(ready) => if s.pc.Poll? then s.(pc := Handle(ready && s.wakeups > 0)) else s
    case DispatchWake => if s.pc == Handle(true) && !s.selfPush then s.(pc := Reading) else s
    case ReadWake =>
      if !s.pc.Reading? then s
      else if s.wakeups > 0 then s.(wakeups := 0)
      else s.(pc := Handle(false))
    case EndHandle =>
      if s.pc == Handle(false) && !s.selfPush then s.(calling := true, pc := Swapping) else s
    case Swap =>
      if s.pc.Swapping? then
        s.(batch := s.pending, pending := [], swaps := s.swaps + 1, pc := Batch)
      else s
    case RunNext =>
      if s.pc.Batch? && !s.selfPush && s.batch != [] then
        s.(ran := s.ran + [Ran(s.batch[0].f, s.swaps)], batch := s.batch[1..])
      else s
    case EndBatch =>
      if s.pc.Batch? && !s.selfPush && s.batch == [] then s.(calling := false, pc := Head) else s
  }

  // ---------- The invariant ----------

  /** The next poll() returns at once, or another thread will make it return. */
  ghost predicate Covered<F>(s: State<F>)
  {
    s.wakeups > 0 || s.owing != {}
  }

  ghost predicate WakeOk<F>(s: State<F>)
  {
    && (s.calling <==> s.pc.Swapping? || s.pc.Batch?)
    && (s.selfPush ==> s.pc.Outside? || s.pc.Handle? || s.pc.Batch?)
    && (s.pc.Head? || s.pc.Poll? ==> s.pending == [] || Covered(s))
    && (s.pc.Batch? ==> s.pending == [] || Covered(s) || s.selfPush)
    && (s.pc.Poll? ==> !s.quit || Covered(s))
    && s.wakeups <= EVENTFD_MAX
  }

  ghost predicate Rounds<F>(tasks: seq<Task<F>>, round: int)
  {
    forall i :: 0 <= i < |tasks| ==> tasks[i].round == round
  }

  ghost predicate QueueOk<F>(s: State<F>)
  {
    && |s.pushed| == |s.ran| + |s.batch| + |s.pending|
    && (forall i :: 0 <= i < |s.ran| ==> s.ran[i] == Ran(s.pushed[i].f, s.pushed[i].round + 1))
    && s.pushed[|s.ran|..] == s.batch + s.pending
    && Rounds(s.batch, s.swaps - 1)
    && Rounds(s.pending, s.swaps)
    && (!s.pc.Batch? ==> s.batch == [])
  }

  ghost predicate Inv<F>(s: State<F>)
  {
    WakeOk(s) && QueueOk(s)
  }

  lemma WakeKeeps<F>(s: State<F>, a: Action<F>)
    requires WakeOk(s)
    ensures WakeOk(Step(s, a))
  {
  }

  lemma PushKeeps<F>(s: State<F>, f: F)
    requires QueueOk(s)
    ensures QueueOk(Pushed(s, f))
  {
    assert s.batch + Pushed(s, f).pending == s.batch + s.pending + [Task(f, s.swaps)];
  }

  lemma RunNextKeeps<F>(s: State<F>)
    requires QueueOk(s) && s.pc.Batch? && !s.selfPush && s.batch != []
    ensures QueueOk(Step(s, RunNext))
  {
    var r := Step(s, RunNext);
    assert s.pushed[|s.ran|] == s.pushed[|s.ran|..][0] == s.batch[0];
    assert r.pushed[|r.ran|..] == s.pushed[|s.ran|..][1..] == s.batch[1..] + s.pending;
  }

  lemma QueueKeeps<F>(s: State<F>, a: Action<F>)
    requires QueueOk(s)
    ensures QueueOk(Step(s, a))
  {
    match a
    case OtherPush(_, f) => PushKeeps(s, f);
    case SelfPush(f) => PushKeeps(s, f);
    case RunNext => if s.pc.Batch? && !s.selfPush && s.batch != [] { RunNextKeeps(s); }
    case _ =>
  }

  ghost function After<F>(acts: seq<Action<F>>): State<F>
  {
    Exec(Step, Initial(), acts)
  }

  lemma RunKeeps<F(!new)>(acts: seq<Action<F>>)
    ensures Inv(After(acts))
  {
    forall s: State<F>, a: Action<F> | Inv(s) ensures Inv(Step(s, a)) { WakeKeeps(s, a); QueueKeeps(s, a); }
    Always(Step, Inv, Initial(), acts);
  }

  /** No lost wakeup: when the loop thread is in poll() and a functor waits, or
      quit was requested since loop() reset the flag, then the eventfd is
      readable or another thread is on its way to making it so. */
  lemma NoLostWakeup<F(!new)>(acts: seq<Action<F>>)
    ensures var s := After(acts);
      && (s.pc.Poll? && (s.pending != [] || s.quit) ==> s.wakeups > 0 || s.owing != {})
      && s.wakeups <= EVENTFD_MAX
  {
    RunKeeps(acts);
  }

  /** Where the eventfd is written: when another thread ends its call, when loop()
      starts, when anyone calls wakeup(), and when the loop thread queues a functor
      while functors are being called, but not when it does so at another time.
      The wakeup handler runs only when poll() reported the eventfd. */
  lemma WakeupsExactly<F>(s: State<F>, t: nat)
    ensures t in s.owing ==> Step(s, OtherWake(t)).wakeups > 0 && t !in Step(s, OtherWake(t)).owing
    ensures t !in s.owing ==> Step(s, OtherWake(t)) == s
    ensures s.pc.Starting? ==> Step(s, StartWake).wakeups > 0 && Step(s, StartWake).pc.Head?
    ensures Step(s, StrayWake) == s.(wakeups := Step(s, StrayWake).wakeups) && Step(s, StrayWake).wakeups > 0
    ensures s.selfPush ==>
      var r := Step(s, SelfWake);
      r == s.(selfPush := false, wakeups := r.wakeups) && (if s.calling then r.wakeups > 0 else r.wakeups == s.wakeups)
    ensures !s.selfPush ==> Step(s, SelfWake) == s
    ensures s.pc.Poll? ==> Step(s, PollReturn(true)) == s.(pc := Handle(s.wakeups > 0))
    ensures s.pc.Poll? ==> Step(s, PollReturn(false)) == s.(pc := Handle(false))
  {
  }

  // ---------- The calls of a run ----------

  /** The threads in a call of queueInLoop or quit, from the actions alone. */
  function BusyNext<F>(a: Action<F>, busy: set<nat>): set<nat>
  {
    match a
    case OtherPush(t, _) => busy + {t}
    case OtherQuit(t) => busy + {t}
    case OtherWake(t) => busy - {t}
    case _ => busy
  }

  /** The loop thread is in library code that calls no user code. */
  predicate InLibrary(pc: LoopPc)
  {
    pc.Starting? || pc.Head? || pc.Poll? || pc.Reading? || pc.Swapping?
  }

  /** The functor that a call of queueInLoop hands over in this step: by a thread
      that is not in a call yet, or by user code on the loop thread. */
  function HandsOver<F>(s: State<F>, a: Action<F>, busy: set<nat>): seq<F>
  {
    match a
    case OtherPush(t, f) => if t in busy then [] else [f]
    case SelfPush(f) => if s.selfPush || InLibrary(s.pc) then [] else [f]
    case _ => []
  }

  /** The functors of all calls of queueInLoop in `acts`, in order. */
  ghost function Called<F>(s: State<F>, acts: seq<Action<F>>, busy: set<nat>): seq<F>
    decreases acts
  {
    if acts == [] then []
    else HandsOver(s, acts[0], busy) + Called(Step(s, acts[0]), acts[1..], BusyNext(acts[0], busy))
  }

  ghost function Functors<F>(tasks: seq<Task<F>>): seq<F>
  {
    seq(|tasks|, i requires 0 <= i < |tasks| => tasks[i].f)
  }

  ghost function RanFunctors<F>(ran: seq<Ran<F>>): seq<F>
  {
    seq(|ran|, i requires 0 <= i < |ran| => ran[i].f)
  }

  lemma CalledStep<F>(s: State<F>, a: Action<F>)
    ensures Functors(Step(s, a).pushed) == Functors(s.pushed) + HandsOver(s, a, s.owing)
    ensures Step(s, a).owing == BusyNext(a, s.owing)
  {
    hide Functors;
    PushedLast(s, a);
  }

  lemma PushedLast<F>(s: State<F>, a: Action<F>)
    ensures a.OtherPush? || a.SelfPush? ==> Functors(Pushed(s, a.f).pushed) == Functors(s.pushed) + [a.f]
    ensures Functors(s.pushed) == Functors(s.pushed) + []
  {
  }

  lemma {:induction false} CalledRun<F>(s: State<F>, acts: seq<Action<F>>)
    ensures Functors(Exec(Step, s, acts).pushed) == Functors(s.pushed) + Called(s, acts, s.owing)
    decreases acts
  {
    hide Step, Functors, HandsOver;
    if acts != [] {
      CalledStep(s, acts[0]);
      CalledRun(Step(s, acts[0]), acts[1..]);
    }
  }

  lemma PushedIsCalled<F>(acts: seq<Action<F>>)
    ensures Functors(After(acts).pushed) == Called(Initial(), acts, {})
  {
    CalledRun(Initial<F>(), acts);
    assert Functors(Initial<F>().pushed) == [];
  }

  /** Executed functors, then the rest of the swapped batch, then the queue, are
      the functors handed to queueInLoop, in order; one handed over after `g`
      swaps runs in batch `g + 1`, neither earlier nor later. */
  lemma ExactlyOnceFifo<F(!new)>(acts: seq<Action<F>>)
    ensures var s := After(acts);
      && RanFunctors(s.ran) + Functors(s.batch) + Functors(s.pending) == Called(Initial(), acts, {})
      && |s.ran| <= |s.pushed|
      && s.pushed[|s.ran|..] == s.batch + s.pending
      && (forall i :: 0 <= i < |s.ran| ==> s.ran[i] == Ran(s.pushed[i].f, s.pushed[i].round + 1))
      && (!s.pc.Batch? ==> forall i :: |s.ran| <= i < |s.pushed| ==> s.pushed[i].round == s.swaps)
  {
    hide Step, WakeOk, Called;
    RunKeeps(acts);
    var s := After(acts);
    PushedIsCalled(acts);
    assert s.pushed == s.pushed[..|s.ran|] + (s.batch + s.pending);
    assert Functors(s.pushed) == RanFunctors(s.ran) + Functors(s.batch) + Functors(s.pending);
    if !s.pc.Batch? {
      forall i | |s.ran| <= i < |s.pushed| ensures s.pushed[i].round == s.swaps {
        assert s.pushed[i] == s.pushed[|s.ran|..][i - |s.ran|] == s.pending[i - |s.ran|];
      }
    }
  }

  /** The swaps made before it are those completed when the call was made. */
  lemma RoundIsSwaps<F>(s: State<F>, a: Action<F>)
    ensures Step(s, a).swaps == s.swaps + (if a.Swap? && s.pc.Swapping? then 1 else 0)
    ensures |Step(s, a).pushed| > |s.pushed| ==> Step(s, a).pushed[|s.pushed|].round == s.swaps
  {
  }

  /** The actions the loop thread performs on its own from poll() until the end
      of the batch, when poll() reports the eventfd and the batch holds `n`. */
  function OneTurn<F>(n: nat): seq<Action<F>>
  {
    [PollReturn(true), DispatchWake, ReadWake] + [ReadWake, EndHandle, Swap] + seq(n, _ => RunNext) + [EndBatch]
  }

  lemma {:induction false} RunsBatch<F>(s: State<F>, n: nat)
    requires s.pc.Batch? && !s.selfPush && n == |s.batch|
    ensures var r := Exec(Step, s, seq(n, _ => RunNext));
      r == s.(batch := [], ran := r.ran) && |r.ran| == |s.ran| + n
    decreases n
  {
    if n > 0 {
      var runs: seq<Action<F>> := seq(n, _ => RunNext);
      assert runs[1..] == seq(n - 1, _ => RunNext);
      RunsBatch(Step(s, RunNext), n - 1);
    }
  }

  lemma TurnUpToRead<F>(s: State<F>)
    requires s.pc.Poll? && s.wakeups > 0 && !s.selfPush
    ensures Exec(Step, s, [PollReturn(true), DispatchWake, ReadWake]) == s.(wakeups := 0, pc := Reading)
  {
    ExecThree(Step, s, PollReturn(true), DispatchWake, ReadWake);
    assert Step(s, PollReturn(true)) == s.(pc := Handle(true));
    assert Step(s.(pc := Handle(true)), DispatchWake) == s.(pc := Reading);
  }

  lemma TurnUpToSwap<F>(s: State<F>)
    requires s.pc.Reading? && s.wakeups == 0 && !s.selfPush
    ensures Exec(Step, s, [ReadWake, EndHandle, Swap])
         == s.(calling := true, batch := s.pending, pending := [], swaps := s.swaps + 1, pc := Batch)
  {
    ExecThree(Step, s, ReadWake, EndHandle, Swap);
    assert Step(s, ReadWake) == s.(pc := Handle(false));
    assert Step(s.(pc := Handle(false)), EndHandle) == s.(calling := true, pc := Swapping);
  }

  /** Nothing is stranded: once no other thread is mid-call, one turn of the loop
      thread alone executes every functor handed over so far. */
  lemma NothingStranded<F(!new)>(acts: seq<Action<F>>)
    ensures var s := After(acts);
      s.pc.Poll? && s.owing == {} && s.pending != [] ==>
        var r := After(acts + OneTurn(|s.pending|));
        r.pc.Head? && r.pending == [] && RanFunctors(r.ran) == Called(Initial(), acts, {})
  {
    hide Step;
    var s := After(acts);
    RunKeeps(acts);
    if s.pc.Poll? && s.owing == {} && s.pending != [] {
      ExecAppend(Step, Initial(), acts, OneTurn(|s.pending|));
      TurnExecutesAll(s);
      AllRan(acts, acts + OneTurn(|s.pending|));
    }
  }

  /** When no functor is left, those executed are all that were handed over. */
  lemma AllRan<F(!new)>(acts: seq<Action<F>>, more: seq<Action<F>>)
    requires After(more).pushed == After(acts).pushed && |After(more).ran| == |After(more).pushed|
    ensures RanFunctors(After(more).ran) == Called(Initial(), acts, {})
  {
    PushedIsCalled(acts);
    RunKeeps(more);
    assert RanFunctors(After(more).ran) == Functors(After(more).pushed);
  }

  /** Nor is a quit: once no other thread is mid-call, one turn of the loop thread
      alone and its next test leave loop(), with every functor executed. */
  lemma QuitLeaves<F(!new)>(acts: seq<Action<F>>)
    ensures var s := After(acts);
      s.pc.Poll? && s.owing == {} && s.quit ==>
        var r := After(acts + OneTurn(|s.pending|) + [TestQuit]);
        r.pc.Outside? && r.pending == [] && RanFunctors(r.ran) == Called(Initial(), acts, {})
  {
    hide Step;
    var s := After(acts);
    RunKeeps(acts);
    if s.pc.Poll? && s.owing == {} && s.quit {
      var turn := OneTurn(|s.pending|);
      ExecAppend(Step, Initial(), acts + turn, [TestQuit]);
      ExecAppend(Step, Initial(), acts, turn);
      TurnExecutesAll(s);
      TestLeaves(After(acts + turn));
      AllRan(acts, acts + turn + [TestQuit]);
    }
  }

  lemma TestLeaves<F>(s: State<F>)
    requires s.pc.Head? && s.quit
    ensures Exec(Step, s, [TestQuit]) == s.(pc := Outside)
  {
    hide Exec;
    ExecOne(Step, s, TestQuit);
  }

  lemma TurnExecutesAll<F>(s: State<F>)
    requires Inv(s) && s.pc.Poll? && s.wakeups > 0
    ensures var r := Exec(Step, s, OneTurn(|s.pending|));
      r.pc.Head? && r.pending == [] && |r.ran| == |r.pushed| && r.pushed == s.pushed && r.quit == s.quit
  {
    hide Step;
    var read: seq<Action<F>> := [PollReturn(true), DispatchWake, ReadWake];
    var first := read + [ReadWake, EndHandle, Swap];
    var runs: seq<Action<F>> := seq(|s.pending|, _ => RunNext);
    TurnUpToRead(s);
    TurnUpToSwap(Exec(Step, s, read));
    ExecAppend(Step, s, read, [ReadWake, EndHandle, Swap]);
    var m := Exec(Step, s, first);
    RunsBatch(m, |s.pending|);
    var e := Exec(Step, m, runs);
    ExecAppend(Step, s, first, runs);
    ExecAppend(Step, s, first + runs, [EndBatch]);
    EndBatchStep(e);
  }

  lemma EndBatchStep<F>(s: State<F>)
    requires s.pc.Batch? && !s.selfPush && s.batch == []
    ensures Exec(Step, s, [EndBatch]) == s.(calling := false, pc := Head)
  {
    hide Exec;
    ExecOne(Step, s, EndBatch);
  }

  /** A quit requested while loop() runs is not forgotten: until loop() returns
      the flag stays set, so its next test leaves the loop. */
  lemma {:induction false} QuitHonoured<F>(s: State<F>, acts: seq<Action<F>>)
    requires s.quit
    requires forall k :: 0 <= k <= |acts| ==> !Exec(Step, s, acts[..k]).pc.Outside?
    ensures Exec(Step, s, acts).quit
    decreases acts
  {
    if acts != [] {
      assert acts[..0] == [];
      forall k | 0 <= k <= |acts[1..]| ensures !Exec(Step, Step(s, acts[0]), acts[1..][..k]).pc.Outside? {
        assert acts[..k + 1][1..] == acts[1..][..k];
      }
      QuitHonoured(Step(s, acts[0]), acts[1..]);
    }
  }

  /** A call of quit() takes effect in this step. */
  predicate Quits<F>(s: State<F>, a: Action<F>)
  {
    (a.OtherQuit? && a.t !in s.owing) || (a.SelfQuit? && UserCode(s))
  }

  /** loop() is entered in this step. */
  predicate Enters<F>(s: State<F>, a: Action<F>)
  {
    a.Enter? && s.pc.Outside? && !s.selfPush
  }

  /** Whether, after `acts` from `s`, a quit() has come since loop() was last
      entered; `was` says so of the time before `acts`. */
  ghost predicate QuitSinceEnter<F>(s: State<F>, acts: seq<Action<F>>, was: bool)
    decreases acts
  {
    if acts == [] then was
    else
      QuitSinceEnter(Step(s, acts[0]), acts[1..], Quits(s, acts[0]) || (was && !Enters(s, acts[0])))
  }

  lemma QuitStep<F>(s: State<F>, a: Action<F>)
    ensures Step(s, a).quit <==> Quits(s, a) || (s.quit && !Enters(s, a))
  {
  }

  lemma {:induction false} QuitRun<F>(s: State<F>, acts: seq<Action<F>>)
    ensures Exec(Step, s, acts).quit <==> QuitSinceEnter(s, acts, s.quit)
    decreases acts
  {
    hide Step;
    if acts != [] {
      QuitStep(s, acts[0]);
      QuitRun(Step(s, acts[0]), acts[1..]);
    }
  }

  /** The flag is set if and only if a quit() has come since loop() was last
      entered: one that came before is forgotten, one that came after is not. */
  lemma QuitExactly<F>(acts: seq<Action<F>>)
    ensures After(acts).quit <==> QuitSinceEnter(Initial(), acts, false)
  {
    QuitRun(Initial(), acts);
  }

  ghost predicate QuitIn<F>(s: State<F>, acts: seq<Action<F>>)
    decreases acts
  {
    acts != [] && (Quits(s, acts[0]) || QuitIn(Step(s, acts[0]), acts[1..]))
  }

  lemma {:induction false} StaysInside<F>(s: State<F>, acts: seq<Action<F>>)
    requires !s.quit && !s.pc.Outside? && !QuitIn(s, acts)
    ensures !Exec(Step, s, acts).quit && !Exec(Step, s, acts).pc.Outside?
    decreases acts
  {
    if acts != [] {
      StaysInside(Step(s, acts[0]), acts[1..]);
    }
  }

  /** Whatever was requested before loop() is entered, it does not return until a
      quit() comes that takes effect after the entry. */
  lemma QuitBeforeLoopIsLost<F>(acts: seq<Action<F>>, more: seq<Action<F>>)
    requires Enters(After(acts), Enter) && !QuitIn(After(acts + [Enter]), more)
    ensures var r := After(acts + [Enter] + more); !r.quit && !r.pc.Outside?
  {
    hide Step, QuitIn;
    ExecAppend(Step, Initial(), acts + [Enter], more);
    EnteredInside(acts);
    StaysInside(After(acts + [Enter]), more);
  }

  lemma EnteredInside<F>(acts: seq<Action<F>>)
    requires Enters(After(acts), Enter)
    ensures !After(acts + [Enter]).quit && !After(acts + [Enter]).pc.Outside?
  {
    ExecAppend(Step, Initial(), acts, [Enter]);
    hide Exec;
    ExecOne(Step, After(acts), Enter);
  }

  /** The shortest such run: a quit is requested, and loop() goes to poll(). */
  lemma QuitThenLoop()
    ensures var s := After<int>([OtherQuit(1), OtherWake(1)] + [Enter] + [StartWake, TestQuit]); s.pc.Poll? && !s.quit
  {
    var first: seq<Action<int>> := [OtherQuit(1), OtherWake(1)];
    var more: seq<Action<int>> := [StartWake, TestQuit];
    assert more[1..] == [TestQuit];
    ExecTwo(Step, Initial<int>(), OtherQuit(1), OtherWake(1));
    ExecAppend(Step, Initial<int>(), first, [Enter]);
    ExecAppend(Step, Initial<int>(), first + [Enter], more);
    ExecTwo(Step, After(first + [Enter]), StartWake, TestQuit);
    QuitBeforeLoopIsLost(first, more);
  }
}

/** The loop as an object, seen while no other thread is in one of its methods.
    A functor is the list of functors it queues when it runs, and whether it then
    calls quit(); so is what the event handlers of one turn do. Every method is
    tied to the steps of the interleaved machine that it performs. */
module EventLoopObject {
  import opened Runs
  import M = EventLoop

  datatype Functor = Functor(id: nat, queues: seq<Functor>, quits: bool)

  datatype Handlers = Handlers(queues: seq<Functor>, quits: bool)

  type Machine = M.State<Functor>

  ghost function Tagged(fs: seq<Functor>, round: nat): seq<M.Task<Functor>>
  {
    seq(|fs|, i requires 0 <= i < |fs| => M.Task(fs[i], round))
  }

  /** What the functors of `fs` queue, in order. */
  ghost function Spawned(fs: seq<Functor>): seq<Functor>
  {
    if fs == [] then [] else Spawned(fs[..|fs| - 1]) + fs[|fs| - 1].queues
  }

  /** Some functor of `fs` calls quit(). */
  ghost predicate AnyQuits(fs: seq<Functor>)
  {
    exists i :: 0 <= i < |fs| && fs[i].quits
  }

  /** What loop() does with these turns: how many it makes, whether it returns,
      and the functors left over. The turn in which quit() is called still runs
      its whole batch. */
  ghost function Turns(pending: seq<Functor>, turns: seq<Handlers>): (nat, bool, seq<Functor>)
    decreases turns
  {
    if turns == [] then (0, false, pending)
    else
      var batch := pending + turns[0].queues;
      if turns[0].quits || AnyQuits(batch) then (1, true, Spawned(batch))
      else
        var (made, returns_, left) := Turns(Spawned(batch), turns[1..]);
        (made + 1, returns_, left)
  }

  lemma SelfQuitIsOneStep(s: Machine)
    requires M.UserCode(s)
    ensures Exec(M.Step, s, [M.SelfQuit]) == s.(quit := true)
  {
    hide Exec;
    ExecOne(M.Step, s, M.SelfQuit);
  }

  lemma SelfQueueIsTwoSteps(s: Machine, f: Functor)
    requires M.UserCode(s)
    ensures Exec(M.Step, s, [M.SelfPush(f), M.SelfWake])
         == M.Pushed(s, f).(wakeups := if s.calling then M.Signalled(s.wakeups) else s.wakeups)
  {
    hide Exec;
    ExecTwo(M.Step, s, M.SelfPush(f), M.SelfWake);
    assert M.Step(s, M.SelfPush(f)) == M.Pushed(s, f).(selfPush := true);
  }

  lemma SwapIsTwoSteps(s: Machine)
    requires s.pc == M.Handle(false) && !s.selfPush
    ensures Exec(M.Step, s, [M.EndHandle, M.Swap])
         == s.(calling := true, batch := s.pending, pending := [], swaps := s.swaps + 1, pc := M.Batch)
  {
    hide Exec;
    ExecTwo(M.Step, s, M.EndHandle, M.Swap);
    assert M.Step(s, M.EndHandle) == s.(calling := true, pc := M.Swapping);
  }

  lemma RunNextIsOneStep(s: Machine)
    requires s.pc.Batch? && !s.selfPush && s.batch != []
    ensures Exec(M.Step, s, [M.RunNext])
         == s.(ran := s.ran + [M.Ran(s.batch[0].f, s.swaps)], batch := s.batch[1..])
  {
    hide Exec;
    ExecOne(M.Step, s, M.RunNext);
  }

  ghost function RanIn(fs: seq<Functor>, batch: nat): seq<M.Ran<Functor>>
  {
    seq(|fs|, i requires 0 <= i < |fs| => M.Ran(fs[i], batch))
  }

  class EventLoop {
    var quit: bool
    var calling: bool
    var pending: seq<Functor>
    var wakeups: nat
    ghost var pc: M.LoopPc
    ghost var swapped: seq<Functor>
    ghost var pushed: seq<M.Task<Functor>>
    ghost var ran: seq<M.Ran<Functor>>
    ghost var swaps: nat

    ghost function View(): Machine
      reads this
    {
      M.State(quit, calling, Tagged(pending, swaps), wakeups, pc, false, {},
              if swaps == 0 then [] else Tagged(swapped, swaps - 1), pushed, ran, swaps)
    }

    constructor ()
      ensures View() == M.Initial()
    {
      quit, calling, pending, wakeups := false, false, [], 0;
      pc, swapped, pushed, ran, swaps := M.Outside, [], [], [], 0;
    }

    method Wakeup()
      modifies this`wakeups
      ensures wakeups == M.Signalled(old(wakeups))
    {
      if wakeups < M.EVENTFD_MAX {
        wakeups := wakeups + 1;
      }
    }

    /** queueInLoop called on the loop thread. */
    method QueueInLoop(f: Functor)
      requires M.UserCode(View())
      modifies this`pending, this`wakeups, this`pushed
      ensures pending == old(pending) + [f]
      ensures wakeups == if calling then M.Signalled(old(wakeups)) else old(wakeups)
      ensures View() == Exec(M.Step, old(View()), [M.SelfPush(f), M.SelfWake])
    {
      SelfQueueIsTwoSteps(View(), f);
      pending := pending + [f];
      pushed := pushed + [M.Task(f, swaps)];
      if calling {
        Wakeup();
      }
      assert Tagged(pending, swaps) == old(Tagged(pending, swaps)) + [M.Task(f, swaps)];
    }

    /** quit() called on the loop thread. */
    method Quit()
      requires M.UserCode(View())
      modifies this`quit
      ensures View() == Exec(M.Step, old(View()), [M.SelfQuit]) == old(View()).(quit := true)
    {
      SelfQuitIsOneStep(View());
      quit := true;
    }

    /** handleRead: read until the counter is empty. */
    method HandleRead()
      requires pc.Reading?
      modifies this`wakeups, this`pc
      ensures wakeups == 0 && View() == old(View()).(wakeups := 0, pc := M.Handle(false))
    {
      while wakeups > 0
        decreases wakeups
      {
        wakeups := 0;
      }
      pc := M.Handle(false);
    }

    /** doPendingFunctors: everything queued before the swap runs, in order, and
        what those functors queue stays for the next batch with a wakeup sent. */
    method DoPendingFunctors(ghost s0: Machine) returns (ghost acts: seq<M.Action<Functor>>)
      requires pc == M.Handle(false) && s0 == View() && swapped == []
      modifies this
      ensures View() == Exec(M.Step, s0, acts)
      ensures pc == M.Head && !calling && swapped == [] && swaps == old(swaps) + 1
      ensures quit <==> old(quit) || AnyQuits(old(pending))
      ensures pending == Spawned(old(pending))
      ensures ran == old(ran) + RanIn(old(pending), swaps)
      ensures pending != [] ==> wakeups > 0
    {
      hide M.Step, Exec, Spawned, RanIn, AnyQuits;
      SwapIsTwoSteps(s0);
      acts := [M.EndHandle, M.Swap];
      calling := true;
      var functors := pending;
      pending := [];
      swapped, swaps, pc := functors, swaps + 1, M.Batch;
      assert Tagged([], swaps) == [];
      acts := RunBatch(functors, s0, acts);
      ExecAppend(M.Step, s0, acts, [M.EndBatch]);
      M.EndBatchStep(View());
      acts := acts + [M.EndBatch];
      calling, pc := false, M.Head;
    }

    /** The loop over the swapped functors. */
    method RunBatch(functors: seq<Functor>, ghost s0: Machine, ghost before: seq<M.Action<Functor>>)
      returns (ghost acts: seq<M.Action<Functor>>)
      requires pc == M.Batch && calling && swaps > 0 && swapped == functors && pending == []
      requires View() == Exec(M.Step, s0, before)
      modifies this`pending, this`wakeups, this`pushed, this`ran, this`swapped, this`quit
      ensures swapped == [] && pending == Spawned(functors)
      ensures quit <==> old(quit) || AnyQuits(functors)
      ensures ran == old(ran) + RanIn(functors, swaps)
      ensures pending != [] ==> wakeups > 0
      ensures View() == Exec(M.Step, s0, acts)
    {
      hide M.Step, Exec, View;
      acts := before;
      for i := 0 to |functors|
        invariant swapped == functors[i..] && pending == Spawned(functors[..i])
        invariant quit <==> old(quit) || AnyQuits(functors[..i])
        invariant ran == old(ran) + RanIn(functors[..i], swaps)
        invariant pending != [] ==> wakeups > 0
        invariant View() == Exec(M.Step, s0, acts)
      {
        acts := RunFunctor(functors[i], s0, acts);
        assert functors[..i + 1][..i] == functors[..i];
        assert AnyQuits(functors[..i + 1]) <==> AnyQuits(functors[..i]) || functors[i].quits by {
          assert functors[..i + 1][i] == functors[i];
          assert forall j :: 0 <= j < i ==> functors[..i + 1][j] == functors[..i][j];
        }
      }
      assert functors[..|functors|] == functors;
    }

    /** Runs the next functor of the batch. */
    method RunFunctor(f: Functor, ghost s0: Machine, ghost before: seq<M.Action<Functor>>)
      returns (ghost acts: seq<M.Action<Functor>>)
      requires pc == M.Batch && calling && swaps > 0 && swapped != [] && swapped[0] == f
      requires View() == Exec(M.Step, s0, before)
      requires pending != [] ==> wakeups > 0
      modifies this`pending, this`wakeups, this`pushed, this`ran, this`swapped, this`quit
      ensures pending == old(pending) + f.queues && swapped == old(swapped)[1..]
      ensures quit <==> old(quit) || f.quits
      ensures ran == old(ran) + [M.Ran(f, swaps)]
      ensures pending != [] ==> wakeups > 0
      ensures View() == Exec(M.Step, s0, acts)
    {
      hide M.Step, Exec;
      ExecAppend(M.Step, s0, before, [M.RunNext]);
      RunNextIsOneStep(View());
      acts := before + [M.RunNext];
      ran, swapped := ran + [M.Ran(f, swaps)], swapped[1..];
      assert old(Tagged(swapped, swaps - 1))[1..] == Tagged(swapped, swaps - 1);
      acts := QueueAll(f.queues, s0, acts);
      if f.quits {
        ExecAppend(M.Step, s0, acts, [M.SelfQuit]);
        Quit();
        acts := acts + [M.SelfQuit];
      }
    }

    /** User code on the loop thread that queues `fs` one after the other. */
    method QueueAll(fs: seq<Functor>, ghost s0: Machine, ghost before: seq<M.Action<Functor>>)
      returns (ghost acts: seq<M.Action<Functor>>)
      requires M.UserCode(View())
      requires View() == Exec(M.Step, s0, before)
      requires calling && pending != [] ==> wakeups > 0
      modifies this`pending, this`wakeups, this`pushed
      ensures pending == old(pending) + fs
      ensures calling && pending != [] ==> wakeups > 0
      ensures View() == Exec(M.Step, s0, acts)
    {
      hide M.Step, Exec;
      acts := before;
      for j := 0 to |fs|
        invariant pending == old(pending) + fs[..j]
        invariant calling && pending != [] ==> wakeups > 0
        invariant View() == Exec(M.Step, s0, acts)
      {
        ExecAppend(M.Step, s0, acts, [M.SelfPush(fs[j]), M.SelfWake]);
        QueueInLoop(fs[j]);
        acts := acts + [M.SelfPush(fs[j]), M.SelfWake];
      }
    }

    /** From the quit test to the end of the wakeup handler. */
    method PollOnce() returns (ghost acts: seq<M.Action<Functor>>)
      requires pc == M.Head && !quit
      modifies this`pc, this`wakeups
      ensures View() == Exec(M.Step, old(View()), acts)
      ensures View() == old(View()).(wakeups := 0, pc := M.Handle(false))
    {
      hide M.Step, Exec;
      if wakeups > 0 {
        PollReady(View());
        acts := PollReadySteps();
        pc := M.Reading;
        HandleRead();
      } else {
        PollTimeout(View());
        acts := [M.TestQuit, M.PollReturn(false)];
        pc := M.Handle(false);
      }
    }

    /** One turn of the loop: all that was pending and all that the handlers
        queued runs, in that order and in one batch; what those functors queue is
        left, with a wakeup. */
    method Turn(h: Handlers) returns (ghost acts: seq<M.Action<Functor>>)
      requires pc == M.Head && !quit && !calling && swapped == []
      modifies this
      ensures View() == Exec(M.Step, old(View()), acts)
      ensures pc == M.Head && !calling && swapped == [] && swaps == old(swaps) + 1
      ensures quit <==> h.quits || AnyQuits(old(pending) + h.queues)
      ensures ran == old(ran) + RanIn(old(pending) + h.queues, swaps)
      ensures pending == Spawned(old(pending) + h.queues)
      ensures pending != [] ==> wakeups > 0
    {
      hide M.Step, Exec, Spawned, RanIn, AnyQuits;
      ghost var s0 := View();
      acts := PollOnce();
      acts := QueueAll(h.queues, s0, acts);
      if h.quits {
        ExecAppend(M.Step, s0, acts, [M.SelfQuit]);
        Quit();
        acts := acts + [M.SelfQuit];
      }
      ghost var s1 := View();
      ghost var batch := DoPendingFunctors(s1);
      ExecAppend(M.Step, s0, acts, batch);
      acts := acts + batch;
    }

    /** loop(), watched for at most `turns` turns: it returns after the first turn
        in which a handler or a functor calls quit(), and not before. */
    method Loop(turns: seq<Handlers>) returns (made: nat, ghost acts: seq<M.Action<Functor>>)
      requires pc == M.Outside && !calling && swapped == []
      modifies this
      ensures View() == Exec(M.Step, old(View()), acts)
      ensures (made, quit, pending) == Turns(old(pending), turns)
      ensures pc == (if quit then M.Outside else M.Head) && swaps == old(swaps) + made
      ensures pending != [] ==> wakeups > 0
    {
      hide M.Step, Exec, Spawned, RanIn, AnyQuits;
      ghost var s0 := View();
      StartIsTwoSteps(s0);
      acts := [M.Enter, M.StartWake];
      quit := false;
      Wakeup();
      pc := M.Head;
      made := 0;
      while made < |turns| && !quit
        invariant made <= |turns| && pc == M.Head && !calling && swapped == [] && swaps == old(swaps) + made
        invariant quit ==> Turns(old(pending), turns) == (made, true, pending)
        invariant !quit ==> Later(made, Turns(pending, turns[made..])) == Turns(old(pending), turns)
        invariant pending != [] ==> wakeups > 0
        invariant View() == Exec(M.Step, s0, acts)
        decreases |turns| - made
      {
        ghost var turn := Turn(turns[made]);
        ExecAppend(M.Step, s0, acts, turn);
        acts := acts + turn;
        assert turns[made..][1..] == turns[made + 1..];
        made := made + 1;
      }
      if quit {
        ExecAppend(M.Step, s0, acts, [M.TestQuit]);
        M.TestLeaves(View());
        acts := acts + [M.TestQuit];
        pc := M.Outside;
      }
    }
  }

  /** The outcome of a loop that had made `n` turns before. */
  ghost function Later(n: nat, r: (nat, bool, seq<Functor>)): (nat, bool, seq<Functor>)
  {
    (n + r.0, r.1, r.2)
  }

  ghost function PollReadySteps(): seq<M.Action<Functor>>
  {
    [M.TestQuit] + [M.PollReturn(true), M.DispatchWake, M.ReadWake] + [M.ReadWake]
  }

  lemma PollReady(s: Machine)
    requires s.pc == M.Head && !s.quit && !s.selfPush && s.wakeups > 0
    ensures Exec(M.Step, s, PollReadySteps()) == s.(wakeups := 0, pc := M.Handle(false))
  {
    hide Exec;
    var first: seq<M.Action<Functor>> := [M.TestQuit];
    var read: seq<M.Action<Functor>> := [M.PollReturn(true), M.DispatchWake, M.ReadWake];
    ExecAppend(M.Step, s, first + read, [M.ReadWake]);
    ExecAppend(M.Step, s, first, read);
    ExecOne(M.Step, s, M.TestQuit);
    M.TurnUpToRead(s.(pc := M.Poll));
    ExecOne(M.Step, s.(wakeups := 0, pc := M.Reading), M.ReadWake);
  }

  lemma PollTimeout(s: Machine)
    requires s.pc == M.Head && !s.quit && s.wakeups == 0
    ensures Exec(M.Step, s, [M.TestQuit, M.PollReturn(false)]) == s.(pc := M.Handle(false))
  {
    hide Exec;
    ExecTwo(M.Step, s, M.TestQuit, M.PollReturn(false));
  }

  lemma StartIsTwoSteps(s: Machine)
    requires s.pc == M.Outside && !s.selfPush
    ensures Exec(M.Step, s, [M.Enter, M.StartWake])
         == s.(quit := false, wakeups := M.Signalled(s.wakeups), pc := M.Head)
  {
    hide Exec;
    ExecTwo(M.Step, s, M.Enter, M.StartWake);
  }
}
