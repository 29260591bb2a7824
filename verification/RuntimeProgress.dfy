/** What each thread can do next, which thread runs which task, and that a finished fiber stays finished. */
module RuntimeProgress {
  import opened Wrappers
  import opened EventSpec
  import opened Runtime
  import opened RuntimeInvariant
  import opened RuntimeProperties

  // ---------- what can happen next ----------

  /** What a fiber that acts can do next: anything, but an event is added only where none is registered, a new
      timer has a new number, and a fiber is scheduled by hand only when nothing else is to wake it. */
  lemma ActingCan(s: State, t: nat)
    requires Reachable(s) && Acts(s, t)
    ensures Enabled(s, Yield(t)) && Enabled(s, Finish(t))
    ensures forall cb, on :: Enabled(s, Schedule(t, cb, on))
    ensures forall f, on :: Enabled(s, ScheduleFiber(t, f, on)) <==>
      (f in s.fibers ==> s.fibers[f].home.Nowhere? && (s.fibers[f].state.Ready? || f == Current(s, t)))
    ensures forall timer, cb :: Enabled(s, AddTimer(t, timer, cb)) <==> timer !in s.timers
    ensures forall timer :: Enabled(s, CancelTimer(t, timer))
    ensures forall fd: nat, e, r :: Enabled(s, Park(t, fd, e, r)) <==> Registered(s.io.fds, fd, e) == None
    ensures forall fd: nat, e, cb, r :: Enabled(s, Watch(t, fd, e, cb, r)) <==> Registered(s.io.fds, fd, e) == None
    ensures forall fd, e, r :: Enabled(s, Delete(t, fd, e, r)) && Enabled(s, Cancel(t, fd, e, r))
    ensures forall fd, r :: Enabled(s, CancelEvery(t, fd, r))
  {
    ReachableInv(s);
    hide Inv, Reachable, Registered, Enabled;
    ActingRegisters(s, t);
    ActingSchedules(s, t);
  }

  lemma ActingRegisters(s: State, t: nat)
    requires Inv(s) && Acts(s, t)
    ensures forall fd: nat, e, r :: Enabled(s, Park(t, fd, e, r)) <==> Registered(s.io.fds, fd, e) == None
    ensures forall fd: nat, e, cb, r :: Enabled(s, Watch(t, fd, e, cb, r)) <==> Registered(s.io.fds, fd, e) == None
  {
    FreeSlots(s);
    hide Inv, Registered, Acts;
  }

  lemma ActingSchedules(s: State, t: nat)
    requires Acts(s, t)
    ensures Enabled(s, Yield(t)) && Enabled(s, Finish(t))
    ensures forall cb, on :: Enabled(s, Schedule(t, cb, on))
    ensures forall f, on :: Enabled(s, ScheduleFiber(t, f, on)) <==>
      (f in s.fibers ==> s.fibers[f].home.Nowhere? && (s.fibers[f].state.Ready? || f == Current(s, t)))
    ensures forall timer, cb :: Enabled(s, AddTimer(t, timer, cb)) <==> timer !in s.timers
    ensures forall timer :: Enabled(s, CancelTimer(t, timer))
    ensures forall fd, e, r :: Enabled(s, Delete(t, fd, e, r)) && Enabled(s, Cancel(t, fd, e, r))
    ensures forall fd, r :: Enabled(s, CancelEvery(t, fd, r))
  {}

  lemma FreeSlots(s: State)
    requires Inv(s)
    ensures forall fd: nat, e :: Registered(s.io.fds, fd, e) == None <==>
      (fd < |s.io.fds| ==> !Has(s.io.fds[fd].events, e))
  {
    hide LogInv, TasksInv, FibersInv, PendingSum, Mirrors;
    assert forall fd :: 0 <= fd < |s.io.fds| ==> Filled(s.io.fds[fd]);
  }

  /** A report does not trip triggerEvent's assertion: epoll_ctl refuses, every reported event is still registered,
      or there is nothing to take. */
  predicate Handled(events: Mask, m: Mask, broken: bool, refused: bool) {
    refused || Within(m, events) || (if broken then events == NONE else Common(events, m) == NONE)
  }

  /** What an idle thread can do next: take the first task that it may run, collect armed timers, look whether to
      stop, and handle a report that is not stale in that way. */
  lemma IdleCan(s: State, t: nat)
    requires Reachable(s) && Idles(s, t)
    ensures Enabled(s, Pick(t)) <==> exists i :: 0 <= i < |s.queue| && Eligible(s, t, s.queue[i])
    ensures forall fired: seq<nat>, recurring :: (forall x :: x in fired ==> x in s.timers) ==>
      Enabled(s, Collect(t, fired, recurring))
    ensures Enabled(s, CheckTimers(t))
    ensures forall fd: nat, m, broken, refused :: fd < |s.io.fds| ==>
      (Enabled(s, Handle(t, fd, m, broken, refused)) <==> Handled(s.io.fds[fd].events, m, broken, refused))
  {
    ReachableInv(s);
    assert Valid(s.io) by { hide LogInv, TasksInv, FibersInv, Valid; }
    hide Inv, Reachable, Report, Valid, Registered, Waiters, Idles, Handled, Enabled, Eligible;
    forall fd: nat, m, broken, refused | fd < |s.io.fds|
      ensures Enabled(s, Handle(t, fd, m, broken, refused)) <==> Handled(s.io.fds[fd].events, m, broken, refused)
    {
      HandleCan(s, t, fd, m, broken, refused);
    }
    IdleSteps(s, t);
  }

  lemma IdleSteps(s: State, t: nat)
    requires Idles(s, t)
    ensures Enabled(s, Pick(t)) <==> exists i :: 0 <= i < |s.queue| && Eligible(s, t, s.queue[i])
    ensures forall fired: seq<nat>, recurring :: (forall x :: x in fired ==> x in s.timers) ==>
      Enabled(s, Collect(t, fired, recurring))
    ensures Enabled(s, CheckTimers(t))
  {
    hide Eligible;
  }

  lemma HandleCan(s: State, t: nat, fd: nat, m: Mask, broken: bool, refused: bool)
    requires Valid(s.io) && Idles(s, t) && fd < |s.io.fds|
    ensures Enabled(s, Handle(t, fd, m, broken, refused)) <==> Handled(s.io.fds[fd].events, m, broken, refused)
  {
    ReportCorrect(s.io, fd, m, broken, refused);
    hide Report, Valid, Registered, Waiters, Idles, WithoutSlots;
  }

  /** No thread is ever stuck: one that has not exited has a step to take. */
  lemma NoThreadSticks(s: State, t: nat)
    requires Reachable(s) && !(t in s.checks && s.checks[t].Exited?)
    ensures exists x :: Enabled(s, x) && !x.Post? && !x.PostFiber? && !x.Stop? && x.t == t
  {
    ReachableInv(s);
    ReachableHoldsCallbacks(s);
    hide Inv, Reachable;
    var x: Step;
    if t in s.hands { x := HandStep(s, t); } else { x := LoopStep(s, t); }
    hide Enabled;
    assert Enabled(s, x) && x.t == t;
  }

  lemma LoopStep(s: State, t: nat) returns (x: Step)
    requires HoldsCallbacks(s.collected) && t !in s.hands && !(t in s.checks && s.checks[t].Exited?)
    ensures x.Submit? || x.CheckTimers? || x.CheckPending? || x.CheckTasks?
    ensures x.t == t && Enabled(s, x)
  {
    x := if t in s.collected then Submit(t) else if t !in s.checks then CheckTimers(t)
         else if s.checks[t].NoTimer? then CheckPending(t) else CheckTasks(t);
  }

  lemma HandStep(s: State, t: nat) returns (x: Step)
    requires Inv(s) && t in s.hands
    ensures (x.Resume? || x.Yield? || x.Release?) && x.t == t && Enabled(s, x)
  {
    var work := s.hands[t].task.work;
    if s.hands[t].phase.Picked? {
      var f := NewNumber(s.fibers.Keys);
      x := Resume(t, if work.FiberWork? then work.fiber else f);
      if work.FiberWork? { HeldFiberIsThere(s, t, work.fiber); }
    } else if s.hands[t].phase.Executing? {
      ActingFiber(s, t);
      x := Yield(t);
    } else {
      x := Release(t);
    }
    hide Inv;
  }

  lemma HeldFiberIsThere(s: State, t: nat, f: nat)
    requires Inv(s) && HeldIs(s.hands, t, f)
    ensures f in s.fibers
  {
    hide LogInv, TasksInv, Valid, Settled, Registered;
  }

  lemma {:induction false} NewNumber(ns: set<nat>) returns (n: nat)
    ensures n !in ns && forall m :: m in ns ==> m < n
    decreases |ns|
  {
    if ns == {} {
      n := 0;
    } else {
      var x :| x in ns;
      var k := NewNumber(ns - {x});
      assert forall m :: m in ns ==> m == x || m in ns - {x};
      n := if x < k then k else x + 1;
    }
  }

  // ---------- which task runs where ----------

  /** schedule, of a callback or a fiber and from wherever it is called, puts one task at the end of the queue,
      for the thread that was asked for. */
  lemma ScheduleQueues(s: State, x: Step)
    requires Shaped(s) && Enabled(s, x) && (x.Post? || x.PostFiber? || x.Schedule? || x.ScheduleFiber?)
    ensures var work := if x.Post? || x.Schedule? then CbWork(x.cb) else FiberWork(x.f);
      Apply(s, x).queue == s.queue + [Task(|s.places|, work, x.on)] && |Apply(s, x).places| == |s.places| + 1
  {
    hide Shaped;
  }

  /** listExpiredCb takes the callbacks of the expired timers in their order, and leaves the recurring ones armed. */
  lemma CollectTakes(s: State, t: nat, fired: seq<nat>, recurring: set<nat>)
    requires Shaped(s) && Enabled(s, Collect(t, fired, recurring)) && fired != []
    ensures var s' := Apply(s, Collect(t, fired, recurring));
      && t in s'.collected && |s'.collected[t]| == |fired|
      && (forall i :: 0 <= i < |fired| ==> fired[i] in s.timers && s'.collected[t][i] == s.timers[fired[i]])
      && (forall n :: n in s'.timers <==> n in s.timers && (n in fired ==> n in recurring))
      && (forall n :: n in s'.timers ==> s'.timers[n] == s.timers[n])
  {
    assert forall i :: 0 <= i < |fired| ==> fired[i] in fired;
    hide Shaped;
  }

  /** They are scheduled one by one, the first first. */
  lemma SubmitQueues(s: State, t: nat)
    requires Shaped(s) && Enabled(s, Submit(t))
    ensures var s', cbs := Apply(s, Submit(t)), s.collected[t];
      && s'.queue == s.queue + [Task(|s.places|, CbWork(cbs[0]), None)]
      && (if |cbs| > 1 then t in s'.collected && s'.collected[t] == cbs[1..] else t !in s'.collected)
  {
    hide Shaped;
  }

  /** A task that is bound to a thread is in no other thread's hand. */
  ghost predicate BoundRight(hands: map<nat, Slice>) {
    forall t :: t in hands && hands[t].task.thread.Some? ==> hands[t].task.thread == Some(t)
  }

  lemma StepKeepsBound(s: State, x: Step)
    requires Inv(s) && Shaped(s) && Enabled(s, x) && BoundRight(s.hands)
    ensures BoundRight(Apply(s, x).hands)
  {
    if x.Pick? {
      PickBinds(s, x.t);
    } else if x.Resume? || x.Yield? || x.Finish? || x.Release? {
      SliceBinds(s, x);
    } else {
      hide Inv, Shaped, Enabled, Apply, BoundRight;
      SameHands(s, x);
    }
  }

  lemma PickBinds(s: State, t: nat)
    requires Shaped(s) && Enabled(s, Pick(t)) && BoundRight(s.hands)
    ensures BoundRight(Apply(s, Pick(t)).hands)
  {
    var i := FirstEligible(s, t, 0);
    assert s.queue[i] in s.queue && Eligible(s, t, s.queue[i]);
    PickIs(s, t, i);
    hide Shaped, FirstEligible, PickAt;
  }

  lemma SliceBinds(s: State, x: Step)
    requires Shaped(s) && Enabled(s, x) && BoundRight(s.hands) && (x.Resume? || x.Yield? || x.Finish? || x.Release?)
    ensures BoundRight(Apply(s, x).hands)
  {
    hide Shaped;
  }

  lemma SameHands(s: State, x: Step)
    requires Inv(s) && Shaped(s) && Enabled(s, x)
    requires !x.Pick? && !x.Resume? && !x.Yield? && !x.Finish? && !x.Release?
    ensures Apply(s, x).hands == s.hands
  {
    hide Inv, Shaped, Enabled, Apply;
    if x.Cancel? || x.CancelEvery? || x.Handle? {
      TriggerHands(s, x);
    } else if x.Park? || x.Watch? || x.Delete? {
      EventOnly(s, x);
    } else {
      LoopHands(s, x);
    }
  }

  lemma LoopHands(s: State, x: Step)
    requires Shaped(s) && Enabled(s, x)
    requires x.Stop? || x.AddTimer? || x.CancelTimer? || x.Collect? || x.CheckTimers? || x.CheckPending?
        || x.CheckTasks?
      || x.Post? || x.PostFiber? || x.Schedule? || x.ScheduleFiber? || x.Submit?
    ensures Apply(s, x).hands == s.hands
  {
    hide Shaped, Callbacks;
  }

  lemma TriggerHands(s: State, x: Step)
    requires Shaped(s) && Enabled(s, x) && (x.Cancel? || x.CancelEvery? || x.Handle?)
    ensures Apply(s, x).hands == s.hands
  {
    hide Shaped, Clear, Taken, RealEvents, EpollCtl;
    match x
    case Cancel(_, fd, e, refused) => TakenElsewhere(s, fd, Only(e), CancelEvent(s.io, fd, e, refused));
    case CancelEvery(_, fd, refused) => TakenElsewhere(s, fd, Mask(true, true), CancelAll(s.io, fd, refused));
    case Handle(_, fd, reported, broken, refused) =>
      TakenElsewhere(s, fd, RealEvents(s.io.fds[fd].events, reported, broken),
          Report(s.io, fd, reported, broken, refused).value);
  }

  lemma {:induction false} RunKeepsBound(s: State, steps: seq<Step>)
    requires Inv(s) && BoundRight(s.hands) && Runs(s, steps)
    ensures BoundRight(After(s, steps).hands)
    decreases |steps|
  {
    hide Inv, BoundRight, Enabled, Apply;
    if steps != [] {
      StepKeepsInv(s, steps[0]);
      StepKeepsBound(s, steps[0]);
      RunKeepsBound(Apply(s, steps[0]), steps[1..]);
    }
  }

  /** In every run a task that was scheduled for a thread is taken by that thread only. */
  lemma BoundTasksStay(s: State, t: nat)
    requires Reachable(s) && t in s.hands && s.hands[t].task.thread.Some?
    ensures s.hands[t].task.thread == Some(t)
  {
    var steps :| Leads(steps, s);
    InitInv();
    hide Inv, Runs, After;
    RunKeepsBound(Init(), steps);
  }

  // ---------- a finished fiber ----------

  lemma StepKeepsTerm(s: State, x: Step, f: nat)
    requires Inv(s) && Shaped(s) && Enabled(s, x) && HasTerm(s, f)
    ensures HasTerm(Apply(s, x), f)
  {
    TermIsNotResumed(s, x, f);
    hide Inv, Shaped, Apply, Enabled, HasTerm;
    if x.Yield? || x.Finish? {
      LeaveKeepsTerm(s, x, f);
    } else if x.Cancel? || x.CancelEvery? || x.Handle? {
      TriggerKeepsTerm(s, x, f);
    } else if x.Post? || x.PostFiber? || x.Schedule? || x.ScheduleFiber? || x.Submit? {
      PushKeepsTerm(s, x, f);
    } else if x.Park? || x.Watch? || x.Delete? {
      EventKeepsTerm(s, x, f);
    } else {
      LoopKeepsTerm(s, x, f);
    }
  }

  lemma LoopKeepsTerm(s: State, x: Step, f: nat)
    requires Shaped(s) && Enabled(s, x) && HasTerm(s, f) && !(x.Resume? && x.f == f)
    requires x.Stop? || x.AddTimer? || x.CancelTimer? || x.Collect? || x.CheckTimers? || x.CheckPending?
        || x.CheckTasks?
      || x.Pick? || x.Resume? || x.Release?
    ensures HasTerm(Apply(s, x), f)
  {
    hide Shaped, FirstEligible, Eligible, Callbacks;
  }

  lemma LeaveKeepsTerm(s: State, x: Step, f: nat)
    requires Inv(s) && Shaped(s) && Enabled(s, x) && HasTerm(s, f) && (x.Yield? || x.Finish?)
    ensures HasTerm(Apply(s, x), f)
  {
    ActingFiber(s, x.t);
    hide Inv, Shaped;
  }

  lemma PushKeepsTerm(s: State, x: Step, f: nat)
    requires Shaped(s) && Enabled(s, x) && HasTerm(s, f)
    requires x.Post? || x.PostFiber? || x.Schedule? || x.ScheduleFiber? || x.Submit?
    ensures HasTerm(Apply(s, x), f)
  {
    hide Shaped;
  }

  lemma EventKeepsTerm(s: State, x: Step, f: nat)
    requires Shaped(s) && Enabled(s, x) && HasTerm(s, f) && (x.Park? || x.Watch? || x.Delete?)
    ensures HasTerm(Apply(s, x), f)
  {
    hide Shaped, AddEvent, Remove, Registered;
  }

  lemma TermIsNotHeld(s: State, t: nat, f: nat)
    requires Inv(s) && f in s.fibers && HeldIs(s.hands, t, f)
    ensures s.fibers[f].state == Ready
  {
    hide LogInv, TasksInv, Valid, Registered, QueuesFiber;
  }

  predicate HasTerm(s: State, f: nat) { f in s.fibers && s.fibers[f].state.Term? }

  lemma FireKeepsTerm(s: State, fd: nat, e: Event, f: nat)
    requires fd < |s.io.fds| && HasTerm(s, f)
    ensures HasTerm(Fire(s, fd, e), f)
  {
    hide Clear, Slot;
  }

  lemma TakenKeepsTerm(s: State, fd: nat, m: Mask, r: Reply, f: nat)
    requires (r.ok ==> fd < |s.io.fds|) && HasTerm(s, f)
    ensures HasTerm(Taken(s, fd, m, r), f)
  {
    hide Fire;
    if r.ok {
      if m.read { FireKeepsTerm(s, fd, Read, f); }
      FireElsewhere(s, fd, Read);
      if m.write { FireKeepsTerm(if m.read then Fire(s, fd, Read) else s, fd, Write, f); }
    }
  }

  lemma TriggerKeepsTerm(s: State, x: Step, f: nat)
    requires Shaped(s) && Enabled(s, x) && HasTerm(s, f) && (x.Cancel? || x.CancelEvery? || x.Handle?)
    ensures HasTerm(Apply(s, x), f)
  {
    hide HasTerm, Shaped, Clear, Taken, RealEvents, EpollCtl;
    match x
    case Cancel(_, fd, e, refused) => TakenKeepsTerm(s, fd, Only(e), CancelEvent(s.io, fd, e, refused), f);
    case CancelEvery(_, fd, refused) => TakenKeepsTerm(s, fd, Mask(true, true), CancelAll(s.io, fd, refused), f);
    case Handle(_, fd, reported, broken, refused) =>
      TakenKeepsTerm(s, fd, RealEvents(s.io.fds[fd].events, reported, broken),
          Report(s.io, fd, reported, broken, refused).value, f);
  }

  lemma {:induction false} TermForGood(s: State, steps: seq<Step>, f: nat)
    requires Inv(s) && HasTerm(s, f) && Runs(s, steps)
    ensures HasTerm(After(s, steps), f) && forall x :: x in steps ==> !(x.Resume? && x.f == f)
    decreases |steps|
  {
    hide Inv, Enabled, Apply;
    if steps != [] {
      TermIsNotResumed(s, steps[0], f);
      StepKeepsInv(s, steps[0]);
      StepKeepsTerm(s, steps[0], f);
      TermForGood(Apply(s, steps[0]), steps[1..], f);
      assert forall x :: x in steps ==> x == steps[0] || x in steps[1..];
    }
  }

  lemma TermIsNotResumed(s: State, x: Step, f: nat)
    requires Inv(s) && Enabled(s, x) && HasTerm(s, f)
    ensures !(x.Resume? && x.f == f)
  {
    if x.Resume? && x.f == f { TermIsNotHeld(s, x.t, f); }
    hide Inv;
  }

  /** A fiber that has finished is finished in every run from there on, and is not resumed again. */
  lemma FinishedForGood(s: State, t: nat, steps: seq<Step>)
    requires Reachable(s) && Enabled(s, Finish(t))
    ensures Shaped(s) && Executes(s, t)
    ensures var s' := Apply(s, Finish(t)); var f := Current(s, t);
      Runs(s', steps) ==> HasTerm(After(s', steps), f) && forall x :: x in steps ==> !(x.Resume? && x.f == f)
  {
    ReachableInv(s);
    InvShapes(s);
    hide Inv, Shaped, Reachable, Apply, Enabled, HasTerm, Runs, After;
    StepKeepsInv(s, Finish(t));
    FinishEnds(s, t);
    var s' := Apply(s, Finish(t));
    CurrentOf(s, t);
    if Runs(s', steps) { TermForGood(s', steps, Current(s, t)); }
  }

  lemma CurrentOf(s: State, t: nat)
    requires Enabled(s, Finish(t))
    ensures Executes(s, t)
  {}

  lemma FinishEnds(s: State, t: nat)
    requires Shaped(s) && Enabled(s, Finish(t))
    ensures HasTerm(Apply(s, Finish(t)), Current(s, t))
  {
    hide Shaped;
  }
}
