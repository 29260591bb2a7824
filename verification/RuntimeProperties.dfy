/** What holds in every run of the runtime. */
module RuntimeProperties {
  import opened Wrappers
  import opened EventSpec
  import opened Runtime
  import opened RuntimeInvariant

  // ---------- runs ----------

  ghost predicate Runs(s: State, steps: seq<Step>)
    decreases |steps|
  {
    if steps == [] then true else Shaped(s) && Enabled(s, steps[0]) && Runs(Apply(s, steps[0]), steps[1..])
  }

  ghost function After(s: State, steps: seq<Step>): State
    requires Runs(s, steps)
    decreases |steps|
  {
    if steps == [] then s else After(Apply(s, steps[0]), steps[1..])
  }

  lemma InitInv()
    ensures Inv(Init())
  {
    hide Valid, PendingSum;
    var s := Init();
    EmptyIsValid(s.io.fds);
    assert FibersInv([], map[], map[], s.io.fds) && LogInv([], map[]) && TasksInv([], map[], 0, []);
    hide FibersInv, LogInv, TasksInv;
  }

  lemma {:induction false} RunKeepsInv(s: State, steps: seq<Step>)
    requires Inv(s) && Runs(s, steps)
    ensures Inv(After(s, steps))
    decreases |steps|
  {
    hide LogInv, TasksInv, FibersInv, Valid;
    if steps != [] {
      StepKeepsInv(s, steps[0]);
      RunKeepsInv(Apply(s, steps[0]), steps[1..]);
    }
  }

  ghost predicate Leads(steps: seq<Step>, s: State) {
    Runs(Init(), steps) && After(Init(), steps) == s
  }

  ghost predicate Reachable(s: State) {
    exists steps :: Leads(steps, s)
  }

  lemma ReachableInv(s: State)
    requires Reachable(s)
    ensures Inv(s)
  {
    hide LogInv, TasksInv, FibersInv, Valid;
    InitInv();
    var steps :| Leads(steps, s);
    RunKeepsInv(Init(), steps);
  }

  lemma {:induction false} RunsOneMore(s: State, steps: seq<Step>, x: Step)
    requires Runs(s, steps) && Shaped(After(s, steps)) && Enabled(After(s, steps), x)
    ensures Runs(s, steps + [x]) && After(s, steps + [x]) == Apply(After(s, steps), x)
    decreases |steps|
  {
    hide Shaped, Enabled, Apply;
    if steps == [] {
      assert [] + [x] == [x] && [x][1..] == [];
      assert Runs(Apply(s, x), []);
    } else {
      assert (steps + [x])[1..] == steps[1..] + [x];
      RunsOneMore(Apply(s, steps[0]), steps[1..], x);
    }
  }

  lemma ReachableNext(s: State, x: Step)
    requires Reachable(s) && Enabled(s, x)
    ensures Shaped(s) && Reachable(Apply(s, x))
  {
    ReachableInv(s);
    hide LogInv, TasksInv, FibersInv, Valid, Enabled, Apply;
    InvShapes(s);
    var steps :| Leads(steps, s);
    RunsOneMore(Init(), steps, x);
    assert Leads(steps + [x], Apply(s, x));
  }

  // ---------- tasks ----------

  /** Every task ever scheduled is in exactly one of the queue (at one position), the hand of one thread,
      and the finished ones; and the active count is the number of tasks in hand. */
  lemma OnePlaceEach(s: State, id: nat)
    requires Reachable(s) && id < |s.places|
    ensures (s.places[id] == Done) <==> !InQueue(s.queue, id) && !InHand(s.hands, id)
    ensures !(InQueue(s.queue, id) && InHand(s.hands, id))
    ensures forall i, j :: 0 <= i < |s.queue| && 0 <= j < |s.queue| && s.queue[i].id == id && s.queue[j].id == id ==>
      i == j
    ensures forall t, u :: t in s.hands && u in s.hands && s.hands[t].task.id == id && s.hands[u].task.id == id ==>
      t == u
    ensures s.active == |s.hands|
  {
    ReachableInv(s);
    hide LogInv, FibersInv, Valid;
  }

  /** Scheduler::stopping() */
  predicate Stopping(s: State) {
    s.stopping && s.queue == [] && s.active == 0
  }

  /** When stopping() returns true, every task scheduled so far has completed its slice. */
  lemma StoppingMeansDone(s: State)
    requires Reachable(s) && Stopping(s)
    ensures forall id: nat :: id < |s.places| ==> s.places[id] == Done
  {
    forall id: nat | id < |s.places| ensures s.places[id] == Done {
      OnePlaceEach(s, id);
      assert s.hands == map[];
    }
  }

  // ---------- fibers ----------

  /** resume is never called on a running or finished fiber, even when the event that wakes a fiber fires
      before it has yielded. */
  lemma ResumeIsSafe(s: State, t: nat, f: nat)
    requires Reachable(s) && Enabled(s, Resume(t, f))
    ensures f in s.fibers ==> s.fibers[f].state == Ready
  {
    ReachableInv(s);
    hide LogInv, TasksInv, Valid, Registered, QueuesFiber;
    if f in s.fibers { assert HeldIs(s.hands, t, f); }
  }

  predicate IsTaskOf(queue: seq<Task>, i: int, f: nat) {
    0 <= i < |queue| && queue[i].work == FiberWork(f)
  }

  /** A fiber runs on one thread at most, and its wake-up is in one place at most. */
  lemma WakeUpIsUnique(s: State, f: nat)
    requires Reachable(s)
    ensures forall i, j :: IsTaskOf(s.queue, i, f) && IsTaskOf(s.queue, j, f) ==> i == j
    ensures forall fd, e, fd2, e2 ::
      Registered(s.io.fds, fd, e) == Some(FiberWork(f)) && Registered(s.io.fds, fd2, e2) == Some(FiberWork(f)) ==>
        fd == fd2 && e == e2
    ensures forall x, fd, e :: x in s.queue && x.work == FiberWork(f) ==>
      Registered(s.io.fds, fd, e) != Some(FiberWork(f))
    ensures forall t, u :: RunsOn(s.hands, t, f) && RunsOn(s.hands, u, f) ==> t == u
  {
    ReachableInv(s);
    hide LogInv, Valid, IsTaskOf, Settled, InQueue, InHand;
    QueuedOnce(s, f);
    hide TasksInv;
    OnePlacePerFiber(s, f);
  }

  lemma OnePlacePerFiber(s: State, f: nat)
    requires Homes(s.queue, s.hands, s.fibers, s.io.fds)
    ensures forall fd, e, fd2, e2 ::
      Registered(s.io.fds, fd, e) == Some(FiberWork(f)) && Registered(s.io.fds, fd2, e2) == Some(FiberWork(f)) ==>
        fd == fd2 && e == e2
    ensures forall x, fd, e :: x in s.queue && x.work == FiberWork(f) ==>
      Registered(s.io.fds, fd, e) != Some(FiberWork(f))
    ensures forall t, u :: RunsOn(s.hands, t, f) && RunsOn(s.hands, u, f) ==> t == u
  {
    hide Registered, RunsOn, HeldIs;
  }

  lemma QueuedOnce(s: State, f: nat)
    requires TasksInv(s.queue, s.hands, s.active, s.places) && Homes(s.queue, s.hands, s.fibers, s.io.fds)
    ensures forall i, j :: IsTaskOf(s.queue, i, f) && IsTaskOf(s.queue, j, f) ==> i == j
  {
    hide Registered, RunsOn, HeldIs, InQueue;
    forall i, j | IsTaskOf(s.queue, i, f) && IsTaskOf(s.queue, j, f)
      ensures i == j
    {
      assert s.queue[i] in s.queue && s.queue[j] in s.queue;
    }
  }

  /** Triggering events concerns the queue, the fibers and the registrations only. */
  lemma FireElsewhere(s: State, fd: nat, e: Event)
    requires fd < |s.io.fds|
    ensures var s' := Fire(s, fd, e);
      s'.active == s.active && s'.hands == s.hands && s'.timers == s.timers && s'.collected == s.collected
          && s'.checks == s.checks && s'.stopping == s.stopping && |s'.io.fds| == |s.io.fds|
      && s.fibers.Keys <= s'.fibers.Keys
  {
    hide Clear, Slot, Homed;
    var w := Slot(s.io.fds[fd], e);
    if w.Some? { WakeElsewhere(s.(io := s.io.(fds := Clear(s.io.fds, fd, e))), w.value); }
    hide Wake;
  }

  lemma WakeElsewhere(s: State, w: Work)
    ensures var s' := Wake(s, w);
      s'.active == s.active && s'.hands == s.hands && s'.timers == s.timers && s'.collected == s.collected
          && s'.checks == s.checks && s'.stopping == s.stopping && s'.io == s.io
      && s.fibers.Keys <= s'.fibers.Keys
  {
    hide Homed;
    if w.FiberWork? && w.fiber in s.fibers {
      assert s.fibers[w.fiber := Homed(s, s.fibers[w.fiber])].Keys == s.fibers.Keys;
    }
  }

  lemma TakenElsewhere(s: State, fd: nat, m: Mask, r: Reply)
    requires r.ok ==> fd < |s.io.fds|
    ensures var s' := Taken(s, fd, m, r);
      s'.active == s.active && s'.hands == s.hands && s'.timers == s.timers && s'.collected == s.collected
          && s'.checks == s.checks && s'.stopping == s.stopping && s'.io == r.io
      && s.fibers.Keys <= s'.fibers.Keys
  {
    hide Fire;
    if r.ok {
      FireElsewhere(s, fd, Read);
      FireElsewhere(if m.read then Fire(s, fd, Read) else s, fd, Write);
    }
  }

  lemma FibersStay(s: State, step: Step)
    requires Shaped(s) && Enabled(s, step)
    ensures s.fibers.Keys <= Apply(s, step).fibers.Keys
  {
    if step.Cancel? || step.CancelEvery? || step.Handle? {
      TriggerKeepsFibers(s, step);
    } else {
      hide Shaped, Enabled, FirstEligible, AddEvent, Remove, CancelAll, Report, Clear, Eligible, Taken, RealEvents;
      hide Fire, Registered, Callbacks;
    }
  }

  lemma TriggerKeepsFibers(s: State, step: Step)
    requires Shaped(s) && Enabled(s, step) && (step.Cancel? || step.CancelEvery? || step.Handle?)
    ensures s.fibers.Keys <= Apply(s, step).fibers.Keys
  {
    hide Shaped, Clear, Taken, RealEvents, EpollCtl;
    match step
    case Cancel(_, fd, e, refused) => TakenElsewhere(s, fd, Only(e), CancelEvent(s.io, fd, e, refused));
    case CancelEvery(_, fd, refused) => TakenElsewhere(s, fd, Mask(true, true), CancelAll(s.io, fd, refused));
    case Handle(_, fd, reported, broken, refused) =>
      TakenElsewhere(s, fd, RealEvents(s.io.fds[fd].events, reported, broken),
          Report(s.io, fd, reported, broken, refused).value);
  }

  lemma {:induction false} FibersStayRun(s: State, steps: seq<Step>)
    requires Runs(s, steps)
    ensures s.fibers.Keys <= After(s, steps).fibers.Keys
    decreases |steps|
  {
    hide Shaped, Enabled, Apply;
    if steps != [] {
      FibersStay(s, steps[0]);
      FibersStayRun(Apply(s, steps[0]), steps[1..]);
    }
  }

  /** A fiber will be resumed: it is in the queue, in the hand of a thread, or registered for an event. */
  ghost predicate WillWake(s: State, f: nat) {
    || (exists id :: QueuesFiber(s.queue, id, f))
    || (exists t :: HeldIs(s.hands, t, f))
    || (exists fd, e :: Registered(s.io.fds, fd, e) == Some(FiberWork(f)))
  }

  /** The fiber is resumed, or delEvent takes its registration. */
  predicate Disturbs(s: State, x: Step, f: nat) {
    || (x.Resume? && x.f == f)
    || (x.Delete? && !x.refused && Registered(s.io.fds, x.fd, x.e) == Some(FiberWork(f)))
  }

  ghost predicate Undisturbed(s: State, steps: seq<Step>, f: nat)
    requires Runs(s, steps)
    decreases |steps|
  {
    steps == [] || (!Disturbs(s, steps[0], f) && Undisturbed(Apply(s, steps[0]), steps[1..], f))
  }

  predicate HasHome(s: State, f: nat) {
    f in s.fibers && !s.fibers[f].home.Nowhere? && !s.fibers[f].home.Dropped?
  }

  lemma WakeKeepsHome(s: State, w: Work, f: nat)
    requires HasHome(s, f)
    ensures HasHome(Wake(s, w), f)
  {}

  lemma FireKeepsHome(s: State, fd: nat, e: Event, f: nat)
    requires fd < |s.io.fds| && HasHome(s, f)
    ensures HasHome(Fire(s, fd, e), f)
  {
    var a := s.(io := s.io.(fds := Clear(s.io.fds, fd, e)));
    var w := Slot(s.io.fds[fd], e);
    hide Wake, Clear, Slot;
    if w.Some? { WakeKeepsHome(a, w.value, f); }
  }

  lemma TakenKeepsHome(s: State, fd: nat, m: Mask, r: Reply, f: nat)
    requires (r.ok ==> fd < |s.io.fds|) && HasHome(s, f)
    ensures HasHome(Taken(s, fd, m, r), f)
  {
    hide Fire;
    if r.ok {
      if m.read { FireKeepsHome(s, fd, Read, f); }
      FireElsewhere(s, fd, Read);
      if m.write { FireKeepsHome(if m.read then Fire(s, fd, Read) else s, fd, Write, f); }
    }
  }

  lemma TriggerKeepsHome(s: State, x: Step, f: nat)
    requires Shaped(s) && Enabled(s, x) && HasHome(s, f) && (x.Cancel? || x.CancelEvery? || x.Handle?)
    ensures HasHome(Apply(s, x), f)
  {
    hide HasHome, Shaped, Clear, Taken, RealEvents, EpollCtl;
    match x
    case Cancel(_, fd, e, refused) => TakenKeepsHome(s, fd, Only(e), CancelEvent(s.io, fd, e, refused), f);
    case CancelEvery(_, fd, refused) => TakenKeepsHome(s, fd, Mask(true, true), CancelAll(s.io, fd, refused), f);
    case Handle(_, fd, reported, broken, refused) =>
      TakenKeepsHome(s, fd, RealEvents(s.io.fds[fd].events, reported, broken),
          Report(s.io, fd, reported, broken, refused).value, f);
  }

  lemma PushKeepsHome(s: State, x: Step, f: nat)
    requires Shaped(s) && Enabled(s, x) && HasHome(s, f)
    requires x.Post? || x.PostFiber? || x.Schedule? || x.ScheduleFiber? || x.Submit?
    ensures HasHome(Apply(s, x), f)
  {
    hide Shaped;
  }

  lemma SliceKeepsHome(s: State, x: Step, f: nat)
    requires Shaped(s) && Enabled(s, x) && HasHome(s, f) && !Disturbs(s, x, f)
    requires x.Pick? || x.Resume? || x.Yield? || x.Finish?
    ensures HasHome(Apply(s, x), f)
  {
    hide Shaped, FirstEligible, Eligible, Registered;
  }

  lemma DeleteKeepsHome(s: State, x: Step, f: nat)
    requires Shaped(s) && Enabled(s, x) && HasHome(s, f) && x.Delete? && !Disturbs(s, x, f)
    ensures HasHome(Apply(s, x), f)
  {
    assert x.refused ==> !DelEvent(s.io, x.fd, x.e, x.refused).ok;
    hide Shaped, Remove, Registered;
  }

  lemma StepKeepsHome(s: State, x: Step, f: nat)
    requires Shaped(s) && Enabled(s, x) && HasHome(s, f) && !Disturbs(s, x, f)
    ensures HasHome(Apply(s, x), f)
  {
    if x.Cancel? || x.CancelEvery? || x.Handle? {
      TriggerKeepsHome(s, x, f);
    } else if x.Delete? {
      DeleteKeepsHome(s, x, f);
    } else if x.Post? || x.PostFiber? || x.Schedule? || x.ScheduleFiber? || x.Submit? {
      PushKeepsHome(s, x, f);
    } else if x.Pick? || x.Resume? || x.Yield? || x.Finish? {
      SliceKeepsHome(s, x, f);
    } else {
      hide Shaped, FirstEligible, AddEvent, Report, Eligible, Callbacks, Registered;
    }
  }

  lemma {:induction false} RunKeepsHome(s: State, steps: seq<Step>, f: nat)
    requires Inv(s) && HasHome(s, f) && Runs(s, steps) && Undisturbed(s, steps, f)
    ensures HasHome(After(s, steps), f)
    decreases |steps|
  {
    hide Inv, HasHome, Enabled, Apply, Disturbs;
    if steps != [] {
      StepKeepsInv(s, steps[0]);
      StepKeepsHome(s, steps[0], f);
      RunKeepsHome(Apply(s, steps[0]), steps[1..], f);
    }
  }

  lemma HomeWakes(s: State, f: nat)
    requires Inv(s) && HasHome(s, f)
    ensures WillWake(s, f)
  {
    hide LogInv, TasksInv, Valid, Homes, Registered, QueuesFiber, HeldIs;
    assert Settled(s.queue, s.hands, s.io.fds, f, s.fibers[f]);
  }

  /** No wake-up is lost: from a successful park on, in every run and however it interleaves, as long as
      the fiber is not resumed and no delEvent takes its registration, it is in the queue, in the hand of
      a thread about to resume it, or registered. */
  lemma NoWakeUpLost(s: State, t: nat, fd: nat, e: Event, steps: seq<Step>)
    requires Reachable(s) && Enabled(s, Park(t, fd, e, false))
    ensures Shaped(s)
    ensures var s' := Apply(s, Park(t, fd, e, false)); var f := Current(s, t);
      Runs(s', steps) && Undisturbed(s', steps, f) ==> WillWake(After(s', steps), f)
  {
    ReachableInv(s);
    var x := Park(t, fd, e, false);
    ReachableNext(s, x);
    ParkHasHome(s, t, fd, e);
    hide Reachable, Inv, Enabled, Apply, HasHome, WillWake;
    var s', f := Apply(s, x), Current(s, t);
    StepKeepsInv(s, x);
    if Runs(s', steps) && Undisturbed(s', steps, f) {
      RunKeepsHome(s', steps, f);
      RunKeepsInv(s', steps);
      HomeWakes(After(s', steps), f);
    }
  }

  lemma ParkHasHome(s: State, t: nat, fd: nat, e: Event)
    requires Inv(s) && Shaped(s) && Enabled(s, Park(t, fd, e, false))
    ensures HasHome(Apply(s, Park(t, fd, e, false)), Current(s, t))
  {
    Unregistered(s.io, fd, e);
    AddEventCorrect(s.io, fd, e, FiberWork(Current(s, t)), false);
    hide Inv, AddEvent;
  }

  /** Whichever of an epoll report, a timeout's cancelEvent or a cancelAll comes first, and whatever
      happens in between: from a park until the fiber's next one, or a schedule call by hand, or a delEvent
      that drops it, the fiber is put on the queue exactly once when it no longer waits, and not at all
      while it waits; and while it waits it is not resumed. */
  lemma EachParkQueuedOnce(s: State, steps: seq<Step>, f: nat)
    requires Reachable(s) && f in s.fibers && s.fibers[f].home.Waiting? && Runs(s, steps)
    ensures f in After(s, steps).fibers
    ensures var s' := After(s, steps); var c, c' := s.fibers[f], s'.fibers[f];
      c'.parks == c.parks && c'.posts == c.posts && c'.drops == c.drops ==>
        TimesQueued(s'.log, f) == TimesQueued(s.log, f) + (if c'.home.Waiting? then 0 else 1)
    ensures var c' := After(s, steps).fibers[f];
      c'.state.Term? || (c'.state.Running? && !c'.parking) ==> !c'.home.Waiting?
  {
    ReachableInv(s);
    RunKeepsInv(s, steps);
    FibersStayRun(s, steps);
    hide TasksInv, Valid, TimesQueued, Homes;
    assert f in s.fibers.Keys;
  }

  // ---------- registrations ----------

  /** In every reachable state the interest set of epoll is the table of contexts, a context is filled
      exactly when its bit is set, and the pending count is the sum of the bits. Hence addEvent, delEvent,
      cancelEvent and cancelAll always ask epoll for a legal operation: they fail on a registered event
      only when the kernel refuses for another reason. */
  lemma EpollMirrorsContexts(s: State, fd: nat, e: Event, w: Work)
    requires Reachable(s)
    ensures fd in s.io.interest <==> fd < |s.io.fds| && s.io.fds[fd].events != NONE
    ensures fd in s.io.interest ==> s.io.interest[fd] == s.io.fds[fd].events
    ensures fd < |s.io.fds| ==> (Has(s.io.fds[fd].events, e) <==> Slot(s.io.fds[fd], e).Some?)
    ensures s.io.pending == PendingSum(s.io.fds)
    ensures |s.io.fds| >= 32
    ensures (fd < |s.io.fds| ==> !Has(s.io.fds[fd].events, e)) ==> AddEvent(s.io, fd, e, w, false).ok
    ensures Registered(s.io.fds, fd, e).Some? ==>
      DelEvent(s.io, fd, e, false).ok && CancelEvent(s.io, fd, e, false).ok && CancelAll(s.io, fd, false).ok
  {
    ReachableInv(s);
    hide LogInv, TasksInv, FibersInv, PendingSum, AddEvent, Remove, CancelAll;
    if fd < |s.io.fds| ==> !Has(s.io.fds[fd].events, e) { AddEventCorrect(s.io, fd, e, w, false); }
    RemoveCorrect(s.io, fd, e, false, false);
    RemoveCorrect(s.io, fd, e, true, false);
    CancelAllCorrect(s.io, fd, false);
  }

  function Works(queue: seq<Task>): (r: seq<Work>)
    ensures |r| == |queue|
  {
    seq(|queue|, i requires 0 <= i < |queue| => queue[i].work)
  }

  lemma FireQueues(s: State, fd: nat, e: Event)
    requires fd < |s.io.fds|
    ensures var s' := Fire(s, fd, e);
      Works(s'.queue) == Works(s.queue) + Waiter(s.io.fds[fd], e) && s'.io.fds == Clear(s.io.fds, fd, e)
  {
    hide Clear, Slot, Homed;
    var w := Slot(s.io.fds[fd], e);
    if w.Some? { WakeQueues(s.(io := s.io.(fds := Clear(s.io.fds, fd, e))), w.value); }
    hide Wake, Works;
    assert Works(s.queue) + [] == Works(s.queue);
  }

  lemma WakeQueues(s: State, w: Work)
    ensures Works(Wake(s, w).queue) == Works(s.queue) + [w] && Wake(s, w).io == s.io
  {
    WakePushes(s, w);
    hide Wake;
  }

  lemma WakePushes(s: State, w: Work)
    ensures Wake(s, w).queue == s.queue + [Task(|s.places|, w, None)] && Wake(s, w).io == s.io
  {}

  /** Triggering, one event after the other, puts exactly what the registration layer says on the queue. */
  lemma TriggersQueue(s: State, fd: nat, m: Mask)
    requires fd < |s.io.fds|
    ensures Works(FireAll(s, fd, m).queue) == Works(s.queue) + Waiters(s.io.fds[fd], m)
  {
    FireQueues(s, fd, Read);
    var a := if m.read then Fire(s, fd, Read) else s;
    assert a.io.fds[fd].write == s.io.fds[fd].write by { hide Fire; }
    FireQueues(a, fd, Write);
    hide Fire, Clear;
  }

  // ---------- stopping ----------

  /** A step of the scheduler's own threads. */
  predicate Internal(step: Step) { !step.Post? && !step.PostFiber? }

  /** What IOManager::stopping() looks at, all at once. */
  predicate Quiet(s: State) {
    s.stopping && s.queue == [] && s.active == 0 && s.timers == map[] && s.io.pending == 0
  }

  lemma HasFirst(xs: seq<nat>)
    ensures xs != [] ==> exists x :: x in xs
  {
    if xs != [] { assert xs[0] in xs; }
  }

  lemma NothingFires(s: State, fired: seq<nat>)
    requires s.timers == map[] && forall x :: x in fired ==> x in s.timers
    ensures fired == []
  {
    HasFirst(fired);
  }

  /** Nothing of the state but the checks can change. */
  lemma QuietStep(s: State, step: Step)
    requires Inv(s) && Quiet(s) && s.collected == map[] && Internal(step) && Shaped(s) && Enabled(s, step)
    ensures var s' := Apply(s, step);
      Quiet(s') && s'.collected == map[] && s'.places == s.places && s'.log == s.log
  {
    assert s.hands == map[] by { hide LogInv, FibersInv, Valid; }
    if step.Handle? {
      SumPositive(s.io.fds, step.fd);
      assert s.io.fds[step.fd].events == NONE;
    }
    if step.Collect? { NothingFires(s, step.fired); }
    hide Inv, Registered, PendingSum, FirstEligible, AddEvent, Remove, CancelAll, Push, PickAt, Callbacks;
  }

  /** The quiet condition is final: however the scheduler's threads go on, no task is ever created again. */
  lemma {:induction false} QuietIsFinal(s: State, steps: seq<Step>)
    requires Inv(s) && Quiet(s) && s.collected == map[] && Runs(s, steps) && forall x :: x in steps ==> Internal(x)
    ensures var s' := After(s, steps);
      Quiet(s') && s'.places == s.places
    decreases |steps|
  {
    hide TasksInv, FibersInv, Valid, LogInv, Enabled, Apply;
    if steps != [] {
      assert steps[0] in steps && forall x :: x in steps[1..] ==> x in steps;
      QuietStep(s, steps[0]);
      StepKeepsInv(s, steps[0]);
      QuietIsFinal(Apply(s, steps[0]), steps[1..]);
    }
  }

  lemma ActiveGrows(s: State, step: Step)
    requires Shaped(s) && Enabled(s, step) && !step.Release?
    ensures Apply(s, step).active >= s.active
  {
    if step.Cancel? || step.CancelEvery? || step.Handle? {
      TriggerElsewhere(s, step);
    } else {
      hide Shaped, Enabled, FirstEligible, AddEvent, Remove, CancelAll, Report, Clear, Eligible, Taken, RealEvents;
      hide Fire;
    }
  }

  lemma TriggerElsewhere(s: State, step: Step)
    requires Shaped(s) && Enabled(s, step) && (step.Cancel? || step.CancelEvery? || step.Handle?)
    ensures Apply(s, step).active == s.active
  {
    hide Shaped, Clear, Taken, RealEvents, EpollCtl;
    match step
    case Cancel(_, fd, e, refused) => TakenElsewhere(s, fd, Only(e), CancelEvent(s.io, fd, e, refused));
    case CancelEvery(_, fd, refused) => TakenElsewhere(s, fd, Mask(true, true), CancelAll(s.io, fd, refused));
    case Handle(_, fd, reported, broken, refused) =>
      TakenElsewhere(s, fd, RealEvents(s.io.fds[fd].events, reported, broken),
          Report(s.io, fd, reported, broken, refused).value);
  }

  lemma {:induction false} ActiveGrowsRun(s: State, steps: seq<Step>)
    requires Runs(s, steps) && forall x :: x in steps ==> !x.Release?
    ensures After(s, steps).active >= s.active
    decreases |steps|
  {
    hide Shaped, Enabled, Apply;
    if steps != [] {
      assert steps[0] in steps && forall x :: x in steps[1..] ==> x in steps;
      ActiveGrows(s, steps[0]);
      ActiveGrowsRun(Apply(s, steps[0]), steps[1..]);
    }
  }

  /** With no task in hand, the scheduler's own threads arm no timer and register no event. */
  lemma NobodyActs(s: State, step: Step)
    requires Inv(s) && Shaped(s) && Enabled(s, step) && Internal(step)
    requires s.active == 0 && s.timers == map[] && s.collected == map[]
    ensures var s' := Apply(s, step);
      s'.timers == map[] && s'.collected == map[] && (s.io.pending == 0 ==> s'.io.pending == 0)
  {
    NothingInHand(s);
    PendingIsSum(s);
    hide Inv, Registered, FirstEligible, AddEvent, Remove, CancelAll, Callbacks, Clear, Taken, PendingSum, Report;
    hide Shaped;
    match step
    case Collect(_, fired, _) => NothingFires(s, fired);
    case Handle(_, fd, reported, broken, refused) =>
      if s.io.pending == 0 { NothingToReport(s.io, fd, reported, broken, refused); }
      TakenElsewhere(s, fd, RealEvents(s.io.fds[fd].events, reported, broken),
          Report(s.io, fd, reported, broken, refused).value);
    case _ =>
  }

  lemma NothingInHand(s: State)
    requires Inv(s) && s.active == 0
    ensures s.hands == map[]
  {
    hide LogInv, FibersInv, Valid;
  }

  lemma NothingToReport(io: Io, fd: nat, reported: Mask, broken: bool, refused: bool)
    requires fd < |io.fds| && PendingSum(io.fds) == 0
    ensures Report(io, fd, reported, broken, refused) == Some(Reply(io, false, []))
  {
    SumPositive(io.fds, fd);
    hide PendingSum;
  }

  lemma {:induction false} NobodyActsRun(s: State, steps: seq<Step>)
    requires Inv(s) && Runs(s, steps) && forall x :: x in steps ==> Internal(x) && !x.Release?
    requires s.timers == map[] && s.collected == map[] && After(s, steps).active == 0
    ensures var s' := After(s, steps);
      s'.timers == map[] && s'.collected == map[] && (s.io.pending == 0 ==> s'.io.pending == 0)
    decreases |steps|
  {
    assert s.active == |s.hands|;
    hide TasksInv, FibersInv, Valid, LogInv, Enabled, Apply;
    if steps != [] {
      assert steps[0] in steps && forall x :: x in steps[1..] ==> x in steps;
      ActiveGrowsRun(s, steps);
      StepKeepsInv(s, steps[0]);
      NobodyActs(s, steps[0]);
      NobodyActsRun(Apply(s, steps[0]), steps[1..]);
    }
  }

  lemma TriggerStops(s: State, step: Step)
    requires Shaped(s) && Enabled(s, step) && (step.Cancel? || step.CancelEvery? || step.Handle?)
    ensures Apply(s, step).stopping == s.stopping
  {
    hide Shaped, Clear, Taken, RealEvents, EpollCtl;
    match step
    case Cancel(_, fd, e, refused) => TakenElsewhere(s, fd, Only(e), CancelEvent(s.io, fd, e, refused));
    case CancelEvery(_, fd, refused) => TakenElsewhere(s, fd, Mask(true, true), CancelAll(s.io, fd, refused));
    case Handle(_, fd, reported, broken, refused) =>
      TakenElsewhere(s, fd, RealEvents(s.io.fds[fd].events, reported, broken),
          Report(s.io, fd, reported, broken, refused).value);
  }

  /** Only Stop sets the flag, and nothing clears it. */
  lemma StopOnly(s: State, x: Step)
    requires Shaped(s) && Enabled(s, x)
    ensures Apply(s, x).stopping <==> s.stopping || x == Stop
  {
    hide Shaped, Enabled, Apply;
    if x.Cancel? || x.CancelEvery? || x.Handle? {
      TriggerStops(s, x);
    } else if x.Park? || x.Watch? || x.Delete? {
      EventOnly(s, x);
    } else {
      OthersDoNotStop(s, x);
    }
  }

  lemma OthersDoNotStop(s: State, x: Step)
    requires Shaped(s) && Enabled(s, x)
    requires !x.Cancel? && !x.CancelEvery? && !x.Handle? && !x.Park? && !x.Watch? && !x.Delete?
    ensures Apply(s, x).stopping <==> s.stopping || x == Stop
  {
    hide Shaped, FirstEligible, Eligible, Callbacks;
  }

  // ---------- when stopping is over ----------

  /** No idle fiber holds an empty list of callbacks. */
  ghost predicate HoldsCallbacks(collected: map<nat, seq<nat>>) {
    forall t :: t in collected ==> collected[t] != []
  }

  lemma StepHoldsCallbacks(s: State, step: Step)
    requires Shaped(s) && Enabled(s, step) && HoldsCallbacks(s.collected)
    ensures HoldsCallbacks(Apply(s, step).collected)
  {
    hide Shaped, FirstEligible, AddEvent, Remove, CancelAll, Report, Eligible, Taken, RealEvents, Registered, PickAt;
    hide ParkWith, AfterDelete;
    if step.Pick? || step.Park? || step.Delete? || step.Watch? { SameCollected(s, step); }
    match step
    case Cancel(_, fd, e, refused) => CancelHasFd(s.io, fd, e, refused); TakenElsewhere(s, fd, Only(e),
        CancelEvent(s.io, fd, e, refused));
    case CancelEvery(_, fd, refused) =>
      CancelAllHasFd(s.io, fd, refused); TakenElsewhere(s, fd, Mask(true, true), CancelAll(s.io, fd, refused));
    case Handle(_, fd, reported, broken, refused) =>
      TakenElsewhere(s, fd, RealEvents(s.io.fds[fd].events, reported, broken),
          Report(s.io, fd, reported, broken, refused).value);
    case _ =>
  }

  lemma PartsCollected(s: State)
    ensures forall t, i: nat :: i < |s.queue| && s.queue[i].id < |s.places| ==> PickAt(s, t, i).collected == s.collected
    ensures forall t: nat, fd, e, r :: Executes(s, t) && Current(s, t) in s.fibers ==>
      ParkWith(s, t, fd, e, r).collected == s.collected
    ensures forall fd, e, r :: AfterDelete(s, fd, e, r).collected == s.collected
  {
    hide Registered;
  }

  lemma SameCollected(s: State, step: Step)
    requires Shaped(s) && Enabled(s, step) && (step.Pick? || step.Park? || step.Delete? || step.Watch?)
    ensures Apply(s, step).collected == s.collected
  {
    hide FirstEligible, AddEvent, Remove, Eligible, Registered, PickAt, ParkWith, AfterDelete;
    PartsCollected(s);
    if step.Pick? { assert s.queue[FirstEligible(s, step.t, 0)] in s.queue; }
  }

  lemma CancelHasFd(io: Io, fd: nat, e: Event, refused: bool)
    ensures CancelEvent(io, fd, e, refused).ok ==> fd < |io.fds|
  {}

  lemma CancelAllHasFd(io: Io, fd: nat, refused: bool)
    ensures CancelAll(io, fd, refused).ok ==> fd < |io.fds|
  {}

  lemma {:induction false} RunHoldsCallbacks(s: State, steps: seq<Step>)
    requires Runs(s, steps) && HoldsCallbacks(s.collected)
    ensures HoldsCallbacks(After(s, steps).collected)
    decreases |steps|
  {
    hide Shaped, Enabled, Apply;
    if steps != [] {
      StepHoldsCallbacks(s, steps[0]);
      RunHoldsCallbacks(Apply(s, steps[0]), steps[1..]);
    }
  }

  lemma ReachableHoldsCallbacks(s: State)
    requires Reachable(s)
    ensures HoldsCallbacks(s.collected)
  {
    var steps :| Leads(steps, s);
    RunHoldsCallbacks(Init(), steps);
  }

  // ---------- the threads of the scheduler ----------

  /** The step is taken outside the scheduler, or by one of these threads. */
  predicate By(threads: set<nat>, x: Step) {
    x.Post? || x.PostFiber? || x.Stop? || x.t in threads
  }

  /** The state is reached by a scheduler with these threads. */
  ghost predicate ReachableBy(threads: set<nat>, s: State) {
    exists steps :: Leads(steps, s) && forall x :: x in steps ==> By(threads, x)
  }

  /** A thread has a task in hand, holds expired callbacks or is in stopping(), and no two of them. */
  ghost predicate Apart(s: State) {
    s.hands.Keys !! s.checks.Keys && s.hands.Keys !! s.collected.Keys && s.checks.Keys !! s.collected.Keys
  }

  /** A thread that has not seen that no timer is armed. */
  predicate MayExpire(checks: map<nat, Check>, t: nat) { t !in checks }

  /** A thread that has not seen that no event is pending. */
  predicate MayReport(checks: map<nat, Check>, t: nat) { t !in checks || checks[t].NoTimer? }

  /** Of the scheduler's threads, one has not seen that no timer is armed, if one is, and one has not seen
      that no event is pending, if one is: the thread that armed or registered it is still there. */
  ghost predicate Guarded(threads: set<nat>, s: State) {
    && s.collected.Keys <= threads
    && (s.timers != map[] ==> exists t :: t in threads && MayExpire(s.checks, t))
    && (s.io.pending != 0 ==> exists t :: t in threads && MayReport(s.checks, t))
  }

  /** What the guards depend on. */
  predicate SameGuards(s: State, s': State) {
    s'.hands.Keys == s.hands.Keys && s'.collected == s.collected && s'.checks == s.checks && s'.timers == s.timers
  }

  lemma TriggerGuards(s: State, x: Step)
    requires Inv(s) && Shaped(s) && Enabled(s, x) && (x.Cancel? || x.CancelEvery? || x.Handle?)
    ensures SameGuards(s, Apply(s, x)) && (s.io.pending == 0 ==> Apply(s, x).io.pending == 0)
  {
    hide TasksInv, FibersInv, LogInv, Shaped, Taken, PendingSum, Mirrors;
    match x
    case Cancel(_, fd, e, refused) =>
      if s.io.pending == 0 { NothingPending(s.io, fd, e); }
      RemoveCorrect(s.io, fd, e, true, refused);
      CancelHasFd(s.io, fd, e, refused);
      hide CancelEvent, Registered, Valid;
      TakenElsewhere(s, fd, Only(e), CancelEvent(s.io, fd, e, refused));
    case CancelEvery(_, fd, refused) =>
      if s.io.pending == 0 { NothingPending(s.io, fd, Read); NothingPending(s.io, fd, Write); }
      CancelAllCorrect(s.io, fd, refused);
      CancelAllHasFd(s.io, fd, refused);
      hide CancelAll, Registered, Valid;
      TakenElsewhere(s, fd, Mask(true, true), CancelAll(s.io, fd, refused));
    case Handle(_, fd, reported, broken, refused) =>
      if s.io.pending == 0 { NothingToReport(s.io, fd, reported, broken, refused); }
      hide Report, Registered, Valid;
      TakenElsewhere(s, fd, RealEvents(s.io.fds[fd].events, reported, broken),
          Report(s.io, fd, reported, broken, refused).value);
  }

  lemma EventOnly(m: State, x: Step)
    requires Shaped(m) && Enabled(m, x) && (x.Park? || x.Watch? || x.Delete?)
    ensures var m' := Apply(m, x);
      && m' == m.(fibers := m'.fibers, io := m'.io)
      && (x.Park? ==> m'.io == AddEvent(m.io, x.fd, x.e, FiberWork(Current(m, x.t)), x.refused).io)
      && (x.Watch? ==> m'.io == AddEvent(m.io, x.fd, x.e, CbWork(x.cb), x.refused).io)
      && (x.Delete? ==> m'.io == DelEvent(m.io, x.fd, x.e, x.refused).io)
  {
    hide Shaped, AddEvent, Remove, Registered;
    if x.Park? {
      ParkOnly(m, x);
    } else if x.Delete? {
      DeleteOnly(m, x);
    } else {
      hide ParkWith, AfterDelete;
    }
  }

  lemma ParkOnly(m: State, x: Step)
    requires Shaped(m) && Enabled(m, x) && x.Park?
    ensures var m' := Apply(m, x);
      m' == m.(fibers := m'.fibers, io := AddEvent(m.io, x.fd, x.e, FiberWork(Current(m, x.t)), x.refused).io)
  {
    hide Shaped, AddEvent;
  }

  lemma DeleteOnly(m: State, x: Step)
    requires Shaped(m) && Enabled(m, x) && x.Delete?
    ensures var m' := Apply(m, x);
      m' == m.(fibers := m'.fibers, io := DelEvent(m.io, x.fd, x.e, x.refused).io)
  {
    hide Shaped, Remove, Registered;
  }

  lemma EventGuards(s: State, x: Step)
    requires Inv(s) && Shaped(s) && Enabled(s, x) && (x.Park? || x.Watch? || x.Delete?)
    ensures SameGuards(s, Apply(s, x)) && (x.Delete? && s.io.pending == 0 ==> Apply(s, x).io.pending == 0)
  {
    EventOnly(s, x);
    assert Valid(s.io) by { hide LogInv, TasksInv, FibersInv, Valid; }
    hide Inv, Valid, Shaped, Enabled, Apply, Registered, AddEvent;
    if x.Delete? && s.io.pending == 0 {
      NothingPending(s.io, x.fd, x.e);
      RemoveCorrect(s.io, x.fd, x.e, false, x.refused);
    }
    hide Remove;
  }

  lemma PickGuards(s: State, t: nat)
    requires Shaped(s) && Enabled(s, Pick(t)) && Apart(s)
    ensures var s' := Apply(s, Pick(t));
      && Apart(s') && s'.collected == s.collected && s'.checks == s.checks && s'.timers == s.timers && s'.io == s.io
  {
    var i := FirstEligible(s, t, 0);
    assert s.queue[i] in s.queue;
    PickIs(s, t, i);
    hide Shaped, FirstEligible, Eligible, PickAt;
  }

  lemma SliceGuards(s: State, x: Step)
    requires Shaped(s) && Enabled(s, x) && Apart(s) && (x.Resume? || x.Yield? || x.Finish? || x.Release?)
    ensures var s' := Apply(s, x);
      && Apart(s') && s'.collected == s.collected && s'.checks == s.checks && s'.timers == s.timers && s'.io == s.io
  {
    hide Shaped;
  }

  lemma PushGuards(s: State, x: Step)
    requires Shaped(s) && Enabled(s, x) && (x.Post? || x.PostFiber? || x.Schedule? || x.ScheduleFiber? || x.Stop?)
    ensures SameGuards(s, Apply(s, x)) && Apply(s, x).io == s.io
  {
    hide Shaped;
  }

  lemma TimerGuards(s: State, x: Step)
    requires Shaped(s) && Enabled(s, x) && Apart(s) && (x.AddTimer? || x.CancelTimer? || x.Collect? || x.Submit?)
    ensures var s' := Apply(s, x);
      && Apart(s') && s'.hands == s.hands && s'.checks == s.checks && s'.io == s.io
      && (x.AddTimer? ==> x.t !in s.checks) && (!x.AddTimer? && s.timers == map[] ==> s'.timers == map[])
      && s'.collected.Keys <= s.collected.Keys + {x.t}
  {
    hide Shaped, Callbacks;
  }

  lemma CheckGuards(threads: set<nat>, s: State, x: Step)
    requires Shaped(s) && Enabled(s, x) && Apart(s) && Guarded(threads, s)
    requires x.CheckTimers? || x.CheckPending? || x.CheckTasks?
    ensures Apart(Apply(s, x)) && Guarded(threads, Apply(s, x))
  {
    hide Shaped;
    var s' := Apply(s, x);
    assert s'.timers == s.timers && s'.io == s.io && s'.collected == s.collected && s'.hands == s.hands;
    if s.timers != map[] {
      var t :| t in threads && MayExpire(s.checks, t);
      assert MayExpire(s'.checks, t);
    }
    if s.io.pending != 0 {
      var t :| t in threads && MayReport(s.checks, t);
      assert MayReport(s'.checks, t);
    }
  }

  /** A step that keeps the checks keeps the guards, unless it arms or registers something; then its own
      thread is one. */
  lemma StillGuarded(threads: set<nat>, s: State, s': State, t: nat)
    requires Guarded(threads, s) && s'.checks == s.checks && s'.collected.Keys <= threads
    requires (s.timers == map[] && s'.timers != map[]) || (s.io.pending == 0 && s'.io.pending != 0) ==>
      t in threads && t !in s.checks
    ensures Guarded(threads, s')
  {
    if t in threads && t !in s.checks { assert MayExpire(s'.checks, t) && MayReport(s'.checks, t); }
    hide MayExpire, MayReport;
  }

  lemma StepKeepsChecks(s: State, x: Step)
    requires Inv(s) && Shaped(s) && Enabled(s, x) && Apart(s) && !x.CheckTimers? && !x.CheckPending? && !x.CheckTasks?
    ensures var s' := Apply(s, x);
      && Apart(s') && s'.checks == s.checks
      && s'.collected.Keys <= s.collected.Keys + (if x.Collect? || x.Submit? then {x.t} else {})
      && ((s.timers == map[] && s'.timers != map[]) || (s.io.pending == 0 && s'.io.pending != 0) ==>
            (x.Park? || x.Watch? || x.AddTimer?) && x.t !in s.checks)
  {
    if x.Park? || x.Watch? { assert x.t in s.hands; }
    hide Inv, Shaped, Apply, Enabled;
    if x.Cancel? || x.CancelEvery? || x.Handle? {
      TriggerGuards(s, x);
    } else if x.Park? || x.Watch? || x.Delete? {
      EventGuards(s, x);
    } else if x.Pick? {
      PickGuards(s, x.t);
    } else if x.Resume? || x.Yield? || x.Finish? || x.Release? {
      SliceGuards(s, x);
    } else if x.AddTimer? || x.CancelTimer? || x.Collect? || x.Submit? {
      TimerGuards(s, x);
    } else {
      PushGuards(s, x);
    }
  }

  lemma StepKeepsGuards(threads: set<nat>, s: State, x: Step)
    requires Inv(s) && Shaped(s) && Enabled(s, x) && By(threads, x) && Apart(s) && Guarded(threads, s)
    ensures Apart(Apply(s, x)) && Guarded(threads, Apply(s, x))
  {
    hide Inv, Shaped, Apply, Enabled;
    if x.CheckTimers? || x.CheckPending? || x.CheckTasks? {
      CheckGuards(threads, s, x);
    } else {
      StepKeepsChecks(s, x);
      hide Apart;
      StillGuarded(threads, s, Apply(s, x), if x.Park? || x.Watch? || x.AddTimer? then x.t else 0);
    }
  }

  lemma {:induction false} RunKeepsGuards(threads: set<nat>, s: State, steps: seq<Step>)
    requires Inv(s) && Apart(s) && Guarded(threads, s) && Runs(s, steps) && forall x :: x in steps ==> By(threads, x)
    ensures Apart(After(s, steps)) && Guarded(threads, After(s, steps))
    decreases |steps|
  {
    hide Inv, Apart, Guarded, Enabled, Apply, By;
    if steps != [] {
      assert steps[0] in steps && forall x :: x in steps[1..] ==> x in steps;
      StepKeepsInv(s, steps[0]);
      StepKeepsGuards(threads, s, steps[0]);
      RunKeepsGuards(threads, Apply(s, steps[0]), steps[1..]);
    }
  }

  lemma ReachableGuarded(threads: set<nat>, s: State)
    requires ReachableBy(threads, s)
    ensures Reachable(s) && Apart(s) && Guarded(threads, s)
  {
    var steps :| Leads(steps, s) && forall x :: x in steps ==> By(threads, x);
    InitInv();
    hide Inv, By;
    RunKeepsGuards(threads, Init(), steps);
  }

  /** Every run is one of a scheduler with the threads that take its steps. */
  lemma ReachableApart(s: State)
    requires Reachable(s)
    ensures Apart(s)
  {
    var steps :| Leads(steps, s);
    var threads := set x: Step | x in steps && !x.Post? && !x.PostFiber? && !x.Stop? :: x.t;
    assert forall x :: x in steps ==> By(threads, x);
    ReachableGuarded(threads, s);
  }

  lemma ReachableByNext(threads: set<nat>, s: State, x: Step)
    requires ReachableBy(threads, s) && Enabled(s, x) && By(threads, x)
    ensures Shaped(s) && ReachableBy(threads, Apply(s, x))
  {
    hide Inv, Enabled, Apply, By;
    var steps :| Leads(steps, s) && forall x :: x in steps ==> By(threads, x);
    assert Reachable(s);
    ReachableInv(s);
    InvShapes(s);
    RunsOneMore(Init(), steps, x);
    assert Leads(steps + [x], Apply(s, x));
  }

  /** However these threads go on, no task is created any more. */
  ghost predicate IsOver(threads: set<nat>, s: State) {
    forall steps :: Runs(s, steps) && (forall x :: x in steps ==> Internal(x) && By(threads, x)) ==>
      After(s, steps).places == s.places
  }

  lemma OneStep(threads: set<nat>, s: State, x: Step)
    requires Shaped(s) && Enabled(s, x) && Internal(x) && By(threads, x) && Apply(s, x).places != s.places
    ensures !IsOver(threads, s)
  {
    var steps := [x];
    hide Enabled, Apply;
    assert steps[1..] == [] && Runs(Apply(s, x), []);
    assert Runs(s, steps) && After(s, steps) == Apply(s, x);
  }

  lemma TwoSteps(threads: set<nat>, s: State, x: Step, y: Step)
    requires Shaped(s) && Enabled(s, x) && Internal(x) && Internal(y) && By(threads, x) && By(threads, y)
    requires Shaped(Apply(s, x)) && Enabled(Apply(s, x), y) && Apply(Apply(s, x), y).places != s.places
    ensures !IsOver(threads, s)
  {
    var steps := [x, y];
    hide Enabled, Apply;
    assert steps[1..] == [y] && [y][1..] == [] && Runs(Apply(Apply(s, x), y), []);
    assert Runs(Apply(s, x), [y]) && After(Apply(s, x), [y]) == Apply(Apply(s, x), y);
    assert Runs(s, steps) && After(s, steps) == Apply(Apply(s, x), y);
  }

  lemma CallbackGoesOn(threads: set<nat>, s: State, t: nat)
    requires Shaped(s) && t in threads && t in s.collected && s.collected[t] != []
    ensures !IsOver(threads, s)
  {
    hide IsOver, Runs, After;
    assert |Apply(s, Submit(t)).places| == |s.places| + 1;
    OneStep(threads, s, Submit(t));
  }

  /** An idle thread collects the timer. */
  lemma TimerGoesOn(threads: set<nat>, s: State, timer: nat, t: nat)
    requires Shaped(s) && timer in s.timers && t in threads && Idles(s, t)
    ensures !IsOver(threads, s)
  {
    hide IsOver, Runs, After;
    var fired := [timer];
    assert forall x :: x in fired ==> x == timer;
    var x := Collect(t, fired, {});
    var s' := Apply(s, x);
    assert |s'.collected[t]| == 1 && Shaped(s') && s'.places == s.places;
    assert |Apply(s', Submit(t)).places| == |s.places| + 1;
    hide Apply, Enabled, Shaped;
    TwoSteps(threads, s, x, Submit(t));
  }

  lemma {:induction false} SomebodyWaits(fds: seq<FdRecord>) returns (fd: nat)
    requires PendingSum(fds) > 0
    ensures fd < |fds| && fds[fd].events != NONE
    decreases |fds|
  {
    var n := |fds| - 1;
    if fds[n].events != NONE { fd := n; } else { fd := SomebodyWaits(fds[..n]); }
  }

  /** An idle thread gets epoll's report of what is registered on fd. */
  lemma ReportGoesOn(threads: set<nat>, s: State, fd: nat, t: nat)
    requires Inv(s) && Shaped(s) && s.queue == [] && fd < |s.io.fds| && s.io.fds[fd].events != NONE
    requires t in threads && Idles(s, t)
    ensures !IsOver(threads, s)
  {
    var x := Handle(t, fd, s.io.fds[fd].events, false, false);
    assert Valid(s.io);
    HandleWakes(s, x);
    hide Inv, IsOver, Runs, After, Apply, Enabled;
    StepKeepsInv(s, x);
    NothingEnqueued(s);
    FirstEnqueued(Apply(s, x));
    OneStep(threads, s, x);
  }

  /** So does a thread whose read of the pending count has failed. */
  lemma CheckGoesOn(threads: set<nat>, s: State, fd: nat, t: nat)
    requires Inv(s) && Shaped(s) && s.queue == [] && fd < |s.io.fds| && s.io.fds[fd].events != NONE
    requires Apart(s) && s.io.pending != 0 && t in threads && t in s.checks && s.checks[t].NoTimer?
    ensures !IsOver(threads, s)
  {
    var x := CheckPending(t);
    var s' := Apply(s, x);
    assert s' == s.(checks := s.checks - {t}) && Idles(s', t);
    hide Enabled, Inv;
    assert Enabled(s, x);
    StepKeepsInv(s, x);
    hide Apply, Shaped, Apart;
    ReportGoesOn(threads, s', fd, t);
    LaterGoesOn(threads, s, x);
  }

  lemma LaterGoesOn(threads: set<nat>, s: State, x: Step)
    requires Shaped(s) && Enabled(s, x) && Internal(x) && By(threads, x) && Apply(s, x).places == s.places
    requires !IsOver(threads, Apply(s, x))
    ensures !IsOver(threads, s)
  {
    hide Enabled, Apply, Shaped, By, Internal;
    var s' := Apply(s, x);
    var steps :| Runs(s', steps) && (forall y :: y in steps ==> Internal(y) && By(threads, y))
      && After(s', steps).places != s'.places;
    var all := [x] + steps;
    assert all[0] == x && all[1..] == steps;
    assert Runs(s, all) && After(s, all) == After(s', steps);
  }

  lemma ReportsAll(io: Io, fd: nat)
    requires Valid(io) && fd < |io.fds| && io.fds[fd].events != NONE
    ensures var r := Report(io, fd, io.fds[fd].events, false, false); r.Some? && r.value.ok
    ensures Waiters(io.fds[fd], io.fds[fd].events) != []
  {
    ReportCorrect(io, fd, io.fds[fd].events, false, false);
    assert Filled(io.fds[fd]);
    hide PendingSum, Mirrors, Report;
  }

  lemma WaitersQueue(s: State, fd: nat, m: Mask)
    requires fd < |s.io.fds| && Waiters(s.io.fds[fd], m) != []
    ensures FireAll(s, fd, m).queue != []
  {
    hide FireAll, Waiters;
    TriggersQueue(s, fd, m);
  }

  lemma HandleWakes(s: State, x: Step)
    requires Valid(s.io) && Shaped(s) && x.Handle? && x.fd < |s.io.fds| && s.io.fds[x.fd].events != NONE
    requires Idles(s, x.t) && x == Handle(x.t, x.fd, s.io.fds[x.fd].events, false, false)
    ensures Enabled(s, x) && Apply(s, x).queue != []
  {
    hide Valid, Report, FireAll, Waiters, Shaped;
    ReportsAll(s.io, x.fd);
    WaitersQueue(s, x.fd, s.io.fds[x.fd].events);
  }

  lemma FirstEnqueued(s: State)
    requires Inv(s) && s.queue != []
    ensures s.queue[0].id < |s.places| && s.places[s.queue[0].id] == Enqueued
  {
    hide LogInv, FibersInv, Valid;
    assert s.queue[0] in s.queue;
  }

  lemma NothingEnqueued(s: State)
    requires Inv(s) && s.queue == []
    ensures forall id: nat :: id < |s.places| ==> s.places[id] != Enqueued
  {
    hide LogInv, FibersInv, Valid;
    forall id: nat | id < |s.places| ensures s.places[id] != Enqueued { assert !InQueue(s.queue, id); }
  }

  /** When the third read of IOManager::stopping() lets it return true, the scheduler's threads create no
      task any more if and only if at that moment no timer is armed, no event is pending and no idle fiber
      holds an expired callback that it has still to schedule. The first two reads were of earlier moments.
      The threads for which it has returned true are gone. */
  lemma StopsForGood(threads: set<nat>, s: State, t: nat)
    requires ReachableBy(threads, s) && t in threads && Enabled(s, CheckTasks(t)) && Stopping(s)
    ensures Shaped(s) && Apply(s, CheckTasks(t)) == s.(checks := s.checks[t := Exited])
    ensures IsOver(threads, Apply(s, CheckTasks(t))) <==>
      s.timers == map[] && s.io.pending == 0 && s.collected == map[]
  {
    ReachableByNext(threads, s, CheckTasks(t));
    var s' := Apply(s, CheckTasks(t));
    assert s' == s.(checks := s.checks[t := Exited]);
    hide ReachableBy, Enabled, Apply;
    OverExactly(threads, s');
  }

  lemma OverExactly(threads: set<nat>, s: State)
    requires ReachableBy(threads, s) && Stopping(s)
    ensures IsOver(threads, s) <==> s.timers == map[] && s.io.pending == 0 && s.collected == map[]
  {
    ReachableGuarded(threads, s);
    ReachableInv(s);
    InvShapes(s);
    ReachableHoldsCallbacks(s);
    PendingIsSum(s);
    NothingInHand(s);
    hide ReachableBy, Reachable, Inv, Shaped, PendingSum, IsOver;
    if s.collected != map[] {
      var t :| t in s.collected;
      CallbackGoesOn(threads, s, t);
    } else if s.timers != map[] {
      var timer :| timer in s.timers;
      var t :| t in threads && MayExpire(s.checks, t);
      TimerGoesOn(threads, s, timer, t);
    } else if s.io.pending != 0 {
      var fd := SomebodyWaits(s.io.fds);
      var t :| t in threads && MayReport(s.checks, t);
      if t in s.checks { CheckGoesOn(threads, s, fd, t); } else { ReportGoesOn(threads, s, fd, t); }
    } else {
      QuietIsOver(threads, s);
    }
  }

  ghost predicate AllDone(places: seq<Place>) {
    forall id: nat :: id < |places| ==> places[id] == Done
  }

  /** The machine's own answer: a thread leaves the third read as exited exactly when the scheduler was told
      to stop and every task scheduled so far is done. */
  lemma ExitsExactly(s: State, t: nat)
    requires Reachable(s) && Enabled(s, CheckTasks(t))
    ensures Shaped(s)
    ensures var s' := Apply(s, CheckTasks(t));
      (t in s'.checks && s'.checks[t].Exited?) <==> s.stopping && AllDone(s.places)
  {
    ReachableInv(s);
    InvShapes(s);
    hide Inv, Reachable, Shaped;
    if Stopping(s) { StoppingMeansDone(s); }
    if AllDone(s.places) { DoneMeansNothing(s); }
  }

  lemma DoneMeansNothing(s: State)
    requires Inv(s) && AllDone(s.places)
    ensures s.queue == [] && s.active == 0
  {
    hide Inv;
    if s.queue != [] { FirstEnqueued(s); }
    if s.hands != map[] {
      var u :| u in s.hands;
      HeldIsNotDone(s, u);
    }
    NoHandNoActive(s);
  }

  lemma HeldIsNotDone(s: State, u: nat)
    requires Inv(s) && u in s.hands
    ensures s.hands[u].task.id < |s.places| && s.places[s.hands[u].task.id] != Done
  {
    hide LogInv, FibersInv, Valid;
  }

  lemma NoHandNoActive(s: State)
    requires Inv(s)
    ensures s.active == 0 <==> s.hands == map[]
  {
    hide LogInv, FibersInv, Valid;
  }

  /** How a thread gets further in stopping(): one read after the other, each with its own outcome. */
  lemma ChecksAdvance(s: State, x: Step, t: nat)
    requires Inv(s) && Shaped(s) && Enabled(s, x) && Apart(s) && t in Apply(s, x).checks
    ensures var c := Apply(s, x).checks[t];
      || (t in s.checks && c == s.checks[t])
      || (x == CheckTimers(t) && c.NoTimer? && s.timers == map[])
      || (x == CheckPending(t) && c.NoPending? && t in s.checks && s.checks[t].NoTimer? && s.io.pending == 0)
      || (x == CheckTasks(t) && c.Exited? && t in s.checks && s.checks[t].NoPending?)
  {
    if !x.CheckTimers? && !x.CheckPending? && !x.CheckTasks? {
      hide Inv, Shaped, Enabled, Apply;
      StepKeepsChecks(s, x);
    } else {
      hide Inv, Shaped;
    }
  }

  lemma {:induction false} RunsUpTo(s: State, steps: seq<Step>, n: nat)
    requires Runs(s, steps) && n < |steps|
    ensures Runs(s, steps[..n]) && Shaped(After(s, steps[..n])) && Enabled(After(s, steps[..n]), steps[n])
    ensures Runs(s, steps[..n + 1]) && After(s, steps[..n + 1]) == Apply(After(s, steps[..n]), steps[n])
    decreases n
  {
    hide Shaped, Enabled, Apply;
    assert steps[..n + 1][0] == steps[0] && steps[..n + 1][1..] == steps[1..][..n];
    if n > 0 {
      RunsUpTo(Apply(s, steps[0]), steps[1..], n - 1);
      assert steps[..n][1..] == steps[1..][..n - 1];
    } else {
      assert Runs(Apply(s, steps[0]), []);
    }
  }

  /** At position i of the run thread t reads that no timer is armed, at j that nothing is pending, and at k
      that everything is done and the scheduler told to stop. */
  ghost predicate ReadsTimers(steps: seq<Step>, t: nat, i: nat) {
    i < |steps| && steps[i] == CheckTimers(t) && Runs(Init(), steps[..i]) && After(Init(), steps[..i]).timers == map[]
  }

  ghost predicate ReadsPending(steps: seq<Step>, t: nat, j: nat) {
    j < |steps| && steps[j] == CheckPending(t) && Runs(Init(), steps[..j])
        && After(Init(), steps[..j]).io.pending == 0
  }

  ghost predicate ReadsTasks(steps: seq<Step>, t: nat, k: nat) {
    k < |steps| && steps[k] == CheckTasks(t) && Stop in steps[..k]
        && Runs(Init(), steps[..k]) && AllDone(After(Init(), steps[..k]).places)
  }

  ghost predicate ReadAt(steps: seq<Step>, t: nat, i: nat, j: nat, k: nat) {
    i < j < k && ReadsTimers(steps, t, i) && ReadsPending(steps, t, j) && ReadsTasks(steps, t, k)
  }

  /** The reads that have brought a thread to c, all of them before n. */
  ghost predicate Brought(steps: seq<Step>, n: nat, t: nat, c: Check, i: nat, j: nat, k: nat) {
    && i < n && ReadsTimers(steps, t, i)
    && (!c.NoTimer? ==> i < j < n && ReadsPending(steps, t, j))
    && (c.Exited? ==> j < k < n && ReadsTasks(steps, t, k))
  }

  lemma ThirdRead(steps: seq<Step>, n: nat, t: nat)
    requires Runs(Init(), steps) && n < |steps| && steps[n] == CheckTasks(t)
    requires Runs(Init(), steps[..n + 1])
    requires t in After(Init(), steps[..n + 1]).checks && After(Init(), steps[..n + 1]).checks[t].Exited?
    ensures ReadsTasks(steps, t, n)
  {
    RunsUpTo(Init(), steps, n);
    assert Leads(steps[..n], After(Init(), steps[..n]));
    hide Shaped, Enabled, Apply, AllDone, Runs, After;
    ExitsExactly(After(Init(), steps[..n]), t);
    ToldToStop(steps, n);
  }

  /** One step more. */
  lemma BroughtNext(steps: seq<Step>, n: nat, t: nat, i: nat, j: nat, k: nat) returns (i': nat, j': nat, k': nat)
    requires Runs(Init(), steps) && n < |steps| && Runs(Init(), steps[..n]) && Runs(Init(), steps[..n + 1])
    requires var cs := After(Init(), steps[..n]).checks; t in cs ==> Brought(steps, n, t, cs[t], i, j, k)
    requires t in After(Init(), steps[..n + 1]).checks
    ensures Brought(steps, n + 1, t, After(Init(), steps[..n + 1]).checks[t], i', j', k')
  {
    i', j', k' := i, j, k;
    RunsUpTo(Init(), steps, n);
    var s, x := After(Init(), steps[..n]), steps[n];
    assert Leads(steps[..n], s);
    ReachableInv(s);
    ReachableApart(s);
    hide Inv, Shaped, Enabled, Apply, Apart, AllDone, Runs, After, ReadsTasks;
    ChecksAdvance(s, x, t);
    if t !in s.checks || Apply(s, x).checks[t] != s.checks[t] {
      if x.CheckTimers? {
        i' := n;
      } else if x.CheckPending? {
        j' := n;
      } else {
        k' := n;
        ThirdRead(steps, n, t);
      }
    }
  }

  lemma {:induction false} ReadsTraced(steps: seq<Step>, n: nat, t: nat) returns (i: nat, j: nat, k: nat)
    requires Runs(Init(), steps) && n <= |steps|
    ensures Runs(Init(), steps[..n])
    ensures var cs := After(Init(), steps[..n]).checks; t in cs ==> Brought(steps, n, t, cs[t], i, j, k)
    decreases n
  {
    i, j, k := 0, 0, 0;
    if n == 0 {
      assert steps[..0] == [];
    } else {
      RunsUpTo(Init(), steps, n - 1);
      hide Brought, Runs, After, Enabled, Shaped;
      i, j, k := ReadsTraced(steps, n - 1, t);
      if t in After(Init(), steps[..n]).checks { i, j, k := BroughtNext(steps, n - 1, t, i, j, k); }
    }
  }

  lemma {:induction false} ToldToStop(steps: seq<Step>, n: nat)
    requires Runs(Init(), steps) && n <= |steps|
    ensures Runs(Init(), steps[..n]) && (After(Init(), steps[..n]).stopping <==> Stop in steps[..n])
    decreases n
  {
    if n == 0 {
      assert steps[..0] == [];
    } else {
      hide Shaped, Enabled, Apply, Runs, After;
      ToldToStop(steps, n - 1);
      RunsUpTo(Init(), steps, n - 1);
      StopOnly(After(Init(), steps[..n - 1]), steps[n - 1]);
      assert steps[..n] == steps[..n - 1] + [steps[n - 1]];
    }
  }

  /** In every run a thread comes to the exit only by three reads, one after the other, that found no timer,
      nothing pending, and everything scheduled by then done after the scheduler was told to stop. */
  lemma ExitedHasRead(steps: seq<Step>, s: State, t: nat)
    requires Leads(steps, s) && t in s.checks && s.checks[t].Exited?
    ensures exists i: nat, j: nat, k: nat :: ReadAt(steps, t, i, j, k)
  {
    assert steps[..|steps|] == steps;
    hide ReadsTimers, ReadsPending, ReadsTasks, Runs, After;
    var i, j, k := ReadsTraced(steps, |steps|, t);
    assert ReadAt(steps, t, i, j, k);
  }

  lemma PendingIsSum(s: State)
    requires Inv(s)
    ensures s.io.pending == PendingSum(s.io.fds) && 0 <= s.io.pending
  {
    hide LogInv, TasksInv, FibersInv, PendingSum;
  }

  lemma QuietIsOver(threads: set<nat>, s: State)
    requires Inv(s) && Quiet(s) && s.collected == map[]
    ensures IsOver(threads, s)
  {
    hide Inv, Quiet, Runs, After;
    forall steps | Runs(s, steps) && (forall x :: x in steps ==> Internal(x) && By(threads, x))
      ensures After(s, steps).places == s.places
    {
      QuietIsFinal(s, steps);
    }
  }

  /** The condition holds at the third read when the timers and the held callbacks were none at the first,
      the pending count was 0 at the second, and in between no slice ended and nobody outside scheduled. */
  lemma StoppingIsFinal(threads: set<nat>, s: State, before: seq<Step>, after: seq<Step>)
    requires Reachable(s) && s.timers == map[] && s.collected == map[]
    requires Runs(s, before) && After(s, before).io.pending == 0
    requires Runs(After(s, before), after) && Stopping(After(After(s, before), after))
    requires forall x :: x in before + after ==> Internal(x) && !x.Release?
    ensures IsOver(threads, After(After(s, before), after))
  {
    ReachableInv(s);
    RunKeepsInv(s, before);
    var mid := After(s, before);
    RunKeepsInv(mid, after);
    var done := After(mid, after);
    assert forall x :: x in before ==> x in before + after;
    assert forall x :: x in after ==> x in before + after;
    ActiveGrowsRun(mid, after);
    assert mid.active == |mid.hands|;
    hide TasksInv, FibersInv, Valid, LogInv, Enabled, Apply, IsOver;
    NobodyActsRun(s, before);
    NobodyActsRun(mid, after);
    QuietIsOver(threads, done);
  }

  /** The threads of the scheduler in the runs below. */
  const TWO: set<nat> := {0, 1}

  /** One task is running on thread 1, and the scheduler has been told to stop. */
  ghost predicate OneRuns(s: State) {
    && ReachableBy(TWO, s) && s.stopping && s.queue == [] && s.timers == map[] && s.collected == map[]
        && s.io.pending == 0
    && 1 !in s.checks && s.active == 1 && Acts(s, 1) && |s.places| == 1 && s.hands.Keys == {1}
        && s.hands[1].task.id == 0
  }

  lemma OnePosted() returns (s: State)
    ensures ReachableBy(TWO, s) && s == Push(Init(), CbWork(7), None).(stopping := true)
  {
    s := Init();
    assert Leads([], s);
    hide ReachableBy;
    ReachableByNext(TWO, s, Post(7, None));
    s := Apply(s, Post(7, None));
    ReachableByNext(TWO, s, Stop);
    s := Apply(s, Stop);
  }

  lemma OneStarts() returns (s: State)
    ensures OneRuns(s) && s.checks == map[] && Current(s, 1) == 0 && s.fibers.Keys == {0}
  {
    s := OnePosted();
    hide ReachableBy;
    assert Eligible(s, 1, s.queue[0]) && FirstEligible(s, 1, 0) == 0;
    ReachableByNext(TWO, s, Pick(1));
    s := Apply(s, Pick(1));
    ReachableByNext(TWO, s, Resume(1, 0));
    s := Apply(s, Resume(1, 0));
  }

  /** The task arms a timer and ends. */
  lemma ArmsAndEnds(s: State) returns (s': State)
    requires OneRuns(s)
    ensures ReachableBy(TWO, s') && s'.timers == map[3 := 9] && s'.queue == [] && s'.active == 0 && s'.hands == map[]
    ensures s'.io == s.io && s'.checks == s.checks && s'.collected == s.collected && s'.stopping
  {
    hide ReachableBy;
    ReachableByNext(TWO, s, AddTimer(1, 3, 9));
    s' := Apply(s, AddTimer(1, 3, 9));
    s' := SliceEnds(s');
  }

  /** The condition can fail for each of the three reasons it names. Because the three reads are not one,
      stopping() can return true while a timer is armed, when a slice ends in between. */
  lemma StopsWithTimerArmed() returns (s: State)
    ensures ReachableBy(TWO, s) && s.checks == map[0 := Exited] && s.timers != map[]
  {
    s := OneStarts();
    ReachableByNext(TWO, s, CheckTimers(0));
    s := ArmsAndEnds(Apply(s, CheckTimers(0)));
    hide ReachableBy;
    assert 3 in s.timers;
    s := LastChecks(s);
  }

  lemma FirstWatch(s: State, fd: nat)
    requires ReachableBy(TWO, s) && s.io.pending == 0 && fd < 32
    ensures |s.io.fds| >= 32 && !Has(s.io.fds[fd].events, Read)
    ensures AddEvent(s.io, fd, Read, CbWork(9), false).io.pending == 1
  {
    ReachableGuarded(TWO, s);
    ReachableInv(s);
    hide TasksInv, FibersInv, LogInv, PendingSum, AddEvent, Mirrors;
    NothingPending(s.io, fd, Read);
    AddEventCorrect(s.io, fd, Read, CbWork(9), false);
  }

  /** The task registers an event and ends. */
  lemma WatchesAndEnds(s: State) returns (s': State)
    requires OneRuns(s)
    ensures ReachableBy(TWO, s') && s'.io.pending == 1 && s'.queue == [] && s'.active == 0 && s'.hands == map[]
    ensures s'.checks == s.checks && s'.stopping
  {
    hide ReachableBy;
    FirstWatch(s, 5);
    hide AddEvent;
    ReachableByNext(TWO, s, Watch(1, 5, Read, 9, false));
    s' := Apply(s, Watch(1, 5, Read, 9, false));
    s' := SliceEnds(s');
  }

  lemma SliceEnds(s: State) returns (s': State)
    requires ReachableBy(TWO, s) && s.queue == [] && s.active == 1 && Acts(s, 1) && s.hands.Keys == {1}
    ensures ReachableBy(TWO, s') && s'.io == s.io && s'.timers == s.timers && s'.collected == s.collected
    ensures s'.checks == s.checks
    ensures s'.queue == [] && s'.active == 0 && s'.hands == map[] && s'.stopping == s.stopping
  {
    hide ReachableBy;
    ReachableByNext(TWO, s, Finish(1));
    s' := Apply(s, Finish(1));
    ReachableByNext(TWO, s', Release(1));
    s' := Apply(s', Release(1));
  }

  /** Or while an event is registered, when that slice ends after the second read. */
  lemma StopsWithEventPending() returns (s: State)
    ensures ReachableBy(TWO, s) && s.checks == map[0 := Exited] && s.io.pending == 1
  {
    s := OneStarts();
    hide ReachableBy;
    ReachableByNext(TWO, s, CheckTimers(0));
    s := Apply(s, CheckTimers(0));
    ReachableByNext(TWO, s, CheckPending(0));
    s := Apply(s, CheckPending(0));
    s := WatchesAndEnds(s);
    ReachableByNext(TWO, s, CheckTasks(0));
    s := Apply(s, CheckTasks(0));
  }

  /** The three reads of thread 0, one right after the other. */
  lemma ChecksPass(s: State) returns (s': State)
    requires ReachableBy(TWO, s) && s.timers == map[] && s.io.pending == 0 && Stopping(s) && s.hands == map[]
    requires s.checks == map[] && 0 !in s.collected
    ensures ReachableBy(TWO, s') && s' == s.(checks := map[0 := Exited])
  {
    hide ReachableBy;
    ReachableByNext(TWO, s, CheckTimers(0));
    s' := Apply(s, CheckTimers(0));
    assert s' == s.(checks := map[0 := NoTimer]);
    s' := LastChecks(s');
  }

  lemma LastChecks(s: State) returns (s': State)
    requires ReachableBy(TWO, s) && s.io.pending == 0 && Stopping(s) && s.hands == map[]
    requires s.checks == map[0 := NoTimer]
    ensures ReachableBy(TWO, s') && s' == s.(checks := map[0 := Exited])
  {
    hide ReachableBy;
    ReachableByNext(TWO, s, CheckPending(0));
    s' := Apply(s, CheckPending(0));
    assert s' == s.(checks := map[0 := NoPending]);
    ReachableByNext(TWO, s', CheckTasks(0));
    s' := Apply(s', CheckTasks(0));
  }

  /** The idle fiber of thread 1 has taken an expired callback that it is about to schedule. */
  lemma CallbackTaken() returns (s: State)
    ensures ReachableBy(TWO, s) && s.timers == map[] && s.io.pending == 0 && Stopping(s) && s.hands == map[]
    ensures s.checks == map[] && s.collected == map[1 := [9]]
  {
    s := OneStarts();
    s := ArmsAndEnds(s);
    hide ReachableBy;
    assert forall x :: x in [3] ==> x == 3;
    ReachableByNext(TWO, s, Collect(1, [3], {}));
    s := Apply(s, Collect(1, [3], {}));
    assert s.timers == map[] && s.collected[1] == [9];
  }

  /** And stopping() can return true, with no step of another thread in between, while the
      idle fiber of another thread is about to schedule a callback whose timer has expired. */
  lemma StopsBeforeCallback() returns (s: State)
    ensures ReachableBy(TWO, s) && s.checks == map[0 := Exited]
    ensures Enabled(s, Submit(1)) && Shaped(s) && |Apply(s, Submit(1)).places| > |s.places|
  {
    s := CallbackTaken();
    s := ChecksPass(s);
    hide ReachableBy;
    ReachableByNext(TWO, s, Submit(1));
  }
}
