/** When the timer of one turn of do_io can end a later turn, and how it does. */
module LeftoverTimeout {
  import opened Wrappers
  import opened EventSpec
  import opened Runtime
  import opened RuntimeInvariant
  import opened RuntimeProperties
  import opened Hook
  import opened HookRuntime
  import opened OwnTimers

  // ---------- a callback that can no longer come ----------

  /** The timer is not armed, and its callback is nowhere. */
  ghost predicate Gone(s: Sys, b: nat) {
    b in s.armed && b !in s.m.timers && !Loose(s.m, b) && s.cancelled != Some(b)
  }

  lemma StaysGone(c: Call, s: Sys, x: Move, b: nat)
    requires Inv(s.m) && Shaped(s.m) && CanMove(c, s, x) && OwnInv(c, s) && Gone(s, b)
    ensures Gone(Moved(c, s, x), b)
  {
    MoveRecords(c, s, x);
    assert OwnTimer(s, b);
    hide Inv, Shaped, Enabled, Apply, OwnTimer, Clean, OwnInv, Unused, QueuesCallback, ListsCallback, Unwatched;
    var s' := Moved(c, s, x);
    if x.Mark? {
      assert s'.m == s.m;
      assert HoldsCallback(s.m.hands, x.timer);
    } else if x.Other? {
      SparesEach(x.step, s.armed, b);
      StepSpares(s.m, x.step, b);
    } else if StepOf(c, s, x).Some? {
      OwnStepGone(c, s, x, b);
    } else {
      assert s'.m == s.m;
    }
  }

  lemma OwnStepGone(c: Call, s: Sys, x: Move, b: nat)
    requires Inv(s.m) && Shaped(s.m) && CanMove(c, s, x) && !x.Mark? && !x.Other? && StepOf(c, s, x).Some?
    requires Clean(s.m, b) && b !in s.m.timers && !Loose(s.m, b) && (x.Arm? ==> x.timer != b)
    ensures b !in Moved(c, s, x).m.timers && !Loose(Moved(c, s, x).m, b)
  {
    hide Inv, Shaped, Clean, Unused, QueuesCallback, HoldsCallback, ListsCallback;
    if x.Disarm? {
      assert Moved(c, s, x).m == s.m.(timers := s.m.timers - {s.timer});
    } else {
      hide Apply, Enabled, Loose;
      StepSpares(s.m, StepOf(c, s, x).value, b);
    }
  }

  lemma {:induction false} StaysGoneRun(c: Call, s: Sys, xs: seq<Move>, b: nat)
    requires Inv(s.m) && Shaped(s.m) && OwnInv(c, s) && Gone(s, b) && Goes(c, s, xs)
    ensures Gone(Later(c, s, xs), b)
    decreases |xs|
  {
    hide Inv, Shaped, CanMove, Moved, OwnInv, Gone;
    if xs != [] {
      MoveKeepsRuntime(c, s, xs[0]);
      MoveKeepsOwn(c, s, xs[0]);
      StaysGone(c, s, xs[0], b);
      StaysGoneRun(c, Moved(c, s, xs[0]), xs[1..], b);
    }
  }

  // ---------- continuations ----------

  /** A state of a call, and the threads that take the moves from there on. */
  datatype Origin = Origin(c: Call, s: Sys, threads: set<nat>)

  predicate MoveBy(threads: set<nat>, x: Move) {
    (x.Other? ==> By(threads, x.step)) && (x.Mark? ==> x.u in threads)
  }

  ghost predicate Way(o: Origin, xs: seq<Move>, z: Sys) {
    Goes(o.c, o.s, xs) && Later(o.c, o.s, xs) == z && forall x :: x in xs ==> MoveBy(o.threads, x)
  }

  /** The call can get from its origin to this state. */
  ghost predicate From(o: Origin, z: Sys) {
    Occurs(o.c, z) && exists xs :: Way(o, xs, z)
  }

  lemma FromItself(o: Origin)
    requires Occurs(o.c, o.s)
    ensures From(o, o.s)
  {
    assert Way(o, [], o.s);
  }

  lemma FromNext(o: Origin, z: Sys, x: Move)
    requires From(o, z) && CanMove(o.c, z, x) && MoveBy(o.threads, x)
    ensures Shaped(z.m) && From(o, Moved(o.c, z, x))
  {
    OccursNext(o.c, z, x);
    hide Occurs, Inv, Shaped, Goes, Later, CanMove, Moved, MoveBy;
    var xs :| Way(o, xs, z);
    GoesOneMore(o.c, o.s, xs, x);
    assert Way(o, xs + [x], Moved(o.c, z, x));
  }

  /** A step of somebody else. */
  lemma FromOther(o: Origin, s: Sys, step: Step)
    requires From(o, s) && Enabled(s.m, step) && Allowed(o.c, s, step) && By(o.threads, step)
    ensures Shaped(s.m) && From(o, Go(o.c, s, Other(step)).(m := Apply(s.m, step)))
  {
    FromNext(o, s, Other(step));
    hide From, Apply, Enabled, Allowed, Shaped;
  }

  /** A step of a thread of the scheduler that is in no fiber. */
  lemma FromThread(o: Origin, s: Sys, step: Step)
    requires step.Pick? || step.Release? || step.Submit? || step.Handle?
    requires From(o, s) && Enabled(s.m, step) && step.t in o.threads
    ensures Shaped(s.m) && From(o, s.(m := Apply(s.m, step)))
  {
    hide From, Apply, Enabled, Shaped;
    FromOther(o, s, step);
  }

  /** A fiber is resumed. */
  lemma FromResume(o: Origin, s: Sys, t: nat, f: nat)
    requires From(o, s) && Enabled(s.m, Resume(t, f)) && t in o.threads && s.pc == Asleep && o.c.timeout
    ensures Shaped(s.m)
    ensures From(o, s.(pc := if f == o.c.f then Disarming(true) else Asleep, m := Apply(s.m, Resume(t, f))))
  {
    hide From, Apply, Enabled, Shaped;
    FromOther(o, s, Resume(t, f));
  }

  /** The callback cancels the event or ends, or another fiber ends. */
  lemma FromFiber(o: Origin, s: Sys, step: Step)
    requires step.Finish? || (step.Cancel? && step.fd == o.c.fd && step.e == o.c.e)
    requires From(o, s) && Enabled(s.m, step) && step.t in o.threads && Executes(s.m, step.t)
    requires Current(s.m, step.t) != o.c.f && (RunsOwn(s, step.t) ==> s.cancelled.Some?)
    ensures Shaped(s.m) && From(o, s.(m := Apply(s.m, step)))
  {
    hide From, Apply, Enabled, Shaped;
    FromOther(o, s, step);
  }

  /** A step of do_io. */
  lemma FromOwn(o: Origin, s: Sys, x: Move, step: Step)
    requires From(o, s) && IsNext(s.pc, x) && IsRunning(s.m, o.c.f) && StepOf(o.c, s, x) == Some(step)
    requires Enabled(s.m, step) && (x.Arm? ==> x.timer !in s.armed && Unused(s.m, x.timer))
    ensures Shaped(s.m) && From(o, Go(o.c, s, x).(m := Apply(s.m, step), trace := s.trace + [step]))
  {
    hide From, Apply, Enabled, Shaped, IsNext, Unused;
    assert !x.Mark? && !x.Other?;
    FromNext(o, s, x);
  }

  lemma OccursOwn(c: Call, s: Sys)
    requires Occurs(c, s)
    ensures Inv(s.m) && Shaped(s.m) && Apart(s.m) && OwnInv(c, s) && LambdaInv(c, s)
  {
    OccursInv(c, s);
    ReachableApart(s.m);
    var m, t, xs :| Comes(c, m, t, xs, s);
    BeginsOwn(c, m, t);
    hide Inv, Shaped, Apart, OwnInv, LambdaInv, Goes, Later, Begins, Reachable;
    RunKeepsOwn(c, Start(m), xs);
    RunKeepsLambda(c, Start(m), xs);
  }

  // ---------- the turn that is to be ended ----------

  /** The fiber sleeps until its event is reported or cancelled. */
  ghost predicate Sleeps(o: Origin, z: Sys) {
    && From(o, z) && z.pc == Asleep && o.c.timeout
    && o.c.f in z.m.fibers && z.m.fibers[o.c.f].state == Ready && !z.m.fibers[o.c.f].parking
    && Registered(z.m.io.fds, o.c.fd, o.c.e) == Some(FiberWork(o.c.f))
  }

  lemma FromInv(o: Origin, z: Sys)
    requires From(o, z)
    ensures Inv(z.m) && Shaped(z.m) && Apart(z.m) && OwnInv(o.c, z) && LambdaInv(o.c, z)
  {
    OccursOwn(o.c, z);
  }

  lemma Registers(io: Io, fd: nat, e: Event, w: Work)
    requires Valid(io) && Registered(io.fds, fd, e) == None
    ensures |io.fds| >= 32 && (fd < |io.fds| ==> !Has(io.fds[fd].events, e))
    ensures var r := AddEvent(io, fd, e, w, false); r.ok && Registered(r.io.fds, fd, e) == Some(w)
  {
    AddEventCorrect(io, fd, e, w, false);
    hide PendingSum, Mirrors, AddEvent, Registered;
  }

  lemma Parked(m: State, c: Call)
    requires Inv(m) && Shaped(m) && IsRunning(m, c.f) && !m.fibers[c.f].parking
    requires Registered(m.io.fds, c.fd, c.e) == None
    ensures var x := Park(On(m, c.f), c.fd, c.e, false);
      && Enabled(m, x)
      && var m' := Apply(m, x);
      && c.f in m'.fibers && m'.fibers[c.f].state == m.fibers[c.f].state
      && m' == m.(io := m'.io, fibers := m.fibers[c.f := m'.fibers[c.f]])
      && Registered(m'.io.fds, c.fd, c.e) == Some(FiberWork(c.f))
  {
    IoValid(m);
    RunningActs(m, c.f);
    hide Inv, Valid, AddEvent, Registered, Shaped;
    Registers(m.io, c.fd, c.e, FiberWork(c.f));
  }

  lemma YieldedAndReleased(m: State, t: nat)
    requires Shaped(m) && Executes(m, t) && Current(m, t) in m.fibers
    ensures Enabled(m, Yield(t))
    ensures var f, m1 := Current(m, t), Apply(m, Yield(t));
      && Shaped(m1) && Enabled(m1, Release(t))
      && var m2 := Apply(m1, Release(t));
      && f in m2.fibers && m2.fibers[f].state == Ready && !m2.fibers[f].parking
      && m2 == m.(hands := m.hands - {t}, active := m2.active, places := m2.places,
                  fibers := m.fibers[f := m2.fibers[f]])
  {
    var m1 := Apply(m, Yield(t));
    assert m1.hands - {t} == m.hands - {t};
  }

  lemma SleepAndRelease(o: Origin, s: Sys, t: nat) returns (z: Sys)
    requires From(o, s) && s.pc == Yielding && IsRunning(s.m, o.c.f) && On(s.m, o.c.f) == t && Enabled(s.m, Yield(t))
    requires Shaped(s.m) && Shaped(Apply(s.m, Yield(t))) && Enabled(Apply(s.m, Yield(t)), Release(t)) && t in o.threads
    ensures From(o, z) && z == s.(pc := Asleep, m := z.m, trace := z.trace)
    ensures z.m == Apply(Apply(s.m, Yield(t)), Release(t))
  {
    hide From, Apply, Enabled, Shaped;
    FromOwn(o, s, Sleep, Yield(t));
    z := s.(pc := Asleep, m := Apply(s.m, Yield(t)), trace := s.trace + [Yield(t)]);
    FromThread(o, z, Release(t));
    z := z.(m := Apply(z.m, Release(t)));
  }

  lemma Blocks(o: Origin, s: Sys)
    requires From(o, s) && s.pc == Calling && o.c.timeout && IsRunning(s.m, o.c.f)
    ensures From(o, s.(pc := Arming))
  {
    hide From;
    FromNext(o, s, Block);
  }

  lemma AddsTimer(m: State, c: Call, timer: nat)
    requires Inv(m) && Shaped(m) && IsRunning(m, c.f) && !m.fibers[c.f].parking && Unused(m, timer)
    ensures var x := AddTimer(On(m, c.f), timer, timer);
      Enabled(m, x) && Apply(m, x) == m.(timers := m.timers[timer := timer])
  {
    RunningActs(m, c.f);
    hide Inv, Shaped, Loose, Unwatched;
  }

  lemma Arms(o: Origin, s: Sys, timer: nat) returns (z: Sys)
    requires From(o, s) && s.pc == Arming && IsRunning(s.m, o.c.f) && !s.m.fibers[o.c.f].parking
    requires timer !in s.armed && Unused(s.m, timer)
    ensures From(o, z)
    ensures z == s.(pc := Parking, timer := timer, armed := s.armed + {timer}, trace := z.trace,
                    m := s.m.(timers := s.m.timers[timer := timer]))
  {
    FromInv(o, s);
    hide From, Inv, Shaped, Unused, Apart, OwnInv, LambdaInv, Enabled, Apply;
    AddsTimer(s.m, o.c, timer);
    var x := AddTimer(On(s.m, o.c.f), timer, timer);
    FromOwn(o, s, Arm(timer), x);
    z := s.(pc := Parking, timer := timer, armed := s.armed + {timer}, trace := s.trace + [x],
            m := s.m.(timers := s.m.timers[timer := timer]));
  }

  lemma ParksNow(o: Origin, s: Sys) returns (z: Sys)
    requires From(o, s) && s.pc == Parking && IsRunning(s.m, o.c.f) && !s.m.fibers[o.c.f].parking
    requires Registered(s.m.io.fds, o.c.fd, o.c.e) == None
    ensures From(o, z) && z == s.(pc := Yielding, m := z.m, trace := z.trace)
    ensures o.c.f in z.m.fibers && z.m.fibers[o.c.f].state == s.m.fibers[o.c.f].state
    ensures z.m == s.m.(io := z.m.io, fibers := s.m.fibers[o.c.f := z.m.fibers[o.c.f]])
    ensures Registered(z.m.io.fds, o.c.fd, o.c.e) == Some(FiberWork(o.c.f))
  {
    FromInv(o, s);
    hide From, Inv, Shaped, Registered, Apply, Enabled;
    Parked(s.m, o.c);
    var park := Park(On(s.m, o.c.f), o.c.fd, o.c.e, false);
    FromOwn(o, s, TryPark(false), park);
    z := s.(pc := Yielding, m := Apply(s.m, park), trace := s.trace + [park]);
  }

  lemma SleepsNow(o: Origin, s: Sys) returns (z: Sys)
    requires From(o, s) && s.pc == Yielding && IsRunning(s.m, o.c.f) && On(s.m, o.c.f) in o.threads
    ensures From(o, z) && z == s.(pc := Asleep, m := z.m, trace := z.trace)
    ensures o.c.f in z.m.fibers && z.m.fibers[o.c.f].state == Ready && !z.m.fibers[o.c.f].parking
    ensures z.m == s.m.(hands := s.m.hands - {On(s.m, o.c.f)}, active := z.m.active, places := z.m.places,
                        fibers := s.m.fibers[o.c.f := z.m.fibers[o.c.f]])
  {
    FromInv(o, s);
    RunningActs(s.m, o.c.f);
    hide From, Inv, Shaped, Apply, Enabled;
    YieldedAndReleased(s.m, On(s.m, o.c.f));
    z := SleepAndRelease(o, s, On(s.m, o.c.f));
  }

  /** The call would block: a timer is armed, and the fiber parks. */
  lemma GoesToSleep(o: Origin, s: Sys, t: nat) returns (z: Sys)
    requires From(o, s) && s.pc == Calling && o.c.timeout && IsRunning(s.m, o.c.f) && !s.m.fibers[o.c.f].parking
    requires On(s.m, o.c.f) == t && t in o.threads && Registered(s.m.io.fds, o.c.fd, o.c.e) == None
    ensures Sleeps(o, z) && z.timer !in s.armed && z.timer in z.m.timers
    ensures z == s.(pc := Asleep, timer := z.timer, armed := s.armed + {z.timer}, trace := z.trace, m := z.m)
    ensures z.m.queue == s.m.queue && z.m.hands == s.m.hands - {t} && z.m.collected == s.m.collected
    ensures z.m.checks == s.m.checks && z.m.timers == s.m.timers[z.timer := z.timer]
    ensures z.m.fibers.Keys == s.m.fibers.Keys
  {
    hide From, Registered, Unused;
    Blocks(o, s);
    var timer := FreshTimer(s.m, s.armed);
    z := Arms(o, s.(pc := Arming), timer);
    z := ParksNow(o, z);
    z := SleepsNow(o, z);
  }

  // ---------- a thread that runs the queue ----------

  /** The queue without the task at i. */
  function Rest(queue: seq<Task>, i: nat): seq<Task>
    requires i < |queue|
  {
    queue[..i] + queue[i + 1..]
  }

  /** The work at i is for fiber f, or for a new fiber f. */
  predicate IsFor(m: State, i: nat, f: nat)
    requires i < |m.queue|
  {
    if m.queue[i].work.FiberWork? then f == m.queue[i].work.fiber else f !in m.fibers
  }

  lemma PicksFirst(m: State, t: nat)
    requires Inv(m) && Shaped(m) && Idles(m, t) && FirstEligible(m, t, 0) < |m.queue|
    ensures Enabled(m, Pick(t))
    ensures var i, m' := FirstEligible(m, t, 0), Apply(m, Pick(t));
      && m' == m.(queue := Rest(m.queue, i), hands := m.hands[t := Slice(m.queue[i], Picked)],
                  active := m'.active, places := m'.places, fibers := HeldFibers(m.fibers, m.queue[i], t))
      && (m.queue[i].work.FiberWork? ==> m.queue[i].work.fiber in m.fibers)
  {
    var i := FirstEligible(m, t, 0);
    assert m.queue[i] in m.queue;
    if m.queue[i].work.FiberWork? { QueuedHome(m, m.queue[i]); }
    PickIs(m, t, i);
    hide Inv, FirstEligible, Eligible, PickAt, HeldFibers;
  }

  lemma HeldSame(m: State, x: Task, t: nat)
    ensures HeldFibers(m.fibers, x, t).Keys == m.fibers.Keys
    ensures forall g :: g in m.fibers ==>
      var r := HeldFibers(m.fibers, x, t)[g]; r.state == m.fibers[g].state && r.parking == m.fibers[g].parking
  {}

  lemma ResumesPicked(m: State, t: nat, f: nat)
    requires Inv(m) && Shaped(m) && t in m.hands && m.hands[t].phase.Picked?
    requires if m.hands[t].task.work.FiberWork? then f == m.hands[t].task.work.fiber
        && f in m.fibers else f !in m.fibers
    ensures Enabled(m, Resume(t, f))
    ensures var m' := Apply(m, Resume(t, f));
      && Shaped(m')
      && m' == m.(hands := m.hands[t := Slice(m.hands[t].task, Executing(f))], fibers := m.fibers[f := m'.fibers[f]])
      && f in m'.fibers && m'.fibers[f].state == Running(t) && !m'.fibers[f].parking
  {
    if f in m.fibers { ResumesReady(m, t, f); }
    hide Inv;
  }

  /** The first task that thread t may run, on fiber f. */
  lemma TakesFirst(m: State, t: nat, f: nat)
    requires Inv(m) && Shaped(m) && Idles(m, t) && FirstEligible(m, t, 0) < |m.queue|
    requires IsFor(m, FirstEligible(m, t, 0), f)
    ensures Enabled(m, Pick(t))
    ensures var i, m1 := FirstEligible(m, t, 0), Apply(m, Pick(t));
      && Shaped(m1) && Enabled(m1, Resume(t, f)) && (f in m1.fibers ==> f in m.fibers)
      && m1.hands == m.hands[t := Slice(m.queue[i], Picked)]
      && var m2 := Apply(m1, Resume(t, f));
      && m2 == m.(queue := Rest(m.queue, i), hands := m.hands[t := Slice(m.queue[i], Executing(f))],
                  active := m2.active, places := m2.places, fibers := m2.fibers)
      && f in m2.fibers && m2.fibers[f].state == Running(t) && !m2.fibers[f].parking
      && forall g :: g != f && g in m.fibers ==> SameActivity(m, m2, g)
  {
    hide Inv, Shaped, FirstEligible, Enabled, Apply, HeldFibers, Rest;
    var i := FirstEligible(m, t, 0);
    PicksFirst(m, t);
    StepKeepsInv(m, Pick(t));
    HeldSame(m, m.queue[i], t);
    var m1 := Apply(m, Pick(t));
    assert m1.fibers.Keys == m.fibers.Keys;
    ResumesPicked(m1, t, f);
    var m2 := Apply(m1, Resume(t, f));
    assert m2.hands == m.hands[t := Slice(m.queue[i], Executing(f))];
  }

  lemma PickResume(o: Origin, s: Sys, t: nat, f: nat) returns (z: Sys)
    requires From(o, s) && s.pc == Asleep && o.c.timeout && Idles(s.m, t) && t in o.threads && Enabled(s.m, Pick(t))
    requires Shaped(s.m) && Shaped(Apply(s.m, Pick(t))) && Enabled(Apply(s.m, Pick(t)), Resume(t, f))
    ensures From(o, z) && z == s.(pc := if f == o.c.f then Disarming(true) else Asleep, m := z.m)
    ensures z.m == Apply(Apply(s.m, Pick(t)), Resume(t, f))
  {
    hide From, Apply, Enabled, Shaped;
    FromThread(o, s, Pick(t));
    z := s.(m := Apply(s.m, Pick(t)));
    FromResume(o, z, t, f);
    z := z.(pc := if f == o.c.f then Disarming(true) else Asleep, m := Apply(z.m, Resume(t, f)));
  }

  lemma Takes(o: Origin, s: Sys, t: nat) returns (z: Sys, f: nat)
    requires From(o, s) && s.pc == Asleep && o.c.timeout && Idles(s.m, t) && t in o.threads && o.c.f in s.m.fibers
    requires FirstEligible(s.m, t, 0) < |s.m.queue|
    ensures From(o, z) && z == s.(pc := if f == o.c.f then Disarming(true) else Asleep, m := z.m)
    ensures var i := FirstEligible(s.m, t, 0);
      && IsFor(s.m, i, f)
      && z.m == s.m.(queue := Rest(s.m.queue, i), hands := s.m.hands[t := Slice(s.m.queue[i], Executing(f))],
                     active := z.m.active, places := z.m.places, fibers := z.m.fibers)
      && f in z.m.fibers && z.m.fibers[f].state == Running(t) && !z.m.fibers[f].parking
      && (f != o.c.f ==> SameActivity(s.m, z.m, o.c.f))
  {
    FromInv(o, s);
    hide From, Inv, Shaped, Apart, OwnInv, LambdaInv, FirstEligible, Enabled, Apply, Rest;
    var i := FirstEligible(s.m, t, 0);
    f := FreshNumber(s.m.fibers.Keys);
    if s.m.queue[i].work.FiberWork? { f := s.m.queue[i].work.fiber; }
    TakesFirst(s.m, t, f);
    z := PickResume(o, s, t, f);
  }

  lemma FinishedAndReleased(m: State, t: nat)
    requires Shaped(m) && Acts(m, t)
    ensures Enabled(m, Finish(t))
    ensures var f, m1 := Current(m, t), Apply(m, Finish(t));
      && Shaped(m1) && Enabled(m1, Release(t))
      && var m2 := Apply(m1, Release(t));
      && m2 == m.(hands := m.hands - {t}, active := m2.active, places := m2.places, fibers := m2.fibers)
      && forall g :: g != f && g in m.fibers ==> SameActivity(m, m2, g)
  {
    var m1 := Apply(m, Finish(t));
    assert m1.hands - {t} == m.hands - {t};
  }

  lemma FinishRelease(o: Origin, s: Sys, t: nat) returns (z: Sys)
    requires From(o, s) && s.pc == Asleep && t in o.threads && Executes(s.m, t) && Current(s.m, t) != o.c.f
    requires RunsOwn(s, t) ==> s.cancelled.Some?
    requires Enabled(s.m, Finish(t))
    requires Shaped(s.m) && Shaped(Apply(s.m, Finish(t))) && Enabled(Apply(s.m, Finish(t)), Release(t))
    ensures From(o, z) && z == s.(m := Apply(Apply(s.m, Finish(t)), Release(t)))
  {
    hide From, Apply, Enabled, Shaped;
    FromFiber(o, s, Finish(t));
    z := s.(m := Apply(s.m, Finish(t)));
    FromThread(o, z, Release(t));
    z := z.(m := Apply(z.m, Release(t)));
  }

  /** The task on thread t comes to its end. */
  lemma Ends(o: Origin, s: Sys, t: nat) returns (z: Sys)
    requires From(o, s) && s.pc == Asleep && Acts(s.m, t) && t in o.threads && Current(s.m, t) != o.c.f
    requires o.c.f in s.m.fibers && (RunsOwn(s, t) ==> s.cancelled.Some?)
    ensures From(o, z) && z == s.(m := z.m) && SameActivity(s.m, z.m, o.c.f)
    ensures z.m == s.m.(hands := s.m.hands - {t}, active := z.m.active, places := z.m.places, fibers := z.m.fibers)
  {
    FromInv(o, s);
    hide From, Inv, Apart, OwnInv, LambdaInv, Enabled, Apply, Shaped;
    FinishedAndReleased(s.m, t);
    hide Acts;
    z := FinishRelease(o, s, t);
  }

  /** A task that may run is not behind the first one that may. */
  lemma FirstIsBefore(m: State, t: nat, k: nat)
    requires k < |m.queue| && Eligible(m, t, m.queue[k])
    ensures FirstEligible(m, t, 0) <= k
  {
    hide Eligible, FirstEligible;
  }

  lemma RestAt(queue: seq<Task>, i: nat, k: nat)
    requires i < |queue| && k < |queue| && i != k
    ensures var j := if i < k then k - 1 else k;
      j < |Rest(queue, i)| && Rest(queue, i)[j] == queue[k] && |Rest(queue, i)| == |queue| - 1
  {}

  /** A fiber that is registered is not in the queue. */
  lemma NotQueuedToo(m: State, fd: nat, e: Event, f: nat, x: Task)
    requires Inv(m) && Registered(m.io.fds, fd, e) == Some(FiberWork(f)) && x in m.queue
    ensures x.work != FiberWork(f)
  {
    hide TasksInv, LogInv, Valid, Settled, Registered;
  }

  /** A callback of the call at position k of the queue. */
  predicate OwnAt(s: Sys, k: nat) {
    k < |s.m.queue| && s.m.queue[k].work.CbWork? && s.m.queue[k].work.cb in s.armed
  }

  lemma OwnIsEligible(c: Call, s: Sys, t: nat, k: nat)
    requires LambdaInv(c, s) && OwnAt(s, k)
    ensures Eligible(s.m, t, s.m.queue[k])
  {
    assert s.m.queue[k] in s.m.queue;
    hide Acts;
  }

  lemma FirstBeforeOwn(c: Call, s: Sys, t: nat, k: nat)
    requires LambdaInv(c, s) && OwnAt(s, k)
    ensures FirstEligible(s.m, t, 0) <= k
  {
    hide LambdaInv, FirstEligible, Eligible;
    OwnIsEligible(c, s, t, k);
    FirstIsBefore(s.m, t, k);
  }

  /** A callback of the call is running on thread t, which has nothing else to do. */
  ghost predicate AboutToStrike(o: Origin, z: Sys, t: nat) {
    && Sleeps(o, z) && t in o.threads && t !in z.m.checks && t !in z.m.collected
    && RunsOwn(z, t) && Acts(z.m, t) && Current(z.m, t) != o.c.f
  }

  lemma TakesOther(o: Origin, s: Sys, t: nat, i: nat) returns (z: Sys)
    requires Sleeps(o, s) && t in o.threads && Idles(s.m, t) && i == FirstEligible(s.m, t, 0) < |s.m.queue|
    ensures Sleeps(o, z) && z == s.(m := z.m) && Acts(z.m, t) && Current(z.m, t) != o.c.f
    ensures z.m == s.m.(queue := Rest(s.m.queue, i), hands := z.m.hands, active := z.m.active, places := z.m.places,
                        fibers := z.m.fibers)
    ensures z.m.hands == s.m.hands[t := Slice(s.m.queue[i], z.m.hands[t].phase)]
  {
    assert s.m.queue[i].work != FiberWork(o.c.f) by {
      FromInv(o, s);
      hide From, Inv, Shaped, Apart, OwnInv, LambdaInv, FirstEligible, Registered;
      NotQueuedToo(s.m, o.c.fd, o.c.e, o.c.f, s.m.queue[i]);
    }
    hide From, FirstEligible, Registered, Rest;
    var f: nat;
    z, f := Takes(o, s, t);
    assert z.m.hands[t] == Slice(s.m.queue[i], Executing(f));
    assert Acts(z.m, t) && Current(z.m, t) == f;
    hide Acts;
  }

  /** Thread t runs one task, or starts to, when it is a callback of the call. */
  lemma RunsOne(o: Origin, s: Sys, t: nat, i: nat) returns (z: Sys)
    requires Sleeps(o, s) && t in o.threads && Idles(s.m, t) && i == FirstEligible(s.m, t, 0) < |s.m.queue|
    ensures z == s.(m := z.m) && z.m.timers == s.m.timers
    ensures if OwnAt(s, i) then AboutToStrike(o, z, t)
      else Sleeps(o, z) && Idles(z.m, t) && z.m.queue == Rest(s.m.queue, i)
  {
    hide From, FirstEligible, Registered, Rest, Acts;
    z := TakesOther(o, s, t, i);
    if OwnAt(s, i) {
      assert Executes(z.m, t) by { ActsExecutes(z.m, t); }
      hide Sleeps;
    } else {
      z := Ends(o, z, t);
    }
  }

  lemma ActsExecutes(m: State, t: nat)
    requires Acts(m, t)
    ensures Executes(m, t)
  {}

  /** Thread t runs what is queued, up to a callback of the call. */
  lemma {:induction false} RunsToCallback(o: Origin, s: Sys, t: nat, k: nat) returns (z: Sys)
    requires Sleeps(o, s) && t in o.threads && Idles(s.m, t) && OwnAt(s, k)
    ensures AboutToStrike(o, z, t) && z == s.(m := z.m) && z.m.timers == s.m.timers
    decreases |s.m.queue|
  {
    assert LambdaInv(o.c, s) by { FromInv(o, s); }
    hide Sleeps, AboutToStrike, LambdaInv, FirstEligible, Eligible, Rest;
    var i := FirstEligible(s.m, t, 0);
    FirstBeforeOwn(o.c, s, t, k);
    z := RunsOne(o, s, t, i);
    if !OwnAt(s, i) {
      RestAt(s.m.queue, i, k);
      assert OwnAt(z, k - 1);
      z := RunsToCallback(o, z, t, k - 1);
    }
  }

  /** The fiber is queued at position k, for any thread. */
  predicate ReaderAt(c: Call, s: Sys, k: nat) {
    k < |s.m.queue| && s.m.queue[k].work == FiberWork(c.f) && s.m.queue[k].thread == None
      && c.f in s.m.fibers && s.m.fibers[c.f].state == Ready
  }

  /** Thread t runs what is queued, up to the fiber, when `cancelled` is set or nothing is queued before it. */
  lemma {:induction false} RunsToReader(o: Origin, s: Sys, t: nat, k: nat) returns (z: Sys)
    requires From(o, s) && s.pc == Asleep && o.c.timeout && t in o.threads && Idles(s.m, t) && ReaderAt(o.c, s, k)
    requires s.cancelled.Some? || k == 0
    ensures From(o, z) && z == s.(pc := Disarming(true), m := z.m) && z.m.timers == s.m.timers
    ensures z.m.collected == s.m.collected && z.m.io == s.m.io && z.m.hands.Keys <= s.m.hands.Keys + {t}
    ensures IsRunning(z.m, o.c.f) && On(z.m, o.c.f) == t && !z.m.fibers[o.c.f].parking
    decreases |s.m.queue|
  {
    hide From, FirstEligible, Rest;
    var i := FirstEligible(s.m, t, 0);
    FirstIsBefore(s.m, t, k);
    var f: nat;
    z, f := Takes(o, s, t);
    if f != o.c.f {
      RestAt(s.m.queue, i, k);
      assert ReaderAt(o.c, z, k - 1);
      z := Ends(o, z, t);
      z := RunsToReader(o, z, t, k - 1);
    }
  }

  // ---------- the callback strikes ----------

  lemma FiberQueued(m: State, fd: nat, e: Event, f: nat, r: Reply)
    requires Registered(m.io.fds, fd, e) == Some(FiberWork(f)) && f in m.fibers && r.ok && fd < |m.io.fds|
    ensures var m' := Taken(m, fd, Only(e), r);
      && m'.queue == m.queue + [Task(|m.places|, FiberWork(f), None)]
      && m'.hands == m.hands && m'.timers == m.timers && m'.collected == m.collected && m'.checks == m.checks
          && m'.io == r.io
      && SameActivity(m, m', f) && m'.fibers.Keys == m.fibers.Keys
  {
    hide Clear;
  }

  lemma CancelledReply(io: Io, fd: nat, e: Event)
    requires Valid(io) && Registered(io.fds, fd, e).Some?
    ensures fd < |io.fds| && CancelEvent(io, fd, e, false).ok
  {
    RemoveCorrect(io, fd, e, true, false);
    hide Valid, Remove;
  }

  lemma CancelApplies(m: State, u: nat, c: Call)
    requires Inv(m) && Shaped(m) && Acts(m, u) && Registered(m.io.fds, c.fd, c.e).Some?
    ensures c.fd < |m.io.fds|
    ensures var r := CancelEvent(m.io, c.fd, c.e, false); var x := Cancel(u, c.fd, c.e, false);
      r.ok && Enabled(m, x) && Apply(m, x) == Taken(m, c.fd, Only(c.e), r)
  {
    IoValid(m);
    hide Inv, Valid, Taken, Registered, CancelEvent, Only;
    CancelledReply(m.io, c.fd, c.e);
    hide Shaped;
  }

  lemma FiberCancelled(m: State, u: nat, c: Call)
    requires Inv(m) && Shaped(m) && Acts(m, u) && c.f in m.fibers
    requires Registered(m.io.fds, c.fd, c.e) == Some(FiberWork(c.f))
    ensures var x := Cancel(u, c.fd, c.e, false);
      && Enabled(m, x)
      && var m' := Apply(m, x);
      && m'.queue == m.queue + [Task(|m.places|, FiberWork(c.f), None)]
      && m'.hands == m.hands && m'.timers == m.timers && m'.checks == m.checks && m'.collected == m.collected
      && SameActivity(m, m', c.f)
  {
    hide Inv, Shaped, Acts, Taken, SameActivity, Registered, CancelEvent, Only, Apply, Enabled;
    CancelApplies(m, u, c);
    FiberQueued(m, c.fd, c.e, c.f, CancelEvent(m.io, c.fd, c.e, false));
  }

  lemma ReportApplies(m: State, u: nat, c: Call)
    requires Inv(m) && Shaped(m) && Idles(m, u) && Registered(m.io.fds, c.fd, c.e).Some?
    ensures c.fd < |m.io.fds|
    ensures var r := Report(m.io, c.fd, Only(c.e), false, false); var x := Handle(u, c.fd, Only(c.e), false, false);
      && r.Some? && r.value.ok && Registered(r.value.io.fds, c.fd, c.e) == None
      && Enabled(m, x) && Apply(m, x) == Taken(m, c.fd, Only(c.e), r.value)
  {
    IoValid(m);
    hide Inv, Valid, Taken, Registered, Report, Only;
    ReportedReply(m.io, c.fd, c.e);
    hide Shaped;
  }

  lemma FiberReported(m: State, u: nat, c: Call)
    requires Inv(m) && Shaped(m) && Idles(m, u) && c.f in m.fibers
    requires Registered(m.io.fds, c.fd, c.e) == Some(FiberWork(c.f))
    ensures c.fd < |m.io.fds|
    ensures var x := Handle(u, c.fd, Only(c.e), false, false);
      && Enabled(m, x)
      && var m' := Apply(m, x);
      && m'.queue == m.queue + [Task(|m.places|, FiberWork(c.f), None)]
      && m'.hands == m.hands && m'.timers == m.timers && m'.checks == m.checks && m'.collected == m.collected
      && SameActivity(m, m', c.f) && Registered(m'.io.fds, c.fd, c.e) == None
  {
    hide Inv, Shaped, Taken, SameActivity, Registered, Report, Only, Apply, Enabled;
    ReportApplies(m, u, c);
    FiberQueued(m, c.fd, c.e, c.f, Report(m.io, c.fd, Only(c.e), false, false).value);
  }

  lemma ReportedReply(io: Io, fd: nat, e: Event)
    requires Valid(io) && Registered(io.fds, fd, e).Some?
    ensures fd < |io.fds|
    ensures var r := Report(io, fd, Only(e), false, false);
      r.Some? && r.value.ok && Registered(r.value.io.fds, fd, e) == None
  {
    assert Filled(io.fds[fd]) && Has(io.fds[fd].events, e) && Has(Only(e), e);
    ReportCorrect(io, fd, Only(e), false, false);
    hide Valid, Report, Registered;
  }

  /** The fiber is in the queue, and thread t is free to take it. */
  ghost predicate Woken(o: Origin, z: Sys, t: nat) {
    && From(o, z) && z.pc == Asleep && o.c.timeout && t in o.threads && Idles(z.m, t)
    && z.m.queue != [] && ReaderAt(o.c, z, |z.m.queue| - 1)
  }

  lemma FromMark(o: Origin, s: Sys, u: nat)
    requires From(o, s) && s.pc == Asleep && s.cancelled.None? && RunsOwn(s, u) && u in o.threads
    ensures From(o, s.(cancelled := Some(s.m.hands[u].task.work.cb)))
  {
    hide From;
    FromNext(o, s, Mark(u, s.m.hands[u].task.work.cb));
  }

  lemma Marks(o: Origin, s: Sys, u: nat)
    requires AboutToStrike(o, s, u) && s.cancelled.None?
    ensures AboutToStrike(o, s.(cancelled := Some(s.m.hands[u].task.work.cb)), u)
  {
    hide From, Registered, Acts;
    FromMark(o, s, u);
  }

  lemma CancelsEvent(o: Origin, s: Sys, u: nat) returns (z: Sys)
    requires AboutToStrike(o, s, u) && s.cancelled.Some?
    ensures From(o, z) && z == s.(m := z.m) && z.m.hands == s.m.hands && z.m.checks == s.m.checks
    ensures z.m.collected == s.m.collected && z.m.timers == s.m.timers
    ensures z.m.queue != [] && ReaderAt(o.c, z, |z.m.queue| - 1) && RunsOwn(z, u) && Acts(z.m, u)
  {
    assert Inv(s.m) && Shaped(s.m) by { FromInv(o, s); hide From, Inv, Shaped; }
    hide From, Inv, Shaped, Apply, Enabled, Registered, Acts;
    FiberCancelled(s.m, u, o.c);
    var x := Cancel(u, o.c.fd, o.c.e, false);
    FromFiber(o, s, x);
    z := s.(m := Apply(s.m, x));
    assert z.m.queue[|z.m.queue| - 1].work == FiberWork(o.c.f);
    assert RunsOwn(z, u);
    OccursLambda(o, z, u);
  }

  lemma OccursLambda(o: Origin, z: Sys, u: nat)
    requires From(o, z) && RunsOwn(z, u)
    ensures Acts(z.m, u) && Current(z.m, u) != o.c.f
  {
    FromInv(o, z);
    hide From, Inv, Shaped, Apart, OwnInv, Acts;
  }

  /** The callback on thread u sets `cancelled`, cancels the event and ends. */
  lemma StrikesNow(o: Origin, s: Sys, u: nat) returns (z: Sys)
    requires AboutToStrike(o, s, u) && s.cancelled.None?
    ensures Woken(o, z, u) && z == s.(cancelled := Some(s.m.hands[u].task.work.cb), m := z.m)
    ensures z.m.timers == s.m.timers
  {
    Marks(o, s, u);
    z := s.(cancelled := Some(s.m.hands[u].task.work.cb));
    z := CancelsEvent(o, z, u);
    hide From, Acts;
    z := Ends(o, z, u);
  }

  /** epoll reports the event to thread t. */
  lemma ReportsNow(o: Origin, s: Sys, t: nat) returns (z: Sys)
    requires Sleeps(o, s) && Idles(s.m, t) && t in o.threads
    ensures Woken(o, z, t) && z == s.(m := z.m) && z.m.timers == s.m.timers && z.m.collected == s.m.collected
    ensures |z.m.queue| == |s.m.queue| + 1 && z.m.hands == s.m.hands && z.m.checks == s.m.checks
    ensures Registered(z.m.io.fds, o.c.fd, o.c.e) == None
  {
    assert Inv(s.m) && Shaped(s.m) by { FromInv(o, s); hide From, Inv, Shaped; }
    hide From, Inv, Shaped, Apply, Enabled, Registered;
    FiberReported(s.m, t, o.c);
    var x := Handle(t, o.c.fd, Only(o.c.e), false, false);
    FromThread(o, s, x);
    z := s.(m := Apply(s.m, x));
    assert z.m.queue[|z.m.queue| - 1].work == FiberWork(o.c.f);
  }

  /** The fiber disarms the timer of its turn, finds `cancelled` set and gives up. */
  lemma GivesUp(o: Origin, s: Sys) returns (z: Sys)
    requires From(o, s) && s.pc == Disarming(true) && s.cancelled.Some? && IsRunning(s.m, o.c.f)
    requires !s.m.fibers[o.c.f].parking && s.timer in s.m.timers
    ensures From(o, z) && z.pc == Ended(TimedOut)
    ensures z.timer == s.timer && z.late == s.late && z.cancelled == s.cancelled
  {
    z := Disarms(o, s);
    hide From;
    z := FromDecide(o, z);
  }

  lemma CancelsTimer(m: State, f: nat, timer: nat)
    requires Inv(m) && Shaped(m) && IsRunning(m, f) && !m.fibers[f].parking
    ensures var x := CancelTimer(On(m, f), timer);
      Enabled(m, x) && Apply(m, x) == m.(timers := m.timers - {timer})
  {
    RunningActs(m, f);
    hide Inv, Shaped;
  }

  lemma FromDecide(o: Origin, s: Sys) returns (z: Sys)
    requires From(o, s) && s.pc == Deciding && IsRunning(s.m, o.c.f)
    ensures From(o, z) && z == s.(pc := if s.cancelled.Some? then Ended(TimedOut) else Calling, world := z.world)
    ensures z.world == s.world + [WouldBlock(s.timer, false, On(s.m, o.c.f), s.cancelled.Some?)]
  {
    hide From, Shaped, Apply, Enabled;
    FromNext(o, s, Decide);
    z := Go(o.c, s, Decide);
  }

  lemma FromDisarm(o: Origin, s: Sys)
    requires From(o, s) && s.pc == Disarming(true) && IsRunning(s.m, o.c.f)
    requires Enabled(s.m, CancelTimer(On(s.m, o.c.f), s.timer))
    ensures Shaped(s.m)
    ensures var x := CancelTimer(On(s.m, o.c.f), s.timer);
      From(o, s.(pc := Deciding, m := Apply(s.m, x), trace := s.trace + [x],
                 late := if s.timer in s.m.timers then s.late else s.late + {s.timer}))
  {
    hide From, Shaped, Apply, Enabled;
    FromOwn(o, s, Disarm, CancelTimer(On(s.m, o.c.f), s.timer));
  }

  lemma Disarms(o: Origin, s: Sys) returns (z: Sys)
    requires From(o, s) && s.pc == Disarming(true) && IsRunning(s.m, o.c.f) && !s.m.fibers[o.c.f].parking
    ensures From(o, z) && z == s.(pc := Deciding, m := z.m, trace := z.trace,
                                  late := if s.timer in s.m.timers then s.late else s.late + {s.timer})
    ensures z.m == s.m.(timers := s.m.timers - {s.timer})
  {
    assert Inv(s.m) && Shaped(s.m) by { FromInv(o, s); hide From, Inv, Shaped; }
    hide From, Inv, Shaped, Apply, Enabled;
    CancelsTimer(s.m, o.c.f, s.timer);
    FromDisarm(o, s);
    var x := CancelTimer(On(s.m, o.c.f), s.timer);
    z := s.(pc := Deciding, m := Apply(s.m, x), trace := s.trace + [x],
            late := if s.timer in s.m.timers then s.late else s.late + {s.timer});
  }

  /** The idle fiber of u schedules the callbacks that it holds, up to one of the call. */
  lemma {:induction false} Submits(o: Origin, s: Sys, u: nat, n: nat) returns (z: Sys, k: nat)
    requires Sleeps(o, s) && u in o.threads && u in s.m.collected && n < |s.m.collected[u]|
    requires s.m.collected[u][n] in s.armed
    ensures Sleeps(o, z) && z == s.(m := z.m) && OwnAt(z, k) && z.m.timers == s.m.timers && z.m.hands == s.m.hands
    ensures z.m.checks == s.m.checks && z.m.collected.Keys <= s.m.collected.Keys
    decreases n
  {
    z := SubmitsOne(o, s, u);
    k := |s.m.queue|;
    if n > 0 { z, k := Submits(o, z, u, n - 1); }
  }

  lemma SubmitsOne(o: Origin, s: Sys, u: nat) returns (z: Sys)
    requires Sleeps(o, s) && u in o.threads && u in s.m.collected && s.m.collected[u] != []
    ensures Sleeps(o, z) && z == s.(m := z.m) && z.m.timers == s.m.timers && z.m.hands == s.m.hands
    ensures z.m.checks == s.m.checks && z.m.collected.Keys <= s.m.collected.Keys
    ensures var cbs := s.m.collected[u];
      && z.m.queue == s.m.queue + [Task(|s.m.places|, CbWork(cbs[0]), None)]
      && (|cbs| > 1 ==> u in z.m.collected && z.m.collected[u] == cbs[1..])
  {
    hide From, Registered, Shaped;
    FromThread(o, s, Submit(u));
    z := s.(m := Apply(s.m, Submit(u)));
  }

  lemma ResumesNew(o: Origin, s: Sys, u: nat) returns (z: Sys, f: nat)
    requires From(o, s) && s.pc == Asleep && o.c.timeout && o.c.f in s.m.fibers && u in o.threads
    requires u in s.m.hands && s.m.hands[u].phase.Picked? && s.m.hands[u].task.work.CbWork?
    ensures From(o, z) && z == s.(m := z.m) && f !in s.m.fibers && f in z.m.fibers && !z.m.fibers[f].parking
    ensures z.m == s.m.(hands := s.m.hands[u := Slice(s.m.hands[u].task, Executing(f))],
                        fibers := s.m.fibers[f := z.m.fibers[f]])
  {
    assert Inv(s.m) && Shaped(s.m) by { FromInv(o, s); hide From, Inv, Shaped; }
    hide From, Shaped, Inv, Apply, Enabled;
    f := FreshNumber(s.m.fibers.Keys);
    ResumesPicked(s.m, u, f);
    FromResume(o, s, u, f);
    z := s.(m := Apply(s.m, Resume(u, f)));
  }

  lemma ResumesCallback(o: Origin, s: Sys, u: nat) returns (z: Sys)
    requires Sleeps(o, s) && u in o.threads && u in s.m.hands && s.m.hands[u].phase.Picked?
    requires s.m.hands[u].task.work.CbWork? && s.m.hands[u].task.work.cb in s.armed
    ensures AboutToStrike(o, z, u) && z == s.(m := z.m) && z.m.timers == s.m.timers
  {
    assert u !in s.m.checks && u !in s.m.collected by { FromInv(o, s); hide From, Inv, Shaped, OwnInv, LambdaInv; }
    hide From, Registered;
    var f: nat;
    z, f := ResumesNew(o, s, u);
    assert Acts(z.m, u) && Current(z.m, u) == f;
    hide Acts;
  }

  lemma StartsHeld(o: Origin, s: Sys, b: nat) returns (z: Sys, u: nat)
    requires Sleeps(o, s) && b in s.armed && HoldsCallback(s.m.hands, b) && s.m.hands.Keys <= o.threads
    ensures AboutToStrike(o, z, u) && z == s.(m := z.m) && z.m.timers == s.m.timers
  {
    u :| u in s.m.hands && s.m.hands[u].task.work == CbWork(b) && !s.m.hands[u].phase.Returned?;
    if s.m.hands[u].phase.Picked? {
      hide Sleeps, AboutToStrike;
      z := ResumesCallback(o, s, u);
    } else {
      assert u !in s.m.checks && u !in s.m.collected by { FromInv(o, s); hide From, Inv, Shaped, OwnInv, LambdaInv; }
      hide From, Registered, Acts;
      OccursLambda(o, s, u);
      z := s;
    }
  }

  /** A callback that is still to run comes to run, while the fiber sleeps. */
  lemma StartsCallback(o: Origin, s: Sys, t: nat, b: nat) returns (z: Sys, u: nat)
    requires Sleeps(o, s) && t in o.threads && Idles(s.m, t) && b in s.armed && Loose(s.m, b)
    requires s.m.hands.Keys + s.m.collected.Keys <= o.threads
    ensures AboutToStrike(o, z, u) && z == s.(m := z.m) && z.m.timers == s.m.timers
  {
    hide Sleeps, AboutToStrike, HoldsCallback, QueuesCallback, ListsCallback;
    u := t;
    if HoldsCallback(s.m.hands, b) {
      z, u := StartsHeld(o, s, b);
    } else if QueuesCallback(s.m.queue, b) {
      z := StartsQueued(o, s, t, b);
    } else {
      z := StartsListed(o, s, t, b);
    }
  }

  lemma StartsQueued(o: Origin, s: Sys, t: nat, b: nat) returns (z: Sys)
    requires Sleeps(o, s) && t in o.threads && Idles(s.m, t) && b in s.armed && QueuesCallback(s.m.queue, b)
    ensures AboutToStrike(o, z, t) && z == s.(m := z.m) && z.m.timers == s.m.timers
  {
    hide Sleeps, AboutToStrike;
    var x :| x in s.m.queue && x.work == CbWork(b);
    var k :| 0 <= k < |s.m.queue| && s.m.queue[k] == x;
    z := RunsToCallback(o, s, t, k);
  }

  lemma StartsListed(o: Origin, s: Sys, t: nat, b: nat) returns (z: Sys)
    requires Sleeps(o, s) && t in o.threads && Idles(s.m, t) && b in s.armed && ListsCallback(s.m.collected, b)
    requires s.m.collected.Keys <= o.threads
    ensures AboutToStrike(o, z, t) && z == s.(m := z.m) && z.m.timers == s.m.timers
  {
    hide Sleeps, AboutToStrike;
    var v :| v in s.m.collected && b in s.m.collected[v];
    var n :| 0 <= n < |s.m.collected[v]| && s.m.collected[v][n] == b;
    var k: nat;
    z, k := Submits(o, s, v, n);
    z := RunsToCallback(o, z, t, k);
  }

  lemma StillLoose(c: Call, s: Sys, m: State, t: nat, b: nat)
    requires LambdaInv(c, s) && Executes(s.m, t) && Current(s.m, t) == c.f && b in s.armed && Loose(s.m, b)
    requires m.queue == s.m.queue && m.hands == s.m.hands - {t} && m.collected == s.m.collected
    ensures Loose(m, b)
  {
    if HoldsCallback(s.m.hands, b) {
      var u :| u in s.m.hands && s.m.hands[u].task.work == CbWork(b) && !s.m.hands[u].phase.Returned?;
      assert u == t ==> RunsOwn(s, t);
      assert u in m.hands;
    }
  }

  // ---------- exactly when ----------

  /** A run from the origin ends the call as timed out, by a timer armed before the origin and in a turn that
      has armed another. */
  ghost predicate EndedByEarlier(o: Origin, z: Sys) {
    && From(o, z) && z.pc == Ended(TimedOut) && z.timer !in o.s.armed
    && z.cancelled.Some? && z.cancelled.value in o.s.armed
  }

  /** The callback of an earlier timer is still to run, and so it does in the next turn: the turn's own timer
      is armed, and still is when the fiber cancels it. */
  lemma EarlierStrikes(o: Origin) returns (z: Sys)
    requires Occurs(o.c, o.s) && o.s.pc == Calling && Registered(o.s.m.io.fds, o.c.fd, o.c.e) == None
    requires o.s.m.hands.Keys + o.s.m.collected.Keys <= o.threads
    requires o.s.cancelled.Some? || exists b :: b in o.s.armed && Loose(o.s.m, b)
    ensures EndedByEarlier(o, z) && z.late == o.s.late
  {
    FromItself(o);
    FromInv(o, o.s);
    CallingRuns(o.c, o.s);
    hide From, Inv, Shaped, Registered, Loose, LambdaInv, Sleeps, Woken;
    var t := On(o.s.m, o.c.f);
    RunningActs(o.s.m, o.c.f);
    assert o.c.timeout;
    hide OwnInv;
    z := GoesToSleep(o, o.s, t);
    var u: nat;
    z, u := IsWoken(o, z, t);
    z := EndsTimedOut(o, z, u);
  }

  /** The fiber is asleep in its next turn. */
  ghost predicate NextTurn(o: Origin, z: Sys, t: nat) {
    && From(o, o.s) && From(o, z) && Sleeps(o, z) && Executes(o.s.m, t) && Current(o.s.m, t) == o.c.f
    && z.armed == o.s.armed + {z.timer} && z.timer !in o.s.armed && z.timer in z.m.timers
        && z.cancelled == o.s.cancelled
    && z.m.queue == o.s.m.queue && z.m.hands == o.s.m.hands - {t} && z.m.collected == o.s.m.collected
  }

  /** It is woken because `cancelled` was set in an earlier turn, or because an earlier callback sets it now. */
  lemma IsWoken(o: Origin, s: Sys, t: nat) returns (z: Sys, u: nat)
    requires NextTurn(o, s, t) && t in o.threads && Idles(s.m, t)
    requires o.s.m.hands.Keys + o.s.m.collected.Keys <= o.threads
    requires o.s.cancelled.Some? ==> o.s.cancelled.value in o.s.armed
    requires o.s.cancelled.Some? || exists b :: b in o.s.armed && Loose(o.s.m, b)
    ensures Woken(o, z, u) && z == s.(m := z.m, cancelled := z.cancelled) && z.m.timers == s.m.timers
    ensures z.cancelled.Some? && z.cancelled.value in o.s.armed
  {
    hide From, Registered, Loose, Sleeps, Woken;
    if o.s.cancelled.Some? {
      u := t;
      z := ReportsNow(o, s, t);
    } else {
      var b :| b in o.s.armed && Loose(o.s.m, b);
      assert LambdaInv(o.c, o.s) by { FromInv(o, o.s); }
      hide LambdaInv;
      StillLoose(o.c, o.s, s.m, t, b);
      z, u := StartsCallback(o, s, t, b);
      NotThePresent(o, z, u);
      hide AboutToStrike;
      z := StrikesNow(o, z, u);
    }
  }

  lemma EndsTimedOut(o: Origin, s: Sys, u: nat) returns (z: Sys)
    requires Woken(o, s, u) && s.cancelled.Some? && s.timer in s.m.timers
    ensures From(o, z) && z.pc == Ended(TimedOut)
    ensures z.timer == s.timer && z.late == s.late && z.cancelled == s.cancelled
  {
    hide From;
    z := RunsToReader(o, s, u, |s.m.queue| - 1);
    z := GivesUp(o, z);
  }

  lemma CallingRuns(c: Call, s: Sys)
    requires Occurs(c, s) && s.pc == Calling
    ensures IsRunning(s.m, c.f) && !s.m.fibers[c.f].parking
  {
    OccursInStep(c, s);
    hide Occurs, Inv, Shaped, Explained, ThreadAt;
  }

  /** The callback that strikes is not that of an armed timer. */
  lemma NotThePresent(o: Origin, z: Sys, u: nat)
    requires AboutToStrike(o, z, u)
    ensures RunsOwn(z, u) && z.m.hands[u].task.work.cb !in z.m.timers
  {
    FromInv(o, z);
    var b := z.m.hands[u].task.work.cb;
    assert HoldsCallback(z.m.hands, b);
    assert OwnTimer(z, b);
    hide From, Inv, Shaped, LambdaInv, Registered, Clean, QueuesCallback, ListsCallback, HoldsCallback;
  }

  lemma OnlyIfLoose(o: Origin, z: Sys)
    requires Occurs(o.c, o.s) && o.s.pc == Calling && EndedByEarlier(o, z)
    ensures o.s.cancelled.Some? || Loose(o.s.m, z.cancelled.value)
  {
    OccursOwn(o.c, o.s);
    var b := z.cancelled.value;
    var xs :| Way(o, xs, z);
    assert OwnTimer(o.s, b);
    hide Occurs, Inv, Shaped, Clean, Loose, OwnInv, LambdaInv, Goes, Later, MoveBy;
    if o.s.cancelled.None? && !Loose(o.s.m, b) { StaysGoneRun(o.c, o.s, xs, b); }
  }

  /** When do_io is about to call the original function, a timer of an earlier turn can end it as timed out in
      a later turn if and only if `cancelled` is set already, or the callback of one is still to run. Such a
      timer was not armed any more when its turn cancelled it. addEvent asserts that nobody else is registered
      for the event; the threads that have something in hand are enough for the steps. */
  lemma EarlierTimerExactly(c: Call, s: Sys, threads: set<nat>)
    requires Occurs(c, s) && s.pc == Calling && Registered(s.m.io.fds, c.fd, c.e) == None
    requires s.m.hands.Keys + s.m.collected.Keys <= threads
    ensures (exists z :: EndedByEarlier(Origin(c, s, threads), z)) <==>
      s.cancelled.Some? || exists b :: b in s.armed && Loose(s.m, b)
    ensures forall b :: b in s.armed && Loose(s.m, b) ==> b in s.late
  {
    var o := Origin(c, s, threads);
    OccursOwn(c, s);
    hide Occurs, Inv, Shaped, Clean, Loose, LambdaInv, From, Registered;
    assert forall b :: b in s.armed && Loose(s.m, b) ==> b in s.late;
    hide OwnInv;
    if s.cancelled.Some? || exists b :: b in s.armed && Loose(s.m, b) {
      var z := EarlierStrikes(o);
    }
    if z :| EndedByEarlier(o, z) { OnlyIfLoose(o, z); }
  }

  // ---------- it happens ----------

  /** Fiber 0 reads from descriptor 5, with a timeout. */
  const READS := Call(0, 5, Read, true)

  lemma Begin() returns (s: Sys)
    ensures Occurs(READS, s) && s == Start(s.m) && s.m.queue == [] && s.m.timers == map[] && s.m.collected == map[]
    ensures s.m.checks == map[] && s.m.hands.Keys == {1} && IsRunning(s.m, 0) && On(s.m, 0) == 1
    ensures !s.m.fibers[0].parking && Registered(s.m.io.fds, 5, Read) == None
  {
    var m := OneStarts();
    ReachableGuarded(TWO, m);
    ReachableInv(m);
    NothingPending(m.io, 5, Read);
    ActingFiber(m, 1);
    s := Start(m);
    hide Inv, Reachable, ReachableBy, Apart, Guarded;
    assert Comes(READS, m, 1, [], s);
  }

  lemma CollectsTimer(m: State, u: nat, timer: nat)
    requires Shaped(m) && Idles(m, u) && m.timers == map[timer := timer] && m.collected == map[]
    ensures Enabled(m, Collect(u, [timer], {}))
    ensures Apply(m, Collect(u, [timer], {})) == m.(timers := map[], collected := map[u := [timer]])
  {
    assert forall n :: n in [timer] ==> n == timer;
    var m' := Apply(m, Collect(u, [timer], {}));
    assert m'.timers == map[] && Callbacks(m.timers, [timer]) == [timer];
    hide Shaped;
  }

  lemma FromCollect(o: Origin, s: Sys, u: nat, timer: nat) returns (z: Sys)
    requires From(o, s) && Enabled(s.m, Collect(u, [timer], {})) && u in o.threads
    ensures Shaped(s.m) && From(o, z) && z == s.(m := Apply(s.m, Collect(u, [timer], {})), expired := z.expired)
  {
    var x := Collect(u, [timer], {});
    hide From, Shaped, Apply, Enabled;
    FromOther(o, s, x);
    z := Go(o.c, s, Other(x)).(m := Apply(s.m, x));
  }

  lemma Expired(o: Origin, s: Sys, u: nat) returns (z: Sys)
    requires Sleeps(o, s) && Idles(s.m, u) && u in o.threads && s.m.timers == map[s.timer := s.timer]
    requires s.m.collected == map[]
    ensures Sleeps(o, z) && z == s.(m := s.m.(timers := map[], collected := map[u := [s.timer]]), expired := z.expired)
  {
    assert Shaped(s.m) by { FromInv(o, s); hide From, Shaped; }
    hide From, Shaped, Registered, Apply, Enabled;
    CollectsTimer(s.m, u, s.timer);
    z := FromCollect(o, s, u, s.timer);
  }

  /** The fiber finds `cancelled` clear, and tries again. */
  lemma TriesAgain(o: Origin, s: Sys) returns (z: Sys)
    requires From(o, s) && s.pc == Disarming(true) && s.cancelled.None? && IsRunning(s.m, o.c.f)
    requires !s.m.fibers[o.c.f].parking
    ensures From(o, z) && z == s.(pc := Calling, m := z.m, trace := z.trace, late := z.late, world := z.world)
    ensures z.m == s.m.(timers := s.m.timers - {s.timer})
    ensures z.world == s.world + [WouldBlock(s.timer, false, On(s.m, o.c.f), false)]
  {
    z := Disarms(o, s);
    hide From;
    z := FromDecide(o, z);
  }

  /** The first turn: its timer expires and epoll reports the event, both before the fiber is resumed; the
      callback is still to be scheduled when the fiber goes on. */
  lemma FirstTurn(o: Origin) returns (s: Sys)
    requires o.c == READS && o.threads == {1, 2} && Occurs(READS, o.s) && o.s == Start(o.s.m) && o.s.m.queue == []
    requires o.s.m.timers == map[] && o.s.m.collected == map[] && o.s.m.checks == map[] && o.s.m.hands.Keys == {1}
    requires IsRunning(o.s.m, 0) && On(o.s.m, 0) == 1 && !o.s.m.fibers[0].parking
    requires Registered(o.s.m.io.fds, 5, Read) == None
    ensures Woken(o, s, 1) && |s.m.queue| == 1 && s.cancelled.None? && s.world == [] && s.armed == {s.timer}
    ensures s.m.hands == map[] && s.m.collected == map[2 := [s.timer]] && Registered(s.m.io.fds, 5, Read) == None
  {
    FromItself(o);
    hide From, Registered;
    s := GoesToSleep(o, o.s, 1);
    assert s.m.hands.Keys == {} && s.m.hands == map[];
    assert Idles(s.m, 1) && Idles(s.m, 2) && s.m.timers == map[s.timer := s.timer];
    s := Expired(o, s, 2);
    hide Sleeps;
    s := ReportsNow(o, s, 1);
  }

  lemma ListedIsLoose(m: State, u: nat, b: nat)
    requires u in m.collected && b in m.collected[u]
    ensures Loose(m, b)
  {
    assert ListsCallback(m.collected, b);
  }

  /** The fiber wakes up and goes on. */
  lemma SecondTry(o: Origin, s: Sys) returns (z: Sys)
    requires o.c == READS && Woken(o, s, 1) && |s.m.queue| == 1 && s.cancelled.None?
    requires s.m.hands == map[] && Registered(s.m.io.fds, 5, Read) == None
    ensures From(o, z) && z.pc == Calling && z.cancelled.None? && z.armed == s.armed
    ensures z.world == s.world + [WouldBlock(s.timer, false, 1, false)]
    ensures z.m.hands.Keys <= {1} && z.m.collected == s.m.collected && Registered(z.m.io.fds, 5, Read) == None
  {
    hide From, Registered;
    z := RunsToReader(o, s, 1, 0);
    z := TriesAgain(o, z);
  }

  lemma FirstTurnEnds() returns (s: Sys, timer: nat)
    ensures Occurs(READS, s) && s.pc == Calling && s.cancelled.None?
    ensures s.world == [WouldBlock(timer, false, 1, false)] && s.armed == {timer} && Loose(s.m, timer)
    ensures s.m.hands.Keys <= {1} && s.m.collected.Keys <= {2} && Registered(s.m.io.fds, 5, Read) == None
  {
    s := Begin();
    var o := Origin(READS, s, {1, 2});
    hide From, Registered, Occurs, Loose, Woken;
    var first := FirstTurn(o);
    timer := first.timer;
    s := SecondTry(o, first);
    ListedIsLoose(s.m, 2, timer);
    OccursFrom(o, s);
  }

  /** A turn that epoll's report has ended leaves the callback of its timer behind, and the call ends as
      timed out in a later turn, whose own timer is still armed when the fiber cancels it. */
  lemma LeftoverStrikes() returns (s: Sys, z: Sys)
    ensures Occurs(READS, s) && s.pc == Calling && s.cancelled.None?
    ensures |s.world| == 1 && s.world[0].WouldBlock? && !s.world[0].refused && !s.world[0].timedOut
    ensures s.armed == {s.world[0].timer}
    ensures EndedByEarlier(Origin(READS, s, {1, 2}), z) && z.timer !in z.late
  {
    hide Registered, EndedByEarlier, Occurs, Loose;
    var timer: nat;
    s, timer := FirstTurnEnds();
    var o := Origin(READS, s, {1, 2});
    z := EarlierStrikes(o);
    EndedLate(o, z);
  }

  lemma EndedLate(o: Origin, z: Sys)
    requires Occurs(o.c, o.s) && EndedByEarlier(o, z) && z.late == o.s.late
    ensures z.timer !in z.late
  {
    OccursOwn(o.c, o.s);
    hide Occurs, From, Inv, Shaped, Apart, LambdaInv, OwnTimer;
  }

  lemma OccursFrom(o: Origin, z: Sys)
    requires From(o, z)
    ensures Occurs(o.c, z)
  {}
}
