/** The timers of a call of do_io: where their callbacks can be, and which of them can end which turn. */
module OwnTimers {
  import opened Wrappers
  import opened EventSpec
  import opened Runtime
  import opened RuntimeInvariant
  import opened RuntimeProperties
  import opened Hook
  import opened HookRuntime

  // ---------- where a callback goes, step by step ----------

  /** The timer of this number, and no other, has the callback of this number; no event has it. */
  ghost predicate Clean(m: State, b: nat) {
    Unwatched(m.io.fds, b) && forall k :: k in m.timers ==> (k == b <==> m.timers[k] == b)
  }

  lemma NotPushed(queue: seq<Task>, x: Task, b: nat)
    requires x.work != CbWork(b)
    ensures QueuesCallback(queue + [x], b) <==> QueuesCallback(queue, b)
  {
    if QueuesCallback(queue, b) {
      var y :| y in queue && y.work == CbWork(b);
      assert y in queue + [x];
    }
  }

  lemma WorksOf(queue: seq<Task>, b: nat)
    ensures QueuesCallback(queue, b) <==> CbWork(b) in Works(queue)
  {
    if QueuesCallback(queue, b) {
      var y :| y in queue && y.work == CbWork(b);
      var k :| 0 <= k < |queue| && queue[k] == y;
      assert Works(queue)[k] == CbWork(b);
    }
    if CbWork(b) in Works(queue) {
      var k :| 0 <= k < |queue| && Works(queue)[k] == CbWork(b);
      assert queue[k] in queue;
    }
  }

  lemma WaitersSpare(fds: seq<FdRecord>, fd: nat, k: Mask, b: nat)
    requires fd < |fds| && Unwatched(fds, b)
    ensures CbWork(b) !in Waiters(fds[fd], k)
  {
    assert Registered(fds, fd, Read) != Some(CbWork(b)) && Registered(fds, fd, Write) != Some(CbWork(b));
  }

  lemma TakenSpares(m: State, fd: nat, k: Mask, r: Reply, b: nat)
    requires (r.ok ==> fd < |m.io.fds|) && Unwatched(m.io.fds, b)
    ensures QueuesCallback(Taken(m, fd, k, r).queue, b) <==> QueuesCallback(m.queue, b)
  {
    if r.ok {
      TriggersQueue(m, fd, k);
      WaitersSpare(m.io.fds, fd, k, b);
      WorksOf(m.queue, b);
      WorksOf(FireAll(m, fd, k).queue, b);
    }
    hide Fire, FireAll, QueuesCallback, Unwatched, Waiters;
  }

  lemma RemovedSpares(a: seq<FdRecord>, z: seq<FdRecord>, fd: nat, k: Mask, b: nat)
    requires Unwatched(a, b) && WithoutSlots(a, z, fd, k)
    ensures Unwatched(z, b)
  {
    hide Registered;
  }

  lemma SlotSpares(a: seq<FdRecord>, z: seq<FdRecord>, fd: nat, e: Event, w: Option<Work>, b: nat)
    requires Unwatched(a, b) && (SameSlots(a, z) || (OnlySlot(a, z, fd, e, w) && w != Some(CbWork(b))))
    ensures Unwatched(z, b)
  {
    hide Registered;
  }

  /** What a step keeps of a callback that it does not concern. */
  ghost predicate Aside(m: State, m': State, b: nat) {
    m'.timers == m.timers && Unwatched(m'.io.fds, b) && (Loose(m', b) ==> Loose(m, b))
  }

  lemma ReplySpares(m: State, fd: nat, k: Mask, r: Reply, b: nat)
    requires (r.ok ==> fd < |m.io.fds|) && Unwatched(m.io.fds, b) && Unwatched(r.io.fds, b)
    ensures Aside(m, Taken(m, fd, k, r), b)
  {
    hide Taken, Unwatched, QueuesCallback, HoldsCallback, ListsCallback;
    TakenElsewhere(m, fd, k, r);
    TakenSpares(m, fd, k, r, b);
  }

  lemma CancelSpares(io: Io, fd: nat, e: Event, refused: bool, b: nat)
    requires Valid(io) && Unwatched(io.fds, b)
    ensures var r := CancelEvent(io, fd, e, refused); (r.ok ==> fd < |io.fds|) && Unwatched(r.io.fds, b)
  {
    hide Unwatched, Valid, OnlySlot, Registered;
    RemoveCorrect(io, fd, e, true, refused);
    CancelHasFd(io, fd, e, refused);
    var r := CancelEvent(io, fd, e, refused);
    hide CancelEvent;
    if r.ok { SlotSpares(io.fds, r.io.fds, fd, e, None, b); }
  }

  lemma CancelAllSpares(io: Io, fd: nat, refused: bool, b: nat)
    requires Valid(io) && Unwatched(io.fds, b)
    ensures var r := CancelAll(io, fd, refused); (r.ok ==> fd < |io.fds|) && Unwatched(r.io.fds, b)
  {
    hide Unwatched, Valid, WithoutSlots, Registered;
    CancelAllCorrect(io, fd, refused);
    CancelAllHasFd(io, fd, refused);
    var r := CancelAll(io, fd, refused);
    hide CancelAll;
    if r.ok { RemovedSpares(io.fds, r.io.fds, fd, Mask(true, true), b); }
  }

  lemma ReportSpares(io: Io, fd: nat, reported: Mask, broken: bool, refused: bool, b: nat)
    requires Valid(io) && Unwatched(io.fds, b) && fd < |io.fds| && Report(io, fd, reported, broken, refused).Some?
    ensures Unwatched(Report(io, fd, reported, broken, refused).value.io.fds, b)
  {
    hide Unwatched, Valid, WithoutSlots, Registered;
    ReportCorrect(io, fd, reported, broken, refused);
    var r := Report(io, fd, reported, broken, refused).value;
    hide Report;
    if r.ok { RemovedSpares(io.fds, r.io.fds, fd, RealEvents(io.fds[fd].events, reported, broken), b); }
  }

  lemma TriggerIs(m: State, x: Step)
    requires Shaped(m) && Enabled(m, x) && (x.Cancel? || x.CancelEvery? || x.Handle?)
    ensures x.Cancel? ==> var r := CancelEvent(m.io, x.fd, x.e, x.refused);
      (r.ok ==> x.fd < |m.io.fds|) && Apply(m, x) == Taken(m, x.fd, Only(x.e), r)
    ensures x.CancelEvery? ==> var r := CancelAll(m.io, x.fd, x.refused);
      (r.ok ==> x.fd < |m.io.fds|) && Apply(m, x) == Taken(m, x.fd, Mask(true, true), r)
    ensures x.Handle? ==>
      && x.fd < |m.io.fds| && Report(m.io, x.fd, x.reported, x.broken, x.refused).Some?
      && Apply(m, x) == Taken(m, x.fd, RealEvents(m.io.fds[x.fd].events, x.reported, x.broken),
          Report(m.io, x.fd, x.reported, x.broken, x.refused).value)
  {
    hide Shaped, Taken, EpollCtl, Clear, RealEvents;
  }

  lemma TriggerSpares(m: State, x: Step, b: nat)
    requires Inv(m) && Shaped(m) && Enabled(m, x) && Unwatched(m.io.fds, b)
    requires x.Cancel? || x.CancelEvery? || x.Handle?
    ensures Aside(m, Apply(m, x), b)
  {
    IoValid(m);
    TriggerIs(m, x);
    hide Inv, Shaped, Apply, Enabled, Taken, Unwatched, Aside, Valid, Registered, CancelEvent, CancelAll, Report;
    if x.Cancel? {
      CancelSpares(m.io, x.fd, x.e, x.refused, b);
      ReplySpares(m, x.fd, Only(x.e), CancelEvent(m.io, x.fd, x.e, x.refused), b);
    } else if x.CancelEvery? {
      CancelAllSpares(m.io, x.fd, x.refused, b);
      ReplySpares(m, x.fd, Mask(true, true), CancelAll(m.io, x.fd, x.refused), b);
    } else {
      ReportSpares(m.io, x.fd, x.reported, x.broken, x.refused, b);
      ReplySpares(m, x.fd, RealEvents(m.io.fds[x.fd].events, x.reported, x.broken),
          Report(m.io, x.fd, x.reported, x.broken, x.refused).value, b);
    }
  }

  lemma PushSpares(m: State, x: Step, b: nat)
    requires Shaped(m) && Enabled(m, x) && Unwatched(m.io.fds, b) && Spares(x, {b})
    requires x.Post? || x.PostFiber? || x.Schedule? || x.ScheduleFiber?
    ensures Aside(m, Apply(m, x), b)
  {
    hide Shaped, Unwatched, QueuesCallback, HoldsCallback, ListsCallback;
    match x
    case Post(cb, on) => NotPushed(m.queue, Task(|m.places|, CbWork(cb), on), b);
    case Schedule(_, cb, on) => NotPushed(m.queue, Task(|m.places|, CbWork(cb), on), b);
    case PostFiber(f, on) => NotPushed(m.queue, Task(|m.places|, FiberWork(f), on), b);
    case ScheduleFiber(_, f, on) => NotPushed(m.queue, Task(|m.places|, FiberWork(f), on), b);
  }

  lemma SubmitSpares(m: State, t: nat, b: nat)
    requires Shaped(m) && Enabled(m, Submit(t)) && Unwatched(m.io.fds, b)
    ensures Aside(m, Apply(m, Submit(t)), b)
  {
    hide Shaped, Unwatched, HoldsCallback, QueuesCallback;
    var cbs, m' := m.collected[t], Apply(m, Submit(t));
    assert forall n :: n in cbs[1..] ==> n in cbs;
    if ListsCallback(m'.collected, b) {
      var u :| u in m'.collected && b in m'.collected[u];
      assert b in m.collected[u];
    }
    if cbs[0] == b { assert b in m.collected[t]; }
        else { NotPushed(m.queue, Task(|m.places|, CbWork(cbs[0]), None), b); }
  }

  lemma AddedSpares(io: Io, fd: nat, e: Event, w: Work, refused: bool, b: nat)
    requires Valid(io) && Unwatched(io.fds, b) && w != CbWork(b) && (fd < |io.fds| ==> !Has(io.fds[fd].events, e))
    ensures Unwatched(AddEvent(io, fd, e, w, refused).io.fds, b)
  {
    assert |io.fds| >= 32;
    hide Unwatched, Valid, OnlySlot, SameSlots, Registered;
    Unregistered(io, fd, e);
    AddEventCorrect(io, fd, e, w, refused);
    hide AddEvent;
    SlotSpares(io.fds, AddEvent(io, fd, e, w, refused).io.fds, fd, e, Some(w), b);
  }

  lemma DeletedSpares(io: Io, fd: nat, e: Event, refused: bool, b: nat)
    requires Valid(io) && Unwatched(io.fds, b)
    ensures Unwatched(DelEvent(io, fd, e, refused).io.fds, b)
  {
    hide Unwatched, Valid, OnlySlot, Registered;
    RemoveCorrect(io, fd, e, false, refused);
    var r := DelEvent(io, fd, e, refused);
    hide Remove;
    if r.ok { SlotSpares(io.fds, r.io.fds, fd, e, None, b); }
  }

  lemma EventSpares(m: State, x: Step, b: nat)
    requires Inv(m) && Shaped(m) && Enabled(m, x) && Unwatched(m.io.fds, b) && Spares(x, {b})
    requires x.Park? || x.Watch? || x.Delete?
    ensures Aside(m, Apply(m, x), b)
  {
    IoValid(m);
    EventOnly(m, x);
    hide Inv, Shaped, Apply, Unwatched, QueuesCallback, HoldsCallback, ListsCallback, Valid, Registered, AddEvent;
    hide Remove;
    match x
    case Park(t, fd, e, refused) => AddedSpares(m.io, fd, e, FiberWork(Current(m, t)), refused, b);
    case Watch(_, fd, e, cb, refused) => AddedSpares(m.io, fd, e, CbWork(cb), refused, b);
    case Delete(_, fd, e, refused) => DeletedSpares(m.io, fd, e, refused, b);
  }

  lemma PickSpares(m: State, t: nat, b: nat)
    requires Shaped(m) && Enabled(m, Pick(t)) && Unwatched(m.io.fds, b)
    ensures Aside(m, Apply(m, Pick(t)), b)
  {
    hide Unwatched, ListsCallback, FirstEligible, Eligible;
    var i, m' := FirstEligible(m, t, 0), Apply(m, Pick(t));
    assert m.queue[i] in m.queue;
    hide Shaped;
    PickIs(m, t, i);
    hide PickAt;
    assert forall x :: x in m'.queue ==> x in m.queue;
    if HoldsCallback(m'.hands, b) && !QueuesCallback(m.queue, b) {
      var u :| u in m'.hands && m'.hands[u].task.work == CbWork(b) && !m'.hands[u].phase.Returned?;
      assert u in m.hands && m.hands[u] == m'.hands[u];
    }
  }

  lemma SliceSpares(m: State, x: Step, b: nat)
    requires Shaped(m) && Enabled(m, x) && Unwatched(m.io.fds, b)
    requires x.Resume? || x.Yield? || x.Finish? || x.Release?
    ensures Aside(m, Apply(m, x), b)
  {
    hide Shaped, Unwatched, ListsCallback, QueuesCallback;
    var m' := Apply(m, x);
    if HoldsCallback(m'.hands, b) {
      var u :| u in m'.hands && m'.hands[u].task.work == CbWork(b) && !m'.hands[u].phase.Returned?;
      assert u in m.hands && m.hands[u].task == m'.hands[u].task && !m.hands[u].phase.Returned?;
    }
  }

  lemma TimerSpares(m: State, x: Step, b: nat)
    requires Shaped(m) && Enabled(m, x) && Clean(m, b) && Spares(x, {b}) && (x.AddTimer? || x.CancelTimer?)
    ensures Clean(Apply(m, x), b) && (b in Apply(m, x).timers <==> b in m.timers)
    ensures Loose(Apply(m, x), b) ==> Loose(m, b)
  {
    hide Shaped, Unwatched, ListsCallback, QueuesCallback, HoldsCallback;
  }

  lemma CallbacksOf(timers: map<nat, nat>, fired: seq<nat>, b: nat)
    requires forall x :: x in fired ==> x in timers
    requires forall k :: k in timers ==> (k == b <==> timers[k] == b)
    ensures b in Callbacks(timers, fired) <==> b in fired
  {
    var cbs := Callbacks(timers, fired);
    if b in cbs {
      var i :| 0 <= i < |cbs| && cbs[i] == b;
      assert fired[i] in fired;
    }
    if b in fired {
      var i :| 0 <= i < |fired| && fired[i] == b;
      assert cbs[i] == b;
    }
  }

  /** The callback of an expired timer goes into a list, and the timer is gone. */
  lemma CollectSpares(m: State, x: Step, b: nat)
    requires Shaped(m) && Enabled(m, x) && Clean(m, b) && Spares(x, {b}) && x.Collect?
    ensures Clean(Apply(m, x), b) && (b in Apply(m, x).timers <==> b in m.timers && b !in x.fired)
    ensures b in x.fired ==> b in m.timers
    ensures Loose(Apply(m, x), b) <==> Loose(m, b) || b in x.fired
  {
    hide Shaped, Unwatched, QueuesCallback, HoldsCallback;
    var m' := Apply(m, x);
    CallbacksOf(m.timers, x.fired, b);
    hide Callbacks;
    if ListsCallback(m'.collected, b) && b !in x.fired {
      var u :| u in m'.collected && b in m'.collected[u];
      assert b in m.collected[u];
    }
    if ListsCallback(m.collected, b) {
      var u :| u in m.collected && b in m.collected[u];
      assert u != x.t && b in m'.collected[u];
    }
    if b in x.fired { assert b in m'.collected[x.t]; }
  }

  /** A step that spares the callback makes it loose only by collecting its timer. */
  lemma StepSpares(m: State, x: Step, b: nat)
    requires Inv(m) && Shaped(m) && Enabled(m, x) && Clean(m, b) && Spares(x, {b})
    ensures var m' := Apply(m, x); var fires := x.Collect? && b in x.fired;
      && Clean(m', b)
      && (b in m'.timers <==> b in m.timers && !fires)
      && (fires ==> b in m.timers)
      && (Loose(m', b) ==> Loose(m, b) || fires)
  {
    hide Inv, Shaped, Apply, Enabled, Unwatched, Loose, Spares;
    if x.Cancel? || x.CancelEvery? || x.Handle? {
      TriggerSpares(m, x, b);
    } else if x.Post? || x.PostFiber? || x.Schedule? || x.ScheduleFiber? {
      PushSpares(m, x, b);
    } else if x.Park? || x.Watch? || x.Delete? {
      EventSpares(m, x, b);
    } else if x.Pick? {
      PickSpares(m, x.t, b);
    } else if x.Resume? || x.Yield? || x.Finish? || x.Release? {
      SliceSpares(m, x, b);
    } else if x.Submit? {
      SubmitSpares(m, x.t, b);
    } else if x.AddTimer? || x.CancelTimer? {
      TimerSpares(m, x, b);
    } else if x.Collect? {
      CollectSpares(m, x, b);
    } else {
      CheckSpares(m, x, b);
    }
  }

  lemma CheckSpares(m: State, x: Step, b: nat)
    requires Shaped(m) && Enabled(m, x) && Unwatched(m.io.fds, b)
    requires x.Stop? || x.CheckTimers? || x.CheckPending? || x.CheckTasks?
    ensures Aside(m, Apply(m, x), b)
  {
    hide Shaped, Unwatched, QueuesCallback, HoldsCallback, ListsCallback;
  }

  // ---------- the invariant ----------

  /** A turn between Arm and Disarm. */
  predicate InTurn(pc: Pc) { pc.Parking? || pc.Yielding? || pc.Asleep? || pc.Disarming? }

  /** A timer of the call is armed in the present turn only. Its callback is to be found only once it has
      expired, and it has expired only if its cancel() came too late or has not come yet. */
  ghost predicate OwnTimer(s: Sys, b: nat) {
    && Clean(s.m, b)
    && (Loose(s.m, b) ==> b in s.expired)
    && (b in s.m.timers ==> b == s.timer && InTurn(s.pc) && b !in s.expired)
    && (b in s.expired ==> b in s.late || (b == s.timer && InTurn(s.pc)))
  }

  ghost predicate OwnInv(c: Call, s: Sys) {
    && (s.armed != {} || s.pc.Disarming? || s.pc.Arming? ==> c.timeout)
    && s.expired <= s.armed && s.late <= s.armed
    && (c.timeout && InTurn(s.pc) ==> s.timer in s.armed)
    && (s.cancelled.Some? ==> s.cancelled.value in s.expired)
    && (s.pc == Ended(TimedOut) ==> s.cancelled.Some?)
    && forall b :: b in s.armed ==> OwnTimer(s, b)
  }

  lemma UnusedIsClean(m: State, n: nat)
    requires Unused(m, n)
    ensures var m' := m.(timers := m.timers[n := n]);
      Clean(m', n) && !Loose(m', n)
  {
    hide Unwatched, QueuesCallback, HoldsCallback, ListsCallback;
  }

  lemma ArmKeepsOwn(c: Call, s: Sys, timer: nat)
    requires Shaped(s.m) && CanMove(c, s, Arm(timer)) && OwnInv(c, s)
    ensures OwnInv(c, Moved(c, s, Arm(timer)))
  {
    UnusedIsClean(s.m, timer);
    hide Unwatched, QueuesCallback, HoldsCallback, ListsCallback, Shaped, Unused;
    var s' := Moved(c, s, Arm(timer));
    assert s'.m == s.m.(timers := s.m.timers[timer := timer]);
    forall b | b in s.armed && b != timer ensures OwnTimer(s', b) { assert OwnTimer(s, b); }
    assert OwnTimer(s', timer);
    hide CanMove, Moved;
  }

  lemma DisarmKeepsOwn(c: Call, s: Sys)
    requires Shaped(s.m) && CanMove(c, s, Disarm) && OwnInv(c, s)
    ensures OwnInv(c, Moved(c, s, Disarm))
  {
    hide Unwatched, QueuesCallback, HoldsCallback, ListsCallback, Shaped;
    var s' := Moved(c, s, Disarm);
    assert s'.m == s.m.(timers := s.m.timers - {s.timer});
    forall b | b in s.armed ensures OwnTimer(s', b) { assert OwnTimer(s, b); }
    hide CanMove, Moved;
  }

  /** A step of the runtime that concerns no timer of the call, but may collect one. */
  lemma StepKeepsTimer(s: Sys, s': Sys, x: Step, b: nat)
    requires Inv(s.m) && Shaped(s.m) && Enabled(s.m, x) && OwnTimer(s, b) && Spares(x, {b})
    requires s'.m == Apply(s.m, x) && s'.timer == s.timer && s'.late == s.late
    requires if x.Collect? && b in x.fired then b in s'.expired else b in s'.expired <==> b in s.expired
    requires InTurn(s.pc) ==> InTurn(s'.pc)
    ensures OwnTimer(s', b)
  {
    hide Inv, Shaped, Apply, Enabled, Clean, Loose, Spares;
    StepSpares(s.m, x, b);
  }

  lemma SparesEach(x: Step, armed: set<nat>, b: nat)
    requires Spares(x, armed) && b in armed
    ensures Spares(x, {b})
  {}

  lemma ExpiresOnlyArmed(c: Call, s: Sys, x: Step)
    ensures var s' := Go(c, s, Other(x));
      && s'.expired == (if x.Collect? then s.expired + (set n | n in x.fired && n in s.armed) else s.expired)
      && s'.timer == s.timer && s'.late == s.late && s'.armed == s.armed && s'.cancelled == s.cancelled
      && (InTurn(s.pc) && (s.pc.Asleep? ==> c.timeout) ==> InTurn(s'.pc))
      && (InTurn(s'.pc) ==> InTurn(s.pc)) && (s'.pc.Disarming? ==> c.timeout || s.pc.Disarming?)
      && (s'.pc.Arming? <==> s.pc.Arming?) && (s'.pc.Ended? ==> s'.pc == s.pc)
  {}

  lemma OtherKeepsOwn(c: Call, s: Sys, x: Step)
    requires Inv(s.m) && Shaped(s.m) && CanMove(c, s, Other(x)) && OwnInv(c, s)
    ensures OwnInv(c, Moved(c, s, Other(x)))
  {
    hide Inv, Shaped, Apply, Enabled, OwnTimer, Spares;
    ExpiresOnlyArmed(c, s, x);
    var s' := Moved(c, s, Other(x));
    assert s' == Go(c, s, Other(x)).(m := Apply(s.m, x));
    assert Spares(x, s.armed);
    hide Go, CanMove, Moved;
    forall b | b in s.armed ensures OwnTimer(s', b) {
      SparesEach(x, s.armed, b);
      StepKeepsTimer(s, s', x, b);
    }
  }

  lemma ParkYieldKeepsOwn(c: Call, s: Sys, x: Move)
    requires Inv(s.m) && Shaped(s.m) && CanMove(c, s, x) && OwnInv(c, s) && (x.TryPark? || x.Sleep?)
    ensures OwnInv(c, Moved(c, s, x))
  {
    hide Inv, Shaped, Apply, Enabled, OwnTimer;
    var s', y := Moved(c, s, x), StepOf(c, s, x).value;
    assert s'.m == Apply(s.m, y) && s'.timer == s.timer && s'.late == s.late && s'.armed == s.armed;
    assert s'.expired == s.expired && s'.cancelled == s.cancelled && !s'.pc.Arming?;
    assert (c.timeout ==> InTurn(s'.pc)) && (s'.pc.Disarming? ==> c.timeout);
    assert y.Park? || y.Yield?;
    assert Enabled(s.m, y);
    hide CanMove, Moved, StepOf;
    forall b | b in s.armed ensures OwnTimer(s', b) { StepKeepsTimer(s, s', y, b); }
  }

  lemma QuickMoveKeepsOwn(c: Call, s: Sys, x: Move)
    requires Shaped(s.m) && CanMove(c, s, x) && OwnInv(c, s)
    requires x.Answer? || x.Interrupt? || x.Block? || x.Decide? || x.Mark?
    ensures OwnInv(c, Moved(c, s, x))
  {
    hide Shaped, Enabled, Unwatched, QueuesCallback, ListsCallback, Clean;
    var s' := Moved(c, s, x);
    if x.Mark? { assert HoldsCallback(s.m.hands, x.timer) && OwnTimer(s, x.timer); }
    hide HoldsCallback;
    assert s'.m == s.m;
    forall b | b in s.armed ensures OwnTimer(s', b) { assert OwnTimer(s, b); }
  }

  lemma MoveKeepsOwn(c: Call, s: Sys, x: Move)
    requires Inv(s.m) && Shaped(s.m) && CanMove(c, s, x) && OwnInv(c, s)
    ensures OwnInv(c, Moved(c, s, x))
  {
    hide Inv, Shaped, CanMove, Moved, OwnInv;
    if x.Arm? {
      ArmKeepsOwn(c, s, x.timer);
    } else if x.Disarm? {
      DisarmKeepsOwn(c, s);
    } else if x.Other? {
      OtherKeepsOwn(c, s, x.step);
    } else if x.TryPark? || x.Sleep? {
      ParkYieldKeepsOwn(c, s, x);
    } else {
      QuickMoveKeepsOwn(c, s, x);
    }
  }

  lemma {:induction false} RunKeepsOwn(c: Call, s: Sys, xs: seq<Move>)
    requires Inv(s.m) && Shaped(s.m) && OwnInv(c, s) && Goes(c, s, xs)
    ensures Inv(Later(c, s, xs).m) && Shaped(Later(c, s, xs).m) && OwnInv(c, Later(c, s, xs))
    decreases |xs|
  {
    hide Inv, Shaped, CanMove, Moved, OwnInv;
    if xs != [] {
      MoveKeepsRuntime(c, s, xs[0]);
      MoveKeepsOwn(c, s, xs[0]);
      RunKeepsOwn(c, Moved(c, s, xs[0]), xs[1..]);
    }
  }

  // ---------- the callbacks while they run ----------

  predicate RunsOwn(s: Sys, u: nat) {
    Executes(s.m, u) && s.m.hands[u].task.work.CbWork? && s.m.hands[u].task.work.cb in s.armed
  }

  /** The callbacks of the call are tasks for any thread, and they run on fibers of their own, which do not
      park. */
  ghost predicate LambdaInv(c: Call, s: Sys) {
    && c.f in s.m.fibers
    && (forall u :: RunsOwn(s, u) ==> Acts(s.m, u) && Current(s.m, u) != c.f)
    && (forall x :: x in s.m.queue && x.work.CbWork? && x.work.cb in s.armed ==> x.thread == None)
  }

  /** A task that a step has put on the queue. */
  predicate NewTask(m: State, x: Step, y: Task) {
    y in m.queue || y.thread == None || y.work.FiberWork? || !Spares(x, {y.work.cb})
  }

  lemma FireTasks(m: State, fd: nat, e: Event)
    requires fd < |m.io.fds|
    ensures forall y :: y in Fire(m, fd, e).queue ==> y in m.queue || y.thread == None
  {
    var a := m.(io := m.io.(fds := Clear(m.io.fds, fd, e)));
    hide Clear, Slot, Wake;
    if Slot(m.io.fds[fd], e).Some? { WakePushes(a, Slot(m.io.fds[fd], e).value); }
  }

  lemma TakenTasks(m: State, fd: nat, k: Mask, r: Reply)
    requires r.ok ==> fd < |m.io.fds|
    ensures forall y :: y in Taken(m, fd, k, r).queue ==> y in m.queue || y.thread == None
  {
    hide Fire;
    if r.ok {
      FireTasks(m, fd, Read);
      FireElsewhere(m, fd, Read);
      FireTasks(if k.read then Fire(m, fd, Read) else m, fd, Write);
    }
  }

  lemma TriggerTasks(m: State, x: Step)
    requires Shaped(m) && Enabled(m, x) && (x.Cancel? || x.CancelEvery? || x.Handle?)
    ensures var m' := Apply(m, x);
      m'.hands == m.hands && forall y :: y in m'.queue ==> NewTask(m, x, y)
  {
    hide Shaped, Taken, Registered, Spares;
    match x
    case Cancel(_, fd, e, refused) =>
      CancelHasFd(m.io, fd, e, refused);
      hide CancelEvent;
      TakenTasks(m, fd, Only(e), CancelEvent(m.io, fd, e, refused));
      TakenElsewhere(m, fd, Only(e), CancelEvent(m.io, fd, e, refused));
    case CancelEvery(_, fd, refused) =>
      CancelAllHasFd(m.io, fd, refused);
      hide CancelAll;
      TakenTasks(m, fd, Mask(true, true), CancelAll(m.io, fd, refused));
      TakenElsewhere(m, fd, Mask(true, true), CancelAll(m.io, fd, refused));
    case Handle(_, fd, reported, broken, refused) =>
      var r, hit := Report(m.io, fd, reported, broken, refused).value, RealEvents(m.io.fds[fd].events, reported,
          broken);
      hide Report;
      TakenTasks(m, fd, hit, r);
      TakenElsewhere(m, fd, hit, r);
  }

  /** The hands that run a callback after a step ran it before, or have just resumed it. */
  ghost predicate HandsAfter(m: State, m': State, x: Step) {
    forall u :: Executes(m', u) && m'.hands[u].task.work.CbWork? ==>
      (if x.Resume? && x.t == u then x.f == Current(m', u) && x.f !in m.fibers && Acts(m', u)
       else u in m.hands && m.hands[u] == m'.hands[u])
  }

  lemma PickTasksAfter(m: State, x: Step)
    requires Shaped(m) && Enabled(m, x) && x.Pick?
    ensures HandsAfter(m, Apply(m, x), x) && forall y :: y in Apply(m, x).queue ==> NewTask(m, x, y)
  {
    var i := FirstEligible(m, x.t, 0);
    assert m.queue[i] in m.queue;
    PickIs(m, x.t, i);
    hide Shaped, PickAt, FirstEligible, Eligible, Acts, Spares;
  }

  lemma SliceTasks(m: State, x: Step)
    requires Shaped(m) && Enabled(m, x) && (x.Resume? || x.Yield? || x.Finish? || x.Release?)
    ensures HandsAfter(m, Apply(m, x), x) && Apply(m, x).queue == m.queue
  {
    hide Shaped;
  }

  lemma PushTasksAfter(m: State, x: Step)
    requires Shaped(m) && Enabled(m, x) && (x.Post? || x.PostFiber? || x.Schedule? || x.ScheduleFiber? || x.Submit?)
    ensures Apply(m, x).hands == m.hands && forall y :: y in Apply(m, x).queue ==> NewTask(m, x, y)
  {
    hide Shaped;
  }

  lemma QuietTasks(m: State, x: Step)
    requires Shaped(m) && Enabled(m, x)
    requires x.AddTimer? || x.CancelTimer? || x.Collect? || x.Stop? || x.CheckTimers? || x.CheckPending?
        || x.CheckTasks?
    ensures Apply(m, x).hands == m.hands && Apply(m, x).queue == m.queue
  {
    hide Shaped, Callbacks;
  }

  lemma StepTasks(m: State, x: Step)
    requires Shaped(m) && Enabled(m, x)
    ensures HandsAfter(m, Apply(m, x), x) && forall y :: y in Apply(m, x).queue ==> NewTask(m, x, y)
  {
    hide Shaped, Apply, Enabled, Spares;
    if x.Cancel? || x.CancelEvery? || x.Handle? {
      TriggerTasks(m, x);
    } else if x.Pick? {
      PickTasksAfter(m, x);
    } else if x.Resume? || x.Yield? || x.Finish? || x.Release? {
      SliceTasks(m, x);
    } else if x.Park? || x.Watch? || x.Delete? {
      EventOnly(m, x);
    } else if x.Post? || x.PostFiber? || x.Schedule? || x.ScheduleFiber? || x.Submit? {
      PushTasksAfter(m, x);
    } else {
      QuietTasks(m, x);
    }
  }

  /** A running fiber is not resumed, and its own steps are those of its thread. */
  lemma OnlyItself(m: State, x: Step, u: nat)
    requires Inv(m) && Enabled(m, x) && Executes(m, u)
    ensures Current(m, u) in m.fibers
    ensures !(x.Resume? && x.f == Current(m, u)) && (Own(m, x, Current(m, u)) ==> x.t == u)
  {
    ActingFiber(m, u);
    if x.Resume? && x.f == Current(m, u) { ResumesReady(m, x.t, x.f); }
    if Own(m, x, Current(m, u)) { ActingFiber(m, x.t); }
    hide Inv, Enabled;
  }

  /** A running callback is left alone by everybody else, and it cancels or ends. */
  lemma LambdaActs(m: State, x: Step, u: nat)
    requires Inv(m) && Shaped(m) && Enabled(m, x) && Acts(m, u) && Executes(Apply(m, x), u)
    requires Apply(m, x).hands[u] == m.hands[u]
    requires IsUser(x) && x.t == u ==> x.Finish? || x.Cancel?
    ensures Acts(Apply(m, x), u)
  {
    hide Inv, Shaped, Apply, Enabled, IsUser;
    OnlyItself(m, x, u);
    if x.Finish? && x.t == u { FinishReturns(m, u); }
    if x.Cancel? { TriggerLeaves(m, x, Current(m, u)); } else { OthersLeave(m, x, Current(m, u)); }
  }

  lemma FinishReturns(m: State, u: nat)
    requires Shaped(m) && Enabled(m, Finish(u))
    ensures !Executes(Apply(m, Finish(u)), u)
  {
    hide Shaped;
  }

  lemma StillActs(c: Call, s: Sys, s': Sys, x: Step, u: nat)
    requires Inv(s.m) && Shaped(s.m) && Enabled(s.m, x) && c.f in s.m.fibers && s'.m == Apply(s.m, x)
    requires HandsAfter(s.m, s'.m, x) && s'.armed == s.armed && RunsOwn(s', u)
    requires RunsOwn(s, u) ==> Acts(s.m, u) && Current(s.m, u) != c.f
    requires RunsOwn(s, u) && IsUser(x) && x.t == u ==> x.Finish? || x.Cancel?
    ensures Acts(s'.m, u) && Current(s'.m, u) != c.f
  {
    hide Inv, Shaped, Apply, Enabled, IsUser, Acts;
    if !(x.Resume? && x.t == u) {
      assert RunsOwn(s, u);
      LambdaActs(s.m, x, u);
    }
  }

  /** A step of the runtime keeps the callbacks in order. */
  lemma StepKeepsLambda(c: Call, s: Sys, s': Sys, x: Step)
    requires Inv(s.m) && Shaped(s.m) && Enabled(s.m, x) && LambdaInv(c, s) && Spares(x, s.armed)
    requires s'.m == Apply(s.m, x) && s'.armed == s.armed
    requires forall u :: RunsOwn(s, u) && IsUser(x) && x.t == u ==> x.Finish? || x.Cancel?
    ensures LambdaInv(c, s')
  {
    StepTasks(s.m, x);
    FibersStay(s.m, x);
    hide Inv, Shaped, Apply, Enabled, IsUser, Acts, Spares, NewTask, HandsAfter;
    assert c.f in s.m.fibers.Keys;
    forall u | RunsOwn(s', u) ensures Acts(s'.m, u) && Current(s'.m, u) != c.f { StillActs(c, s, s', x, u); }
    hide RunsOwn;
    StillFree(c, s, s'.m.queue, x);
  }

  lemma StillFree(c: Call, s: Sys, queue: seq<Task>, x: Step)
    requires LambdaInv(c, s) && Spares(x, s.armed) && forall y :: y in queue ==> NewTask(s.m, x, y)
    ensures forall y :: y in queue && y.work.CbWork? && y.work.cb in s.armed ==> y.thread == None
  {
    hide Spares, Acts, RunsOwn;
    forall y | y in queue && y.work.CbWork? && y.work.cb in s.armed ensures y.thread == None {
      SparesEach(x, s.armed, y.work.cb);
      assert NewTask(s.m, x, y);
    }
  }

  lemma ArmKeepsLambda(c: Call, s: Sys, timer: nat)
    requires Shaped(s.m) && CanMove(c, s, Arm(timer)) && LambdaInv(c, s)
    ensures LambdaInv(c, Moved(c, s, Arm(timer)))
  {
    hide Unwatched, ListsCallback, Shaped, Acts;
    var s' := Moved(c, s, Arm(timer));
    assert s'.m == s.m.(timers := s.m.timers[timer := timer]);
    assert !QueuesCallback(s.m.queue, timer) && !HoldsCallback(s.m.hands, timer);
    forall u | RunsOwn(s', u) ensures Acts(s'.m, u) && Current(s'.m, u) != c.f {
      assert s.m.hands[u].task.work.cb != timer;
      assert RunsOwn(s, u);
      assert Acts(s.m, u);
      assert Acts(s'.m, u) by {
        assert Acts(s.m, u) && s'.m.hands == s.m.hands && s'.m.fibers == s.m.fibers; ActsLikewise(s.m, s'.m, u);
      }
    }
    hide QueuesCallback, HoldsCallback;
    forall x | x in s'.m.queue && x.work.CbWork? && x.work.cb in s'.armed ensures x.thread == None {
      assert x.work.cb != timer by { assert !QueuesCallback(s.m.queue, timer); NotQueued(s.m.queue, x, timer); }
    }
  }

  lemma ActsLikewise(m: State, m': State, u: nat)
    requires m'.hands == m.hands && m'.fibers == m.fibers
    ensures Acts(m', u) <==> Acts(m, u)
  {}

  lemma NotQueued(queue: seq<Task>, x: Task, b: nat)
    requires !QueuesCallback(queue, b) && x in queue
    ensures x.work != CbWork(b)
  {}

  lemma MoveKeepsLambda(c: Call, s: Sys, x: Move)
    requires Inv(s.m) && Shaped(s.m) && CanMove(c, s, x) && LambdaInv(c, s) && OwnInv(c, s)
    ensures LambdaInv(c, Moved(c, s, x))
  {
    if x.Arm? {
      ArmKeepsLambda(c, s, x.timer);
    } else {
      MoveRecords(c, s, x);
      hide Inv, Shaped, Enabled, Apply, LambdaInv, OwnTimer, Acts, Registered, Spares, Unused;
      var s' := Moved(c, s, x);
      if x.Other? {
        StepKeepsLambda(c, s, s', x.step);
      } else if !x.Mark? && StepOf(c, s, x).Some? {
        OwnStepKeepsLambda(c, s, x);
      } else {
        assert s'.m == s.m && s'.armed == s.armed;
        SameLambda(c, s, s');
      }
    }
  }

  lemma SameLambda(c: Call, s: Sys, s': Sys)
    requires LambdaInv(c, s) && s'.m == s.m && s'.armed == s.armed
    ensures LambdaInv(c, s')
  {
    hide Acts;
    assert forall u :: RunsOwn(s', u) ==> RunsOwn(s, u);
  }

  lemma OwnStepKeepsLambda(c: Call, s: Sys, x: Move)
    requires Inv(s.m) && Shaped(s.m) && CanMove(c, s, x) && LambdaInv(c, s) && OwnInv(c, s)
    requires x.TryPark? || x.Sleep? || x.Disarm?
    ensures LambdaInv(c, Moved(c, s, x))
  {
    RunningActs(s.m, c.f);
    MoveRecords(c, s, x);
    hide Inv, Shaped, Enabled, Apply, OwnTimer, Acts, Spares, OwnInv;
    var s', y := Moved(c, s, x), StepOf(c, s, x).value;
    assert s'.m == Apply(s.m, y) && s'.armed == s.armed;
    assert y.t == On(s.m, c.f);
    assert !RunsOwn(s, y.t);
    if x.Disarm? {
      DisarmKeepsLambda(c, s);
    } else {
      assert Spares(y, s.armed) by { assert y.Park? || y.Yield?; ParkSpares(y, s.armed); }
      hide LambdaInv, CanMove, Moved, StepOf, RunsOwn;
      StepKeepsLambda(c, s, s', y);
    }
  }

  lemma ParkSpares(y: Step, armed: set<nat>)
    requires y.Park? || y.Yield?
    ensures Spares(y, armed)
  {}

  lemma DisarmKeepsLambda(c: Call, s: Sys)
    requires Shaped(s.m) && CanMove(c, s, Disarm) && LambdaInv(c, s)
    ensures LambdaInv(c, Moved(c, s, Disarm))
  {
    hide Shaped, Acts;
    var s' := Moved(c, s, Disarm);
    assert s'.m == s.m.(timers := s.m.timers - {s.timer});
    forall u | RunsOwn(s', u) ensures Acts(s'.m, u) && Current(s'.m, u) != c.f {
      assert RunsOwn(s, u);
      ActsLikewise(s.m, s'.m, u);
    }
  }

  lemma {:induction false} RunKeepsLambda(c: Call, s: Sys, xs: seq<Move>)
    requires Inv(s.m) && Shaped(s.m) && OwnInv(c, s) && LambdaInv(c, s) && Goes(c, s, xs)
    ensures LambdaInv(c, Later(c, s, xs))
    decreases |xs|
  {
    hide Inv, Shaped, CanMove, Moved, OwnInv, LambdaInv;
    if xs != [] {
      MoveKeepsRuntime(c, s, xs[0]);
      MoveKeepsOwn(c, s, xs[0]);
      MoveKeepsLambda(c, s, xs[0]);
      RunKeepsLambda(c, Moved(c, s, xs[0]), xs[1..]);
    }
  }

  lemma BeginsOwn(c: Call, m: State, t: nat)
    requires Begins(c, m, t)
    ensures Inv(m) && Shaped(m) && OwnInv(c, Start(m)) && LambdaInv(c, Start(m))
  {
    ReachableInv(m);
    InvShapes(m);
    hide Inv, Shaped, Reachable, OwnTimer;
  }

  // ---------- which timer ends a call ----------

  /** The timer expires. */
  predicate Expires(x: Move, timer: nat) { x.Other? && x.step.Collect? && timer in x.step.fired }

  predicate StrikesAt(xs: seq<Move>, timer: nat, i: int, j: int, k: int, u: nat) {
    0 <= i < j < k < |xs| && xs[i] == Arm(timer) && Expires(xs[j], timer) && xs[k] == Mark(u, timer)
  }

  /** The call arms this timer, then it expires, and then its callback sets `cancelled`. */
  ghost predicate Strikes(xs: seq<Move>, timer: nat) {
    exists i, j, k, u :: StrikesAt(xs, timer, i, j, k, u)
  }

  /** timer->cancel() of the turn of this timer returns false: the timer has expired by then. */
  ghost predicate TooLate(c: Call, s: Sys, xs: seq<Move>, timer: nat)
    requires Goes(c, s, xs)
    decreases |xs|
  {
    xs != [] &&
    ((xs[0].Disarm? && s.timer == timer && timer !in s.m.timers) || TooLate(c, Moved(c, s, xs[0]), xs[1..], timer))
  }

  /** What one move adds to the records. */
  lemma MoveRecords(c: Call, s: Sys, x: Move)
    requires Shaped(s.m) && CanMove(c, s, x)
    ensures var s' := Moved(c, s, x);
      && (s'.cancelled == if x.Mark? then Some(x.timer) else s.cancelled)
      && (forall n :: n in s'.expired <==> n in s.expired || (n in s.armed && Expires(x, n)))
      && (s'.armed == if x.Arm? then s.armed + {x.timer} else s.armed)
      && (s'.late == if x.Disarm? && s.timer !in s.m.timers then s.late + {s.timer} else s.late)
  {
    hide Shaped, Apply, Enabled, Unused, Allowed, RunsCallback;
  }

  lemma MarkExpired(c: Call, s: Sys, x: Move)
    requires Shaped(s.m) && CanMove(c, s, x) && OwnInv(c, s) && x.Mark?
    ensures x.timer in s.expired && x.timer in s.armed && s.cancelled.None?
  {
    assert HoldsCallback(s.m.hands, x.timer) && OwnTimer(s, x.timer);
    hide HoldsCallback, Clean, QueuesCallback, ListsCallback;
  }

  /** When the timer that has struck was armed, expired and struck; -1 is before the moves. */
  lemma {:induction false} Traced(c: Call, s: Sys, xs: seq<Move>, timer: nat) returns (i: int, j: int, k: int, u: nat)
    requires Inv(s.m) && Shaped(s.m) && OwnInv(c, s) && Goes(c, s, xs) && Later(c, s, xs).cancelled == Some(timer)
    ensures -1 <= i <= j <= k < |xs|
    ensures if k == -1 then s.cancelled == Some(timer) else j < k && xs[k] == Mark(u, timer)
    ensures if j == -1 then timer in s.expired else i < j && Expires(xs[j], timer)
    ensures if i == -1 then timer in s.armed else xs[i] == Arm(timer)
    decreases |xs|
  {
    hide Inv, Shaped, CanMove, Moved, OwnTimer;
    i, j, k, u := -1, -1, -1, 0;
    if xs != [] {
      MoveRecords(c, s, xs[0]);
      MoveKeepsRuntime(c, s, xs[0]);
      MoveKeepsOwn(c, s, xs[0]);
      if xs[0].Mark? { MarkExpired(c, s, xs[0]); }
      i, j, k, u := Traced(c, Moved(c, s, xs[0]), xs[1..], timer);
      hide OwnInv;
      if k == -1 && xs[0].Mark? { u := xs[0].u; }
      i := if i == -1 && timer in s.armed then -1 else i + 1;
      j := if j == -1 && timer in s.expired then -1 else j + 1;
      k := if k == -1 && s.cancelled == Some(timer) then -1 else k + 1;
    }
  }

  lemma {:induction false} LateIsTooLate(c: Call, s: Sys, xs: seq<Move>, timer: nat)
    requires Goes(c, s, xs)
    ensures timer in Later(c, s, xs).late <==> timer in s.late || TooLate(c, s, xs, timer)
    decreases |xs|
  {
    hide Shaped, CanMove, Moved;
    if xs != [] {
      MoveRecords(c, s, xs[0]);
      LateIsTooLate(c, Moved(c, s, xs[0]), xs[1..], timer);
    }
  }

  lemma {:induction false} MarkSticks(c: Call, s: Sys, xs: seq<Move>)
    requires Goes(c, s, xs) && (s.cancelled.Some? || exists x :: x in xs && x.Mark?)
    ensures Later(c, s, xs).cancelled.Some?
    decreases |xs|
  {
    hide Shaped, CanMove, Moved;
    if xs != [] {
      MoveRecords(c, s, xs[0]);
      assert forall x :: x in xs ==> x == xs[0] || x in xs[1..];
      MarkSticks(c, Moved(c, s, xs[0]), xs[1..]);
    }
  }

  lemma StrikesExactly(c: Call, m: State, t: nat, xs: seq<Move>)
    requires Begins(c, m, t) && Goes(c, Start(m), xs)
    ensures var s := Later(c, Start(m), xs);
      && (s.cancelled.Some? <==> exists timer :: Strikes(xs, timer))
      && (s.cancelled.Some? ==> Strikes(xs, s.cancelled.value))
  {
    BeginsOwn(c, m, t);
    hide Inv, Shaped, OwnInv, Goes, Later, Begins, Strikes;
    if exists timer :: Strikes(xs, timer) { StruckSticks(c, Start(m), xs); }
    if Later(c, Start(m), xs).cancelled.Some? { StruckIsTraced(c, m, xs); }
  }

  lemma StruckSticks(c: Call, s: Sys, xs: seq<Move>)
    requires Goes(c, s, xs) && exists timer :: Strikes(xs, timer)
    ensures Later(c, s, xs).cancelled.Some?
  {
    hide Goes, Later;
    var timer :| Strikes(xs, timer);
    var i, j, k, u :| StrikesAt(xs, timer, i, j, k, u);
    assert xs[k] in xs;
    MarkSticks(c, s, xs);
  }

  lemma StruckIsTraced(c: Call, m: State, xs: seq<Move>)
    requires Inv(m) && Shaped(m) && OwnInv(c, Start(m)) && Goes(c, Start(m), xs)
    requires Later(c, Start(m), xs).cancelled.Some?
    ensures Strikes(xs, Later(c, Start(m), xs).cancelled.value)
  {
    hide Inv, Shaped, OwnInv, Goes, Later;
    var timer := Later(c, Start(m), xs).cancelled.value;
    var i, j, k, u := Traced(c, Start(m), xs, timer);
    assert StrikesAt(xs, timer, i, j, k, u);
  }

  /** do_io gives up with a timeout exactly when, before it looks, a timer that it has armed has expired and
      the callback of that timer has struck, whichever of its turns the timer was for. */
  lemma TimesOutExactly(c: Call, m: State, t: nat, xs: seq<Move>)
    requires Begins(c, m, t) && Goes(c, Start(m), xs) && Later(c, Start(m), xs).pc.Deciding?
    ensures var s := Later(c, Start(m), xs);
      && Shaped(s.m) && CanMove(c, s, Decide)
      && Moved(c, s, Decide).pc == if exists timer :: Strikes(xs, timer) then Ended(TimedOut) else Calling
  {
    DoIoCanGoOn(c, m, t, xs);
    DoIoOnRuntime(c, m, t, xs);
    StrikesExactly(c, m, t, xs);
    var s := Later(c, Start(m), xs);
    ReachableInv(s.m);
    InvShapes(s.m);
    hide Shaped, Inv, Goes, Later, Begins, Reachable, Turns, Strikes;
  }

  /** A call ends as timed out only if it has a timeout, and then by a timer of its own that had expired when
      its turn cancelled it. If the timers of all earlier turns were cancelled in time, it is the timer of the
      turn that the call ends with. */
  lemma TimedOutByLateTimer(c: Call, m: State, t: nat, xs: seq<Move>)
    requires Begins(c, m, t) && Goes(c, Start(m), xs) && Later(c, Start(m), xs).pc == Ended(TimedOut)
    ensures c.timeout
    ensures exists timer :: Strikes(xs, timer) && TooLate(c, Start(m), xs, timer)
    ensures var s := Later(c, Start(m), xs);
      (forall timer :: TooLate(c, Start(m), xs, timer) ==> timer == s.timer) ==>
        s.cancelled == Some(s.timer) && Strikes(xs, s.timer)
  {
    BeginsOwn(c, m, t);
    RunKeepsOwn(c, Start(m), xs);
    StrikesExactly(c, m, t, xs);
    var s := Later(c, Start(m), xs);
    hide Inv, Shaped, Goes, Later, Begins, Strikes, TooLate;
    assert OwnTimer(s, s.cancelled.value);
    hide Clean, Loose;
    LateIsTooLate(c, Start(m), xs, s.cancelled.value);
  }
}
