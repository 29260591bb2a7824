/** The scheduler, fiber and IO manager objects. The scheduler that IOManager inherits from is its field
    `tasks`, and the kernel's epoll set its field `interest`. */
module IoManagers {
  import opened Wrappers
  import opened EventSpec
  import R = Runtime
  import I = RuntimeInvariant
  import P = RuntimeProperties

  /** A fiber's state and callback; a running fiber is on a thread. Switching stacks is not part of it. */
  class Fiber {
    var state: R.FiberState
    var cb: Option<nat>

    constructor (cb: nat)
      ensures state == R.Ready && this.cb == Some(cb)
    {
      this.state := R.Ready;
      this.cb := Some(cb);
    }

    /** Only a finished fiber can be used again. */
    method Reset(cb: nat)
      requires state == R.Term
      modifies this
      ensures state == R.Ready && this.cb == Some(cb)
    {
      this.cb := Some(cb);
      state := R.Ready;
    }

    /** The first half of resume, up to the switch. */
    method Resume(t: ThreadLocals)
      requires state != R.Term && !state.Running?
      modifies this`state, t`current
      ensures state == R.Running(t.thread) && t.current == this
    {
      t.current := this;
      state := R.Running(t.thread);
    }

    /** A fiber that has not finished becomes ready; the thread goes back to its main fiber. */
    method Yield(t: ThreadLocals)
      requires state.Running? || state == R.Term
      modifies this`state, t`current
      ensures state == (if old(state) == R.Term then R.Term else R.Ready) && t.current == null
    {
      if state != R.Term {
        state := R.Ready;
      }
      t.current := null;
    }

    /** The end of MainFunc, behind the callback. */
    method Complete(t: ThreadLocals)
      requires state.Running?
      modifies this, t`current
      ensures state == R.Term && cb == None && t.current == null
    {
      cb := None;
      state := R.Term;
      Yield(t);
    }
  }

  /** A thread's number and its running fiber; null is the main fiber. */
  class ThreadLocals {
    const thread: nat
    var current: Fiber?

    constructor (thread: nat)
      ensures this.thread == thread && current == null
    {
      this.thread := thread;
      this.current := null;
    }
  }

  /** ScheduleTask; without work it is a null task, and thread -1 is any thread. */
  datatype ScheduleTask = ScheduleTask(work: Option<Work>, thread: int)

  function OfTask(x: R.Task): ScheduleTask {
    ScheduleTask(Some(x.work), if x.thread.Some? then x.thread.value else -1)
  }

  function ToTask(w: Work): ScheduleTask { ScheduleTask(Some(w), -1) }

  function ToTasks(ws: seq<Work>): (r: seq<ScheduleTask>)
    ensures |r| == |ws|
  {
    if ws == [] then [] else [ToTask(ws[0])] + ToTasks(ws[1..])
  }

  /** What triggered events schedule are the machine's tasks for any thread. */
  lemma {:induction false} ToTasksAre(ws: seq<Work>, i: nat, id: nat)
    requires i < |ws|
    ensures ToTasks(ws)[i] == ScheduleTask(Some(ws[i]), -1) == OfTask(R.Task(id, ws[i], None))
    decreases |ws|
  {
    if i > 0 { ToTasksAre(ws[1..], i - 1, id); }
  }

  class Scheduler {
    var tasks: seq<ScheduleTask>
    var activeThreadCount: int
    var stopping: bool
    /** The fiber objects, by the number a task names them with. */
    var fibers: map<nat, Fiber>

    constructor ()
      ensures tasks == [] && activeThreadCount == 0 && !stopping && fibers == map[]
    {
      tasks, activeThreadCount, stopping, fibers := [], 0, false, map[];
    }

    /** A null task is not queued, but the answer is that of the queue before the call all the same. */
    method ScheduleNoLock(work: Option<Work>, thread: int) returns (needTickle: bool)
      modifies `tasks
      ensures tasks == old(tasks) + (if work.Some? then [ScheduleTask(work, thread)] else [])
      ensures needTickle <==> old(tasks) == []
    {
      needTickle := tasks == [];
      if work.Some? {
        tasks := tasks + [ScheduleTask(work, thread)];
      }
    }

    predicate Elsewhere(x: ScheduleTask, self: int) { x.thread != -1 && x.thread != self }

    /** The task's fiber is still running on the thread it was scheduled from. */
    predicate StillRuns(x: ScheduleTask)
      reads this, fibers.Values
    {
      x.work.Some? && x.work.value.FiberWork? && x.work.value.fiber in fibers
          && fibers[x.work.value.fiber].state.Running?
    }

    predicate MayRun(x: ScheduleTask, self: int)
      reads this, fibers.Values
    {
      !Elsewhere(x, self) && !StillRuns(x)
    }

    /** No null task is on the queue. */
    predicate Queueable()
      reads this
    {
      forall x :: x in tasks ==> x.work.Some?
    }

    /** The task at i is the first that the thread may run, and is taken off the queue; others are told when
        a task for another thread was passed over or any task is left behind the one taken. */
    ghost predicate Picks(before: seq<ScheduleTask>, i: nat, task: ScheduleTask, tickleMe: bool, self: int)
      reads this, fibers.Values
    {
      && i < |before| && before[i] == task && MayRun(task, self)
      && (forall j :: 0 <= j < i ==> !MayRun(before[j], self))
      && tasks == before[..i] + before[i + 1..]
      && (tickleMe <==> i < |tasks| || exists j :: 0 <= j < i && Elsewhere(before[j], self))
    }

    /** The locked block of run: a task that is taken counts as active; the others keep their order. */
    method PickTask(self: int) returns (task: Option<ScheduleTask>, tickleMe: bool)
      requires Queueable()
      modifies `tasks, `activeThreadCount
      ensures Queueable()
      ensures task == None ==> tasks == old(tasks) && activeThreadCount == old(activeThreadCount)
      ensures task == None ==> forall x :: x in old(tasks) ==> !MayRun(x, self)
      ensures task == None ==> (tickleMe <==> exists x :: x in old(tasks) && Elsewhere(x, self))
      ensures task.Some? ==> task.value.work.Some? && activeThreadCount == old(activeThreadCount) + 1
      ensures task.Some? ==> exists i :: Picks(old(tasks), i, task.value, tickleMe, self)
    {
      task, tickleMe := None, false;
      var it := 0;
      while it < |tasks|
        invariant 0 <= it <= |tasks| && tasks == old(tasks) && activeThreadCount == old(activeThreadCount)
        invariant forall j :: 0 <= j < it ==> !MayRun(tasks[j], self)
        invariant tickleMe <==> exists j :: 0 <= j < it && Elsewhere(tasks[j], self)
        invariant task == None
      {
        var x := tasks[it];
        if Elsewhere(x, self) {
          it := it + 1;
          tickleMe := true;
          continue;
        }
        if StillRuns(x) {
          it := it + 1;
          continue;
        }
        task := Some(x);
        tasks := tasks[..it] + tasks[it + 1..];
        activeThreadCount := activeThreadCount + 1;
        break;
      }
      if task.Some? && it < |tasks| {
        tickleMe := true;
      }
      assert task.Some? ==> Picks(old(tasks), it, task.value, tickleMe, self);
    }

    // ---------- the object and the machine ----------

    /** The queue is that of a state of the runtime machine. */
    static ghost predicate SameQueue(queue: seq<ScheduleTask>, s: R.State) {
      |queue| == |s.queue| && forall k :: 0 <= k < |queue| ==> queue[k] == OfTask(s.queue[k])
    }

    /** Every fiber of the machine that has not finished has an object of its own, in the same state. */
    ghost predicate SameFibers(s: R.State)
      reads this, fibers.Values
    {
      && (forall f :: f in fibers ==> f in s.fibers && fibers[f].state == s.fibers[f].state)
      && (forall f :: f in s.fibers && !s.fibers[f].state.Term? ==> f in fibers)
      && (forall f, g :: f in fibers && g in fibers && fibers[f] == fibers[g] ==> f == g)
    }

    ghost predicate Reflects(s: R.State)
      reads this, fibers.Values
    {
      SameQueue(tasks, s) && SameFibers(s) && activeThreadCount == s.active && stopping == s.stopping
    }

    /** The thread is in the fiber that the machine has it execute. */
    ghost predicate OnThread(t: ThreadLocals, s: R.State)
      reads this, t
    {
      if R.Executes(s, t.thread) then R.Current(s, t.thread) in fibers && t.current == fibers[R.Current(s, t.thread)]
      else t.current == null
    }

    lemma EligibleIs(s: R.State, x: R.Task, self: nat)
      requires SameFibers(s)
      ensures MayRun(OfTask(x), self) <==> R.Eligible(s, self, x)
    {}

    /** What PickTask takes is what the machine's Pick step takes. */
    lemma PicksLikeTheMachine(s: R.State, before: seq<ScheduleTask>, i: nat, task: ScheduleTask, tickleMe: bool,
            self: nat)
      requires SameQueue(before, s) && SameFibers(s) && Picks(before, i, task, tickleMe, self) && R.Shaped(s)
      ensures i == R.FirstEligible(s, self, 0) && task == OfTask(s.queue[i]) && s.queue[i] in s.queue
      ensures SameQueue(tasks, R.PickAt(s, self, i)) && SameFibers(R.PickAt(s, self, i))
    {
      FirstIs(s, before, i, self);
      assert s.queue[i] in s.queue;
      hide MayRun, R.Eligible, R.FirstEligible, SameFibers, R.PickAt;
      PickedFibers(s, i, self);
      PickedQueue(s, before, i, self);
    }

    lemma PickedQueue(s: R.State, before: seq<ScheduleTask>, i: nat, self: nat)
      requires SameQueue(before, s) && i < |before| && s.queue[i].id < |s.places|
      ensures SameQueue(before[..i] + before[i + 1..], R.PickAt(s, self, i))
    {}

    lemma PickedFibers(s: R.State, i: nat, self: nat)
      requires SameFibers(s) && i < |s.queue| && s.queue[i].id < |s.places|
      ensures SameFibers(R.PickAt(s, self, i))
    {}

    lemma FirstIs(s: R.State, before: seq<ScheduleTask>, i: nat, self: nat)
      requires SameQueue(before, s) && SameFibers(s) && i < |before|
      requires MayRun(before[i], self) && forall j :: 0 <= j < i ==> !MayRun(before[j], self)
      ensures i == R.FirstEligible(s, self, 0)
    {
      forall k | 0 <= k < |before| ensures MayRun(before[k], self) <==> R.Eligible(s, self, s.queue[k]) {
        EligibleIs(s, s.queue[k], self);
      }
      hide MayRun, R.Eligible, SameFibers;
      assert R.FirstEligible(s, self, 0) <= i;
    }

    /** And when it takes nothing, the machine's Pick step cannot happen. */
    lemma NothingToPick(s: R.State, self: nat)
      requires Reflects(s) && forall x :: x in tasks ==> !MayRun(x, self)
      ensures R.FirstEligible(s, self, 0) == |s.queue|
    {
      forall k | 0 <= k < |s.queue| ensures !R.Eligible(s, self, s.queue[k]) {
        assert tasks[k] == OfTask(s.queue[k]) && tasks[k] in tasks;
        EligibleIs(s, s.queue[k], self);
      }
    }

    /** The object takes the machine's Pick step, or, when the machine has none, none. */
    method TakeTask(self: nat, ghost s: R.State) returns (task: Option<ScheduleTask>, tickleMe: bool)
      requires Reflects(s) && R.Shaped(s)
      modifies `tasks, `activeThreadCount
      ensures task.Some? <==> R.FirstEligible(s, self, 0) < |s.queue|
      ensures task == None ==> Reflects(s)
      ensures task.Some? ==> task == Some(OfTask(s.queue[R.FirstEligible(s, self, 0)]))
      ensures task.Some? ==> s.queue[R.FirstEligible(s, self, 0)] in s.queue
      ensures task.Some? ==> Reflects(R.PickAt(s, self, R.FirstEligible(s, self, 0)))
    {
      ghost var before := tasks;
      task, tickleMe := PickTask(self);
      if task == None {
        NothingToPick(s, self);
      } else {
        ghost var i :| Picks(before, i, task.value, tickleMe, self);
        PicksLikeTheMachine(s, before, i, task.value, tickleMe, self);
      }
    }

    /** run resumes the fiber of the task it took. The machine's invariant gives what resume asserts. */
    method EnterFiber(f: nat, t: ThreadLocals, ghost s: R.State)
      requires Reflects(s) && OnThread(t, s) && P.Reachable(s) && f in fibers && R.Enabled(s, R.Resume(t.thread, f))
      modifies fibers.Values, t`current
      ensures Reflects(R.ResumeOn(s, t.thread, f)) && OnThread(t, R.ResumeOn(s, t.thread, f))
    {
      P.ResumeIsSafe(s, t.thread, f);
      fibers[f].Resume(t);
    }

    /** run makes a fiber, with a new number, for the callback it took, and resumes it. */
    method EnterCallback(cb: nat, f: nat, t: ThreadLocals, ghost s: R.State)
      requires Reflects(s) && OnThread(t, s) && f !in s.fibers && R.Enabled(s, R.Resume(t.thread, f))
      modifies `fibers, t`current
      ensures Reflects(R.ResumeOn(s, t.thread, f)) && OnThread(t, R.ResumeOn(s, t.thread, f))
      ensures fresh(fibers[f]) && fibers == old(fibers)[f := fibers[f]] && fibers[f].cb == Some(cb)
    {
      var c := new Fiber(cb);
      c.Resume(t);
      fibers := fibers[f := c];
    }

    /** The fiber that runs on a thread yields. */
    method YieldOn(t: ThreadLocals, ghost s: R.State)
      requires Reflects(s) && OnThread(t, s) && P.Reachable(s) && R.Executes(s, t.thread)
      modifies fibers.Values, t`current
      ensures R.Current(s, t.thread) in s.fibers
      ensures Reflects(R.Leave(s, t.thread, R.Ready)) && OnThread(t, R.Leave(s, t.thread, R.Ready))
    {
      P.ReachableInv(s);
      I.ActingFiber(s, t.thread);
      t.current.Yield(t);
    }

    /** The callback of the fiber that runs on a thread has returned. */
    method CompleteOn(t: ThreadLocals, ghost s: R.State)
      requires Reflects(s) && OnThread(t, s) && P.Reachable(s) && R.Executes(s, t.thread)
      modifies fibers.Values, t`current
      ensures R.Current(s, t.thread) in s.fibers
      ensures Reflects(R.Leave(s, t.thread, R.Term)) && OnThread(t, R.Leave(s, t.thread, R.Term))
    {
      P.ReachableInv(s);
      I.ActingFiber(s, t.thread);
      t.current.Complete(t);
    }

    /** A slice ends: resume has returned. */
    method Release(t: nat, ghost s: R.State)
      requires Reflects(s) && R.Shaped(s) && t in s.hands
      modifies `activeThreadCount
      ensures Reflects(R.Released(s, t))
    {
      activeThreadCount := activeThreadCount - 1;
    }

    /** A finished fiber is reset and scheduled: to the machine it is a new fiber. */
    method Reuse(f: nat, n: nat, cb: nat, on: Option<nat>, ghost s: R.State)
      requires Reflects(s) && f in fibers && fibers[f].state == R.Term && n !in s.fibers
      modifies `fibers, `tasks, fibers[f]
      ensures Reflects(R.PushFiber(s, n, on, false)) && R.Enabled(s, R.PostFiber(n, on))
      ensures fibers == (old(fibers) - {f})[n := old(fibers)[f]] && fibers[n].cb == Some(cb)
    {
      var c := fibers[f];
      c.Reset(cb);
      fibers := (fibers - {f})[n := c];
      var needTickle := ScheduleNoLock(Some(FiberWork(n)), if on.Some? then on.value else -1);
    }

    /** Scheduler::stopping(): what it says of the machine's state. */
    method Stopping(ghost s: R.State) returns (r: bool)
      requires Reflects(s)
      ensures r <==> P.Stopping(s)
      ensures r && P.Reachable(s) ==> forall id: nat :: id < |s.places| ==> s.places[id] == R.Done
    {
      r := stopping && tasks == [] && activeThreadCount == 0;
      if r && P.Reachable(s) { P.StoppingMeansDone(s); }
    }
  }

  class FdContext {
    const fd: nat
    var events: Mask
    var read: Option<Work>
    var write: Option<Work>

    constructor (fd: nat)
      ensures this.fd == fd && Record() == NoEvents
    {
      this.fd := fd;
      this.events := NONE;
      this.read := None;
      this.write := None;
    }

    function Record(): FdRecord
      reads this
    {
      FdRecord(events, read, write)
    }

    /** getEventContext, for assignment */
    method SetEventContext(e: Event, w: Option<Work>)
      modifies this
      ensures Record() == SetSlot(old(Record()), e, w)
    {
      match e
      case Read => read := w;
      case Write => write := w;
    }

    /** The event is no longer watched, and who waited for it is scheduled. */
    method TriggerEvent(e: Event, tasks: Scheduler)
      requires Has(events, e)
      modifies this, tasks`tasks
      ensures Record() == SetSlot(old(Record()).(events := Without(old(events), e)), e, None)
      ensures tasks.tasks == old(tasks.tasks) + ToTasks(Waiter(old(Record()), e))
    {
      events := Without(events, e);
      var w := Slot(Record(), e);
      var needTickle := tasks.ScheduleNoLock(w, -1);
      SetEventContext(e, None);
    }
  }

  lemma ToTasksAppend(a: seq<Work>, b: seq<Work>)
    ensures ToTasks(a + b) == ToTasks(a) + ToTasks(b)
  {
    if a == [] {
      assert a + b == b;
    } else {
      ToTasksAppend(a[1..], b);
      assert (a + b)[1..] == a[1..] + b;
    }
  }

  class IoManager {
    var fdContexts: seq<FdContext>
    var interest: map<nat, Mask>
    var pendingEventCount: int
    const tasks: Scheduler

    /** The context of a descriptor is at its index. */
    ghost predicate Indexed()
      reads this, fdContexts
    {
      |fdContexts| >= 32 && forall i :: 0 <= i < |fdContexts| ==> fdContexts[i].fd == i
    }

    ghost function Records(): (r: seq<FdRecord>)
      reads this, fdContexts
      ensures |r| == |fdContexts| && forall i :: 0 <= i < |r| ==> r[i] == fdContexts[i].Record()
    {
      seq(|fdContexts|, i requires 0 <= i < |fdContexts| reads this, fdContexts => fdContexts[i].Record())
    }

    ghost function View(): Io
      reads this, fdContexts
    {
      Io(Records(), interest, pendingEventCount)
    }

    constructor ()
      ensures Indexed() && Valid(View()) && fresh(tasks) && tasks.tasks == []
    {
      fdContexts, interest, pendingEventCount := [], map[], 0;
      tasks := new Scheduler();
      new;
      ContextResize(32);
      EmptyIsValid(Records());
      hide Valid;
    }

    /** New contexts behind the old ones. */
    method ContextResize(size: nat)
      requires size >= 32 && size >= |fdContexts|
      requires forall i :: 0 <= i < |fdContexts| ==> fdContexts[i].fd == i
      modifies `fdContexts
      ensures Indexed() && |fdContexts| == size && old(fdContexts) <= fdContexts
      ensures fresh(set i | |old(fdContexts)| <= i < |fdContexts| :: fdContexts[i])
      ensures forall i :: |old(fdContexts)| <= i < size ==> fdContexts[i].Record() == NoEvents
    {
      while |fdContexts| < size
        invariant |old(fdContexts)| <= |fdContexts| <= size && old(fdContexts) <= fdContexts
        invariant forall i :: 0 <= i < |fdContexts| ==> fdContexts[i].fd == i
        invariant forall i :: |old(fdContexts)| <= i < |fdContexts| ==>
          fresh(fdContexts[i]) && fdContexts[i].Record() == NoEvents
        decreases size - |fdContexts|
      {
        var c := new FdContext(|fdContexts|);
        fdContexts := fdContexts + [c];
      }
    }

    /** epoll_ctl: 0 and the new interest set, or -1 and no change. */
    method EpollControl(op: EpollOp, fd: nat, m: Mask, refused: bool) returns (rt: int)
      modifies `interest
      ensures match EpollCtl(old(interest), op, fd, m, refused)
        case None => rt == -1 && interest == old(interest)
        case Some(i) => rt == 0 && interest == i
    {
      match EpollCtl(interest, op, fd, m, refused)
      case None => rt := -1;
      case Some(i) =>
        interest := i;
        rt := 0;
    }

    /** The context of fd, allocated if the table is too short. */
    method Context(fd: nat) returns (c: FdContext)
      requires Indexed()
      modifies `fdContexts
      ensures Indexed() && fd < |fdContexts| && c == fdContexts[fd]
      ensures Records() == Grow(old(Records()), fd)
      ensures fresh((set x | x in fdContexts) - (set x | x in old(fdContexts)))
    {
      if fd >= |fdContexts| {
        ContextResize(fd + fd / 2);
      }
      c := fdContexts[fd];
      assert Records() == Grow(old(Records()), fd);
    }

    /** addEvent with the callback, or the current fiber, as `w`. */
    method AddEvent(fd: nat, e: Event, w: Work, refused: bool) returns (rt: int)
      requires Indexed() && (fd < |fdContexts| ==> !Has(fdContexts[fd].events, e))
      modifies this, fdContexts
      ensures Indexed() && tasks.tasks == old(tasks.tasks)
      ensures var r := EventSpec.AddEvent(old(View()), fd, e, w, refused);
        View() == r.io && rt == (if r.ok then 0 else -1)
    {
      hide Grow, EpollCtl;
      var c := Context(fd);
      var op := if c.events == NONE then Add else Mod;
      var epevents := With(c.events, e);
      rt := EpollControl(op, fd, epevents, refused);
      if rt != 0 {
        return;
      }
      pendingEventCount := pendingEventCount + 1;
      c.events := With(c.events, e);
      c.SetEventContext(e, Some(w));
    }

    /** delEvent */
    method DelEvent(fd: nat, e: Event, refused: bool) returns (ok: bool)
      requires Indexed()
      modifies this, fdContexts
      ensures Indexed() && tasks.tasks == old(tasks.tasks)
      ensures var r := EventSpec.DelEvent(old(View()), fd, e, refused);
        View() == r.io && ok == r.ok
    {
      if |fdContexts| <= fd {
        return false;
      }
      var c := fdContexts[fd];
      if !Has(c.events, e) {
        return false;
      }
      var left := Without(c.events, e);
      var rt := EpollControl(if left != NONE then Mod else Del, fd, left, refused);
      if rt != 0 {
        return false;
      }
      pendingEventCount := pendingEventCount - 1;
      c.events := left;
      c.SetEventContext(e, None);
      return true;
    }

    /** cancelEvent */
    method CancelEvent(fd: nat, e: Event, refused: bool) returns (ok: bool)
      requires Indexed()
      modifies this, fdContexts, tasks`tasks
      ensures Indexed()
      ensures var r := EventSpec.CancelEvent(old(View()), fd, e, refused);
        View() == r.io && ok == r.ok && tasks.tasks == old(tasks.tasks) + ToTasks(r.woken)
    {
      if |fdContexts| <= fd {
        return false;
      }
      var c := fdContexts[fd];
      if !Has(c.events, e) {
        return false;
      }
      var left := Without(c.events, e);
      var rt := EpollControl(if left != NONE then Mod else Del, fd, left, refused);
      if rt != 0 {
        return false;
      }
      c.TriggerEvent(e, tasks);
      pendingEventCount := pendingEventCount - 1;
      return true;
    }

    /** What the registered events of a context have become, one by one, when those of `m` are triggered. */
    method TriggerAll(fd: nat, m: Mask)
      requires Indexed() && fd < |fdContexts| && Within(m, fdContexts[fd].events)
      modifies `pendingEventCount, fdContexts[fd], tasks`tasks
      ensures Indexed() && Records() == ClearAll(old(Records()), fd, m)
      ensures pendingEventCount == old(pendingEventCount) - Bits(m)
      ensures tasks.tasks == old(tasks.tasks) + ToTasks(Waiters(old(Records())[fd], m))
    {
      var c := fdContexts[fd];
      ghost var was := Records();
      ghost var ws := Waiter(c.Record(), Read);
      if m.read {
        c.TriggerEvent(Read, tasks);
        pendingEventCount := pendingEventCount - 1;
        assert Records() == Clear(was, fd, Read);
      }
      assert m.read || Records() == was;
      ghost var mid := tasks.tasks;
      if m.write {
        c.TriggerEvent(Write, tasks);
        pendingEventCount := pendingEventCount - 1;
      }
      assert Records() == ClearAll(was, fd, m);
      ToTasksAppend(if m.read then Waiter(was[fd], Read) else [], if m.write then Waiter(was[fd], Write) else []);
    }

    /** cancelAll: everything registered on the descriptor is triggered. */
    method CancelAll(fd: nat, refused: bool) returns (ok: bool)
      requires Indexed()
      modifies this, fdContexts, tasks`tasks
      ensures Indexed()
      ensures var r := EventSpec.CancelAll(old(View()), fd, refused);
        View() == r.io && ok == r.ok && tasks.tasks == old(tasks.tasks) + ToTasks(r.woken)
    {
      if |fdContexts| <= fd {
        return false;
      }
      var c := fdContexts[fd];
      if c.events == NONE {
        return false;
      }
      var rt := EpollControl(Del, fd, NONE, refused);
      if rt != 0 {
        return false;
      }
      TriggerAll(fd, c.events);
      assert c.events == NONE;
      return true;
    }

    /** One turn of idle's loop over epoll's reports, for a report that does not trip the assertion in
        triggerEvent. */
    method HandleReport(fd: nat, reported: Mask, broken: bool, refused: bool)
      requires Indexed() && fd < |fdContexts|
      requires Report(View(), fd, reported, broken, refused).Some?
      modifies this, fdContexts, tasks`tasks
      ensures Indexed()
      ensures var r := Report(old(View()), fd, reported, broken, refused).value;
        View() == r.io && tasks.tasks == old(tasks.tasks) + ToTasks(r.woken)
    {
      var c := fdContexts[fd];
      var hit := reported;
      if broken {
        hit := Union(hit, c.events);
      }
      if Common(c.events, hit) == NONE {
        return;
      }
      var left := Minus(c.events, hit);
      var rt := EpollControl(if left != NONE then Mod else Del, fd, left, refused);
      if rt != 0 {
        return;
      }
      TriggerAll(fd, hit);
    }
  }
}
